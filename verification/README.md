# Verified model of the voting service daemon

This project models the parts of the monetarium-vsp daemon in which state is shared, shrunk in
place, bounded or incremental, and proves what those parts are relied on for.

The daemon keeps one record per ticket in a bolt database. Web handlers read a record early and
write the whole record back later; a background loop does the same once per block. A scanner looks
through block filters for the transactions that spend tickets. Vote changes are kept in a bounded
log that also serves as replay protection. Fee addresses come from a counter that lives in memory
and in the database. Voting wallets are reconciled with the database through a map that copied
ticket structs share. Old databases are brought up to date by a chain of four upgrades.

| module | models |
|---|---|
| `Encoding` | the byte codecs |
| `Tickets` | the ticket bucket, its filters and counts |
| `Scanner` | the search for spent tickets, with slices shrunk in place |
| `Outcomes` | recording outcomes incrementally, and scanning over whole runs |
| `Lifecycle` | every handler and background step as a function from the record read to the records written |
| `Interleavings` | those steps with snapshots of any age |
| `StaleWrites` | what exactly a write from an old snapshot leaves of a ticket |
| `Atomic` | those steps one after another |
| `Choices` | stored vote choices as a replay of requests |
| `VoteLog`, `ReplayCheck` | the bounded log and the timestamp check built on it |
| `FeeAddresses`, `Allocation` | xpub history, counter, and the two over crashes and restarts; the allocator beside the stored records |
| `Wallets`, `Heights` | wallet reconciliation, and why it covers every votable ticket |
| `Handlers` | the three ticket handlers as the code performs them, field by field |
| `ReplayRuns`, `Overlaps` | replay protection over runs of the handlers, one request after another and overlapping |
| `UpdateLoop` | the background loops as the code performs them |
| `Startup` | the integrity check at startup, on old databases and good ones |
| `Daemon` | database, wallets, scan cursor and chain together |
| `Service` | update, the integrity check and the wallet check as transitions of `Daemon` |
| `Migration` | the schema upgrades |

The imperative parts are classes and methods with loops, each proved against a specification
function; the properties of those functions are lemmas. What a method does to a record, a wallet or
a bucket is also stated on the data itself, field by field and input by input, and the lemmas named
`...Means` say the same of the specification functions. `Handlers` and `UpdateLoop` prove that the
code's sequences of assignments and writes perform exactly the steps of `Lifecycle`, so that what
`Interleavings`, `Atomic` and `Choices` prove of all runs of steps is about that code. `Daemon` puts
those steps, the loops, the wallet check, the scans and restarts on one state, and `Service` proves
that the methods the daemon runs at startup and once per block are runs of that state.
`dafny verify dfyconfig.toml` checks everything.

The node, the wallets, decoding, signatures and the clock are parameters: functions, sets of
failing calls, or values in an event. Go strings and the bytes they hold are identified. Integers
are `uint32` and `int64` where the source stores them; counters and heights computed on the way are
unbounded.

## Where the code does less than one might expect

* `setVoteChoices` compares the timestamp with the log when the request comes in and adds to the log
  when it is done; `payFee` adds to it without looking at its timestamp. No lock covers the two.
  Timestamps on record stay strictly increasing if and only if no request is overtaken: each payment
  is newer than the records in the log when its own is saved, and each choice newer than what was
  saved after it read the log (`Overlaps.OverlapsInOrderIff`). Two inputs that break it: the same
  choice submitted twice at the same time is recorded twice
  (`Overlaps.SameRequestTwiceIsRecordedTwice`), and payments that push newer records out of the log let
  a choice be replayed even if requests never overlap (`ReplayRuns.ReplayPassesTheGuards`, which takes
  the replay through all guards of both handlers, for every limit). For requests that do not overlap
  the condition is about payments alone: `ReplayRuns.HandlersInOrderIff`.
* A handler that read a ticket before its confirmation takes the confirmation back when it writes
  (`Interleavings.StaleWriteUndoesConfirmation`), and one that read it before its fee was confirmed
  un-pays a ticket that wallets already have (`StaleWrites.StaleWriteUnpaysWalletTicket`). What is true
  of a ticket stays true if and only if every step that writes to it read a record that shows it, or has
  just learned it: `StaleWrites.StaysTrueIffVouched`, and for wallet safety
  `StaleWrites.WalletSafetyIffVouched`. The history properties of `Atomic` are stated for steps that
  are not interrupted.
* A ticket whose fee confirms after the ticket was already spent below the scan cursor keeps voting
  status until a restart: `Outcomes.LateTicketIsMissed`; `Outcomes.ScanRightIff` is the exact condition.
* The missed filter does not look at the fee status while the missed count does; they agree exactly
  when no unpaid ticket is missed (`Tickets.MissedCountAgrees`), which every reachable state satisfies.
* With a limit of zero the vote-change log still keeps one record (`VoteLog.Kept`).
* The comment on `InsertNewTicket` says that an existing fee address is an error. The code only checks
  the hash; that stored tickets nevertheless have distinct addresses is
  `Allocation.StoredTicketsHaveTheirOwnPair`.
* The wallet check asks wallets for tickets from the least recorded purchase height on. A votable
  ticket mined below that height is added to wallets, but its choices are not set:
  `Wallets.UnrecordedHeightIsPassedOver` shows one, and `Wallets.ChoicesAgreeIff` says exactly when a
  wallet ends with all choices. It takes a record without its height, as old databases have; where
  records are good to begin with none ever arises, and the check converges without exception:
  `Heights.ReachablePassConverges`.
* For the same reason the startup check has nothing to do in a database of good records
  (`Heights.FixHeightIsIdle`, `Startup.GoodDatabaseIsLeftAlone`). In an old one it repairs everything
  provided the node knows every ticket and no write fails (`Startup.OldDatabaseIsRepaired`).
* The upgrade table has no entry for version 0.

## Model

| member | source | states |
|---|---|---|
| Encoding.LittleEndianRoundTrip | database/encoding.go:41-59 | decoding what was encoded in n little-endian bytes gives the number back |
| Encoding.LittleEndianOnto | database/encoding.go:41-59 | every n bytes are the encoding of the number they decode to |
| Encoding.Uint32RoundTrip | database/encoding.go:51-59 | uint32 and 4 bytes are in bijection |
| Encoding.Int64RoundTrip | database/encoding.go:41-49 | int64, negative values included, and 8 bytes are in bijection |
| Encoding.Uint32Value | database/encoding.go:51-59 | four bytes are read least significant first |
| Encoding.Int64Value | database/encoding.go:41-49 | eight bytes are read least significant first, as two's complement |
| Encoding.BoolRoundTrip | database/encoding.go:61-71 | true is the byte 1, false the byte 0, and both read back |
| Tickets.RecordRoundTrip | database/ticket.go:157-248 | reading a record back from any bucket it was put over gives the record with nil maps empty |
| Tickets.OverwriteLeavesNothing | database/ticket.go:157-209 | overwriting an older record leaves none of its cells behind |
| Tickets.StatusTextRoundTrip | database/ticket.go:16-47 | the stored texts of fee statuses and outcomes are pairwise distinct |
| Tickets.StoredTexts | database/ticket.go:16-47 | the ten texts that databases hold |
| Tickets.WriteRefinesMapUpdate | database/ticket.go:263-275 | writing cells is, on records, a map update with the normalised ticket |
| Tickets.EarliestPurchaseHeight | database/ticket.go:108-120 | the least non-zero purchase height, or zero when there is none |
| Tickets.WriteThenRead | database/ticket.go:263-299 | reading a hash after a write gives the ticket written under it, normalised, and otherwise what it gave before |
| Tickets.TicketStore.GetTicketByHash | database/ticket.go:277-299 | finds exactly the stored hashes, each with its own normalised record |
| Tickets.TicketStore.InsertNewTicket | database/ticket.go:135-153 | fails exactly when the hash is known or the write is refused; otherwise adds that record only |
| Tickets.TicketStore.UpdateTicket | database/ticket.go:263-275 | fails exactly when the hash is unknown or the write is refused; otherwise replaces that record only |
| Tickets.TicketStore.DeleteTicket | database/ticket.go:250-261 | removes exactly that record |
| Tickets.TicketStore.FilterTickets | database/ticket.go:410-431 | exactly the matching records, each once |
| Tickets.ListLength | database/ticket.go:349-431 | a filter lists as many tickets as match it |
| Tickets.TicketStore.CountTickets | database/ticket.go:315-346 | the four counts are the numbers of fee-confirmed tickets without outcome, voted, expired or revoked, and missed |
| Tickets.CountsSum | database/ticket.go:315-346 | the four counts sum to the number of fee-confirmed tickets |
| Tickets.MissedCountAgrees | database/ticket.go:315-346 | missed count equals missed filter iff no unpaid ticket is missed |
| Tickets.RecordingConserves | internal/vspm/update.go:323-349 | an outcome takes a ticket from the voting count to exactly one other; the sum stays |
| Scanner.FirstSpendFacts | internal/vspm/spentticket.go:115-183 | the specified spend is at the first height of the range, and there the first transaction, that has the ticket as an input; there is none exactly if no transaction of the range has |
| Scanner.RemovedPermutes | internal/vspm/spentticket.go:206-214 | overwriting by the last and shortening loses exactly the removed element |
| Scanner.NonOrderPreservingRemove | internal/vspm/spentticket.go:211-214 | the in-place removal leaves the shortened slice of the specification |
| Scanner.TxSpendsTicket | internal/vspm/spentticket.go:196-204 | true iff some input spends output 0 of the ticket |
| Scanner.RemovedKeepsLockstep | internal/vspm/spentticket.go:171-177 | removing the same index from both slices keeps tickets and scripts paired |
| Scanner.RemovalStep | internal/vspm/spentticket.go:151-182 | found plus remaining stays a permutation of the input as a spent ticket is moved over |
| Scanner.SearchBlock | internal/vspm/spentticket.go:155-182 | the first transaction of the block that has the ticket as an input, or none if none has |
| Scanner.ScanBlock | internal/vspm/spentticket.go:151-183 | every remaining ticket is examined despite the repeated index, the loop ends, and no ticket the block spends remains |
| Scanner.PrepareSlices | internal/vspm/spentticket.go:95-113 | two slices in lockstep, or failure exactly when some ticket does not decode |
| Scanner.DecodableMeans | internal/vspm/spentticket.go:95-113 | a list decodes iff each ticket's hash and commitment address do |
| Scanner.SkipIsSound | internal/vspm/spentticket.go:141-144 | a block whose filter matches no remaining script spends no remaining ticket |
| Scanner.FindSpentTickets | internal/vspm/spentticket.go:68-191 | per entry: a listed ticket, its expiry height, and the first transaction of the range that has it as an input, with its height; per listed ticket without entry: no transaction of the range has; at most one entry each; all despite filter skips, removals and early exit; it fails only on a bad range, a bad ticket, or a call that fails within the range |
| Scanner.EntriesAreFirstSpends | internal/vspm/spentticket.go:68-191 | any permutation of the naive scan is such a list |
| Scanner.RemovedScan | internal/vspm/spentticket.go:173-174 | a removed ticket takes exactly its own entry out of what is left to find |
| Outcomes.ExpiredWindow | internal/vspm/spentticket.go:26-59 | a revocation counts as expiry in exactly two blocks |
| Outcomes.OutcomeMeans | internal/vspm/spentticket.go:26-59 | a scan's outcome on the chain alone: empty if no transaction has the ticket as an input, otherwise by the first that has: voted if a vote, expired in the two blocks after purchase height, maturity and expiry, missed in any other |
| Outcomes.FateIsUnique | internal/vspm/spentticket.go:26-59 | there is one such outcome |
| Outcomes.ScanRightIffUnspentBelow | internal/vspm/update.go:285-310 | a scan from some height is right for a ticket iff it was not spent below that height |
| Outcomes.FirstSpendStable | internal/vspm/spentticket.go:115-183 | the first spender found stays the first spender as the chain grows |
| Outcomes.StartHeightFacts | internal/vspm/update.go:285-308 | the first start height covers every votable ticket that has a height |
| Outcomes.Vspm.SetOutcomes | internal/vspm/update.go:271-350 | each changed record is of a paid ticket without outcome, and has the fate that ticket met on the chain from the start height on; if nothing failed, every paid ticket left without outcome is unspent from there on; the exact start height, where the cursor ends, when a scan must happen; a Scan step of the run model |
| Outcomes.ScanIsDue | internal/vspm/update.go:275-310 | when a scan must go through |
| Outcomes.Vspm.RecordScan | internal/vspm/update.go:321-349 | the cursor moves to the best block; changed records have the fate their ticket met, and none that met one is left out but for failed writes and cancellation |
| Outcomes.Vspm.StartHeight | internal/vspm/update.go:285-308 | the cursor, or the least maturity of a votable ticket with a height; whether to go on, exactly |
| Outcomes.Vspm.RecordOutcomes | internal/vspm/update.go:323-349 | writes each entry's classification to its own record |
| Outcomes.Vspm.CheckRevoked | internal/vspm/databaseintegrity.go:77-134 | scans from the least maturity of a revoked ticket; when it must succeed; each changed record was revoked and is missed or expired as its ticket met it on the chain; a ticket left revoked voted, is unspent, or refused its write |
| Outcomes.CheckIsDue | internal/vspm/databaseintegrity.go:79-104 | when the startup check must go through |
| Outcomes.Vspm.FixRevoked | internal/vspm/databaseintegrity.go:109-127 | each entry that is a revocation is written as missed or expired |
| Outcomes.CheckGivesFullOutcome | internal/vspm/databaseintegrity.go:96-127 | after the check a revoked ticket has its full-scan outcome if that is missed or expired |
| Outcomes.CorrectedMeans | internal/vspm/databaseintegrity.go:109-127 | the same, on the chain alone |
| Outcomes.ScanBringsUpToDate | internal/vspm/update.go:271-350 | after a scan every fee-confirmed ticket has its full-scan outcome: it is true to the whole chain |
| Outcomes.FullOutcomeMeans | internal/vspm/spentticket.go:26-59 | having the full-scan outcome is being true to the chain: unspent on it, or spent first by a vote, by a revocation in the expiry window, or by another, as the record says |
| Outcomes.IncrementalEqualsFull | internal/vspm/update.go:271-350 | over any run of new blocks, tickets joining and leaving, restarts and scans, incremental scanning equals scanning the whole chain |
| Outcomes.ScanRightIff | internal/vspm/update.go:306-308 | an incremental scan is right for a votable ticket iff the ticket was not spent below the cursor |
| Outcomes.LateTicketIsMissed | internal/vspm/update.go:306-308 | a ticket whose fee confirms too late: its vote is not recorded |
| Lifecycle.StepKeepsRecords | internal/webapi/payfee.go:52-287 | whatever good record a step read, what it writes is good: status, confirmation, key, hex, outcome and fee sufficiency |
| Lifecycle.PayFeeKeepsRecord | internal/webapi/payfee.go:156-240 | an accepted fee pays at least the amount in the same record to the address in the same record |
| Lifecycle.AcceptedFeeMeans | internal/webapi/payfee.go:136-183 | a fee transaction is accepted iff it is sane and its first output to the script of the ticket's fee address holds something and at least the fee |
| Lifecycle.ChoicesStepMeans | internal/webapi/setvotechoices.go:29-135 | a setVoteChoices step writes iff a fee was received, the ticket has no outcome, the request is well formed and new, and all three maps are valid; what it writes, map by map |
| Lifecycle.FeeAddressKeepsRecord | internal/webapi/getfeeaddress.go:96-207 | re-quoting happens only while no fee counts, so no accepted fee becomes insufficient |
| Lifecycle.WalletStepKeepsRecord | internal/vspm/update.go:177-243 | confirming a fee drops its hex and keeps it sufficient; removing agendas keeps the record good |
| Interleavings.NextKeepsInv | internal/webapi/middleware.go:429-429 | one write based on a snapshot of any age keeps all records good |
| Interleavings.RecordsStayGood | cmd/vspm/main.go:157-169 | record invariant and fee sufficiency under any interleaving of handlers and the update loop with old snapshots |
| Interleavings.FeesAreReallyThere | internal/webapi/payfee.go:156-240 | under any interleaving, for each ticket with a received, broadcast or confirmed fee some transaction with the recorded hash pays at least the recorded amount in its first output to the script of the recorded address |
| Interleavings.MergeNeverPanics | internal/webapi/setvotechoices.go:125-135 | no record a handler can have read has a nil map |
| Interleavings.CountsAgreeWithFilters | database/ticket.go:315-406 | in every reachable state the missed count is the size of the missed filter |
| Interleavings.StaleWriteUndoesConfirmation | internal/webapi/setvotechoices.go:125-137 | for every unconfirmed ticket with a received fee, a stale write can take a confirmation back |
| StaleWrites.WriteKeepsIff | internal/webapi/middleware.go:429-429 | for every step and any snapshot: after its write the ticket is confirmed, paid under its key, or has its outcome iff the step vouches for it |
| StaleWrites.StaysTrueIffVouched | cmd/vspm/main.go:157-169 | over any interleaving a fact stays true iff every step that writes to the ticket vouches for it |
| StaleWrites.WalletSafetyIffVouched | internal/vspm/update.go:193-223 | over any interleaving, tickets sent to wallets stay stored, paid and under their key iff every step that writes to them vouches for that |
| StaleWrites.StaleWriteUnpaysWalletTicket | internal/webapi/setvotechoices.go:125-137 | for every ticket with a broadcast fee: sent to wallets, then un-paid by a handler that read it before |
| Heights.HeightsStayRecorded | internal/vspm/update.go:103-107 | over any interleaving every confirmed record has the height of its block |
| Heights.VotableTicketsAreListed | internal/vspm/walletconsistency.go:49-60 | in every reachable state wallets are asked for every votable ticket |
| Heights.ReachablePassConverges | internal/vspm/walletconsistency.go:53-184 | in every reachable state an undisturbed pass leaves every wallet with every votable ticket and every choice still stored |
| Heights.FixHeightIsIdle | internal/vspm/databaseintegrity.go:33-73 | no good record lacks a height |
| Atomic.EveryStepIsOrdered | internal/vspm/update.go:56-204 | in every reachable state a step changes a record only in the allowed order of status and outcome, keeps its identity, and removes only unconfirmed tickets |
| Atomic.StepEffect | internal/webapi/payfee.go:52-287 | a step, cut short after any write, changes its own record only, in the allowed order |
| Atomic.WalletStepEffect | internal/vspm/update.go:177-243 | a wallet step confirms the fee before a wallet hears of the ticket, and removes exactly the dropped agendas |
| Atomic.ConfirmedTicketsStay | internal/vspm/update.go:65-110 | confirmation, confirmed fee and final outcome are absorbing, and a confirmed ticket is never removed, over any run |
| Atomic.WalletSafety | internal/vspm/update.go:193-223 | every ticket ever sent to a wallet is still stored, fee-confirmed, under the same voting key, over any run of uninterrupted steps |
| Choices.ReplayIsLastWord | internal/webapi/setvotechoices.go:125-135 | replaying operations gives each key the value of the last operation that mentions it |
| Choices.StepReplays | internal/webapi/payfee.go:228-238 | payFee replaces each valid map, setVoteChoices merges right-biased, an unknown agenda goes |
| Choices.StoredChoicesAreReplay | internal/webapi/setvotechoices.go:125-137 | each stored map is the replay of every operation a run performed on it |
| VoteLog.VoteChangeLog.Survey | database/votechange.go:41-57 | count and extreme keys, in whatever order the bucket hands out its little-endian keys |
| VoteLog.VoteChangeLog.SaveInBucket | database/votechange.go:39-85 | the bucket holds exactly the newest records, as many as the limit and at least one, under their serial numbers |
| VoteLog.VoteChangeLog.SaveVoteChange | database/votechange.go:28-87 | after n saves, up to 2^32, the bucket maps exactly the last N serial numbers to their records; other tickets' logs unchanged |
| VoteLog.VoteChangeLog.GetVoteChanges | database/votechange.go:91-122 | exactly the newest records, as many as the limit and at least one, under their serial numbers |
| VoteLog.WindowMoves | database/votechange.go:61-83 | deleting the oldest and putting the next key moves the window by one |
| VoteLog.KeysAreInjective | database/encoding.go:51-59 | distinct serial numbers have distinct keys |
| ReplayCheck.CheckTimestamp | internal/webapi/setvotechoices.go:75-94 | accepts iff the timestamp is newer than that of every record found |
| ReplayCheck.CheckIsAgainstRetained | internal/webapi/setvotechoices.go:67-94 | comparing with what the log returns is comparing with the retained end of everything saved |
| ReplayCheck.NewerMeans | internal/webapi/setvotechoices.go:75-94 | newer than each of the last records saved, as many as the limit and at least one |
| ReplayCheck.NewerMeansNotTooOld | internal/webapi/setvotechoices.go:75-94 | on timestamps, that is the check of the abstract server |
| ReplayCheck.InOrderIffPaymentsAreNewer | internal/webapi/setvotechoices.go:67-94 | for requests one after another, the accepted timestamps are strictly increasing iff each payment is newer than the records in the log when it arrives |
| ReplayCheck.TruncatedLogSuffices | database/votechange.go:59-66 | under that condition the truncated log makes exactly the decisions of the full history |
| ReplayCheck.OldPaymentsAllowReplay | internal/webapi/payfee.go:295-303 | without it, for every limit a choice can be accepted twice |
| ReplayCheck.InOrderIffNotOvertaken | internal/webapi/setvotechoices.go:67-191 | for requests that save later than they check, the timestamps on record are strictly increasing iff no request was overtaken in between |
| ReplayCheck.SameChoiceTwice | internal/webapi/setvotechoices.go:67-191 | two equal choices that both checked before either saved are both recorded, for every limit |
| ReplayCheck.ServeIsServeLate | internal/webapi/setvotechoices.go:67-191 | requests one after another are the case in which each has read everything saved |
| ReplayRuns.HandlersAreTheServer | internal/webapi/setvotechoices.go:67-198 | over any run of requests that do not overlap, and other steps, the handlers keep the history of the abstract server |
| ReplayRuns.HandlersInOrderIff | internal/webapi/setvotechoices.go:67-198 | for requests that do not overlap, timestamps on record stay strictly increasing iff each successful payment is newer than the records in the log when it arrives |
| ReplayRuns.ReplayPassesTheGuards | internal/webapi/payfee.go:51-303 | the replay passes every guard: a failed broadcast, a choice, payments whose transactions are lost again, and the same choice once more |
| Overlaps.OverlapsAreTheServer | internal/webapi/setvotechoices.go:67-191 | however requests for a ticket overlap, with handlers cut off anywhere and records of any age, the log has exactly what the late server accepts |
| Overlaps.OverlapsInOrderIff | internal/webapi/setvotechoices.go:67-191 | timestamps on record stay strictly increasing iff no request is overtaken between its check and its save |
| Overlaps.SameRequestTwiceIsRecordedTwice | internal/webapi/setvotechoices.go:67-191 | any acceptable choice submitted twice at once passes all guards twice and is recorded twice |
| Overlaps.ChoiceIsServedLate | internal/webapi/setvotechoices.go:67-191 | whatever others write and log meanwhile, what SetVoteChoices logs is what the late server does with a choice that read the log on entry |
| FeeAddresses.XPubStore.ActiveXPub | database/feexpub.go:51-66 | the key with the highest ID, which is not retired, in any map order |
| FeeAddresses.XPubStore.RetireXPub | database/feexpub.go:70-109 | fails exactly on a known key or refused write; otherwise exactly the key in use is retired and one with the next ID and counter zero added |
| FeeAddresses.XPubStore.KnownKey | database/feexpub.go:76-80 | true iff the key was ever used |
| FeeAddresses.XPubStore.SetLastAddressIndex | database/feexpub.go:146-157 | stores the counter of the active key and nothing else |
| FeeAddresses.RetireKeepsHistory | database/feexpub.go:70-109 | IDs stay 0..n, keys distinct, only the last in use |
| FeeAddresses.SetIndexKeepsHistory | database/feexpub.go:146-157 | likewise for storing an index |
| FeeAddresses.AddressGenerator.NextAddress | internal/webapi/addressgenerator.go:57-92 | the first valid child above the counter, giving up at the third invalid one |
| FeeAddresses.GetNewFeeAddress | internal/webapi/getfeeaddress.go:27-42 | the counter moves to the first index that gives an address, or stops at a failure or the third invalid child; an address is handed out iff there is one and its index could be stored as the last used one |
| FeeAddresses.AllocationIsStep | internal/webapi/getfeeaddress.go:27-42 | what it promises is a transition of the allocator |
| FeeAddresses.RestartReadsBack | internal/webapi/addressgenerator.go:25-50 | a crash forgets the counter in memory and every handler, and a start reads back the counter of the key in use |
| FeeAddresses.FreshPair | internal/webapi/getfeeaddress.go:27-42 | an allocation hands out a pair that was never handed out |
| FeeAddresses.NextKeepsInv | internal/webapi/getfeeaddress.go:27-42 | allocation, crash, restart, storing, rewriting, removal and retirement keep the allocator's invariant |
| FeeAddresses.AddressesAreNeverReissued | internal/webapi/addressgenerator.go:41-91 | over any run no (xpub, index) pair is handed out twice, stored indices are at most the persisted counter, and no two tickets share a pair |
| FeeAddresses.NewDatabase | database/database.go:138-148 | a new database satisfies the invariant |
| FeeAddresses.DistinctPairsDistinctAddresses | internal/webapi/addressgenerator.go:84-91 | with injective derivation distinct pairs are distinct addresses |
| Allocation.RecordKeepsInv | database/ticket.go:135-153 | a write to the record store, with a record of any age, is a transition of the allocator: an insert stores a pair that was handed out, an update keeps the pair of the record it read |
| Allocation.StoredTicketsHaveTheirOwnPair | internal/webapi/getfeeaddress.go:150-200 | over any run of allocations, crashes, retirements and record writes no two stored tickets share xpub ID and index, and each index is at most the persisted counter |
| Wallets.VotingWallets.CheckWalletConsistency | internal/vspm/walletconsistency.go:15-185 | which tickets and which height it works with; under any faults, exactly which passes it makes over which wallets and tickets, and the safety of what they change; undisturbed, the exact result on every wallet and record |
| Wallets.ReconciledMeans | internal/vspm/walletconsistency.go:60-163 | undisturbed, agenda by agenda: the wallet ends with the ticket, under its key if it did not list it, and with the stored choice iff it lists the ticket and it and all wallets before it know the agenda; otherwise with the choice it had |
| Wallets.RecordReconciledMeans | internal/vspm/walletconsistency.go:165-178 | and the record keeps a choice iff all wallets know its agenda, or wallets do not list the ticket |
| Wallets.NothingElseReconciled | internal/vspm/walletconsistency.go:53-184 | and no ticket that is not votable changes on any wallet or in the database |
| Wallets.KeysAndRescans | internal/vspm/walletconsistency.go:60-110 | and keys imported and rescans made are those for the tickets the wallet did not list, one rescan from the least of their heights |
| Wallets.VotingWallets.AddMissing | internal/vspm/walletconsistency.go:60-110 | exactly the tickets the wallet does not list are added under their keys, and one rescan starts at the least block height added |
| Wallets.VotingWallets.AddTickets | internal/vspm/walletconsistency.go:67-98 | which tickets and keys are added under faults, and that the running minimum is the minimum |
| Wallets.VotingWallets.AddTicketForVoting | rpc/monwallet.go:176-193 | key first, then transaction; a failure in between leaves the key |
| Wallets.VotingWallets.SyncWallet | internal/vspm/walletconsistency.go:122-183 | what one wallet's pass does to wallet, shared maps and records |
| Wallets.VotingWallets.SyncTicket | internal/vspm/walletconsistency.go:146-180 | the wallet gets every choice it knows, the shared map and the record lose the others |
| Wallets.VotingWallets.SyncAgenda | internal/vspm/walletconsistency.go:147-179 | one agenda: left alone, pushed, or removed from the shared map and the record |
| Wallets.HasChoice | internal/vspm/walletconsistency.go:147-152 | true iff the wallet has that choice for that agenda |
| Wallets.BothPassesAreSafe | internal/vspm/walletconsistency.go:53-184 | under any faults only votable tickets are added and only agendas unknown to some wallet are removed |
| Wallets.AddPassMeans | internal/vspm/walletconsistency.go:60-110 | under any faults, what the first pass adds to a wallet, call by call |
| Wallets.TicketPassMeans | internal/vspm/walletconsistency.go:146-180 | under any faults, what the second pass does to a listed ticket, agenda by agenda |
| Wallets.ChoicesAgreeIff | internal/vspm/walletconsistency.go:116-184 | a wallet ends with every choice still stored for a votable ticket iff wallets are asked for the ticket or the wallet had them all |
| Wallets.UnrecordedHeightIsPassedOver | internal/vspm/walletconsistency.go:49-60 | a votable record without height, mined below the others: added to the wallet, its choice not set |
| Wallets.PassConverges | internal/vspm/walletconsistency.go:53-184 | afterwards every wallet has every votable ticket; for those it is asked for, every choice still stored, and nothing removed was restored |
| Wallets.SecondPassChangesNothing | internal/vspm/walletconsistency.go:53-184 | a second pass changes no wallet and no record |
| Wallets.RecordedHeightsAreListed | database/ticket.go:108-120 | tickets recorded at their chain height are listed by wallets |
| Handlers.WebAPI.FindFeePayment | internal/webapi/payfee.go:156-164 | the value of the first output with the version and bytes of the script, or zero if there is none |
| Handlers.WebAPI.CheckFeeTx | internal/webapi/payfee.go:136-183 | accepts iff the first output to the script of the record's address holds something and at least the record's fee; which failure means what |
| Handlers.WebAPI.CheckPayFee | internal/webapi/payfee.go:45-217 | accepts iff all conditions of a payment hold; when each refusal is given, on the request and the record |
| Handlers.WebAPI.SetFeeFields | internal/webapi/payfee.go:223-240 | each field of the paid record |
| Handlers.WebAPI.ReceiveFee | internal/webapi/payfee.go:45-287 | succeeds iff every guard holds, each named; then the transaction pays the fee in an output to the record's address and the stored record has the request's key, transaction and valid choices, and the status for how far the payment came; any other refusal but a failed broadcast writes nothing |
| Handlers.WebAPI.StoreFee | internal/webapi/payfee.go:240-287 | up to two writes: received, then broadcast or error |
| Handlers.WebAPI.PayFee | internal/webapi/payfee.go:23-307 | refuses for want of a node client before anything else, then for an unknown ticket; otherwise performs exactly the payFee step, with the stored record field by field; a vote change is logged exactly on success |
| Handlers.WebAPI.MergeInto | internal/webapi/setvotechoices.go:125-135 | assigning entries one by one is the right-biased merge |
| Handlers.WebAPI.CheckChoices | internal/webapi/setvotechoices.go:29-120 | succeeds iff every guard holds, each named; when exactly each refusal is given, invalid choices and a timestamp that is not newer included |
| Handlers.WebAPI.SetVoteChoices | internal/webapi/setvotechoices.go:20-202 | succeeds only if every guard holds, each named, the timestamp being newer than every record retained when the request came in; performs exactly the setVoteChoices step on whatever others have made of the database since, leaving each map merged; adds to whatever the log holds by then, exactly on success |
| Handlers.WebAPI.SetChoiceFields | internal/webapi/setvotechoices.go:125-135 | each map of the record with the entries of the request over its own |
| Handlers.WebAPI.StoreChoices | internal/webapi/setvotechoices.go:125-198 | the merged record is written over what others wrote meanwhile, and the vote change appended to what others logged meanwhile |
| Handlers.WebAPI.FeeAddress | internal/webapi/getfeeaddress.go:70-225 | refuses for want of a node client first; otherwise performs exactly the feeAddress step; the reply's address, amount and expiration are those of the record, and each field of a new record and of a new quote is what the code puts there; an index is used up only for a new ticket; when there is a reply and when which refusal; no reply, no write |
| Handlers.WrittenKeepsRecords | internal/webapi/payfee.go:240-287 | what a handler leaves in the database is good |
| Handlers.WrittenIsAtomicStep | internal/webapi/payfee.go:240-287 | an uninterrupted handler is an atomic step |
| UpdateLoop.BatchIsRun | internal/vspm/update.go:56-269 | a background loop is a run of atomic steps, one per ticket, in any order, on the database and on what was sent to wallets |
| Lifecycle.StepConcernsItsTicket | internal/vspm/update.go:56-269 | a step on a known ticket writes only the record it read |
| UpdateLoop.Background.UpdateUnconfirmed | internal/vspm/update.go:56-116 | an unconfirmed ticket is removed iff the node does not know its transaction, and confirmed at its block height iff it has six confirmations; every other record stays |
| UpdateLoop.Background.BroadcastFees | internal/vspm/update.go:118-150 | a pending fee becomes broadcast or an error as its own transaction is sent or not; every other record stays |
| UpdateLoop.Background.AddToWallets | internal/vspm/update.go:152-269 | a broadcast fee becomes an error if its transaction is unknown, confirmed without hex at six confirmations, and stays otherwise; a wallet gets a new ticket only if its fee was confirmed and recorded so and the ticket was found, and then does unless it refuses key or transaction; fault-free, each such ticket is on every wallet with its key and each choice its record keeps, which are those whose agendas all wallets know |
| UpdateLoop.Background.CheckFeeTx | internal/vspm/update.go:177-267 | the confirmed fee is stored before any wallet is called; the writes are those of the step |
| UpdateLoop.Background.GiveTicket | internal/vspm/update.go:217-243 | what one wallet is given, and the records written meanwhile |
| UpdateLoop.Background.PushChoices | internal/vspm/update.go:226-243 | every known agenda is pushed, every unknown one removed with one write each |
| UpdateLoop.GivenToAll | internal/vspm/update.go:214-262 | fault-free, every wallet ends with the ticket, its key, and the choices all wallets up to it know |
| UpdateLoop.ConfirmedOnWallets | internal/vspm/update.go:193-243 | a ticket handed to wallets is left fee-confirmed, without hex, and without exactly the dropped agendas |
| UpdateLoop.Background.CheckPurchaseHeights | internal/vspm/databaseintegrity.go:33-73 | a confirmed record without height gets the block height of its ticket if the node knows it; every other record stays; succeeds whenever the node is up |
| UpdateLoop.OutcomesAreBatch | internal/vspm/update.go:323-349 | recording outcomes is one lifecycle step per ticket |
| UpdateLoop.ReconciliationIsBatch | internal/vspm/walletconsistency.go:165-178 | the wallet check's database writes are lifecycle steps, one per votable ticket, under any faults |
| Startup.CorrectedIsBatch | internal/vspm/databaseintegrity.go:109-127 | what checkRevoked writes is one lifecycle step per revoked ticket it handles |
| Startup.HeightsAreRepaired | internal/vspm/databaseintegrity.go:56-70 | when the node knows them all, exactly the missing heights are filled in |
| Startup.GoodDatabaseIsLeftAlone | internal/vspm/databaseintegrity.go:16-28 | on good records with right outcomes the integrity check, under any faults, changes nothing |
| Startup.OldDatabaseIsRepaired | internal/vspm/databaseintegrity.go:16-134 | records with missing heights and with outcomes that only say "revoked" become good records whose outcomes and heights scanning relies on |
| Daemon.StepIsBackground | internal/vspm/vspm.go:82-121 | a lifecycle step is a background step of the scan runs as long as tickets it newly makes fee-confirmed are admissible |
| Daemon.BatchKeeps | internal/vspm/update.go:56-269 | a background loop keeps records good and wallets safe |
| Daemon.ReconciledAreBacked | internal/vspm/walletconsistency.go:71-92 | under any faults the check adds only tickets stored as votable, with their keys |
| Daemon.NextKeepsWallets | internal/vspm/vspm.go:61-128 | each transition of the daemon, under any faults, keeps records good and every ticket on a wallet backed by a paid record |
| Daemon.WalletsHoldPaidTickets | internal/vspm/update.go:193-223 | over any run of steps and loops, wallet checks and scans under any faults, restarts and late payments: every ticket on every wallet is stored, fee-confirmed, and under a key the wallet has |
| Daemon.StartKeepsScan | internal/vspm/vspm.go:61-80 | a restart with its integrity check keeps what scans rely on |
| Daemon.OldDaemonStarts | internal/vspm/vspm.go:61-80 | a daemon started on an old database is in a state the run theorems start from once the integrity check went through |
| Daemon.DaemonIsSound | internal/vspm/vspm.go:61-128 | over any run with scans that go through and tickets that pay in time: after each scan every paid ticket has its full-scan outcome, and wallets hold paid tickets alone |
| Service.LoopContractIsLoop | internal/vspm/update.go:56-269 | the contract of a background loop makes it a transition of the daemon |
| Service.Vspm.Update | internal/vspm/update.go:20-51 | confirming, broadcasting, delivering and scanning, in that order and each as its contract says, are a run of the daemon; cancelled or without a node, a shorter one |
| Service.Vspm.ConfirmAndBroadcast | internal/vspm/update.go:31-40 | the first two steps: one confirmation step per unconfirmed ticket, then one broadcast step per pending fee |
| Service.Vspm.CheckDatabaseIntegrity | internal/vspm/databaseintegrity.go:16-28 | heights first and revoked tickets only if that went well; if all goes well an old database ends good and ready for scans |
| Service.Vspm.CheckWallets | internal/vspm/walletconsistency.go:15-185 | the wallet check, under any faults, is a transition of the daemon |
| Migration.Database.RemoveOldFeeTxUpgrade | database/upgrade_v2.go:15-70 | blanks the hex of each confirmed fee and nothing else, or changes nothing if some entry is not a document |
| Migration.Database.TicketBucketUpgrade | database/upgrade_v3.go:15-106 | each document becomes a bucket that reads back with every field of the document, no policies and xpub ID 0; or nothing changes if some entry is not a document |
| Migration.Database.AltSignAddrUpgrade | database/upgrade_v4.go:14-42 | adds the bucket, or changes nothing |
| Migration.Database.XPubBucketUpgrade | database/upgrade_v5.go:15-92 | the key and its index, or 0, move to xpub 0 and each ticket bucket gets xpub ID 0; or nothing changes |
| Migration.FillXPubIDs | database/upgrade_v5.go:69-75 | exactly the sub-buckets get xpub ID 0 |
| Migration.Database.Upgrade | database/upgrades.go:75-96 | the database is left at the version reached by whole upgrades; too new a version is refused |
| Migration.BucketsCarry | database/upgrade_v3.go:36-83 | the bucket format reads back as the same tickets |
| Migration.XPubsCarry | database/upgrade_v5.go:28-84 | the last upgrade keeps every ticket, with xpub ID 0, and carries key and index |
| Migration.UpgradePreservesMeaning | database/upgrades.go:75-96 | from any well-formed version 1 to 4: same hashes, same tickets except blanked hex from version 1, xpub 0 with the old key and index |
| Migration.EveryFieldSurvives | database/upgrade_v3.go:36-83 | from versions 1 and 2, field by field: each ticket of the upgraded database reads back with the old document's fields, the hex missing only for confirmed fees of version 1 |
| Migration.KeyAndHashesSurvive | database/upgrade_v5.go:28-84 | from any version: the same hashes, the old key in xpub 0, and the old index or 0 |
| Migration.BucketsSurvive | database/upgrade_v5.go:66-84 | from versions 3 and 4: every ticket bucket is as it was but for xpub ID 0, and alternate signing addresses stay |
| Migration.KillsDoNotMatter | database/upgrades.go:75-96 | however often the process dies between upgrades, the attempts end where an undisturbed one does |

## Left out

- HTTP routing, middleware, sessions, signatures of requests and responses, response bodies other than the fee quote, and rate limiting: no state of interest.
- RPC clients and connection setup: a call succeeds, fails or answers, as a parameter; a client that cannot be had counts as a failing call.
- Transaction and address decoding, WIF decoding, script construction, block filters, key derivation and the fee computation: abstract functions, with filters free of false negatives and derivation injective.
- Guards on vote choices, policies and voting eligibility: abstract predicates.
- JSON text: documents are kept parsed, null being distinct from an empty object.
- Fee status and outcome texts other than the source's constants, which only a foreign program could store.
- bolt I/O errors other than refused writes, which are a set of ticket hashes; missing top-level buckets; changing a bucket while iterating over it, where a snapshot of the keys is used.
- Chain reorganisations, except in `Daemon.WalletsHoldPaidTickets`: elsewhere the chain only grows.
- Overflow of int64 in sums of heights. The address counter and the log's serial numbers wrap around after 2^32 uses; what is promised of them stops there.
- `setVoteChoices` pushing choices to wallets, and tspend and treasury policies on wallets: errors there are only logged.
- Alternate signing addresses, configuration, backups, statistics, and the command-line tools.
- A wallet call that takes effect and still reports an error, except for the two halves of adding a ticket.
- VoteLog.VoteChangeLog.SaveVoteChange: the window is promised for up to 2^32 saves for one ticket; beyond, where the serial number wraps around, only that other logs stay.
- FeeAddresses.GetNewFeeAddress: that the new index is above the old one is promised while the counter is at least four below 2^32.
- ReplayCheck.TruncatedLogSuffices: for payments newer than the log, which the code does not check; `ReplayRuns.HandlersInOrderIff` and `ReplayRuns.ReplayPassesTheGuards` say what happens otherwise.
- ReplayCheck.InOrderIffPaymentsAreNewer: for requests that do not overlap; `ReplayCheck.InOrderIffNotOvertaken` is for all.
- ReplayRuns.HandlersAreTheServer: for requests that do not overlap; `Overlaps.OverlapsAreTheServer` is for all.
- ReplayRuns.HandlersInOrderIff: for requests that do not overlap; `Overlaps.OverlapsInOrderIff` is for all.
- Handlers.WebAPI.PayFee: others act before it or after it, not between its writes; `Overlaps` and `Interleavings` let them act there.
- Atomic.WalletSafety: for steps that are not interrupted between read and write; stale writes break it, as `StaleWrites.StaleWriteUnpaysWalletTicket` shows, exactly when `StaleWrites.WalletSafetyIffVouched` says.
- Outcomes.IncrementalEqualsFull: for tickets that become votable before they are spent below the cursor, and scans without failed writes or cancellation; `Outcomes.LateTicketIsMissed` shows why.
- Wallets.PassConverges: speaks of choices only for tickets mined at or above the least recorded purchase height, like the code; `Wallets.ChoicesAgreeIff` and `Heights.ReachablePassConverges` close the gap.
- Daemon.WalletsHoldPaidTickets: handlers and background steps take turns; with stale writes in between, `StaleWrites.WalletSafetyIffVouched` is the exact condition.
- Daemon.DaemonIsSound: for its part about outcomes, scans have no failed writes or cancellation, the chain grows, and a ticket whose fee confirms after it was spent below the scan cursor is excluded; its part about wallets is `Daemon.WalletsHoldPaidTickets`, for all runs.
- Startup.OldDatabaseIsRepaired: where the node does not know some ticket, or a write fails, its record keeps what it lacked, and the run theorems do not cover it.
- UpdateLoop.Background.UpdateUnconfirmed: when the context is found cancelled, how many tickets were handled before is not promised, for this loop, `BroadcastFees`, `AddToWallets` and the recording of outcomes; each ticket is handled as promised or left alone.
