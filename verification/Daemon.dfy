/** The whole daemon on one state: the chain, the scan cursor, the database and the
    voting wallets. Its transitions are what the methods of the other modules
    promise; lifecycle runs, scan runs and wallets meet here. What wallets hold is
    right over any run; outcomes are right over runs whose scans go through. */
module Daemon {
  import opened Encoding
  import opened Tickets
  import opened Lifecycle
  import opened Wallets
  import opened UpdateLoop
  import opened Startup
  import Atomic
  import Outcomes
  import Scanner

  /** `added` collects every (ticket, voting key) pair ever sent to a wallet. */
  datatype State = State(blocks: seq<Scanner.Block>, last: int, db: Db, wallets: seq<Wallet>,
                         added: set<(string, string)>)

  ghost function AtomicOf(s: State): Atomic.State
  {
    Atomic.State(s.db, s.added)
  }

  ghost function ScanOf(s: State): Outcomes.ScanState
  {
    Outcomes.ScanState(s.blocks, s.last, s.db)
  }

  // ------------------------------------------------------ tickets on wallets

  /** The wallet holds the ticket under a key it was sent with. */
  ghost predicate SentWithKey(w: Wallet, h: string, added: set<(string, string)>)
  {
    exists wif | wif in w.keys :: (h, wif) in added
  }

  ghost predicate Backed(ws: seq<Wallet>, added: set<(string, string)>)
  {
    forall k, h | 0 <= k < |ws| && h in ws[k].tickets :: SentWithKey(ws[k], h, added)
  }

  /** Every ticket on every wallet is stored, its fee confirmed, and the wallet has
      the voting key of the record. */
  ghost predicate OnlyPaidTickets(ws: seq<Wallet>, db: Db)
  {
    forall k, h | 0 <= k < |ws| && h in ws[k].tickets ::
                    h in db && FeeIsConfirmed(db[h]) && db[h].votingWIF in ws[k].keys
  }

  lemma BackedTicketsArePaid(s: State)
    requires Backed(s.wallets, s.added) && Atomic.WalletsSafe(AtomicOf(s))
    ensures OnlyPaidTickets(s.wallets, s.db)
  {
    forall k, h | 0 <= k < |s.wallets| && h in s.wallets[k].tickets
      ensures h in s.db && FeeIsConfirmed(s.db[h]) && s.db[h].votingWIF in s.wallets[k].keys
    {
      assert SentWithKey(s.wallets[k], h, s.added);
      var wif :| wif in s.wallets[k].keys && (h, wif) in s.added;
      assert Atomic.HeldSafely(s.db, (h, wif));
    }
  }

  lemma StillBacked(w: Wallet, w': Wallet, h: string, added: set<(string, string)>, added': set<(string, string)>)
    requires SentWithKey(w, h, added) && w.keys <= w'.keys && added <= added'
    ensures SentWithKey(w', h, added')
  {
  }

  /** What addToWallets promises of wallets is within what its steps send. */
  lemma AddedAreBacked(before: Db, events: map<string, Event>, ws: seq<Wallet>, ws': seq<Wallet>,
                       added: set<(string, string)>)
    requires Backed(ws, added) && |ws'| == |ws| && forall k | 0 <= k < |ws| :: OnlySent(before, events, ws[k], ws'[k])
    ensures Backed(ws', added + Sent(before, events, events.Keys))
  {
    hide Atomic.ReachesWallet;
    var added' := added + Sent(before, events, events.Keys);
    forall k, h | 0 <= k < |ws'| && h in ws'[k].tickets ensures SentWithKey(ws'[k], h, added') {
      if h in ws[k].tickets {
        StillBacked(ws[k], ws'[k], h, added, added');
      } else {
        assert IsSent(before, events, h);
        assert (h, before[h].votingWIF) in added';
      }
    }
  }

  /** So is what the consistency check adds. */
  lemma ReconciledAreBacked(ts: seq<Ticket>, before: Db, after: Db, events: map<string, Event>,
                            ws: seq<Wallet>, ws': seq<Wallet>, added: set<(string, string)>)
    requires Backed(ws, added) && SafePass(ts, before, after, ws, ws') && Lists(before, Votable, ts)
    requires events.Keys == Matching(before, Votable) && forall h | h in events ::
               events[h].Reconcile? && events[h].toWallet
    ensures Backed(ws', added + Sent(before, events, events.Keys))
  {
    hide SafeWallet, Sent, SentWithKey, Lists, Votable;
    WalletsAreSafe(ts, before, after, ws, ws');
    hide SafePass;
    var added' := added + Sent(before, events, events.Keys);
    forall k, h | 0 <= k < |ws'| && h in ws'[k].tickets ensures SentWithKey(ws'[k], h, added') {
      CheckedTicket(ts, before, events, ws[k], ws'[k], h);
      if h in ws[k].tickets {
        StillBacked(ws[k], ws'[k], h, added, added');
      } else {
        MoreSent(ws'[k], h, Sent(before, events, events.Keys), added');
      }
    }
  }

  lemma WalletsAreSafe(ts: seq<Ticket>, before: Db, after: Db, ws: seq<Wallet>, ws': seq<Wallet>)
    requires SafePass(ts, before, after, ws, ws')
    ensures |ws'| == |ws| && forall k | 0 <= k < |ws| :: SafeWallet(ts, ws[k], ws'[k])
  {
    hide SafeWallet, Shrunk;
  }

  lemma MoreSent(w: Wallet, h: string, added: set<(string, string)>, added': set<(string, string)>)
    requires SentWithKey(w, h, added) && added <= added'
    ensures SentWithKey(w, h, added')
  {
  }

  lemma CheckedTicket(ts: seq<Ticket>, before: Db, events: map<string, Event>, w: Wallet, w': Wallet, h: string)
    requires SafeWallet(ts, w, w') && Lists(before, Votable, ts) && h in w'.tickets
    requires events.Keys == Matching(before, Votable) && forall h | h in events ::
               events[h].Reconcile? && events[h].toWallet
    ensures w.keys <= w'.keys
    ensures h !in w.tickets ==> SentWithKey(w', h, Sent(before, events, events.Keys))
  {
    NewTicketHasKey(ts, w, w', h);
    hide SafeWallet, Sent, Votable;
    if h !in w.tickets {
      var j :| 0 <= j < |ts| && ts[j].hash == h && ts[j].votingWIF in w'.keys;
      assert h in Matching(before, Votable) && before[h] == ts[j];
      hide Lists, Matching;
      VotablePairSent(before, events, h);
      assert before[h].votingWIF in w'.keys;
    }
  }

  lemma NewTicketHasKey(ts: seq<Ticket>, w: Wallet, w': Wallet, h: string)
    requires SafeWallet(ts, w, w') && h in w'.tickets
    ensures w.keys <= w'.keys && (h !in w.tickets ==> HasKeyFor(ts, h, w'.keys))
  {
    hide SafeChoice, HasKeyFor;
  }

  lemma VotablePairSent(before: Db, events: map<string, Event>, h: string)
    requires h in before && h in events && h in Matching(before, Votable) && events[h].Reconcile? && events[h].toWallet
    ensures (h, before[h].votingWIF) in Sent(before, events, events.Keys)
  {
    assert Atomic.ReachesWallet(Atomic.Step(h, events[h], 1), before[h]);
    hide Atomic.ReachesWallet;
  }

  // -------------------------------------------- lifecycle steps under a scan

  /** Only setOutcomes, and checkRevoked for old revoked tickets, write outcomes. */
  predicate WritesOutcomes(e: Event)
  {
    e.SetOutcome? || e.FixRevoked?
  }

  lemma {:induction false} DropsKeepOutcome(t: Ticket, agendas: seq<string>)
    ensures forall w | w in DropWrites(t, agendas) ::
              w.Update? && w.ticket.hash == t.hash && w.ticket.outcome == t.outcome
    decreases agendas
  {
    if agendas != [] {
      DropsKeepOutcome(WithoutAgenda(t, agendas[0]), agendas[1..]);
    }
  }

  predicate KeepsOutcome(w: Write, t: Ticket)
  {
    w.Update? ==> w.ticket.hash == t.hash && w.ticket.outcome == t.outcome
  }

  lemma StepKeepsOutcome(env: Env, e: Event, t: Ticket)
    requires !WritesOutcomes(e)
    ensures forall w | w in React(env, e, Some(t)) :: !w.Insert? && KeepsOutcome(w, t)
  {
    if e.CheckFee? {
      DropsKeepOutcome(FeeConfirmedRecord(t), e.dropped);
    } else if e.Reconcile? {
      DropsKeepOutcome(t, e.dropped);
    }
    hide DropWrites, PayFeeAccepted, ChoicesAccepted, ChoicesPanic, Merge;
  }

  lemma {:induction false} WritesKeepOutcome(db: Db, t: Ticket, ws: seq<Write>)
    requires forall w | w in ws :: !w.Insert? && KeepsOutcome(w, t)
    requires t.hash in db ==> db[t.hash].outcome == t.outcome
    ensures t.hash in ApplyAll(db, ws) ==> ApplyAll(db, ws)[t.hash].outcome == t.outcome
    decreases ws
  {
    if ws != [] {
      assert !ws[0].Insert? && KeepsOutcome(ws[0], t);
      WritesKeepOutcome(Apply(db, ws[0]), t, ws[1..]);
    }
  }

  /** How a record may change under anything but a scan. */
  predicate Kept(t: Ticket, u: Ticket)
  {
    Atomic.Ordered(t, u) && u.outcome == t.outcome
  }

  lemma StepKeeps(env: Env, s: Atomic.State, step: Atomic.Step, h: string)
    requires Atomic.StoredInv(env, s.db) && !WritesOutcomes(step.event) && h in s.db
             && h in Atomic.Next(env, s, step).db
    ensures Kept(s.db[h], Atomic.Next(env, s, step).db[h])
  {
    hide RecordInv, React, Atomic.Ordered;
    var t := s.db[h];
    var r := Atomic.StepEffect(env, s.db, step);
    Atomic.OrderedReflexive(t);
    if h == Atomic.Target(step) {
      StepKeepsOutcome(env, step.event, t);
      var done := Atomic.Performed(env, s.db, step);
      assert forall w | w in done :: w in React(env, step.event, Some(t));
      WritesKeepOutcome(s.db, t, done);
    }
  }

  /** Tickets that are fee-confirmed now and were not before are admissible. */
  ghost predicate NewlyPaidAdmissible(net: Scanner.Network, s: Outcomes.ScanState, db: Db)
  {
    forall h | h in db && FeeIsConfirmed(db[h]) && !(h in s.db && FeeIsConfirmed(s.db[h])) ::
                 Outcomes.Admissible(net, s, db[h])
  }

  lemma KeptIsSameFate(env: Env, t: Ticket, u: Ticket)
    requires RecordInv(env, t) && FeeIsConfirmed(t) && Kept(t, u)
    ensures Outcomes.SameFate(t, u)
  {
    hide FeeCovered;
  }

  lemma KeptIsBackground(net: Scanner.Network, env: Env, s: Outcomes.ScanState, db: Db)
    requires Atomic.StoredInv(env, s.db) && forall h | h in s.db && h in db :: Kept(s.db[h], db[h])
    requires NewlyPaidAdmissible(net, s, db)
    ensures Outcomes.Background(net, s, s.(db := db))
  {
    forall h | h in db && FeeIsConfirmed(db[h])
      ensures (h in s.db && Outcomes.SameFate(s.db[h], db[h])) || Outcomes.Admissible(net, s, db[h])
    {
      if h in s.db && FeeIsConfirmed(s.db[h]) {
        KeptIsSameFate(env, s.db[h], db[h]);
      }
    }
    hide Outcomes.Admissible, Outcomes.SameFate, RecordInv, Kept;
  }

  /** A lifecycle step is a background step of the scan runs, as long as the tickets
      it newly makes fee-confirmed are admissible. */
  lemma StepIsBackground(net: Scanner.Network, env: Env, s: Outcomes.ScanState, added: set<(string, string)>,
                         step: Atomic.Step)
    requires Atomic.StoredInv(env, s.db) && !WritesOutcomes(step.event)
    requires NewlyPaidAdmissible(net, s, Atomic.Next(env, Atomic.State(s.db, added), step).db)
    ensures Outcomes.Background(net, s, s.(db := Atomic.Next(env, Atomic.State(s.db, added), step).db))
  {
    hide Atomic.StoredInv, Kept, NewlyPaidAdmissible, Outcomes.Background, Atomic.Next;
    var a := Atomic.State(s.db, added);
    var db := Atomic.Next(env, a, step).db;
    forall h | h in s.db && h in db ensures Kept(s.db[h], db[h]) {
      StepKeeps(env, a, step, h);
    }
    KeptIsBackground(net, env, s, db);
  }

  // ------------------------------------------------------------ transitions

  /** A handler or one background step, alone. */
  ghost predicate IsStep(env: Env, s: State, s': State, step: Atomic.Step)
  {
    var r := Atomic.Next(env, AtomicOf(s), step);
    s' == s.(db := r.db, added := r.added)
  }

  /** A loop of background steps over stored tickets, addToWallets included: what the
      methods of class Background promise. */
  ghost predicate IsLoop(env: Env, s: State, s': State, events: map<string, Event>)
  {
    && events.Keys <= s.db.Keys && (forall h | h in events :: !events[h].FeeAddress?)
    && |s'.wallets| == |s.wallets|
    && (forall k | 0 <= k < |s.wallets| :: OnlySent(s.db, events, s.wallets[k], s'.wallets[k]))
    && s' == s.(db := Batch(env, s.db, events), wallets := s'.wallets,
                added := s.added + Sent(s.db, events, events.Keys))
  }

  /** The consistency check, under any faults. */
  ghost predicate Checks(s: State, s': State)
  {
    exists ts: seq<Ticket> :: IsCheck(s, s', ts)
  }

  /** `ts` are the votable tickets, or nothing when the check gives up early. */
  ghost predicate IsCheck(s: State, s': State, ts: seq<Ticket>)
  {
    && SafePass(ts, s.db, s'.db, s.wallets, s'.wallets)
    && s' == s.(db := s'.db, wallets := s'.wallets, added := s'.added)
    && if ts == [] then s'.added == s.added
       else Lists(s.db, Votable, ts)
            && s'.added == s.added + (set h | h in Matching(s.db, Votable) :: (h, s.db[h].votingWIF))
  }

  /** A scan from any height that records what it finds for any of the votable
      tickets: cancelled, or with failed writes. */
  ghost predicate Records(net: Scanner.Network, s: State, s': State)
  {
    exists start: int, written: set<string> | 0 <= start && written <= Matching(s.db, Votable) ::
      s' == s.(last := s'.last, db := Outcomes.Recorded(net, s.blocks, s.db, start, written))
  }

  /** A restart with its integrity check. */
  ghost predicate Starts(net: Scanner.Network, env: Env, s: State, s': State)
  {
    IntegrityChecked(net, env, s.blocks, s.db, s'.db) && s' == s.(last := 0, db := s'.db)
  }

  /** The chain, or the cursor, changes by itself. */
  ghost predicate WorldMoves(s: State, s': State)
  {
    s' == s.(blocks := s'.blocks, last := s'.last)
  }

  /** Anything the daemon does, wherever calls and writes fail and whenever tickets pay. */
  ghost predicate Next(net: Scanner.Network, env: Env, s: State, s': State)
  {
    || (exists step: Atomic.Step :: IsStep(env, s, s', step))
    || (exists events: map<string, Event> :: IsLoop(env, s, s', events))
    || Checks(s, s') || Records(net, s, s') || Starts(net, env, s, s') || WorldMoves(s, s')
  }

  // ------------------------------------------------- what wallets hold is paid

  ghost predicate WalletInv(env: Env, s: State)
  {
    Atomic.StoredInv(env, s.db) && Atomic.WalletsSafe(AtomicOf(s)) && Backed(s.wallets, s.added)
  }

  lemma MoreBacked(ws: seq<Wallet>, added: set<(string, string)>, added': set<(string, string)>)
    requires Backed(ws, added) && added <= added'
    ensures Backed(ws, added')
  {
    forall k, h | 0 <= k < |ws| && h in ws[k].tickets ensures SentWithKey(ws[k], h, added') {
      StillBacked(ws[k], ws[k], h, added, added');
    }
  }

  lemma StepKeepsWallets(env: Env, s: State, s': State, step: Atomic.Step)
    requires WalletInv(env, s) && IsStep(env, s, s', step)
    ensures WalletInv(env, s')
  {
    hide Atomic.StoredInv, Atomic.WalletsSafe, Backed;
    Atomic.NextKeepsWalletsSafe(env, AtomicOf(s), step);
    MoreBacked(s.wallets, s.added, s'.added);
  }

  /** A batch is a run, so what runs keep it keeps. */
  lemma BatchKeeps(env: Env, s: Atomic.State, events: map<string, Event>)
    requires Atomic.StoredInv(env, s.db) && Atomic.WalletsSafe(s)
    requires events.Keys <= s.db.Keys && forall h | h in events :: !events[h].FeeAddress?
    ensures Atomic.StoredInv(env, Batch(env, s.db, events))
    ensures Atomic.WalletsSafe(Atomic.State(Batch(env, s.db, events), s.added + Sent(s.db, events, events.Keys)))
  {
    assert WellFiled(s.db);
    hide Atomic.StoredInv, Atomic.WalletsSafe, Batch, Sent, WellFiled;
    var steps := LoopIsRun(env, s, events);
    Atomic.RunKeepsInv(env, s, steps);
    Atomic.WalletSafety(env, s, steps);
  }

  lemma LoopKeepsWallets(env: Env, s: State, s': State, events: map<string, Event>)
    requires WalletInv(env, s) && IsLoop(env, s, s', events)
    ensures WalletInv(env, s')
  {
    hide Atomic.StoredInv, Atomic.WalletsSafe, Backed, Batch, Sent, OnlySent;
    BatchKeeps(env, AtomicOf(s), events);
    AddedAreBacked(s.db, events, s.wallets, s'.wallets, s.added);
  }

  lemma VotableAreSent(db: Db, events: map<string, Event>)
    requires events.Keys == Matching(db, Votable)
    requires forall h | h in events :: events[h].Reconcile? && events[h].toWallet
    ensures Sent(db, events, events.Keys) == set h | h in Matching(db, Votable) :: (h, db[h].votingWIF)
  {
  }

  lemma CheckKeepsWallets(env: Env, s: State, s': State, ts: seq<Ticket>)
    requires WalletInv(env, s) && IsCheck(s, s', ts) && ts != []
    ensures WalletInv(env, s')
  {
    assert WellFiled(s.db);
    hide Atomic.StoredInv, Atomic.WalletsSafe, Backed, Batch, Sent, SafePass, WellFiled, Lists, Votable;
    var events := ReconciliationIsBatch(env, ts, s.db, s'.db, s.wallets, s'.wallets);
    VotableAreSent(s.db, events);
    BatchKeeps(env, AtomicOf(s), events);
    ReconciledAreBacked(ts, s.db, s'.db, events, s.wallets, s'.wallets, s.added);
  }

  lemma IdleCheckKeepsWallets(env: Env, s: State, s': State)
    requires WalletInv(env, s) && IsCheck(s, s', [])
    ensures WalletInv(env, s')
  {
    IdlePass(s.db, s'.db, s.wallets, s'.wallets);
    hide Atomic.StoredInv, Atomic.WalletsSafe, SafePass;
    forall k, h | 0 <= k < |s'.wallets| && h in s'.wallets[k].tickets ensures SentWithKey(s'.wallets[k], h, s.added) {
      StillBacked(s.wallets[k], s'.wallets[k], h, s.added, s.added);
    }
  }

  lemma IdlePass(before: Db, after: Db, ws: seq<Wallet>, ws': seq<Wallet>)
    requires SafePass([], before, after, ws, ws')
    ensures after == before && |ws'| == |ws|
    ensures forall k | 0 <= k < |ws| :: ws[k].tickets.Keys == ws'[k].tickets.Keys && ws[k].keys <= ws'[k].keys
  {
    hide Shrunk;
  }

  /** Steps that send nothing to wallets. */
  predicate StaysHome(e: Event)
  {
    !e.FeeAddress? && !e.CheckFee? && !e.Reconcile?
  }

  lemma QuietBatchKeepsWallets(env: Env, s: State, events: map<string, Event>)
    requires WalletInv(env, s) && events.Keys <= s.db.Keys && forall h | h in events :: StaysHome(events[h])
    ensures WalletInv(env, s.(db := Batch(env, s.db, events)))
  {
    hide Atomic.StoredInv, Atomic.WalletsSafe, Backed, Batch;
    BatchKeeps(env, AtomicOf(s), events);
    assert s.added + Sent(s.db, events, events.Keys) == s.added;
  }

  lemma RecordsKeepWallets(net: Scanner.Network, env: Env, s: State, s': State)
    requires WalletInv(env, s) && Records(net, s, s')
    ensures WalletInv(env, s')
  {
    assert WellFiled(s.db);
    hide Atomic.StoredInv, Atomic.WalletsSafe, Backed, Batch, WellFiled, Votable, Outcomes.Recorded,
         Outcomes.ScanOutcome;
    var start: int, written: set<string> :| 0 <= start && written <= Matching(s.db, Votable)
      && s' == s.(last := s'.last, db := Outcomes.Recorded(net, s.blocks, s.db, start, written));
    var events := OutcomesAreBatch(env, net, s.blocks, s.db, start, written);
    QuietBatchKeepsWallets(env, s, events);
  }

  lemma RevokedCheckKeepsWallets(net: Scanner.Network, env: Env, s: State, db: Db)
    requires WalletInv(env, s) && RevokedChecked(net, s.blocks, s.db, db)
    ensures WalletInv(env, s.(db := db))
  {
    assert WellFiled(s.db);
    hide Atomic.StoredInv, Atomic.WalletsSafe, Backed, Batch, WellFiled, IsRevoked, Outcomes.Corrected,
         Outcomes.ScanOutcome;
    if db != s.db {
      var start: int, done: set<string> :| 0 <= start && db == Outcomes.Corrected(net, s.blocks, s.db, start, done);
      var events := CorrectedIsBatch(env, net, s.blocks, s.db, start, done);
      QuietBatchKeepsWallets(env, s, events);
    }
  }

  lemma StartKeepsWallets(net: Scanner.Network, env: Env, s: State, s': State)
    requires WalletInv(env, s) && Starts(net, env, s, s')
    ensures WalletInv(env, s')
  {
    hide Atomic.StoredInv, Atomic.WalletsSafe, Backed, HeightsChecked, RevokedChecked;
    var repaired: Db :| HeightsChecked(env, s.db, repaired) && RevokedChecked(net, s.blocks, repaired, s'.db);
    assert Atomic.StoredInv(env, s.db);
    NoHeightIsMissing(env, s.db, repaired);
    RevokedCheckKeepsWallets(net, env, s, s'.db);
  }

  lemma NextKeepsWallets(net: Scanner.Network, env: Env, s: State, s': State)
    requires WalletInv(env, s) && Next(net, env, s, s')
    ensures WalletInv(env, s')
  {
    if Checks(s, s') {
      var ts: seq<Ticket> :| IsCheck(s, s', ts);
      if ts == [] {
        IdleCheckKeepsWallets(env, s, s');
      } else {
        CheckKeepsWallets(env, s, s', ts);
      }
    } else if Records(net, s, s') {
      RecordsKeepWallets(net, env, s, s');
    } else if Starts(net, env, s, s') {
      StartKeepsWallets(net, env, s, s');
    } else if exists step: Atomic.Step :: IsStep(env, s, s', step) {
      var step: Atomic.Step :| IsStep(env, s, s', step);
      StepKeepsWallets(env, s, s', step);
    } else if exists events: map<string, Event> :: IsLoop(env, s, s', events) {
      var events: map<string, Event> :| IsLoop(env, s, s', events);
      LoopKeepsWallets(env, s, s', events);
    }
    hide IsCheck, Records, Starts, IsStep, IsLoop, Atomic.StoredInv, Atomic.WalletsSafe, Backed;
  }

  ghost predicate IsRun(net: Scanner.Network, env: Env, run: seq<State>)
  {
    forall i | 0 <= i < |run| - 1 :: Next(net, env, run[i], run[i + 1])
  }

  /** Over any run of the daemon, with handlers, background loops, consistency checks
      and scans under any faults, restarts with their integrity checks, and a chain
      that moves as it likes: every ticket on every voting wallet is stored with a
      confirmed fee, under a key the wallet has. */
  lemma {:induction false} WalletsHoldPaidTickets(net: Scanner.Network, env: Env, run: seq<State>)
    requires run != [] && IsRun(net, env, run) && WalletInv(env, run[0])
    ensures WalletInv(env, run[|run| - 1])
    ensures OnlyPaidTickets(run[|run| - 1].wallets, run[|run| - 1].db)
  {
    hide Next, WalletInv, OnlyPaidTickets;
    var last := |run| - 1;
    if last > 0 {
      WalletsHoldPaidTickets(net, env, run[..last]);
      assert Next(net, env, run[last - 1], run[last]);
      NextKeepsWallets(net, env, run[last - 1], run[last]);
    }
    WalletInvImpliesPaid(env, run[last]);
  }

  lemma WalletInvImpliesPaid(env: Env, s: State)
    requires WalletInv(env, s)
    ensures OnlyPaidTickets(s.wallets, s.db)
  {
    BackedTicketsArePaid(s);
  }

  // --------------------------------------------------- outcomes over whole runs

  /** A handler or background step that records no outcome, and makes only
      admissible tickets paid. */
  ghost predicate Steps(net: Scanner.Network, env: Env, s: State, s': State)
  {
    (exists step: Atomic.Step :: !WritesOutcomes(step.event) && IsStep(env, s, s', step))
    && NewlyPaidAdmissible(net, ScanOf(s), s'.db)
  }

  ghost predicate NoOutcomes(events: map<string, Event>)
  {
    forall h | h in events :: !WritesOutcomes(events[h])
  }

  ghost predicate Loops(net: Scanner.Network, env: Env, s: State, s': State)
  {
    (exists events: map<string, Event> :: NoOutcomes(events) && IsLoop(env, s, s', events))
    && NewlyPaidAdmissible(net, ScanOf(s), s'.db)
  }

  /** A scan that went through. */
  ghost predicate Scans(net: Scanner.Network, s: State, s': State)
  {
    Outcomes.Scan(net, ScanOf(s), ScanOf(s')) && s'.wallets == s.wallets && s'.added == s.added
  }

  /** New blocks on top of the old ones. */
  ghost predicate Grows(net: Scanner.Network, s: State, s': State)
  {
    Outcomes.Extend(net, ScanOf(s), ScanOf(s')) && s' == s.(blocks := s'.blocks)
  }

  /** The same without failed scans, late payments and reorganisations. */
  ghost predicate NextOnTime(net: Scanner.Network, env: Env, s: State, s': State)
  {
    || Steps(net, env, s, s') || Loops(net, env, s, s') || Checks(s, s')
    || Scans(net, s, s') || Starts(net, env, s, s') || Grows(net, s, s')
  }

  ghost predicate Inv(net: Scanner.Network, env: Env, s: State)
  {
    WalletInv(env, s) && Outcomes.ScanInv(net, ScanOf(s))
  }

  lemma ScanIsRecorded(net: Scanner.Network, s: State, s': State)
    requires Scans(net, s, s')
    ensures Records(net, s, s')
  {
    hide Outcomes.WrittenAll, Outcomes.Covers, Outcomes.Recorded;
    var start: int, written: set<string> :| 0 <= start < |s.blocks|
      && written <= Matching(s.db, Votable)
      && Outcomes.WrittenAll(net, s.blocks, s.db, start, written, {})
      && Outcomes.Covers(net, s.db, s.last, start)
      && ScanOf(s') == Outcomes.ScanState(s.blocks, |s.blocks| - 1,
                                          Outcomes.Recorded(net, s.blocks, s.db, start, written));
    assert s' == s.(last := s'.last, db := Outcomes.Recorded(net, s.blocks, s.db, start, written));
  }

  lemma OnTimeIsNext(net: Scanner.Network, env: Env, s: State, s': State)
    requires NextOnTime(net, env, s, s')
    ensures Next(net, env, s, s')
  {
    if Scans(net, s, s') {
      ScanIsRecorded(net, s, s');
    }
    hide Checks, Scans, Records, Starts, IsStep, IsLoop, NewlyPaidAdmissible, Outcomes.Extend;
  }

  lemma StepsKeepScan(net: Scanner.Network, env: Env, s: State, s': State)
    requires Inv(net, env, s) && Steps(net, env, s, s')
    ensures Outcomes.ScanInv(net, ScanOf(s'))
  {
    hide Atomic.StoredInv, Atomic.WalletsSafe, Backed, Outcomes.ScanInv, Outcomes.Background, NewlyPaidAdmissible;
    var step: Atomic.Step :| !WritesOutcomes(step.event) && IsStep(env, s, s', step);
    hide Atomic.Next;
    StepIsBackground(net, env, ScanOf(s), s.added, step);
    Outcomes.BackgroundKeeps(net, ScanOf(s), ScanOf(s'));
  }

  lemma BatchKeepsRecord(env: Env, db: Db, events: map<string, Event>, h: string)
    requires Atomic.StoredInv(env, db) && h in db && h in Batch(env, db, events)
    requires NoOutcomes(events) && forall g | g in events :: !events[g].FeeAddress?
    ensures Kept(db[h], Batch(env, db, events)[h])
  {
    hide RecordInv, Kept, React;
    assert WellFiled(db);
    if h in events {
      var e, t := events[h], db[h];
      var ws := React(env, e, Some(t));
      BatchGrows(env, db, map[], h, e);
      BatchOfNone(env, db);
      StepKeeps(env, Atomic.State(db, {}), Atomic.Step(h, e, |ws|), h);
    } else {
      KeptReflexive(db[h]);
    }
  }

  lemma KeptReflexive(t: Ticket)
    ensures Kept(t, t)
  {
  }

  lemma LoopsKeepScan(net: Scanner.Network, env: Env, s: State, s': State)
    requires Inv(net, env, s) && Loops(net, env, s, s')
    ensures Outcomes.ScanInv(net, ScanOf(s'))
  {
    hide Atomic.StoredInv, Atomic.WalletsSafe, Backed, Outcomes.ScanInv, Outcomes.Background, NewlyPaidAdmissible,
         NoOutcomes, Kept, Batch, Sent, OnlySent;
    var events: map<string, Event> :| NoOutcomes(events) && IsLoop(env, s, s', events);
    forall h | h in s.db && h in s'.db ensures Kept(s.db[h], s'.db[h]) {
      BatchKeepsRecord(env, s.db, events, h);
    }
    KeptIsBackground(net, env, ScanOf(s), s'.db);
    Outcomes.BackgroundKeeps(net, ScanOf(s), ScanOf(s'));
  }

  lemma CheckedRecordIsKept(ts: seq<Ticket>, before: Db, after: Db, ws: seq<Wallet>, ws': seq<Wallet>, h: string)
    requires SafePass(ts, before, after, ws, ws') && h in before
    ensures h in after && Kept(before[h], after[h]) && after[h].feeTxStatus == before[h].feeTxStatus
  {
    hide SafeWallet, Shrunk;
  }

  lemma ChecksKeepScan(net: Scanner.Network, env: Env, s: State, s': State)
    requires Inv(net, env, s) && Checks(s, s')
    ensures Outcomes.ScanInv(net, ScanOf(s'))
  {
    hide Atomic.StoredInv, Atomic.WalletsSafe, Backed, Outcomes.ScanInv, Outcomes.Background, Kept, SafePass, Lists,
         Votable;
    var ts: seq<Ticket> :| IsCheck(s, s', ts);
    SameKeys(ts, s.db, s'.db, s.wallets, s'.wallets);
    forall h | h in s.db
      ensures h in s'.db && Kept(s.db[h], s'.db[h]) && s'.db[h].feeTxStatus == s.db[h].feeTxStatus
    {
      CheckedRecordIsKept(ts, s.db, s'.db, s.wallets, s'.wallets, h);
    }
    KeptIsBackground(net, env, ScanOf(s), s'.db);
    Outcomes.BackgroundKeeps(net, ScanOf(s), ScanOf(s'));
  }

  lemma StartKeepsScan(net: Scanner.Network, env: Env, s: State, s': State)
    requires Inv(net, env, s) && Starts(net, env, s, s')
    ensures Outcomes.ScanInv(net, ScanOf(s'))
  {
    hide Atomic.StoredInv, Atomic.WalletsSafe, Backed, Outcomes.ScanInv, IntegrityChecked;
    GoodDatabaseIsLeftAlone(net, env, ScanOf(s), s'.db);
    Outcomes.RestartKeeps(net, ScanOf(s), ScanOf(s'));
  }

  ghost predicate IsRunOnTime(net: Scanner.Network, env: Env, run: seq<State>)
  {
    forall i | 0 <= i < |run| - 1 :: NextOnTime(net, env, run[i], run[i + 1])
  }

  lemma NextKeepsInv(net: Scanner.Network, env: Env, s: State, s': State)
    requires Inv(net, env, s) && NextOnTime(net, env, s, s')
    ensures Inv(net, env, s')
    ensures Scans(net, s, s') ==> Outcomes.UpToDate(net, ScanOf(s'))
  {
    hide Steps, Loops, Checks, Starts, WalletInv, Next, Outcomes.Scan, Outcomes.Extend, Outcomes.ScanInv,
         Outcomes.UpToDate;
    OnTimeIsNext(net, env, s, s');
    NextKeepsWallets(net, env, s, s');
    if Scans(net, s, s') {
      Outcomes.ScanBringsUpToDate(net, ScanOf(s), ScanOf(s'));
    } else if Steps(net, env, s, s') {
      StepsKeepScan(net, env, s, s');
    } else if Loops(net, env, s, s') {
      LoopsKeepScan(net, env, s, s');
    } else if Checks(s, s') {
      ChecksKeepScan(net, env, s, s');
    } else if Starts(net, env, s, s') {
      StartKeepsScan(net, env, s, s');
    } else {
      Outcomes.ExtendKeeps(net, ScanOf(s), ScanOf(s'));
    }
  }

  /** Over any run with handlers, background loops, consistency checks under any
      faults, scans that go through, new blocks and restarts in any order: after each
      scan every paid ticket has the outcome the whole chain gives it, and wallets
      hold paid tickets alone. */
  lemma {:induction false} DaemonIsSound(net: Scanner.Network, env: Env, run: seq<State>)
    requires run != [] && IsRunOnTime(net, env, run) && Inv(net, env, run[0])
    ensures Inv(net, env, run[|run| - 1])
    ensures OnlyPaidTickets(run[|run| - 1].wallets, run[|run| - 1].db)
    ensures |run| > 1 && Scans(net, run[|run| - 2], run[|run| - 1])
            ==> Outcomes.UpToDate(net, ScanOf(run[|run| - 1]))
  {
    hide NextOnTime, Scans, WalletInv, Outcomes.ScanInv, Outcomes.UpToDate, OnlyPaidTickets;
    var last := |run| - 1;
    if last > 0 {
      DaemonIsSound(net, env, run[..last]);
      assert NextOnTime(net, env, run[last - 1], run[last]);
      NextKeepsInv(net, env, run[last - 1], run[last]);
    }
    WalletInvImpliesPaid(env, run[last]);
  }

  /** A daemon started on an old database, with empty wallets or ones an earlier
      version filled safely, is in such a state once the integrity check went through. */
  lemma OldDaemonStarts(net: Scanner.Network, env: Env, s: State, heightOf: string -> int64,
                        events: map<string, Event>, start: int)
    requires s.blocks != [] && OldDatabase(net, env, s.blocks, heightOf, s.db)
             && AllHeightsFound(heightOf, s.db, events)
    requires 0 <= start <= |s.blocks| && Outcomes.StartsByMaturity(net, Batch(env, s.db, events), IsRevoked, start)
    requires Atomic.WalletsSafe(AtomicOf(s)) && Backed(s.wallets, s.added)
    ensures var repaired := Batch(env, s.db, events);
            var s' := s.(last := 0, db := Outcomes.Corrected(net, s.blocks, repaired, start, repaired.Keys));
            Starts(net, env, s, s') && Inv(net, env, s')
  {
    var repaired := Batch(env, s.db, events);
    var after := Outcomes.Corrected(net, s.blocks, repaired, start, repaired.Keys);
    OldDatabaseIsRepaired(net, env, s.blocks, heightOf, s.db, events, start);
    RepairKeepsFees(net, env, s.blocks, heightOf, s.db, events, start);
    hide OldDatabase, Backed, IntegrityChecked, Batch, Outcomes.StartsByMaturity, Outcomes.ScanInv, Atomic.StoredInv,
         Outcomes.Corrected, AllHeightsFound;
    forall p | p in s.added ensures Atomic.HeldSafely(after, p) {
      assert Atomic.HeldSafely(s.db, p);
      assert SameFee(s.db[p.0], after[p.0]);
    }
  }
}
