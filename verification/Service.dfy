/** The methods that internal/vspm runs at startup and once per block, as
    transitions of module Daemon: what its theorems say of runs, they say of them. */
module Service {
  import opened Encoding
  import opened Tickets
  import opened Lifecycle
  import opened Wallets
  import opened UpdateLoop
  import opened Startup
  import opened Daemon
  import Atomic
  import Outcomes
  import Scanner

  /** The contract of a loop over the tickets of a filter makes it a transition. */
  lemma LoopContractIsLoop(net: Scanner.Network, env: Env, s: State, wallets: seq<Wallet>, broken: set<string>,
                           p: Ticket -> bool, events: map<string, Event>, cancelled: bool) returns (s': State)
    requires Covered(s.db, broken, p, events, cancelled) && forall h | h in events :: !events[h].FeeAddress?
    requires |wallets| == |s.wallets|
    requires forall k | 0 <= k < |wallets| :: OnlySent(s.db, events, s.wallets[k], wallets[k])
    ensures s' == s.(db := Batch(env, s.db, events), wallets := wallets, added := s'.added) && Next(net, env, s, s')
  {
    hide Batch, Sent, OnlySent, Checks, Records, Starts;
    s' := s.(db := Batch(env, s.db, events), wallets := wallets, added := s.added + Sent(s.db, events, events.Keys));
    assert IsLoop(env, s, s', events);
  }

  /** Filters never miss a stored ticket. */
  ghost predicate FiltersWork(net: Scanner.Network, blocks: seq<Scanner.Block>, db: Db)
  {
    forall h | h in db :: Scanner.FilterFinds(net, blocks, db[h])
  }

  lemma FiltersWorkAfter(net: Scanner.Network, env: Env, blocks: seq<Scanner.Block>, db: Db, events: map<string, Event>)
    requires Atomic.StoredInv(env, db) && FiltersWork(net, blocks, db)
    requires NoOutcomes(events) && forall h | h in events :: !events[h].FeeAddress?
    ensures FiltersWork(net, blocks, Batch(env, db, events))
  {
    hide Atomic.StoredInv, NoOutcomes, Scanner.SpentIn;
    forall h | h in Batch(env, db, events) ensures Scanner.FilterFinds(net, blocks, Batch(env, db, events)[h]) {
      BatchKeepsRecord(env, db, events, h);
    }
  }

  lemma FiledWell(env: Env, s: State)
    requires WalletInv(env, s)
    ensures WellFiled(s.db)
  {
  }

  lemma WalletsUnchanged(before: Db, events: map<string, Event>, ws: seq<Wallet>)
    ensures forall k | 0 <= k < |ws| :: OnlySent(before, events, ws[k], ws[k])
  {
  }

  /** One more loop at the end of a run. */
  lemma LoopExtends(net: Scanner.Network, env: Env, run: seq<State>, wallets: seq<Wallet>, broken: set<string>,
                    p: Ticket -> bool, events: map<string, Event>, cancelled: bool) returns (longer: seq<State>)
    requires run != [] && IsRun(net, env, run)
    requires var s := run[|run| - 1];
             && WalletInv(env, s) && FiltersWork(net, s.blocks, s.db)
             && Covered(s.db, broken, p, events, cancelled) && |wallets| == |s.wallets|
             && forall k | 0 <= k < |wallets| :: OnlySent(s.db, events, s.wallets[k], wallets[k])
    requires forall h | h in events :: !events[h].FeeAddress? && !WritesOutcomes(events[h])
    ensures |longer| == |run| + 1 && longer[..|run|] == run && IsRun(net, env, longer)
    ensures var s, s' := run[|run| - 1], longer[|run|];
            && s' == s.(db := Batch(env, s.db, events), wallets := wallets, added := s'.added)
            && WalletInv(env, s') && FiltersWork(net, s'.blocks, s'.db) && WellFiled(s'.db)
  {
    var s := run[|run| - 1];
    assert Atomic.StoredInv(env, s.db);
    hide Scanner.FilterFinds;
    FiltersWorkAfter(net, env, s.blocks, s.db, events);
    hide Atomic.StoredInv, WalletInv, FiltersWork, Covered, OnlySent, Batch, Next;
    var s' := LoopContractIsLoop(net, env, s, wallets, broken, p, events, cancelled);
    NextKeepsWallets(net, env, s, s');
    FiledWell(env, s');
    longer := run + [s'];
  }

  lemma ScanExtends(net: Scanner.Network, env: Env, run: seq<State>, start: int, written: set<string>, s': State)
    requires run != [] && IsRun(net, env, run) && 0 <= start
    requires var s := run[|run| - 1];
             && written <= Matching(s.db, Votable)
             && s' == s.(last := s'.last, db := Outcomes.Recorded(net, s.blocks, s.db, start, written))
    ensures IsRun(net, env, run + [s'])
  {
    hide Outcomes.Recorded, Checks, Starts, IsStep, IsLoop;
    assert Records(net, run[|run| - 1], s');
    hide Next, Records;
  }

  /** How many tickets a step handles before the context is found cancelled. */
  function CancelAfter(cancelIn: Option<(nat, nat)>, step: nat): Option<nat>
  {
    if cancelIn.Some? && cancelIn.value.0 == step then Some(cancelIn.value.1) else None
  }

  // What each step of update does when nothing is cancelled.

  ghost predicate Confirms(env: Env, s: State, s': State, broken: set<string>, lookup: string -> TxLookup)
  {
    && s'.db == Batch(env, s.db, map h | h in Matching(s.db, Unconfirmed) - broken :: CheckTicket(lookup(h)))
    && s'.wallets == s.wallets
  }

  ghost predicate Broadcasts(env: Env, s: State, s': State, broken: set<string>, sends: string -> bool)
  {
    && s'.db == Batch(env, s.db, map h | h in Matching(s.db, PendingFee) - broken ::
         BroadcastFee(sends(s.db[h].feeTxHex)))
    && s'.wallets == s.wallets
  }

  ghost predicate Delivers(env: Env, s: State, s': State, broken: set<string>, feeLookup: string -> TxLookup,
                           ticketLookup: string -> TxLookup, down: set<Fault>)
  {
    exists events: map<string, Event> ::
      && events.Keys == (if s.wallets == [] then {} else Matching(s.db, UnconfirmedFee) - broken)
      && (forall h | h in events :: IsFeeCheck(events[h], s.db[h], feeLookup, ticketLookup))
      && s'.db == Batch(env, s.db, events)
      && (down == {} ==> AllArrive(s.db, s'.db, events, s.wallets, s'.wallets))
  }

  lemma FeeChecksRecordNothing(db: Db, events: map<string, Event>, feeLookup: string -> TxLookup,
                               ticketLookup: string -> TxLookup)
    requires forall h | h in events :: h in db && IsFeeCheck(events[h], db[h], feeLookup, ticketLookup)
    ensures forall h | h in events :: !events[h].FeeAddress? && !WritesOutcomes(events[h])
  {
  }

  lemma HasDelivered(env: Env, s: State, s': State, broken: set<string>, events: map<string, Event>,
                     feeLookup: string -> TxLookup, ticketLookup: string -> TxLookup, down: set<Fault>)
    requires s'.db == Batch(env, s.db, events) && Covered(s.db, broken, UnconfirmedFee, events, s'.wallets == [])
    requires |s'.wallets| == |s.wallets| && (s.wallets == [] ==> events == map[])
    requires forall h | h in events :: h in s.db && IsFeeCheck(events[h], s.db[h], feeLookup, ticketLookup)
    requires down == {} ==> AllArrive(s.db, s'.db, events, s.wallets, s'.wallets)
    ensures Delivers(env, s, s', broken, feeLookup, ticketLookup, down)
  {
    hide Batch, IsFeeCheck, AllArrive;
  }

  lemma HasConfirmed(env: Env, s: State, s': State, broken: set<string>, events: map<string, Event>,
                     lookup: string -> TxLookup)
    requires s'.db == Batch(env, s.db, events) && s'.wallets == s.wallets
             && Covered(s.db, broken, Unconfirmed, events, false)
    requires forall h | h in events :: events[h] == CheckTicket(lookup(h))
    ensures Confirms(env, s, s', broken, lookup)
  {
    hide Batch;
    assert events == map h | h in Matching(s.db, Unconfirmed) - broken :: CheckTicket(lookup(h));
  }

  lemma HasBroadcast(env: Env, s: State, s': State, broken: set<string>, events: map<string, Event>,
                     sends: string -> bool)
    requires s'.db == Batch(env, s.db, events) && s'.wallets == s.wallets
             && Covered(s.db, broken, PendingFee, events, false)
    requires forall h | h in events :: h in s.db && events[h] == BroadcastFee(sends(s.db[h].feeTxHex))
    ensures Broadcasts(env, s, s', broken, sends)
  {
    hide Batch;
    assert events == map h | h in Matching(s.db, PendingFee) - broken :: BroadcastFee(sends(s.db[h].feeTxHex));
  }

  lemma FiltersWorkRepaired(net: Scanner.Network, env: Env, blocks: seq<Scanner.Block>, db: Db,
                            events: map<string, Event>)
    requires WellFiled(db) && FiltersWork(net, blocks, db)
    requires events.Keys <= Matching(db, MissingHeight) && forall h | h in events :: events[h].FixHeight?
    ensures FiltersWork(net, blocks, Batch(env, db, events))
  {
    hide Effect, Scanner.SpentIn;
    forall h | h in Batch(env, db, events) ensures Scanner.FilterFinds(net, blocks, Batch(env, db, events)[h]) {
      if h in events {
        HeightEffect(env, db[h], events[h].lookup);
      }
    }
  }

  lemma HeightsCheckedBy(env: Env, before: Db, broken: set<string>, events: map<string, Event>, ok: bool)
    requires if ok then Covered(before, broken, MissingHeight, events, false) else events == map[]
    requires forall h | h in events :: events[h].FixHeight?
    ensures HeightsChecked(env, before, Batch(env, before, events)) && events.Keys <= Matching(before, MissingHeight)
  {
    hide Batch;
    assert IsHeightCheck(env, before, Batch(env, before, events), events);
  }

  /** The node knows every ticket whose height is missing. */
  ghost predicate KnowsHeights(lookup: string -> TxLookup, heightOf: string -> int64, db: Db)
  {
    forall h | h in Matching(db, MissingHeight) :: lookup(h).Found? && lookup(h).info.blockHeight == heightOf(h)
  }

  lemma RepairedBy(net: Scanner.Network, env: Env, blocks: seq<Scanner.Block>, lookup: Option<string -> TxLookup>,
                   heightOf: string -> int64, before: Db, events: map<string, Event>, start: int, after: Db)
    requires blocks != [] && Covered(before, {}, MissingHeight, events, false)
    requires forall h | h in events :: lookup.Some? && events[h] == FixHeight(lookup.value(h))
    requires var repaired := Batch(env, before, events);
             if Matching(repaired, IsRevoked) == {} then after == repaired
             else 0 <= start < |blocks| && Outcomes.StartsByMaturity(net, repaired, IsRevoked, start)
                  && after == Outcomes.Corrected(net, blocks, repaired, start, repaired.Keys - {})
    ensures OldDatabase(net, env, blocks, heightOf, before)
            && (lookup.Some? ==> KnowsHeights(lookup.value, heightOf, before))
            ==> Atomic.StoredInv(env, after) && Outcomes.ScanInv(net, Outcomes.ScanState(blocks, 0, after))
  {
    hide Batch, OldDatabase, Atomic.StoredInv, Outcomes.ScanInv, Outcomes.ScanOutcome;
    if OldDatabase(net, env, blocks, heightOf, before)
       && (lookup.Some? ==> KnowsHeights(lookup.value, heightOf, before))
    {
      var repaired := Batch(env, before, events);
      assert repaired.Keys - {} == repaired.Keys
             && Matching(before, MissingHeight) - {} == Matching(before, MissingHeight);
      assert AllHeightsFound(heightOf, before, events);
      if Matching(repaired, IsRevoked) == {} {
        assert forall h | h in repaired :: !IsRevoked(repaired[h]) || h in Matching(repaired, IsRevoked);
        assert Outcomes.Corrected(net, blocks, repaired, 0, repaired.Keys) == repaired;
        OldDatabaseIsRepaired(net, env, blocks, heightOf, before, events, 0);
      } else {
        OldDatabaseIsRepaired(net, env, blocks, heightOf, before, events, start);
      }
    }
  }

  lemma RevokedCheckedBy(net: Scanner.Network, env: Env, blocks: seq<Scanner.Block>, before: Db, repaired: Db,
                         after: Db,
                         start: int, broken: set<string>, ok: bool)
    requires HeightsChecked(env, before, repaired) && 0 <= start
    requires !ok || Matching(repaired, IsRevoked) == {} ==> after == repaired
    requires ok && Matching(repaired, IsRevoked) != {} ==>
               after == Outcomes.Corrected(net, blocks, repaired, start, repaired.Keys - broken)
    ensures IntegrityChecked(net, env, blocks, before, after)
  {
    hide HeightsChecked, Outcomes.Corrected, Matching;
    assert RevokedChecked(net, blocks, repaired, after);
  }

  /** Struct Vspm of internal/vspm/vspm.go: the database and the wallets, with the
      background loops and the scans that share them. */
  class Vspm {
    const db: TicketStore
    const voting: VotingWallets
    const loops: Background
    const scans: Outcomes.Vspm

    constructor (loops: Background, scans: Outcomes.Vspm)
      requires loops.db == scans.db == loops.voting.db
      ensures db == loops.db && voting == loops.voting && this.loops == loops && this.scans == scans && Wired()
    {
      db, voting, this.loops, this.scans := loops.db, loops.voting, loops, scans;
    }

    ghost predicate Wired()
    {
      loops.db == scans.db == voting.db == db && loops.voting == voting
    }

    ghost function Now(blocks: seq<Scanner.Block>, added: set<(string, string)>): State
      reads db, voting, scans
    {
      State(blocks, scans.lastScannedBlock, db.tickets, voting.wallets, added)
    }

    /** internal/vspm/update.go:20-51. `cancelIn` is the step, if any, in which the
        context is found cancelled, and after how many tickets. */
    method Update(net: Scanner.Network, ghost env: Env, node: Scanner.Node, up: bool, lookup: string -> TxLookup,
                  sends: string -> bool, feeLookup: string -> TxLookup, ticketLookup: string -> TxLookup,
                  down: set<Fault>, cancelIn: Option<(nat, nat)>, ghost added: set<(string, string)>)
      returns (ghost run: seq<State>, ghost scanned: bool)
      requires Wired() && node.blocks != [] && 0 <= scans.lastScannedBlock
      requires WalletInv(env, Now(node.blocks, added)) && FiltersWork(net, node.blocks, db.tickets)
      modifies scans, voting`wallets, db`tickets
      ensures run != [] && run[0] == old(Now(node.blocks, added)) && IsRun(net, env, run)
      ensures run[|run| - 1] == Now(node.blocks, run[|run| - 1].added)
      ensures up && cancelIn == None ==>
                && |run| == (if scanned then 5 else 4)
                && Confirms(env, run[0], run[1], db.broken, lookup) && Broadcasts(env, run[1], run[2], db.broken, sends)
                && Delivers(env, run[2], run[3], db.broken, feeLookup, ticketLookup, down)
                && (Outcomes.ShouldScan(net, node, run[3].db, run[3].last) ==> scanned)
                && (scanned && db.broken == {} ==> Scans(net, run[3], run[4]))
    {
      hide WalletInv, Next, Batch, Covered, OnlySent, AllArrive, WellFiled, Scanner.FilterFinds, Matching,
           Confirms, Broadcasts, Delivers, IsFeeCheck, WritesOutcomes, Outcomes.Recorded,
           Outcomes.WrittenAll, Outcomes.Covers, Outcomes.Scan, Outcomes.DecodableVotable, Outcomes.ShouldScan;
      run, scanned := [Now(node.blocks, added)], false;
      if !up {
        return;
      }
      FiledWell(env, run[0]);
      var cancelled;
      run, cancelled := ConfirmAndBroadcast(net, env, node, lookup, sends, cancelIn, run);
      if cancelled {
        return;
      }
      ghost var s := run[|run| - 1];
      ghost var events := loops.AddToWallets(env, feeLookup, ticketLookup, down, CancelAfter(cancelIn, 2));
      FeeChecksRecordNothing(s.db, events, feeLookup, ticketLookup);
      run := LoopExtends(net, env, run, voting.wallets, db.broken, UnconfirmedFee, events,
                         CancelAfter(cancelIn, 2).Some? || voting.wallets == []);
      if CancelAfter(cancelIn, 2).Some? {
        return;
      }
      HasDelivered(env, s, run[|run| - 1], db.broken, events, feeLookup, ticketLookup, down);
      ghost var start, written;
      scanned, start, written := scans.SetOutcomes(net, node, CancelAfter(cancelIn, 3));
      if scanned {
        ghost var s' := Now(node.blocks, run[|run| - 1].added);
        ScanExtends(net, env, run, start, written, s');
        run := run + [s'];
      }
    }

    /** update.go:31-40. */
    method ConfirmAndBroadcast(net: Scanner.Network, ghost env: Env, node: Scanner.Node, lookup: string -> TxLookup,
                               sends: string -> bool, cancelIn: Option<(nat, nat)>, ghost soFar: seq<State>)
      returns (ghost run: seq<State>, cancelled: bool)
      requires Wired() && db.Valid() && soFar != [] && IsRun(net, env, soFar)
      requires var s := soFar[|soFar| - 1];
               s == Now(node.blocks, s.added) && WalletInv(env, s) && FiltersWork(net, node.blocks, s.db)
      modifies db`tickets
      ensures run != [] && run[0] == soFar[0] && IsRun(net, env, run)
      ensures var s := run[|run| - 1];
              s == Now(node.blocks, s.added) && WalletInv(env, s) && FiltersWork(net, node.blocks, s.db)
                && WellFiled(s.db)
      ensures cancelled <==> cancelIn.Some? && cancelIn.value.0 < 2
      ensures !cancelled ==>
                && |run| == |soFar| + 2
                && Confirms(env, soFar[|soFar| - 1], run[|soFar|], db.broken, lookup)
                && Broadcasts(env, run[|soFar|], run[|soFar| + 1], db.broken, sends)
    {
      hide WalletInv, Next, Batch, Covered, OnlySent, WellFiled, FiltersWork, Confirms, Broadcasts, Matching;
      ghost var before, ws := soFar[|soFar| - 1], voting.wallets;
      ghost var events := loops.UpdateUnconfirmed(env, lookup, CancelAfter(cancelIn, 0));
      WalletsUnchanged(before.db, events, ws);
      run := LoopExtends(net, env, soFar, ws, db.broken, Unconfirmed, events, CancelAfter(cancelIn, 0).Some?);
      if CancelAfter(cancelIn, 0).Some? {
        return run, true;
      }
      HasConfirmed(env, before, run[|run| - 1], db.broken, events, lookup);
      before := run[|run| - 1];
      events := loops.BroadcastFees(env, sends, CancelAfter(cancelIn, 1));
      WalletsUnchanged(before.db, events, ws);
      run := LoopExtends(net, env, run, ws, db.broken, PendingFee, events, CancelAfter(cancelIn, 1).Some?);
      if CancelAfter(cancelIn, 1).Some? {
        return run, true;
      }
      HasBroadcast(env, before, run[|run| - 1], db.broken, events, sends);
      cancelled := false;
    }

    /** internal/vspm/databaseintegrity.go:16-28. The first check fails when the node is
        down, and then the second is not made. */
    method CheckDatabaseIntegrity(net: Scanner.Network, ghost env: Env, node: Scanner.Node,
                                  lookup: Option<string -> TxLookup>, ghost heightOf: string -> int64)
      returns (ok: bool)
      requires Wired() && db.Valid() && node.blocks != [] && FiltersWork(net, node.blocks, db.tickets)
      modifies db`tickets
      ensures db.Valid() && IntegrityChecked(net, env, node.blocks, old(db.tickets), db.tickets)
      ensures ok && db.broken == {} && OldDatabase(net, env, node.blocks, heightOf, old(db.tickets))
              && (lookup.Some? ==> KnowsHeights(lookup.value, heightOf, old(db.tickets)))
              ==> Atomic.StoredInv(env, db.tickets)
                  && Outcomes.ScanInv(net, Outcomes.ScanState(node.blocks, 0, db.tickets))
    {
      hide Batch, Covered, WellFiled, Scanner.FilterFinds, IntegrityChecked, OldDatabase, KnowsHeights,
           Atomic.StoredInv,
           Outcomes.ScanInv, Outcomes.Corrected, Outcomes.StartsByMaturity, Outcomes.ShouldCheck, Matching;
      ghost var before := db.tickets;
      ghost var events;
      ok, events := loops.CheckPurchaseHeights(env, lookup);
      ghost var repaired := db.tickets;
      HeightsCheckedBy(env, before, db.broken, events, ok);
      if !ok {
        RevokedCheckedBy(net, env, node.blocks, before, repaired, repaired, 0, db.broken, false);
        return;
      }
      FiltersWorkRepaired(net, env, node.blocks, before, events);
      ghost var start;
      ok, start := scans.CheckRevoked(net, node);
      RevokedCheckedBy(net, env, node.blocks, before, repaired, db.tickets, start, db.broken, ok);
      if ok && db.broken == {} {
        RepairedBy(net, env, node.blocks, lookup, heightOf, before, events, start, db.tickets);
      }
    }

    /** checkWalletConsistency as a transition. */
    method CheckWallets(heightOf: string -> int64, down: set<Fault>, ghost blocks: seq<Scanner.Block>,
                        ghost added: set<(string, string)>) returns (ghost addedNow: set<(string, string)>)
      requires Wired() && db.Valid() && AllSound(voting.wallets)
      modifies voting`wallets, db`tickets
      ensures db.Valid() && Checks(old(Now(blocks, added)), Now(blocks, addedNow))
    {
      hide WellFiled, SafePass, Lists, Votable, AllSound, Matching, IsEarliest, Reconciled;
      ghost var before := Now(blocks, added);
      ghost var ts, oldest, ws1, n, css, uptos := voting.CheckWalletConsistency(heightOf, down);
      addedNow := if ts == [] then added
                  else added + set h | h in Matching(before.db, Votable) :: (h, before.db[h].votingWIF);
      assert IsCheck(before, Now(blocks, addedNow), ts);
    }
  }
}
