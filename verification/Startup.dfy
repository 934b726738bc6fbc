/** The integrity check at startup, internal/vspm/databaseintegrity.go: what
    checkPurchaseHeights and then checkRevoked make of a database an old version
    left, and that they leave a good one alone. */
module Startup {
  import opened Encoding
  import opened Tickets
  import opened Lifecycle
  import opened UpdateLoop
  import Atomic
  import Outcomes
  import Scanner

  /** checkPurchaseHeights, whatever the node answers and whichever writes fail. */
  ghost predicate HeightsChecked(env: Env, before: Db, after: Db)
  {
    exists events: map<string, Event> :: IsHeightCheck(env, before, after, events)
  }

  ghost predicate IsHeightCheck(env: Env, before: Db, after: Db, events: map<string, Event>)
  {
    && events.Keys <= Matching(before, MissingHeight) && (forall h | h in events :: events[h].FixHeight?)
    && after == Batch(env, before, events)
  }

  /** checkRevoked, wherever it starts and whichever writes fail. */
  ghost predicate RevokedChecked(net: Scanner.Network, blocks: seq<Scanner.Block>, before: Db, after: Db)
  {
    || after == before
    || exists start: int, done: set<string> | 0 <= start ::
         after == Outcomes.Corrected(net, blocks, before, start, done)
  }

  ghost predicate IntegrityChecked(net: Scanner.Network, env: Env, blocks: seq<Scanner.Block>, before: Db, after: Db)
  {
    exists repaired: Db :: HeightsChecked(env, before, repaired) && RevokedChecked(net, blocks, repaired, after)
  }

  // ------------------------------------------------------ as lifecycle steps

  lemma RevokedEffect(env: Env, t: Ticket, o: Outcome)
    requires Normal(t) && IsRevoked(t)
    ensures Effect(env, FixRevoked(o), t) == Some(if o in {Missed, Expired} then t.(outcome := o) else t)
  {
    ApplyNone(map[t.hash := t]);
    ApplyOne(map[t.hash := t], Update(t.(outcome := o)));
    hide ApplyAll;
  }

  /** What checkRevoked writes is one FixRevoked step per revoked ticket it handles. */
  lemma CorrectedIsBatch(env: Env, net: Scanner.Network, blocks: seq<Scanner.Block>, before: Db, start: int,
                         done: set<string>)
    returns (events: map<string, Event>)
    requires 0 <= start && WellFiled(before)
    ensures events.Keys == Matching(before, IsRevoked) * done
    ensures forall h | h in events ::
              events[h] == FixRevoked(Outcomes.ScanOutcome(net, blocks, before[h], start, |blocks| - 1))
    ensures Outcomes.Corrected(net, blocks, before, start, done) == Batch(env, before, events)
  {
    events := map h | h in Matching(before, IsRevoked) * done ::
      FixRevoked(Outcomes.ScanOutcome(net, blocks, before[h], start, |blocks| - 1));
    var after := Outcomes.Corrected(net, blocks, before, start, done);
    hide Effect, Outcomes.ScanOutcome, Batch;
    forall h | h in before
      ensures if h in events then Effect(env, events[h], before[h]) == Some(after[h]) else after[h] == before[h]
    {
      if h in events {
        RevokedEffect(env, before[h], events[h].outcome);
      }
    }
    BatchIs(env, before, events, after);
  }

  // --------------------------------------------------------- a good database

  lemma NoHeightIsMissing(env: Env, before: Db, after: Db)
    requires Atomic.StoredInv(env, before) && HeightsChecked(env, before, after)
    ensures after == before
  {
    hide FeeCovered, Batch;
    var events :| IsHeightCheck(env, before, after, events);
    forall h | h in before ensures !MissingHeight(before[h]) {
      assert RecordInv(env, before[h]);
    }
    assert events == map[];
    BatchOfNone(env, before);
  }

  lemma NothingIsRevoked(net: Scanner.Network, env: Env, s: Outcomes.ScanState)
    requires Atomic.StoredInv(env, s.db) && Outcomes.ScanInv(net, s)
    ensures forall h | h in s.db :: !IsRevoked(s.db[h])
  {
    forall h | h in s.db ensures !IsRevoked(s.db[h]) {
      assert RecordInv(env, s.db[h]);
      if FeeIsConfirmed(s.db[h]) {
        assert Outcomes.TicketInv(net, s.blocks, s.last, s.db[h]);
        Outcomes.OutcomeValues(net, s.blocks, s.db[h], 0);
      }
      hide FeeCovered, Outcomes.ScanOutcome;
    }
  }

  /** On a database of good records with right outcomes the check does nothing. */
  lemma GoodDatabaseIsLeftAlone(net: Scanner.Network, env: Env, s: Outcomes.ScanState, after: Db)
    requires Atomic.StoredInv(env, s.db) && Outcomes.ScanInv(net, s)
             && IntegrityChecked(net, env, s.blocks, s.db, after)
    ensures after == s.db
  {
    hide Atomic.StoredInv, Outcomes.ScanInv, HeightsChecked, Outcomes.ScanOutcome;
    var repaired: Db :| HeightsChecked(env, s.db, repaired) && RevokedChecked(net, s.blocks, repaired, after);
    NoHeightIsMissing(env, s.db, repaired);
    NothingIsRevoked(net, env, s);
  }

  // --------------------------------------------------------- an old database

  /** A record that is good but for its height. */
  ghost predicate OldRecord(env: Env, t: Ticket)
  {
    RecordInv(env, t.(purchaseHeight := 1))
  }

  /** A fee-confirmed record of an old version: its height is the ticket's or
      missing, and its outcome that of a full scan or, for a ticket missed or
      expired, just "revoked". */
  ghost predicate OldTicket(net: Scanner.Network, blocks: seq<Scanner.Block>, height: int64, t: Ticket)
  {
    && Scanner.Decodable(net, t) && height > 0 && t.purchaseHeight in {0, height}
    && Outcomes.UnspentBelow(net, blocks, t, height + net.ticketMaturity)
    && var full := Outcomes.FullOutcome(net, blocks, t.(purchaseHeight := height));
       && (t.outcome in {Voted, Missed, Expired} ==> t.outcome == full)
       && (t.outcome == Revoked ==> full in {Missed, Expired})
  }

  ghost predicate OldDatabase(net: Scanner.Network, env: Env, blocks: seq<Scanner.Block>, heightOf: string -> int64,
                              db: Db)
  {
    && WellFiled(db)
    && (forall h | h in db :: OldRecord(env, db[h]))
    && (forall h | h in db && MissingHeight(db[h]) :: heightOf(h) > 0)
    && forall h | h in db && FeeIsConfirmed(db[h]) :: OldTicket(net, blocks, heightOf(h), db[h])
  }

  function Repaired(heightOf: string -> int64, t: Ticket): Ticket
  {
    if MissingHeight(t) then t.(purchaseHeight := heightOf(t.hash)) else t
  }

  lemma RepairedIsGood(env: Env, heightOf: string -> int64, t: Ticket)
    requires OldRecord(env, t) && (MissingHeight(t) ==> heightOf(t.hash) > 0)
    ensures RecordInv(env, Repaired(heightOf, t))
  {
    KeepsFee(env, t.(purchaseHeight := 1), Repaired(heightOf, t));
    hide FeeCovered;
  }

  /** The node knows every ticket whose height is missing, and no write fails. */
  ghost predicate AllHeightsFound(heightOf: string -> int64, before: Db, events: map<string, Event>)
  {
    && events.Keys == Matching(before, MissingHeight)
    && forall h | h in events ::
         events[h].FixHeight? && events[h].lookup.Found? && events[h].lookup.info.blockHeight == heightOf(h)
  }

  lemma HeightsAreRepaired(env: Env, heightOf: string -> int64, before: Db, events: map<string, Event>)
    requires WellFiled(before) && AllHeightsFound(heightOf, before, events)
    ensures Batch(env, before, events) == map h | h in before :: Repaired(heightOf, before[h])
  {
    hide Effect;
    forall h | h in events ensures Effect(env, events[h], before[h]) == Some(Repaired(heightOf, before[h])) {
      HeightEffect(env, before[h], events[h].lookup);
    }
  }

  lemma RepairedTicket(net: Scanner.Network, blocks: seq<Scanner.Block>, start: int, before: Db, repaired: Db,
                       height: int64, h: string)
    requires h in before && FeeIsConfirmed(before[h]) && before[h].confirmed
             && OldTicket(net, blocks, height, before[h])
    requires h in repaired && repaired[h] == before[h].(purchaseHeight := height)
    requires 0 <= start <= |blocks| && Outcomes.StartsByMaturity(net, repaired, IsRevoked, start)
    ensures var after := Outcomes.Corrected(net, blocks, repaired, start, repaired.Keys);
            && h in after && after[h] == repaired[h].(outcome := after[h].outcome)
            && (IsRevoked(before[h]) ==> after[h].outcome in {Missed, Expired})
            && Outcomes.TicketInv(net, blocks, 0, after[h])
  {
    var t := repaired[h];
    assert repaired.Keys - {} == repaired.Keys;
    if IsRevoked(t) {
      Outcomes.CheckGivesFullOutcome(net, blocks, repaired, start, {}, h);
    }
    var after := Outcomes.Corrected(net, blocks, repaired, start, repaired.Keys)[h];
    hide Scanner.FirstSpend, Scanner.SpentIn, Outcomes.Classify;
    assert Outcomes.FullOutcome(net, blocks, after) == Outcomes.FullOutcome(net, blocks, t);
  }

  lemma OutcomeKeepsRecord(env: Env, t: Ticket, u: Ticket)
    requires RecordInv(env, t) && u == t.(outcome := u.outcome) && (t.outcome == Unspent ==> u.outcome == Unspent)
    ensures RecordInv(env, u)
  {
    KeepsFee(env, t, u);
    hide FeeCovered;
  }

  lemma OldTicketIsConfirmed(env: Env, t: Ticket)
    requires OldRecord(env, t)
    ensures FeeIsConfirmed(t) ==> t.confirmed
  {
    hide FeeCovered;
  }

  /** The integrity check brings an old database into the state the runs of module
      Daemon start from: if the node knows every ticket with a missing height and no
      write fails, all records are good, and every paid ticket is as scans want it. */
  lemma OldDatabaseIsRepaired(net: Scanner.Network, env: Env, blocks: seq<Scanner.Block>, heightOf: string -> int64,
                              before: Db, events: map<string, Event>, start: int)
    requires blocks != [] && OldDatabase(net, env, blocks, heightOf, before)
             && AllHeightsFound(heightOf, before, events)
    requires 0 <= start <= |blocks| && Outcomes.StartsByMaturity(net, Batch(env, before, events), IsRevoked, start)
    ensures var repaired := Batch(env, before, events);
            var after := Outcomes.Corrected(net, blocks, repaired, start, repaired.Keys);
            && IntegrityChecked(net, env, blocks, before, after)
            && Atomic.StoredInv(env, after) && Outcomes.ScanInv(net, Outcomes.ScanState(blocks, 0, after))
  {
    hide Batch, Outcomes.StartsByMaturity, OldRecord, RecordInv, OldTicket, Outcomes.TicketInv, Outcomes.ScanOutcome;
    var repaired := Batch(env, before, events);
    var after := Outcomes.Corrected(net, blocks, repaired, start, repaired.Keys);
    assert IsHeightCheck(env, before, repaired, events);
    assert HeightsChecked(env, before, repaired) && RevokedChecked(net, blocks, repaired, after);
    HeightsAreRepaired(env, heightOf, before, events);
    forall h | h in after ensures RecordInv(env, after[h]) && after[h].hash == h {
      RepairedIsGood(env, heightOf, before[h]);
      OutcomeKeepsRecord(env, repaired[h], after[h]);
    }
    assert WellFiled(after) by {
      forall h | h in after ensures Normal(after[h]) {
        GoodIsNormal(env, after[h]);
      }
    }
    forall h | h in after && FeeIsConfirmed(after[h]) ensures Outcomes.TicketInv(net, blocks, 0, after[h]) {
      OldTicketIsConfirmed(env, before[h]);
      RepairedHeight(net, blocks, heightOf, before[h]);
      RepairedTicket(net, blocks, start, before, repaired, heightOf(h), h);
    }
  }

  lemma RepairedHeight(net: Scanner.Network, blocks: seq<Scanner.Block>, heightOf: string -> int64, t: Ticket)
    requires t.confirmed && OldTicket(net, blocks, heightOf(t.hash), t)
    ensures Repaired(heightOf, t) == t.(purchaseHeight := heightOf(t.hash))
  {
    hide Outcomes.FullOutcome, Outcomes.UnspentBelow;
  }

  lemma GoodIsNormal(env: Env, t: Ticket)
    requires RecordInv(env, t)
    ensures Normal(t)
  {
    hide FeeCovered;
  }

  /** The check leaves fees and keys alone. */
  predicate SameFee(t: Ticket, u: Ticket)
  {
    u == t.(purchaseHeight := u.purchaseHeight, outcome := u.outcome)
  }

  lemma RepairKeepsFees(net: Scanner.Network, env: Env, blocks: seq<Scanner.Block>, heightOf: string -> int64,
                        before: Db, events: map<string, Event>, start: int)
    requires WellFiled(before) && AllHeightsFound(heightOf, before, events) && 0 <= start
    ensures var repaired := Batch(env, before, events);
            var after := Outcomes.Corrected(net, blocks, repaired, start, repaired.Keys);
            forall h | h in before :: h in after && SameFee(before[h], after[h])
  {
    HeightsAreRepaired(env, heightOf, before, events);
    hide Batch, Outcomes.ScanOutcome, WellFiled, AllHeightsFound;
  }
}
