/** The background steps of internal/vspm: loops over the tickets a filter lists,
    each ticket read, changed and written back. Every loop is proved to perform
    one lifecycle step per listed ticket. */
module UpdateLoop {
  import opened Encoding
  import opened Tickets
  import opened Lifecycle
  import opened Wallets
  import Atomic
  import Outcomes
  import Scanner

  // ------------------------------------------------------ one step per ticket

  /** What a step leaves of the one record it concerns. */
  ghost function Effect(env: Env, e: Event, t: Ticket): Option<Ticket>
  {
    Atomic.Lookup(ApplyAll(map[t.hash := t], React(env, e, Some(t))), t.hash)
  }

  /** The database after each of the given steps on the ticket it is filed under. */
  ghost function Batch(env: Env, before: Db, events: map<string, Event>): Db
  {
    map h | h in before && (h in events ==> Effect(env, events[h], before[h]).Some?) ::
      if h in events then Effect(env, events[h], before[h]).value else before[h]
  }

  ghost function Replace(db: Db, h: string, r: Option<Ticket>): Db
  {
    if r.Some? then db[h := r.value] else db - {h}
  }

  /** Writes that concern one record act on that record alone. */
  lemma {:induction false} WritesAreLocal(db: Db, one: Db, h: string, ws: seq<Write>)
    requires forall w | w in ws :: Concerns(w, h)
    requires one.Keys <= {h} && Atomic.Lookup(db, h) == Atomic.Lookup(one, h)
    ensures ApplyAll(db, ws) == Replace(db, h, Atomic.Lookup(ApplyAll(one, ws), h))
    decreases ws
  {
    if ws == [] {
      assert Replace(db, h, Atomic.Lookup(db, h)) == db;
    } else {
      var db1, one1 := Apply(db, ws[0]), Apply(one, ws[0]);
      assert Concerns(ws[0], h);
      WritesAreLocal(db1, one1, h, ws[1..]);
      assert Replace(db1, h, Atomic.Lookup(ApplyAll(one1, ws[1..]), h))
             == Replace(db, h, Atomic.Lookup(ApplyAll(one1, ws[1..]), h));
    }
  }

  /** Performing the step of one more ticket. */
  lemma BatchGrows(env: Env, before: Db, events: map<string, Event>, h: string, e: Event)
    requires WellFiled(before) && h in before && h !in events && !e.FeeAddress?
    ensures h in Batch(env, before, events) && Batch(env, before, events)[h] == before[h]
    ensures ApplyAll(Batch(env, before, events), React(env, e, Some(before[h]))) == Batch(env, before, events[h := e])
  {
    hide React, ApplyAll;
    var t, db := before[h], Batch(env, before, events);
    StepConcernsItsTicket(env, e, t);
    WritesAreLocal(db, map[h := t], h, React(env, e, Some(t)));
    assert Replace(db, h, Effect(env, e, t)) == Batch(env, before, events[h := e]) by {
      hide Effect;
    }
  }

  lemma BatchOfNone(env: Env, before: Db)
    ensures Batch(env, before, map[]) == before
  {
    hide Effect;
  }

  /** What the steps send to voting wallets. */
  ghost function Sent(before: Db, events: map<string, Event>, hs: set<string>): set<(string, string)>
  {
    set h | h in hs && h in events && h in before && Atomic.ReachesWallet(Atomic.Step(h, events[h], 1), before[h]) ::
        (h, before[h].votingWIF)
  }

  /** A step that reaches a wallet has a first write to make, or needs none. */
  lemma ReachesWithAllWrites(env: Env, h: string, e: Event, t: Ticket)
    ensures Atomic.ReachesWallet(Atomic.Step(h, e, |React(env, e, Some(t))|), t)
            <==> Atomic.ReachesWallet(Atomic.Step(h, e, 1), t)
  {
    hide DropWrites;
  }

  /** A batch is a run of atomic steps, one for each ticket, in any order: what is
      proved of such runs in module Atomic holds of the background loops. */
  lemma {:induction false} BatchIsRun(env: Env, s: Atomic.State, before: Db, events: map<string, Event>,
                                      hs: seq<string>)
    returns (steps: seq<Atomic.Step>)
    requires WellFiled(before) && events.Keys <= before.Keys && forall h | h in events :: !events[h].FeeAddress?
    requires s.db == Batch(env, before, events - (set h | h in hs))
    requires forall i | 0 <= i < |hs| :: hs[i] in events
    requires forall i, j | 0 <= i < j < |hs| :: hs[i] != hs[j]
    ensures Atomic.Run(env, s, steps)
            == Atomic.State(Batch(env, before, events), s.added + Sent(before, events, set h | h in hs))
    ensures |steps| == |hs| && forall i | 0 <= i < |hs| :: steps[i].hash == hs[i] && steps[i].event == events[hs[i]]
    decreases hs
  {
    hide React, ApplyAll, Batch, WellFiled, Atomic.ReachesWallet, Sent;
    if hs == [] {
      steps := [];
      assert events - (set h | h in hs) == events;
      NothingToSend(before, events);
      assert (set h | h in hs) == {};
    } else {
      var h := hs[0];
      var done := events - (set k | k in hs);
      BatchGrows(env, before, done, h, events[h]);
      ReachesWithAllWrites(env, h, events[h], before[h]);
      assert done[h := events[h]] == events - (set k | k in hs[1..]);
      var first := Atomic.Step(h, events[h], |React(env, events[h], Some(before[h]))|);
      var rest := BatchIsRun(env, Atomic.Next(env, s, first), before, events, hs[1..]);
      steps := [first] + rest;
      assert steps[1..] == rest;
      SentGrows(before, events, h, hs);
    }
  }

  lemma NothingToSend(before: Db, events: map<string, Event>)
    ensures Sent(before, events, {}) == {}
  {
  }

  lemma SentGrows(before: Db, events: map<string, Event>, h: string, hs: seq<string>)
    requires hs != [] && hs[0] == h && h in events && h in before
    ensures Sent(before, events, set k | k in hs)
         == (if Atomic.ReachesWallet(Atomic.Step(h, events[h], 1), before[h]) then {(h, before[h].votingWIF)} else {})
            + Sent(before, events, set k | k in hs[1..])
  {
    hide Atomic.ReachesWallet;
    assert forall k :: k in hs <==> k == h || k in hs[1..];
  }

  /** The whole batch, from the database it was read from. */
  lemma LoopIsRun(env: Env, s: Atomic.State, events: map<string, Event>) returns (steps: seq<Atomic.Step>)
    requires WellFiled(s.db) && events.Keys <= s.db.Keys && forall h | h in events :: !events[h].FeeAddress?
    ensures Atomic.Run(env, s, steps)
            == Atomic.State(Batch(env, s.db, events), s.added + Sent(s.db, events, events.Keys))
  {
    hide Batch, Sent, WellFiled;
    var hs := DistinctListOf(events.Keys);
    assert (set h | h in hs) == events.Keys;
    assert events - (set h | h in hs) == map[];
    BatchOfNone(env, s.db);
    steps := BatchIsRun(env, s, s.db, events, hs);
  }

  lemma DistinctListOf(hs: set<string>) returns (r: seq<string>)
    ensures forall h :: h in r <==> h in hs
    ensures forall i, j | 0 <= i < j < |r| :: r[i] != r[j]
    decreases |hs|
  {
    if hs == {} {
      r := [];
    } else {
      var h :| h in hs;
      var rest := DistinctListOf(hs - {h});
      r := [h] + rest;
    }
  }

  // ------------------------------------------------------------- the loops

  /** What a loop over the tickets a filter lists has done: the step of each listed
      ticket the database accepts writes for, or of the first few when cancelled. */
  ghost predicate Covered(before: Db, broken: set<string>, p: Ticket -> bool, events: map<string, Event>,
                          cancelled: bool)
  {
    && events.Keys <= Matching(before, p) - broken
    && (!cancelled ==> events.Keys == Matching(before, p) - broken)
  }

  /** After the first n listed tickets. */
  ghost predicate Handled(env: Env, before: Db, db: Db, broken: set<string>, ts: seq<Ticket>, n: nat,
                          events: map<string, Event>)
    requires n <= |ts|
  {
    && db == Batch(env, before, events)
    && events.Keys == Hashes(ts[..n]) - broken
    && (forall h | h in events :: !events[h].FeeAddress?)
    && DistinctHashes(ts)
    && forall j | 0 <= j < |ts| :: ts[j].hash in before && before[ts[j].hash] == ts[j]
  }

  lemma HandledNone(env: Env, before: Db, broken: set<string>, p: Ticket -> bool, ts: seq<Ticket>)
    requires Lists(before, p, ts)
    ensures Handled(env, before, before, broken, ts, 0, map[])
  {
    BatchOfNone(env, before);
    assert Hashes(ts[..0]) == {};
  }

  lemma HandledOne(env: Env, before: Db, db: Db, db': Db, broken: set<string>, ts: seq<Ticket>, n: nat,
                   events: map<string, Event>, e: Event)
    returns (after: map<string, Event>)
    requires WellFiled(before) && n < |ts| && Handled(env, before, db, broken, ts, n, events) && !e.FeeAddress?
    requires db' == After(env, db, broken, e, ts[n])
    ensures after == if ts[n].hash in broken then events else events[ts[n].hash := e]
    ensures Handled(env, before, db', broken, ts, n + 1, after)
  {
    hide Batch, React, ApplyAll, WellFiled;
    var h := ts[n].hash;
    assert Hashes(ts[..n + 1]) == Hashes(ts[..n]) + {h} by {
      assert ts[..n + 1] == ts[..n] + [ts[n]];
    }
    assert h !in Hashes(ts[..n]);
    after := events;
    if h !in broken {
      BatchGrows(env, before, events, h, e);
      after := events[h := e];
    }
  }

  /** The record is still as the filter read it. */
  lemma StillAsRead(env: Env, before: Db, db: Db, broken: set<string>, ts: seq<Ticket>, n: nat,
                    events: map<string, Event>)
    requires n < |ts| && Handled(env, before, db, broken, ts, n, events)
    ensures ts[n].hash in db && db[ts[n].hash] == ts[n]
  {
    hide Effect;
    assert ts[n].hash !in Hashes(ts[..n]);
  }

  lemma LoopDone(env: Env, before: Db, db: Db, broken: set<string>, p: Ticket -> bool, ts: seq<Ticket>, n: nat,
                 events: map<string, Event>, cancelled: bool)
    requires WellFiled(before) && Lists(before, p, ts) && n <= |ts| && Handled(env, before, db, broken, ts, n, events)
    requires n < |ts| ==> cancelled
    ensures db == Batch(env, before, events) && Covered(before, broken, p, events, cancelled)
  {
    hide Batch;
    assert ts[..|ts|] == ts;
    forall h | h in Matching(before, p) ensures h in Hashes(ts) {
      assert before[h] in ts;
    }
  }

  lemma CheckTicketReaction(env: Env, t: Ticket, lookup: TxLookup)
    requires Unconfirmed(t)
    ensures var ws := React(env, CheckTicket(lookup), Some(t));
            if lookup.NoTxInfo? then ws == [Delete(t.hash)]
            else if lookup.RpcError? || lookup.info.confirmations < REQUIRED_CONFS then ws == []
            else ws == [Update(t.(purchaseHeight := lookup.info.blockHeight, confirmed := true))]
  {
  }

  lemma FieldReactions(env: Env, t: Ticket, lookup: TxLookup, sent: bool)
    ensures var ws := React(env, BroadcastFee(sent), Some(t));
            PendingFee(t) ==> ws == [Update(t.(feeTxStatus := if sent then FeeBroadcast else FeeError))]
    ensures var ws := React(env, FixHeight(lookup), Some(t));
            MissingHeight(t) ==>
              ws == if lookup.Found? then [Update(t.(purchaseHeight := lookup.info.blockHeight))] else []
  {
  }

  /** What one step leaves in the database. */
  ghost function After(env: Env, db: Db, broken: set<string>, e: Event, t: Ticket): Db
  {
    if t.hash in broken then db else ApplyAll(db, React(env, e, Some(t)))
  }

  // What the steps of a loop leave, field by field.

  lemma CheckTicketEffect(env: Env, t: Ticket, l: TxLookup)
    requires Normal(t) && !t.confirmed
    ensures Effect(env, CheckTicket(l), t)
         == if l.NoTxInfo? then None
            else if l.Found? && l.info.confirmations >= 6
            then Some(t.(purchaseHeight := l.info.blockHeight, confirmed := true))
            else Some(t)
  {
    CheckTicketReaction(env, t, l);
    var db := map[t.hash := t];
    ApplyNone(db);
    ApplyOne(db, Delete(t.hash));
    if l.Found? {
      ApplyOne(db, Update(t.(purchaseHeight := l.info.blockHeight, confirmed := true)));
    }
    hide React, ApplyAll;
  }

  lemma BroadcastEffect(env: Env, t: Ticket, sent: bool)
    requires Normal(t) && t.confirmed && t.feeTxStatus == FeeReceived
    ensures Effect(env, BroadcastFee(sent), t) == Some(t.(feeTxStatus := if sent then FeeBroadcast else FeeError))
  {
    FieldReactions(env, t, NoTxInfo, sent);
    ApplyOne(map[t.hash := t], Update(t.(feeTxStatus := if sent then FeeBroadcast else FeeError)));
    hide React, ApplyAll;
  }

  lemma HeightEffect(env: Env, t: Ticket, lookup: TxLookup)
    requires Normal(t) && t.confirmed && t.purchaseHeight == 0
    ensures Effect(env, FixHeight(lookup), t)
         == Some(if lookup.Found? then t.(purchaseHeight := lookup.info.blockHeight) else t)
  {
    FieldReactions(env, t, lookup, false);
    ApplyNone(map[t.hash := t]);
    if lookup.Found? {
      ApplyOne(map[t.hash := t], Update(t.(purchaseHeight := lookup.info.blockHeight)));
    }
    hide React, ApplyAll;
  }

  lemma ConfirmingMeans(env: Env, before: Db, broken: set<string>, events: map<string, Event>,
                        lookup: string -> TxLookup, cancelled: bool)
    requires WellFiled(before) && Covered(before, broken, Unconfirmed, events, cancelled)
    requires forall h | h in events :: events[h] == CheckTicket(lookup(h))
    ensures var after := Batch(env, before, events);
            && after.Keys <= before.Keys
            && (forall h | h in before && (before[h].confirmed || h in broken) :: h in after && after[h] == before[h])
            && (!cancelled ==>
                  forall h | h in before && !before[h].confirmed && h !in broken ::
                    && (h in after <==> !lookup(h).NoTxInfo?)
                    && (h in after ==>
                          var t, l := before[h], lookup(h);
                          after[h] == if l.Found? && l.info.confirmations >= 6
                                      then t.(purchaseHeight := l.info.blockHeight, confirmed := true) else t))
  {
    hide Effect;
    forall h | h in events
      ensures Effect(env, events[h], before[h])
           == if lookup(h).NoTxInfo? then None
              else if lookup(h).Found? && lookup(h).info.confirmations >= 6
              then Some(before[h].(purchaseHeight := lookup(h).info.blockHeight, confirmed := true))
              else Some(before[h])
    {
      CheckTicketEffect(env, before[h], lookup(h));
    }
    hide WellFiled;
  }

  lemma BroadcastingMeans(env: Env, before: Db, broken: set<string>, events: map<string, Event>,
                          sends: string -> bool, cancelled: bool)
    requires WellFiled(before) && Covered(before, broken, PendingFee, events, cancelled)
    requires forall h | h in events :: h in before && events[h] == BroadcastFee(sends(before[h].feeTxHex))
    ensures var after := Batch(env, before, events);
            && after.Keys == before.Keys
            && (forall h | h in before && after[h] != before[h] ::
                  before[h].confirmed && before[h].feeTxStatus == FeeReceived && h !in broken)
            && (!cancelled ==>
                  forall h | h in before && before[h].confirmed && before[h].feeTxStatus == FeeReceived
                             && h !in broken ::
                    var t := before[h];
                    after[h] == t.(feeTxStatus := if sends(t.feeTxHex) then FeeBroadcast else FeeError))
  {
    hide Effect;
    forall h | h in events
      ensures Effect(env, events[h], before[h])
           == Some(before[h].(feeTxStatus := if sends(before[h].feeTxHex) then FeeBroadcast else FeeError))
    {
      BroadcastEffect(env, before[h], sends(before[h].feeTxHex));
    }
    hide WellFiled;
  }

  lemma HeightsMean(env: Env, before: Db, broken: set<string>, events: map<string, Event>,
                    node: Option<string -> TxLookup>)
    requires WellFiled(before) && Covered(before, broken, MissingHeight, events, false)
    requires forall h | h in events :: node.Some? && events[h] == FixHeight(node.value(h))
    ensures var after := Batch(env, before, events);
            && after.Keys == before.Keys
            && (forall h | h in before && after[h] != before[h] ::
                  before[h].confirmed && before[h].purchaseHeight == 0 && h !in broken)
            && (node.Some? ==>
                  forall h | h in before && before[h].confirmed && before[h].purchaseHeight == 0 && h !in broken ::
                    after[h] == if node.value(h).Found?
                                then before[h].(purchaseHeight := node.value(h).info.blockHeight) else before[h])
  {
    hide Effect;
    forall h | h in events
      ensures Effect(env, events[h], before[h])
           == Some(if node.value(h).Found? then before[h].(purchaseHeight := node.value(h).info.blockHeight)
                   else before[h])
    {
      HeightEffect(env, before[h], node.value(h));
    }
    hide WellFiled;
  }

  lemma CheckFeeEffect(env: Env, e: Event, t: Ticket)
    requires Normal(t) && t.feeTxStatus == FeeBroadcast && e.CheckFee?
    ensures Effect(env, e, t).Some?
    ensures var u := Effect(env, e, t).value;
            && u == t.(feeTxStatus := u.feeTxStatus, feeTxHex := u.feeTxHex, voteChoices := u.voteChoices)
            && if !e.lookup.Found? then u == t.(feeTxStatus := FeeError)
               else if e.lookup.info.confirmations < 6 then u == t
               else
                 && u.feeTxStatus == FeeConfirmed && u.feeTxHex == ""
                 && (!e.toWallet ==> u.voteChoices == t.voteChoices)
  {
    if e.lookup.Found? && e.lookup.info.confirmations >= 6 {
      ConfirmedOnWallets(env, t, e);
      assert !e.toWallet ==> t.voteChoices.Entries() - Atomic.Agendas([]) == t.voteChoices.Entries();
    } else {
      CheckFeeReaction(env, t, e.lookup, e.dropped, e.toWallet);
      ApplyNone(map[t.hash := t]);
      ApplyOne(map[t.hash := t], Update(t.(feeTxStatus := FeeError)));
    }
    hide React, ApplyAll;
  }

  /** What addToWallets leaves of a record, field by field. */
  ghost predicate FeeChecked(t: Ticket, u: Ticket, l: TxLookup, toWallet: bool)
  {
    && u == t.(feeTxStatus := u.feeTxStatus, feeTxHex := u.feeTxHex, voteChoices := u.voteChoices)
    && if !l.Found? then u == t.(feeTxStatus := FeeError)
       else if l.info.confirmations < 6 then u == t
       else u.feeTxStatus == FeeConfirmed && u.feeTxHex == "" && (!toWallet ==> u.voteChoices == t.voteChoices)
  }

  lemma FeeCheckedRecords(env: Env, before: Db, broken: set<string>, events: map<string, Event>,
                          feeLookup: string -> TxLookup, ticketLookup: string -> TxLookup, cancelled: bool)
    requires WellFiled(before) && Covered(before, broken, UnconfirmedFee, events, cancelled)
    requires forall h | h in events :: h in before && IsFeeCheck(events[h], before[h], feeLookup, ticketLookup)
    ensures var after := Batch(env, before, events);
            && after.Keys == before.Keys
            && (forall h | h in events ::
                  before[h].feeTxStatus == FeeBroadcast && h !in broken
                  && FeeChecked(before[h], after[h], feeLookup(before[h].feeTxHash),
                                ticketLookup(before[h].hash).Found?))
            && (forall h | h in before && h !in events :: after[h] == before[h])
            && (!cancelled ==>
                  forall h | h in before && before[h].feeTxStatus == FeeBroadcast && h !in broken :: h in events)
  {
    hide Effect;
    forall h | h in events
      ensures Effect(env, events[h], before[h]).Some?
              && FeeChecked(before[h], Effect(env, events[h], before[h]).value, feeLookup(before[h].feeTxHash),
                            ticketLookup(before[h].hash).Found?)
    {
      CheckFeeEffect(env, events[h], before[h]);
    }
    hide WellFiled, FeeChecked;
  }

  lemma SentMeans(before: Db, events: map<string, Event>, h: string, feeLookup: string -> TxLookup,
                  ticketLookup: string -> TxLookup)
    requires h in events ==> h in before && IsFeeCheck(events[h], before[h], feeLookup, ticketLookup)
    ensures IsSent(before, events, h) <==>
              && h in before && h in events && before[h].feeTxStatus == FeeBroadcast
              && feeLookup(before[h].feeTxHash).Found? && feeLookup(before[h].feeTxHash).info.confirmations >= 6
              && ticketLookup(before[h].hash).Found?
  {
  }

  lemma DeliveringMeans(env: Env, before: Db, broken: set<string>, events: map<string, Event>, ws: seq<Wallet>,
                        ws': seq<Wallet>, feeLookup: string -> TxLookup, ticketLookup: string -> TxLookup,
                        down: set<Fault>, cancelled: bool)
    requires WellFiled(before) && Covered(before, broken, UnconfirmedFee, events, cancelled) && |ws'| == |ws|
    requires forall h | h in events :: h in before && IsFeeCheck(events[h], before[h], feeLookup, ticketLookup)
    requires forall k | 0 <= k < |ws| :: OnlySent(before, events, ws[k], ws'[k])
    requires ReachesAll(before, events, down, ws')
    requires down == {} ==> AllArrive(before, Batch(env, before, events), events, ws, ws')
    ensures !cancelled ==>
              forall k, h | 0 <= k < |ws'| && h in before && h !in broken
                            && before[h].feeTxStatus == FeeBroadcast && feeLookup(before[h].feeTxHash).Found?
                            && feeLookup(before[h].feeTxHash).info.confirmations >= 6 && ticketLookup(h).Found?
                            && ImportFails(k, h) !in down && AddTxFails(k, h) !in down ::
                h in ws'[k].tickets && before[h].votingWIF in ws'[k].keys
    ensures var after := Batch(env, before, events);
            && after.Keys == before.Keys
            && (forall h | h in before && after[h] != before[h] ::
                  before[h].feeTxStatus == FeeBroadcast && h !in broken)
            && (!cancelled ==>
                  forall h | h in before && before[h].feeTxStatus == FeeBroadcast && h !in broken ::
                    FeeChecked(before[h], after[h], feeLookup(before[h].feeTxHash),
                               ticketLookup(before[h].hash).Found?))
    ensures forall k, h | 0 <= k < |ws'| && h in ws'[k].tickets && h !in ws[k].tickets ::
              && h in before && before[h].feeTxStatus == FeeBroadcast && h in Batch(env, before, events)
              && var t, l := before[h], feeLookup(before[h].feeTxHash);
                 && l.Found? && l.info.confirmations >= 6 && ticketLookup(t.hash).Found?
                 && Batch(env, before, events)[h].feeTxStatus == FeeConfirmed && t.votingWIF in ws'[k].keys
    ensures down == {} && !cancelled ==>
              forall k, h | 0 <= k < |ws'| && h in before && h !in broken
                            && before[h].feeTxStatus == FeeBroadcast && feeLookup(before[h].feeTxHash).Found?
                            && feeLookup(before[h].feeTxHash).info.confirmations >= 6 && ticketLookup(h).Found? ::
                Handed(before[h], Batch(env, before, events), ws, ws'[k])
  {
    FeeCheckedRecords(env, before, broken, events, feeLookup, ticketLookup, cancelled);
    var after := Batch(env, before, events);
    assert forall h | h in before :: before[h].hash == h;
    hide Batch, WellFiled, Covered;
    forall h | h in before ensures IsSent(before, events, h) <==>
              && h in events && before[h].feeTxStatus == FeeBroadcast
              && feeLookup(before[h].feeTxHash).Found? && feeLookup(before[h].feeTxHash).info.confirmations >= 6
              && ticketLookup(h).Found?
    {
      SentMeans(before, events, h, feeLookup, ticketLookup);
    }
    hide IsSent, IsFeeCheck;
    forall k, h | 0 <= k < |ws'| && h in ws'[k].tickets && h !in ws[k].tickets
      ensures h in before && before[h].feeTxStatus == FeeBroadcast && h in after
      ensures feeLookup(before[h].feeTxHash).Found? && feeLookup(before[h].feeTxHash).info.confirmations >= 6
      ensures ticketLookup(before[h].hash).Found? && after[h].feeTxStatus == FeeConfirmed
      ensures before[h].votingWIF in ws'[k].keys
    {
      assert OnlySent(before, events, ws[k], ws'[k]);
    }
    forall k, h | down == {} && !cancelled && 0 <= k < |ws'| && h in before && h !in broken
                  && before[h].feeTxStatus == FeeBroadcast && feeLookup(before[h].feeTxHash).Found?
                  && feeLookup(before[h].feeTxHash).info.confirmations >= 6 && ticketLookup(h).Found?
      ensures Handed(before[h], after, ws, ws'[k])
    {
      IsHanded(env, before, events, ws, ws', feeLookup, ticketLookup, k, h);
    }
  }

  /** The wallet has the ticket, its key and every choice its record still has: those
      for which every wallet has an agenda. */
  ghost predicate Handed(t: Ticket, after: Db, ws: seq<Wallet>, w: Wallet)
  {
    && t.hash in after && t.hash in w.tickets && t.votingWIF in w.keys
    && (forall a | a in after[t.hash].voteChoices.Entries() ::
          a in w.tickets[t.hash] && w.tickets[t.hash][a] == after[t.hash].voteChoices.Entries()[a])
    && forall a | a in t.voteChoices.Entries() ::
         a in after[t.hash].voteChoices.Entries() <==> forall i | 0 <= i < |ws| :: a in ws[i].agendas
  }

  lemma IsHanded(env: Env, before: Db, events: map<string, Event>, ws: seq<Wallet>, ws': seq<Wallet>,
                 feeLookup: string -> TxLookup, ticketLookup: string -> TxLookup, k: nat, h: string)
    requires AllArrive(before, Batch(env, before, events), events, ws, ws') && k < |ws'|
    requires h in events && h in before && IsFeeCheck(events[h], before[h], feeLookup, ticketLookup)
    requires before[h].hash == h && before[h].feeTxStatus == FeeBroadcast && feeLookup(before[h].feeTxHash).Found?
    requires feeLookup(before[h].feeTxHash).info.confirmations >= 6 && ticketLookup(h).Found?
    ensures Handed(before[h], Batch(env, before, events), ws, ws'[k])
  {
    SentMeans(before, events, h, feeLookup, ticketLookup);
    hide Batch, IsSent, IsFeeCheck;
    assert Arrived(before[h], ws, k, ws'[k]) && KeepsShared(before, Batch(env, before, events), ws, h);
  }

  class Background {
    const db: TicketStore
    const voting: VotingWallets

    constructor (voting: VotingWallets)
      ensures this.voting == voting && this.db == voting.db
    {
      this.voting := voting;
      this.db := voting.db;
    }

    /** internal/vspm/update.go:56-116. */
    method UpdateUnconfirmed(ghost env: Env, lookup: string -> TxLookup, cancelAfter: Option<nat>)
      returns (ghost events: map<string, Event>)
      requires db.Valid()
      modifies db`tickets
      ensures db.Valid() && db.tickets == Batch(env, old(db.tickets), events)
      ensures Covered(old(db.tickets), db.broken, Unconfirmed, events, cancelAfter.Some?)
      ensures forall h | h in events :: events[h] == CheckTicket(lookup(h))
      ensures db.tickets.Keys <= old(db.tickets).Keys
      ensures forall h | h in old(db.tickets) && (old(db.tickets)[h].confirmed || h in db.broken) ::
                h in db.tickets && db.tickets[h] == old(db.tickets)[h]
      ensures cancelAfter == None ==>
                forall h | h in old(db.tickets) && !old(db.tickets)[h].confirmed && h !in db.broken ::
                  && (h in db.tickets <==> !lookup(h).NoTxInfo?)
                  && (h in db.tickets ==>
                        var t, l := old(db.tickets)[h], lookup(h);
                        db.tickets[h] == if l.Found? && l.info.confirmations >= 6
                                         then t.(purchaseHeight := l.info.blockHeight, confirmed := true) else t)
    {
      hide Batch, After, WellFiled, Handled, Lists, Covered;
      ghost var before := db.tickets;
      var ts := db.FilterTickets(Unconfirmed);
      ListedMatch(before, Unconfirmed, ts);
      events := map[];
      HandledNone(env, before, db.broken, Unconfirmed, ts);
      for i := 0 to |ts|
        invariant db.Valid() && Handled(env, before, db.tickets, db.broken, ts, i, events)
        invariant forall h | h in events :: events[h] == CheckTicket(lookup(h))
      {
        if cancelAfter == Some(i) {
          LoopDone(env, before, db.tickets, db.broken, Unconfirmed, ts, i, events, true);
          ConfirmingMeans(env, before, db.broken, events, lookup, true);
          return;
        }
        ghost var db0 := db.tickets;
        StillAsRead(env, before, db0, db.broken, ts, i, events);
        CheckUnconfirmed(env, ts[i], lookup(ts[i].hash));
        events := HandledOne(env, before, db0, db.tickets, db.broken, ts, i, events, CheckTicket(lookup(ts[i].hash)));
      }
      LoopDone(env, before, db.tickets, db.broken, Unconfirmed, ts, |ts|, events, cancelAfter.Some?);
      ConfirmingMeans(env, before, db.broken, events, lookup, cancelAfter.Some?);
    }

    /** update.go:71-114 for one ticket. */
    method CheckUnconfirmed(ghost env: Env, t: Ticket, lookup: TxLookup)
      requires db.Valid() && Unconfirmed(t) && t.hash in db.tickets
      modifies db`tickets
      ensures db.Valid() && db.tickets == After(env, old(db.tickets), db.broken, CheckTicket(lookup), t)
    {
      hide React, ApplyAll, WellFiled;
      var ticket := t;
      CheckTicketReaction(env, t, lookup);
      ApplyNone(db.tickets);
      ApplyOne(db.tickets, Delete(ticket.hash));
      match lookup {
        case NoTxInfo =>
          var ok := db.DeleteTicket(ticket);
        case RpcError =>
        case Found(info) =>
          if info.confirmations >= REQUIRED_CONFS {
            ticket := ticket.(purchaseHeight := info.blockHeight);
            ticket := ticket.(confirmed := true);
            ApplyOne(db.tickets, Update(ticket));
            var ok := db.UpdateTicket(ticket);
          }
      }
    }

    /** internal/vspm/update.go:118-150. */
    method BroadcastFees(ghost env: Env, sends: string -> bool, cancelAfter: Option<nat>)
      returns (ghost events: map<string, Event>)
      requires db.Valid()
      modifies db`tickets
      ensures db.Valid() && db.tickets == Batch(env, old(db.tickets), events)
      ensures Covered(old(db.tickets), db.broken, PendingFee, events, cancelAfter.Some?)
      ensures forall h | h in events ::
                h in old(db.tickets) && events[h] == BroadcastFee(sends(old(db.tickets)[h].feeTxHex))
      ensures db.tickets.Keys == old(db.tickets).Keys
      ensures forall h | h in old(db.tickets) && db.tickets[h] != old(db.tickets)[h] ::
                old(db.tickets)[h].confirmed && old(db.tickets)[h].feeTxStatus == FeeReceived && h !in db.broken
      ensures cancelAfter == None ==>
                forall h | h in old(db.tickets) && old(db.tickets)[h].confirmed
                           && old(db.tickets)[h].feeTxStatus == FeeReceived && h !in db.broken ::
                  var t := old(db.tickets)[h];
                  db.tickets[h] == t.(feeTxStatus := if sends(t.feeTxHex) then FeeBroadcast else FeeError)
    {
      hide Batch, After, WellFiled, Handled, Lists, Covered;
      ghost var before := db.tickets;
      var ts := db.FilterTickets(PendingFee);
      ListedMatch(before, PendingFee, ts);
      events := map[];
      HandledNone(env, before, db.broken, PendingFee, ts);
      for i := 0 to |ts|
        invariant db.Valid() && Handled(env, before, db.tickets, db.broken, ts, i, events)
        invariant forall h | h in events :: h in before && events[h] == BroadcastFee(sends(before[h].feeTxHex))
      {
        if cancelAfter == Some(i) {
          LoopDone(env, before, db.tickets, db.broken, PendingFee, ts, i, events, true);
          BroadcastingMeans(env, before, db.broken, events, sends, true);
          return;
        }
        ghost var db0 := db.tickets;
        StillAsRead(env, before, db0, db.broken, ts, i, events);
        SendFee(env, ts[i], sends(ts[i].feeTxHex));
        events := HandledOne(env, before, db0, db.tickets, db.broken, ts, i, events,
                             BroadcastFee(sends(ts[i].feeTxHex)));
      }
      LoopDone(env, before, db.tickets, db.broken, PendingFee, ts, |ts|, events, cancelAfter.Some?);
      BroadcastingMeans(env, before, db.broken, events, sends, cancelAfter.Some?);
    }

    /** update.go:133-148 for one ticket. */
    method SendFee(ghost env: Env, t: Ticket, sent: bool)
      requires db.Valid() && PendingFee(t) && t.hash in db.tickets
      modifies db`tickets
      ensures db.Valid() && db.tickets == After(env, old(db.tickets), db.broken, BroadcastFee(sent), t)
    {
      hide React, ApplyAll, WellFiled;
      var ticket := t;
      FieldReactions(env, t, NoTxInfo, sent);
      if !sent {
        ticket := ticket.(feeTxStatus := FeeError);
      } else {
        ticket := ticket.(feeTxStatus := FeeBroadcast);
      }
      ApplyOne(db.tickets, Update(ticket));
      var ok := db.UpdateTicket(ticket);
    }

    /** internal/vspm/databaseintegrity.go:33-73; None when the node is down. */
    method CheckPurchaseHeights(ghost env: Env, node: Option<string -> TxLookup>)
      returns (ok: bool, ghost events: map<string, Event>)
      requires db.Valid()
      modifies db`tickets
      ensures db.Valid() && db.tickets == Batch(env, old(db.tickets), events)
      ensures ok ==> Covered(old(db.tickets), db.broken, MissingHeight, events, false)
      ensures node.Some? ==> ok
      ensures !ok ==> events == map[]
      ensures forall h | h in events :: node.Some? && events[h] == FixHeight(node.value(h))
      ensures db.tickets.Keys == old(db.tickets).Keys
      ensures forall h | h in old(db.tickets) && db.tickets[h] != old(db.tickets)[h] ::
                old(db.tickets)[h].confirmed && old(db.tickets)[h].purchaseHeight == 0 && h !in db.broken
      ensures node.Some? ==>
                forall h | h in old(db.tickets) && old(db.tickets)[h].confirmed
                           && old(db.tickets)[h].purchaseHeight == 0 && h !in db.broken ::
                  db.tickets[h] == if node.value(h).Found?
                                   then old(db.tickets)[h].(purchaseHeight := node.value(h).info.blockHeight)
                                   else old(db.tickets)[h]
    {
      hide Batch, After, WellFiled, Handled, Lists, Covered;
      ghost var before := db.tickets;
      var ts := db.FilterTickets(MissingHeight);
      ListedMatch(before, MissingHeight, ts);
      events := map[];
      HandledNone(env, before, db.broken, MissingHeight, ts);
      if |ts| == 0 {
        LoopDone(env, before, db.tickets, db.broken, MissingHeight, ts, 0, events, false);
        HeightsMean(env, before, db.broken, events, node);
        return true, events;
      }
      if node.None? {
        BatchOfNone(env, before);
        return false, events;
      }
      for i := 0 to |ts|
        invariant db.Valid() && Handled(env, before, db.tickets, db.broken, ts, i, events)
        invariant forall h | h in events :: events[h] == FixHeight(node.value(h))
      {
        ghost var db0 := db.tickets;
        StillAsRead(env, before, db0, db.broken, ts, i, events);
        FixPurchaseHeight(env, ts[i], node.value(ts[i].hash));
        events := HandledOne(env, before, db0, db.tickets, db.broken, ts, i, events, FixHeight(node.value(ts[i].hash)));
      }
      LoopDone(env, before, db.tickets, db.broken, MissingHeight, ts, |ts|, events, false);
      HeightsMean(env, before, db.broken, events, node);
      ok := true;
    }

    /** databaseintegrity.go:56-70 for one ticket. */
    method FixPurchaseHeight(ghost env: Env, t: Ticket, lookup: TxLookup)
      requires db.Valid() && MissingHeight(t) && t.hash in db.tickets
      modifies db`tickets
      ensures db.Valid() && db.tickets == After(env, old(db.tickets), db.broken, FixHeight(lookup), t)
    {
      hide React, ApplyAll, WellFiled;
      FieldReactions(env, t, lookup, false);
      ApplyNone(db.tickets);
      if !lookup.Found? {
        return;
      }
      var ticket := t.(purchaseHeight := lookup.info.blockHeight);
      ApplyOne(db.tickets, Update(ticket));
      var ok := db.UpdateTicket(ticket);
    }

    /** internal/vspm/update.go:152-269. */
    method AddToWallets(ghost env: Env, feeLookup: string -> TxLookup, ticketLookup: string -> TxLookup,
                        down: set<Fault>, cancelAfter: Option<nat>)
      returns (ghost events: map<string, Event>)
      requires db.Valid()
      modifies voting`wallets, db`tickets
      ensures db.Valid() && db.tickets == Batch(env, old(db.tickets), events)
      ensures Covered(old(db.tickets), db.broken, UnconfirmedFee, events, cancelAfter.Some? || voting.wallets == [])
      ensures old(voting.wallets) == [] ==> events == map[]
      ensures forall h | h in events ::
                h in old(db.tickets) && IsFeeCheck(events[h], old(db.tickets)[h], feeLookup, ticketLookup)
      ensures |voting.wallets| == |old(voting.wallets)|
      ensures forall k | 0 <= k < |voting.wallets| ::
                OnlySent(old(db.tickets), events, old(voting.wallets)[k], voting.wallets[k])
      ensures down == {} ==> AllArrive(old(db.tickets), db.tickets, events, old(voting.wallets), voting.wallets)
      ensures db.tickets.Keys == old(db.tickets).Keys
      ensures forall h | h in old(db.tickets) && db.tickets[h] != old(db.tickets)[h] ::
                old(db.tickets)[h].feeTxStatus == FeeBroadcast && h !in db.broken
      ensures cancelAfter == None && old(voting.wallets) != [] ==>
                forall h | h in old(db.tickets) && old(db.tickets)[h].feeTxStatus == FeeBroadcast && h !in db.broken ::
                  FeeChecked(old(db.tickets)[h], db.tickets[h], feeLookup(old(db.tickets)[h].feeTxHash),
                             ticketLookup(old(db.tickets)[h].hash).Found?)
      ensures forall k, h | 0 <= k < |voting.wallets| && h in voting.wallets[k].tickets
                            && h !in old(voting.wallets)[k].tickets ::
                && h in old(db.tickets) && old(db.tickets)[h].feeTxStatus == FeeBroadcast
                && var t, l := old(db.tickets)[h], feeLookup(old(db.tickets)[h].feeTxHash);
                   && l.Found? && l.info.confirmations >= 6 && ticketLookup(t.hash).Found?
                   && db.tickets[h].feeTxStatus == FeeConfirmed && t.votingWIF in voting.wallets[k].keys
      ensures cancelAfter == None ==>
                forall k, h | 0 <= k < |voting.wallets| && h in old(db.tickets) && h !in db.broken
                              && old(db.tickets)[h].feeTxStatus == FeeBroadcast
                              && feeLookup(old(db.tickets)[h].feeTxHash).Found?
                              && feeLookup(old(db.tickets)[h].feeTxHash).info.confirmations >= 6
                              && ticketLookup(h).Found?
                              && ImportFails(k, h) !in down && AddTxFails(k, h) !in down ::
                  h in voting.wallets[k].tickets && old(db.tickets)[h].votingWIF in voting.wallets[k].keys
      ensures down == {} && cancelAfter == None ==>
                forall k, h | 0 <= k < |voting.wallets| && h in old(db.tickets) && h !in db.broken
                              && old(db.tickets)[h].feeTxStatus == FeeBroadcast
                              && feeLookup(old(db.tickets)[h].feeTxHash).Found?
                              && feeLookup(old(db.tickets)[h].feeTxHash).info.confirmations >= 6
                              && ticketLookup(h).Found? ::
                  Handed(old(db.tickets)[h], db.tickets, old(voting.wallets), voting.wallets[k])
    {
      hide Batch, After, WellFiled, Handled, Lists, Covered, AllGiven, IsFeeCheck, OnlySent, AllArrive, Sending,
           UnconfirmedFee;
      ghost var before, ws := db.tickets, voting.wallets;
      var ts := db.FilterTickets(UnconfirmedFee);
      ListedMatch(before, UnconfirmedFee, ts);
      FiledNormal(before, ts);
      events := map[];
      HandledNone(env, before, db.broken, UnconfirmedFee, ts);
      SendingBegins(before, ts, ws, feeLookup, ticketLookup, down);
      if |voting.wallets| == 0 {
        LoopDone(env, before, db.tickets, db.broken, UnconfirmedFee, ts, 0, events, true);
        SendingEnds(env, before, events, ts, 0, ws, ws, feeLookup, ticketLookup, down);
        DeliveringMeans(env, before, db.broken, events, ws, ws, feeLookup, ticketLookup, down, true);
        return;
      }
      for i := 0 to |ts|
        invariant db.Valid() && Handled(env, before, db.tickets, db.broken, ts, i, events)
        invariant Sending(before, events, ts, i, ws, voting.wallets, feeLookup, ticketLookup, down)
      {
        if cancelAfter == Some(i) {
          LoopDone(env, before, db.tickets, db.broken, UnconfirmedFee, ts, i, events, true);
          SendingEnds(env, before, events, ts, i, ws, voting.wallets, feeLookup, ticketLookup, down);
          DeliveringMeans(env, before, db.broken, events, ws, voting.wallets, feeLookup, ticketLookup, down, true);
          return;
        }
        ghost var db0, ws0, events0 := db.tickets, voting.wallets, events;
        StillAsRead(env, before, db0, db.broken, ts, i, events);
        HandledKeys(env, before, db0, db.broken, ts, i, events0);
        ghost var dropped, cs;
        dropped, cs := CheckFeeTx(env, ts[i], feeLookup(ts[i].feeTxHash), ticketLookup(ts[i].hash), down);
        ghost var e := CheckFee(feeLookup(ts[i].feeTxHash), dropped, ticketLookup(ts[i].hash).Found?);
        events := HandledOne(env, before, db0, db.tickets, db.broken, ts, i, events, e);
        SendingGoesOn(before, db.broken, events0, events, ts, i, e, cs, ws, ws0, voting.wallets, feeLookup,
                      ticketLookup, down);
      }
      LoopDone(env, before, db.tickets, db.broken, UnconfirmedFee, ts, |ts|, events, cancelAfter.Some?);
      SendingEnds(env, before, events, ts, |ts|, ws, voting.wallets, feeLookup, ticketLookup, down);
      DeliveringMeans(env, before, db.broken, events, ws, voting.wallets, feeLookup, ticketLookup, down,
                      cancelAfter.Some?);
    }

    /** update.go:177-267 for one ticket: wallets only hear of it once its fee has been
        recorded as confirmed. `cs` are the choices each wallet was given. */
    method CheckFeeTx(ghost env: Env, t: Ticket, lookup: TxLookup, ticketLookup: TxLookup, down: set<Fault>)
      returns (ghost dropped: seq<string>, ghost cs: seq<Choices>)
      requires db.Valid() && UnconfirmedFee(t) && Normal(t) && t.hash in db.tickets
      modifies voting`wallets, db`tickets
      ensures db.Valid() && db.tickets
              == After(env, old(db.tickets), db.broken, CheckFee(lookup, dropped, ticketLookup.Found?), t)
      ensures |voting.wallets| == |old(voting.wallets)|
      ensures if t.hash !in db.broken && Confirmations(lookup) >= REQUIRED_CONFS && ticketLookup.Found?
              then AllGiven(down, t, cs, old(voting.wallets), voting.wallets)
                   && cs[|cs| - 1] == t.voteChoices.Entries() - Atomic.Agendas(dropped)
              else voting.wallets == old(voting.wallets)
    {
      hide React, ApplyAll, WellFiled, DropWrites, Given;
      dropped, cs := [], [];
      var ticket := t;
      CheckFeeReaction(env, t, lookup, [], ticketLookup.Found?);
      ApplyNone(db.tickets);
      if !lookup.Found? {
        ticket := ticket.(feeTxStatus := FeeError);
        ApplyOne(db.tickets, Update(ticket));
        var ok := db.UpdateTicket(ticket);
        return;
      }
      if lookup.info.confirmations < REQUIRED_CONFS {
        return;
      }
      ticket := ticket.(feeTxHex := "");
      ticket := ticket.(feeTxStatus := FeeConfirmed);
      ghost var confirmed, db0, ws := ticket, db.tickets, voting.wallets;
      ApplyOne(db0, Update(ticket));
      var ok := db.UpdateTicket(ticket);
      if !ok {
        return;
      }
      if !ticketLookup.Found? {
        return;
      }
      var choices := ticket.voteChoices.entries;
      ghost var db1 := db.tickets;
      cs := [choices];
      NoDropWrites(db1, confirmed);
      for k := 0 to |voting.wallets|
        invariant db.Valid() && t.hash in db.tickets
        invariant |voting.wallets| == |ws| && |cs| == k + 1 && cs[0] == confirmed.voteChoices.Entries()
                  && cs[k] == choices
        invariant forall j | 0 <= j < k :: Given(down, j, t, cs[j], cs[j + 1], ws[j], voting.wallets[j])
        invariant forall j | k <= j < |ws| :: voting.wallets[j] == ws[j]
        invariant db.tickets == ApplyAll(db1, DropWrites(confirmed, dropped))
        invariant AfterDrops(confirmed, dropped) == WithEntries(confirmed, choices)
      {
        ghost var more;
        ghost var given, w := choices, voting.wallets[k];
        choices, more := GiveTicket(k, ticket, choices, down);
        SameTicketGiven(down, k, ticket, t, given, choices, w, voting.wallets[k]);
        DropsCompose(db1, confirmed, dropped, more);
        dropped, cs := dropped + more, cs + [choices];
      }
      WithoutAll(confirmed, dropped);
      CheckFeeReaction(env, t, lookup, dropped, true);
      FirstThenRest(db0, Update(confirmed), DropWrites(confirmed, dropped));
    }

    /** update.go:217-243 for one wallet: the ticket, then its choices. */
    method GiveTicket(k: nat, ticket: Ticket, choices: Choices, down: set<Fault>)
      returns (left: Choices, ghost dropped: seq<string>)
      requires db.Valid() && k < |voting.wallets| && ticket.hash in db.tickets && ticket.hash !in db.broken
      modifies voting`wallets, db`tickets
      ensures db.Valid() && ticket.hash in db.tickets
      ensures |voting.wallets| == |old(voting.wallets)| && voting.wallets == old(voting.wallets)[k := voting.wallets[k]]
      ensures Given(down, k, ticket, choices, left, old(voting.wallets[k]), voting.wallets[k])
      ensures db.tickets == ApplyAll(old(db.tickets), DropWrites(WithEntries(ticket, choices), dropped))
      ensures AfterDrops(WithEntries(ticket, choices), dropped) == WithEntries(ticket, left)
    {
      hide ApplyAll, DropWrites, Left, Pushed, Failing, WellFiled;
      left, dropped := choices, [];
      NoDropWrites(db.tickets, WithEntries(ticket, choices));
      var ok := voting.AddTicketForVoting(k, ticket, down);
      if !ok {
        return;
      }
      left, dropped := PushChoices(k, ticket, choices, down);
    }

    /** update.go:226-243: the choices one by one; an agenda the wallet does not know is
        taken out of the shared map and the record. */
    method PushChoices(k: nat, ticket: Ticket, choices: Choices, down: set<Fault>)
      returns (left: Choices, ghost dropped: seq<string>)
      requires db.Valid() && k < |voting.wallets| && ticket.hash in voting.wallets[k].tickets
      requires ticket.hash in db.tickets && ticket.hash !in db.broken
      modifies voting`wallets, db`tickets
      ensures db.Valid() && ticket.hash in db.tickets && |voting.wallets| == |old(voting.wallets)|
      ensures var known := old(voting.wallets[k]).agendas;
              var failing := Failing(down, k, ticket.hash, choices);
              && left == Left(choices, known, failing, {})
              && voting.wallets == old(voting.wallets)[k := Synced(old(voting.wallets[k]), ticket.hash,
                                                                   Pushed(choices, known, failing, {}))]
      ensures db.tickets == ApplyAll(old(db.tickets), DropWrites(WithEntries(ticket, choices), dropped))
      ensures AfterDrops(WithEntries(ticket, choices), dropped) == WithEntries(ticket, left)
    {
      hide ApplyAll, DropWrites, AfterDrops, Left, Pushed, Failing, WellFiled;
      ghost var h, w, db0, record := ticket.hash, voting.wallets[k], db.tickets, WithEntries(ticket, choices);
      ghost var failing := Failing(down, k, h, choices);
      left, dropped := choices, [];
      NothingHandled(choices, w.agendas, failing);
      NothingPushed(w, h);
      assert voting.wallets[k := w] == voting.wallets;
      NoDropWrites(db0, record);
      var todo := choices.Keys;
      while todo != {}
        invariant todo <= choices.Keys && db.Valid() && h in db.tickets
        invariant left == Left(choices, w.agendas, failing, todo)
        invariant |voting.wallets| == |old(voting.wallets)|
        invariant voting.wallets == old(voting.wallets)[k := Synced(w, h, Pushed(choices, w.agendas, failing, todo))]
        invariant db.tickets == ApplyAll(db0, DropWrites(record, dropped))
        invariant AfterDrops(record, dropped) == WithEntries(ticket, left)
        decreases |todo|
      {
        var agenda :| agenda in todo;
        HandleAgenda(choices, w.agendas, failing, todo, agenda);
        FailingHas(down, k, h, choices, agenda);
        SyncOne(w, h, Pushed(choices, w.agendas, failing, todo), agenda, choices[agenda]);
        todo := todo - {agenda};
        if SetFails(k, ticket.hash, agenda) in down {
          continue;
        }
        match SetVoteChoice(voting.wallets[k], agenda, choices[agenda], ticket.hash) {
          case Some(after) =>
            voting.wallets := voting.wallets[k := after];
          case None =>
            DropOneMore(db0, record, dropped, agenda);
            left := left - {agenda};
            var ok := db.UpdateTicket(WithEntries(ticket, left));
            dropped := dropped + [agenda];
        }
      }
    }
  }

  /** The record once the given agendas were taken out. */
  ghost function AfterDrops(t: Ticket, agendas: seq<string>): Ticket
    decreases agendas
  {
    if agendas == [] then t else AfterDrops(WithoutAgenda(t, agendas[0]), agendas[1..])
  }

  lemma {:induction false} DropsAppend(t: Ticket, ds: seq<string>, es: seq<string>)
    ensures DropWrites(t, ds + es) == DropWrites(t, ds) + DropWrites(AfterDrops(t, ds), es)
    ensures AfterDrops(t, ds + es) == AfterDrops(AfterDrops(t, ds), es)
    decreases ds
  {
    if ds == [] {
      assert ds + es == es;
    } else {
      assert (ds + es)[1..] == ds[1..] + es;
      DropsAppend(WithoutAgenda(t, ds[0]), ds[1..], es);
    }
  }

  lemma {:induction false} ApplyAppend(db: Db, a: seq<Write>, b: seq<Write>)
    ensures ApplyAll(db, a + b) == ApplyAll(ApplyAll(db, a), b)
    decreases a
  {
    if a == [] {
      assert a + b == b;
    } else {
      assert (a + b)[1..] == a[1..] + b;
      ApplyAppend(Apply(db, a[0]), a[1..], b);
    }
  }

  lemma NoDropWrites(db: Db, t: Ticket)
    ensures ApplyAll(db, DropWrites(t, [])) == db && AfterDrops(t, []) == t
  {
  }

  lemma DropsCompose(db: Db, t: Ticket, ds: seq<string>, es: seq<string>)
    ensures ApplyAll(db, DropWrites(t, ds + es))
            == ApplyAll(ApplyAll(db, DropWrites(t, ds)), DropWrites(AfterDrops(t, ds), es))
    ensures AfterDrops(t, ds + es) == AfterDrops(AfterDrops(t, ds), es)
  {
    DropsAppend(t, ds, es);
    ApplyAppend(db, DropWrites(t, ds), DropWrites(AfterDrops(t, ds), es));
  }

  lemma DropOneMore(db: Db, t: Ticket, ds: seq<string>, a: string)
    ensures var less := WithoutAgenda(AfterDrops(t, ds), a);
            && ApplyAll(db, DropWrites(t, ds + [a])) == Apply(ApplyAll(db, DropWrites(t, ds)), Update(less))
            && AfterDrops(t, ds + [a]) == less
  {
    hide AfterDrops, DropWrites, ApplyAll;
    DropsCompose(db, t, ds, [a]);
    OneDrop(ApplyAll(db, DropWrites(t, ds)), AfterDrops(t, ds), a);
  }

  lemma OneDrop(db: Db, t: Ticket, a: string)
    ensures ApplyAll(db, DropWrites(t, [a])) == Apply(db, Update(WithoutAgenda(t, a)))
    ensures AfterDrops(t, [a]) == WithoutAgenda(t, a)
  {
    var less := WithoutAgenda(t, a);
    assert [a][1..] == [];
    assert DropWrites(t, [a]) == [Update(less)];
    ApplyOne(db, Update(less));
  }

  lemma FirstThenRest(db: Db, w: Write, ws: seq<Write>)
    ensures ApplyAll(db, [w] + ws) == ApplyAll(Apply(db, w), ws)
  {
    ApplyAppend(db, [w], ws);
    ApplyOne(db, w);
  }

  lemma CheckFeeReaction(env: Env, t: Ticket, lookup: TxLookup, dropped: seq<string>, toWallet: bool)
    requires UnconfirmedFee(t)
    ensures var ws := React(env, CheckFee(lookup, dropped, toWallet), Some(t));
            if !lookup.Found? then ws == [Update(t.(feeTxStatus := FeeError))]
            else if lookup.info.confirmations < REQUIRED_CONFS then ws == []
            else if dropped == [] || !toWallet then ws == [Update(FeeConfirmedRecord(t))]
            else ws == [Update(FeeConfirmedRecord(t))] + DropWrites(FeeConfirmedRecord(t), dropped)
  {
    Atomic.NoDrops(FeeConfirmedRecord(t));
    hide DropWrites;
  }

  /** What handing a ticket to one wallet does to the wallet and the choices. */
  ghost predicate Given(down: set<Fault>, k: nat, t: Ticket, c: Choices, c': Choices, w: Wallet, w': Wallet)
  {
    if ImportFails(k, t.hash) in down then w' == w && c' == c
    else if AddTxFails(k, t.hash) in down then w' == ImportKey(w, t.votingWIF) && c' == c
    else
      var failing := Failing(down, k, t.hash, c);
      && c' == Left(c, w.agendas, failing, {})
      && w' == Synced(AddTx(ImportKey(w, t.votingWIF), t.hash), t.hash, Pushed(c, w.agendas, failing, {}))
  }

  lemma SameTicketGiven(down: set<Fault>, k: nat, t: Ticket, u: Ticket, c: Choices, c': Choices, w: Wallet, w': Wallet)
    requires Given(down, k, t, c, c', w, w') && u.hash == t.hash && u.votingWIF == t.votingWIF
    ensures Given(down, k, u, c, c', w, w')
  {
  }

  /** Every wallet in turn, starting from the stored choices. */
  ghost predicate AllGiven(down: set<Fault>, t: Ticket, cs: seq<Choices>, ws: seq<Wallet>, ws': seq<Wallet>)
  {
    && |ws'| == |ws| && |cs| == |ws| + 1 && cs[0] == t.voteChoices.Entries()
    && forall k | 0 <= k < |ws| :: Given(down, k, t, cs[k], cs[k + 1], ws[k], ws'[k])
  }

  ghost predicate IsFeeCheck(e: Event, t: Ticket, feeLookup: string -> TxLookup, ticketLookup: string -> TxLookup)
  {
    e.CheckFee? && e.lookup == feeLookup(t.feeTxHash) && e.toWallet == ticketLookup(t.hash).Found?
  }

  /** The step of that ticket reaches wallets: its fee was confirmed, and recorded
      so, and the ticket itself was found. */
  ghost predicate IsSent(before: Db, events: map<string, Event>, h: string)
  {
    h in before && h in events && Atomic.ReachesWallet(Atomic.Step(h, events[h], 1), before[h])
  }

  /** A ticket new on the wallet was sent to it, and the wallet has its key. */
  ghost predicate OnlySent(before: Db, events: map<string, Event>, w: Wallet, w': Wallet)
  {
    && w.keys <= w'.keys
    && forall h | h in w'.tickets :: h in w.tickets || (IsSent(before, events, h) && before[h].votingWIF in w'.keys)
  }

  /** Wallet k has the ticket, its key, and the choices all wallets up to it know. */
  ghost predicate Arrived(t: Ticket, ws: seq<Wallet>, k: nat, w': Wallet)
    requires k < |ws|
  {
    && t.hash in w'.tickets && t.votingWIF in w'.keys
    && w'.tickets[t.hash] == Base(ws[k], t.hash) + Remaining(t.voteChoices.Entries(), ws, k + 1)
  }

  /** Every ticket that was sent is on every wallet, with its key and with every
      choice its record still has. */
  ghost predicate AllArrive(before: Db, after: Db, events: map<string, Event>, ws: seq<Wallet>, ws': seq<Wallet>)
  {
    && |ws'| == |ws|
    && (forall h, k | h in events && IsSent(before, events, h) && 0 <= k < |ws| ::
          Arrived(before[h], ws, k, ws'[k]) && h in after && before[h].hash == h
          && Agrees(ws'[k].tickets[h], after[h].voteChoices.Entries()))
    && forall h | h in events && IsSent(before, events, h) :: KeepsShared(before, after, ws, h)
  }

  /** The record keeps the choices for which every wallet has an agenda. */
  ghost predicate KeepsShared(before: Db, after: Db, ws: seq<Wallet>, h: string)
  {
    && h in before && h in after
    && after[h].voteChoices.Entries() == Remaining(before[h].voteChoices.Entries(), ws, |ws|)
  }

  /** Every ticket that was sent is on each wallet that took its key and transaction. */
  ghost predicate ReachesAll(before: Db, events: map<string, Event>, down: set<Fault>, ws': seq<Wallet>)
  {
    forall h, k | h in events && IsSent(before, events, h) && 0 <= k < |ws'|
                  && ImportFails(k, h) !in down && AddTxFails(k, h) !in down ::
      h in ws'[k].tickets && before[h].votingWIF in ws'[k].keys
  }

  /** Fault-free, after the tickets in `handled`. */
  ghost predicate SoFar(before: Db, events: map<string, Event>, ws: seq<Wallet>, ws': seq<Wallet>, handled: set<string>)
  {
    && |ws'| == |ws| && events.Keys <= handled
    && (forall k | 0 <= k < |ws| :: ws'[k].agendas == ws[k].agendas)
    && (forall k, h | 0 <= k < |ws| && h !in handled :: Base(ws'[k], h) == Base(ws[k], h))
    && forall h, k | h in events && IsSent(before, events, h) && 0 <= k < |ws| :: Arrived(before[h], ws, k, ws'[k])
  }

  /** What is dropped from a record is what some wallet has no agenda for. */
  ghost predicate DropsShared(before: Db, events: map<string, Event>, ws: seq<Wallet>)
  {
    forall h | h in events && IsSent(before, events, h) ::
      events[h].CheckFee?
      && before[h].voteChoices.Entries() - Atomic.Agendas(events[h].dropped)
         == Remaining(before[h].voteChoices.Entries(), ws, |ws|)
  }

  lemma SameRemaining(c: Choices, ws: seq<Wallet>, ws': seq<Wallet>, n: nat)
    requires n <= |ws| == |ws'| && forall k | 0 <= k < |ws| :: ws'[k].agendas == ws[k].agendas
    ensures Remaining(c, ws', n) == Remaining(c, ws, n)
  {
  }

  /** Only the ticket's own entry changes. */
  lemma GivenElsewhere(down: set<Fault>, k: nat, t: Ticket, c: Choices, c': Choices, w: Wallet, w': Wallet, h: string)
    requires Given(down, k, t, c, c', w, w')
    ensures w'.agendas == w.agendas && w.keys <= w'.keys
    ensures h != t.hash ==> Base(w', h) == Base(w, h) && (h in w'.tickets <==> h in w.tickets)
  {
    hide Pushed, Left, Failing;
  }

  lemma OnlyOneMoreSent(before: Db, events: map<string, Event>, after: map<string, Event>, h: string,
                        w: Wallet, w1: Wallet, w': Wallet)
    requires OnlySent(before, events, w, w1)
    requires events.Keys <= after.Keys && forall g | g in events :: after[g] == events[g]
    requires w' != w1 ==>
               IsSent(before, after, h) && w'.tickets.Keys <= w1.tickets.Keys + {h}
               && w'.keys == w1.keys + {before[h].votingWIF}
    ensures OnlySent(before, after, w, w')
  {
    hide Atomic.ReachesWallet;
  }

  lemma StillArrived(t: Ticket, ws: seq<Wallet>, k: nat, w1: Wallet, w': Wallet)
    requires k < |ws| && Arrived(t, ws, k, w1) && w1.keys <= w'.keys
    requires Base(w', t.hash) == Base(w1, t.hash) && (t.hash in w'.tickets <==> t.hash in w1.tickets)
    ensures Arrived(t, ws, k, w')
  {
  }

  lemma JustArrived(t: Ticket, ws: seq<Wallet>, k: nat, cs: seq<Choices>, ws0: seq<Wallet>, ws': seq<Wallet>)
    requires AllGiven({}, t, cs, ws0, ws') && |ws0| == |ws| && k < |ws| && forall j | 0 <= j < |ws| ::
               ws0[j].agendas == ws[j].agendas
    requires Base(ws0[k], t.hash) == Base(ws[k], t.hash)
    ensures Arrived(t, ws, k, ws'[k])
  {
    hide Given, Remaining, Base;
    GivenToAll(t, cs, ws0, ws', |ws0|);
    SameRemaining(t.voteChoices.Entries(), ws, ws0, k + 1);
  }

  lemma LeftForAll(t: Ticket, ws: seq<Wallet>, cs: seq<Choices>, ws0: seq<Wallet>, ws': seq<Wallet>)
    requires AllGiven({}, t, cs, ws0, ws') && |ws0| == |ws| && forall j | 0 <= j < |ws| ::
               ws0[j].agendas == ws[j].agendas
    ensures |cs| == |ws| + 1 && cs[|ws|] == Remaining(t.voteChoices.Entries(), ws, |ws|)
  {
    GivenToAll(t, cs, ws0, ws', |ws0|);
    SameRemaining(t.voteChoices.Entries(), ws, ws0, |ws|);
    hide Given, Remaining;
  }

  /** The wallets after the first n tickets. */
  ghost predicate Sending(before: Db, events: map<string, Event>, ts: seq<Ticket>, n: nat, ws: seq<Wallet>,
                          ws': seq<Wallet>,
                          feeLookup: string -> TxLookup, ticketLookup: string -> TxLookup, down: set<Fault>)
    requires n <= |ts|
  {
    && |ws'| == |ws|
    && (forall h | h in events ::
         h in before && UnconfirmedFee(before[h]) && IsFeeCheck(events[h], before[h], feeLookup, ticketLookup))
    && (forall k | 0 <= k < |ws| :: OnlySent(before, events, ws[k], ws'[k]))
    && ReachesAll(before, events, down, ws')
    && (down == {} ==> SoFar(before, events, ws, ws', Hashes(ts[..n])) && DropsShared(before, events, ws))
  }

  lemma SendingBegins(before: Db, ts: seq<Ticket>, ws: seq<Wallet>, feeLookup: string -> TxLookup,
                      ticketLookup: string -> TxLookup, down: set<Fault>)
    ensures Sending(before, map[], ts, 0, ws, ws, feeLookup, ticketLookup, down)
  {
    NothingSent(before, ws);
    assert ts[..0] == [];
    hide SoFar, DropsShared, OnlySent, IsSent;
  }

  lemma SendingGoesOn(before: Db, broken: set<string>, events: map<string, Event>, after: map<string, Event>,
                      ts: seq<Ticket>, i: nat,
                      e: Event, cs: seq<Choices>, ws: seq<Wallet>, ws0: seq<Wallet>, ws': seq<Wallet>,
                      feeLookup: string -> TxLookup, ticketLookup: string -> TxLookup, down: set<Fault>)
    requires WellFiled(before) && DistinctHashes(ts) && i < |ts|
    requires ts[i].hash in before && before[ts[i].hash] == ts[i] && UnconfirmedFee(ts[i])
             && events.Keys <= Hashes(ts[..i])
    requires after == if ts[i].hash in broken then events else events[ts[i].hash := e]
    requires e.CheckFee? && e.lookup == feeLookup(ts[i].feeTxHash) && e.toWallet == ticketLookup(ts[i].hash).Found?
    requires |ws'| == |ws0|
             && if ts[i].hash !in broken && Confirmations(e.lookup) >= REQUIRED_CONFS && e.toWallet
                then AllGiven(down, ts[i], cs, ws0, ws')
                  && cs[|cs| - 1] == ts[i].voteChoices.Entries() - Atomic.Agendas(e.dropped)
                else ws' == ws0
    requires Sending(before, events, ts, i, ws, ws0, feeLookup, ticketLookup, down)
    ensures Sending(before, after, ts, i + 1, ws, ws', feeLookup, ticketLookup, down)
  {
    hide AllGiven, Given, OnlySent, SoFar, DropsShared, ReachesAll, Hashes, WellFiled, UnconfirmedFee;
    var t, h := ts[i], ts[i].hash;
    OneMoreReaches(before, broken, events, after, ts, i, e, cs, ws0, ws', down);
    NewInList(ts, i);
    SentIfGiven(before, broken, after, t, e);
    forall k | 0 <= k < |ws| ensures OnlySent(before, after, ws[k], ws'[k]) {
      if ws' != ws0 {
        GivenAt(down, t, cs, ws0, ws', k);
        GivenGrows(down, k, t, cs[k], cs[k + 1], ws0[k], ws'[k]);
      }
      OnlyOneMoreSent(before, events, after, h, ws[k], ws0[k], ws'[k]);
    }
    if down == {} {
      OneMoreArrived(before, broken, events, after, ts, i, e, cs, ws, ws0, ws');
    }
  }

  lemma OneMoreReaches(before: Db, broken: set<string>, events: map<string, Event>, after: map<string, Event>,
                       ts: seq<Ticket>, i: nat, e: Event, cs: seq<Choices>, ws0: seq<Wallet>, ws': seq<Wallet>,
                       down: set<Fault>)
    requires i < |ts| && ts[i].hash in before && before[ts[i].hash] == ts[i] && events.Keys <= Hashes(ts[..i])
    requires UnconfirmedFee(ts[i]) && e.CheckFee? && DistinctHashes(ts)
    requires after == if ts[i].hash in broken then events else events[ts[i].hash := e]
    requires |ws'| == |ws0|
             && if ts[i].hash !in broken && Confirmations(e.lookup) >= REQUIRED_CONFS && e.toWallet
                then AllGiven(down, ts[i], cs, ws0, ws') else ws' == ws0
    requires ReachesAll(before, events, down, ws0)
    ensures ReachesAll(before, after, down, ws')
  {
    hide AllGiven, Given, Hashes;
    NewInList(ts, i);
    forall h, k | h in after && IsSent(before, after, h) && 0 <= k < |ws'|
                  && ImportFails(k, h) !in down && AddTxFails(k, h) !in down
      ensures h in ws'[k].tickets && before[h].votingWIF in ws'[k].keys
    {
      if ws' != ws0 {
        GivenAt(down, ts[i], cs, ws0, ws', k);
        GivenGrows(down, k, ts[i], cs[k], cs[k + 1], ws0[k], ws'[k]);
      }
      if h != ts[i].hash {
        assert h in events && IsSent(before, events, h);
      } else if ws' == ws0 {
        assert Confirmations(e.lookup) >= REQUIRED_CONFS && e.toWallet;
        GivenAt(down, ts[i], cs, ws0, ws', k);
        GivenGrows(down, k, ts[i], cs[k], cs[k + 1], ws0[k], ws'[k]);
      }
    }
  }

  lemma SentIfGiven(before: Db, broken: set<string>, after: map<string, Event>, t: Ticket, e: Event)
    requires t.hash in before && before[t.hash] == t && UnconfirmedFee(t) && e.CheckFee?
    requires t.hash !in broken ==> t.hash in after && after[t.hash] == e
    ensures t.hash !in broken && Confirmations(e.lookup) >= REQUIRED_CONFS && e.toWallet
            ==> IsSent(before, after, t.hash)
  {
  }

  lemma NothingSent(before: Db, ws: seq<Wallet>)
    ensures forall k | 0 <= k < |ws| :: OnlySent(before, map[], ws[k], ws[k])
    ensures SoFar(before, map[], ws, ws, Hashes([])) && DropsShared(before, map[], ws)
  {
  }

  lemma HandledKeys(env: Env, before: Db, db: Db, broken: set<string>, ts: seq<Ticket>, n: nat,
                    events: map<string, Event>)
    requires n <= |ts| && Handled(env, before, db, broken, ts, n, events)
    ensures events.Keys <= Hashes(ts[..n]) && DistinctHashes(ts)
  {
  }

  lemma NewInList(ts: seq<Ticket>, i: nat)
    requires i < |ts| && DistinctHashes(ts)
    ensures Hashes(ts[..i + 1]) == Hashes(ts[..i]) + {ts[i].hash} && ts[i].hash !in Hashes(ts[..i])
  {
    assert ts[..i + 1] == ts[..i] + [ts[i]];
  }

  lemma GivenAt(down: set<Fault>, t: Ticket, cs: seq<Choices>, ws: seq<Wallet>, ws': seq<Wallet>, k: nat)
    requires AllGiven(down, t, cs, ws, ws') && k < |ws|
    ensures |cs| == |ws| + 1 && Given(down, k, t, cs[k], cs[k + 1], ws[k], ws'[k])
  {
  }

  lemma OneMoreArrived(before: Db, broken: set<string>, events: map<string, Event>, after: map<string, Event>,
                       ts: seq<Ticket>, i: nat,
                       e: Event, cs: seq<Choices>, ws: seq<Wallet>, ws0: seq<Wallet>, ws': seq<Wallet>)
    requires WellFiled(before)
    requires i < |ts| && ts[i].hash in before && before[ts[i].hash] == ts[i] && UnconfirmedFee(ts[i]) && e.CheckFee?
             && DistinctHashes(ts)
    requires |ws0| == |ws| == |ws'|
    requires after == if ts[i].hash in broken then events else events[ts[i].hash := e]
    requires if ts[i].hash !in broken && Confirmations(e.lookup) >= REQUIRED_CONFS && e.toWallet
             then AllGiven({}, ts[i], cs, ws0, ws')
               && cs[|cs| - 1] == ts[i].voteChoices.Entries() - Atomic.Agendas(e.dropped)
             else ws' == ws0
    requires SoFar(before, events, ws, ws0, Hashes(ts[..i])) && DropsShared(before, events, ws)
    ensures SoFar(before, after, ws, ws', Hashes(ts[..i + 1])) && DropsShared(before, after, ws)
  {
    hide AllGiven, Given, Arrived, Remaining, Base, Hashes;
    var t, h := ts[i], ts[i].hash;
    NewInList(ts, i);
    assert forall g | g in events :: IsSent(before, after, g) <==> IsSent(before, events, g);
    if ws' != ws0 {
      forall k, g | 0 <= k < |ws|
        ensures ws'[k].agendas == ws0[k].agendas && ws0[k].keys <= ws'[k].keys
        ensures g != h ==> Base(ws'[k], g) == Base(ws0[k], g) && (g in ws'[k].tickets <==> g in ws0[k].tickets)
      {
        GivenAt({}, t, cs, ws0, ws', k);
        GivenElsewhere({}, k, t, cs[k], cs[k + 1], ws0[k], ws'[k], g);
      }
    }
    forall g | g in after && IsSent(before, after, g)
      ensures after[g].CheckFee?
      ensures before[g].voteChoices.Entries() - Atomic.Agendas(after[g].dropped)
              == Remaining(before[g].voteChoices.Entries(), ws, |ws|)
    {
      if g == h && h !in broken {
        LeftForAll(t, ws, cs, ws0, ws');
      }
    }
    forall g, k | g in after && IsSent(before, after, g) && 0 <= k < |ws| ensures Arrived(before[g], ws, k, ws'[k]) {
      if g == h {
        JustArrived(t, ws, k, cs, ws0, ws');
      } else {
        assert before[g].hash == g;
        StillArrived(before[g], ws, k, ws0[k], ws'[k]);
      }
    }
  }

  /** What the database says of such a ticket afterwards, whatever agendas were
      dropped: fee confirmed, same voting key. */
  lemma ConfirmedOnWallets(env: Env, t: Ticket, e: Event)
    requires UnconfirmedFee(t) && Normal(t) && e.CheckFee? && Confirmations(e.lookup) >= REQUIRED_CONFS
    ensures Effect(env, e, t)
         == Some(WithEntries(FeeConfirmedRecord(t),
                             t.voteChoices.Entries() - Atomic.Agendas(if e.toWallet then e.dropped else [])))
  {
    var u, db := FeeConfirmedRecord(t), map[t.hash := t];
    CheckFeeReaction(env, t, e.lookup, e.dropped, e.toWallet);
    var agendas := if e.toWallet then e.dropped else [];
    Atomic.NoDrops(u);
    assert React(env, e, Some(t)) == [Update(u)] + DropWrites(u, agendas) by { hide DropWrites; }
    hide React;
    FirstThenRest(db, Update(u), DropWrites(u, agendas));
    var db1 := Apply(db, Update(u));
    hide DropWrites, ApplyAll;
    if agendas == [] {
      NoDropWrites(db1, u);
      assert t.voteChoices.Entries() - Atomic.Agendas([]) == t.voteChoices.Entries();
    } else {
      DroppedIsNormal(db1, u, agendas);
    }
  }

  lemma {:induction false} WithoutAll(t: Ticket, agendas: seq<string>)
    ensures AfterDrops(t, agendas).voteChoices.Entries() == t.voteChoices.Entries() - Atomic.Agendas(agendas)
    decreases agendas
  {
    if agendas == [] {
      assert t.voteChoices.Entries() - Atomic.Agendas(agendas) == t.voteChoices.Entries();
    } else {
      WithoutAll(WithoutAgenda(t, agendas[0]), agendas[1..]);
      assert Atomic.Agendas(agendas) == {agendas[0]} + Atomic.Agendas(agendas[1..]);
    }
  }

  /** The record of an arrived ticket keeps only choices that every wallet has. */
  lemma SendingEnds(env: Env, before: Db, events: map<string, Event>, ts: seq<Ticket>, n: nat, ws: seq<Wallet>,
                    ws': seq<Wallet>,
                    feeLookup: string -> TxLookup, ticketLookup: string -> TxLookup, down: set<Fault>)
    requires WellFiled(before) && n <= |ts| && Sending(before, events, ts, n, ws, ws', feeLookup, ticketLookup, down)
    ensures |ws'| == |ws|
    ensures forall h | h in events :: h in before && IsFeeCheck(events[h], before[h], feeLookup, ticketLookup)
    ensures forall k | 0 <= k < |ws| :: OnlySent(before, events, ws[k], ws'[k])
    ensures ReachesAll(before, events, down, ws')
    ensures down == {} ==> AllArrive(before, Batch(env, before, events), events, ws, ws')
  {
    hide OnlySent, IsFeeCheck, Batch, Hashes, ReachesAll;
    forall h, k | down == {} && h in events && IsSent(before, events, h) && 0 <= k < |ws'|
      ensures Arrived(before[h], ws, k, ws'[k]) && before[h].hash == h
      ensures h in Batch(env, before, events)
              && Agrees(ws'[k].tickets[h], Batch(env, before, events)[h].voteChoices.Entries())
    {
      ArrivedAgrees(env, before, events, ws, ws', h, k);
    }
    forall h | down == {} && h in events && IsSent(before, events, h)
      ensures KeepsShared(before, Batch(env, before, events), ws, h)
    {
      SharedAreKept(env, before, events, ws, h);
    }
    hide Arrived, Agrees, IsSent, SoFar, DropsShared, KeepsShared;
  }

  lemma SharedAreKept(env: Env, before: Db, events: map<string, Event>, ws: seq<Wallet>, h: string)
    requires WellFiled(before) && h in events && IsSent(before, events, h) && UnconfirmedFee(before[h])
    requires DropsShared(before, events, ws)
    ensures KeepsShared(before, Batch(env, before, events), ws, h)
  {
    assert Normal(before[h]);
    ConfirmedOnWallets(env, before[h], events[h]);
    hide Remaining, Effect;
  }

  lemma ArrivedAgrees(env: Env, before: Db, events: map<string, Event>, ws: seq<Wallet>, ws': seq<Wallet>, h: string,
                      k: nat)
    requires WellFiled(before) && h in events && IsSent(before, events, h) && UnconfirmedFee(before[h])
             && k < |ws| == |ws'|
    requires DropsShared(before, events, ws) && Arrived(before[h], ws, k, ws'[k])
    ensures h in Batch(env, before, events) && h in ws'[k].tickets && before[h].hash == h
    ensures Agrees(ws'[k].tickets[h], Batch(env, before, events)[h].voteChoices.Entries())
  {
    var t := before[h];
    assert t.hash == h && Normal(t);
    ConfirmedOnWallets(env, t, events[h]);
    RemainingAgrees(Base(ws[k], h), t.voteChoices.Entries(), ws, k);
    hide Remaining, Base, Agrees, Effect;
  }

  /** Fault-free, the ticket ends up on every wallet with the choices all wallets up
      to it know, and the record keeps those all wallets know. */
  lemma {:induction false} GivenToAll(t: Ticket, cs: seq<Choices>, ws: seq<Wallet>, ws': seq<Wallet>, k: nat)
    requires AllGiven({}, t, cs, ws, ws') && k <= |ws|
    ensures cs[k] == Remaining(t.voteChoices.Entries(), ws, k)
    ensures forall j | 0 <= j < k :: t.hash in ws'[j].tickets && t.votingWIF in ws'[j].keys
              && ws'[j].tickets[t.hash] == Base(ws[j], t.hash) + Remaining(t.voteChoices.Entries(), ws, j + 1)
    decreases k
  {
    hide Left, Pushed, Failing, Remaining;
    if k > 0 {
      var j := k - 1;
      GivenToAll(t, cs, ws, ws', j);
      RemainingStep(t.voteChoices.Entries(), ws, j, j, t.hash);
      assert Given({}, j, t, cs[j], cs[j + 1], ws[j], ws'[j]);
      assert ws'[j].tickets[t.hash] == Base(ws[j], t.hash) + Remaining(t.voteChoices.Entries(), ws, k);
    } else {
      RemainingAtFirst(t.voteChoices.Entries(), ws);
    }
  }

  lemma GivenGrows(down: set<Fault>, k: nat, t: Ticket, c: Choices, c': Choices, w: Wallet, w': Wallet)
    requires Given(down, k, t, c, c', w, w')
    ensures w' != w ==> w'.tickets.Keys <= w.tickets.Keys + {t.hash} && w'.keys == w.keys + {t.votingWIF}
    ensures w.tickets.Keys <= w'.tickets.Keys && w.keys <= w'.keys
    ensures ImportFails(k, t.hash) !in down && AddTxFails(k, t.hash) !in down ==>
              t.hash in w'.tickets && t.votingWIF in w'.keys
  {
    hide Pushed, Left, Failing;
  }

  lemma FiledNormal(db: Db, ts: seq<Ticket>)
    requires WellFiled(db) && Lists(db, UnconfirmedFee, ts)
    ensures forall j | 0 <= j < |ts| :: Normal(ts[j]) && ts[j].hash in db && db[ts[j].hash] == ts[j]
  {
  }

  lemma ListedMatch(db: Db, p: Ticket -> bool, ts: seq<Ticket>)
    requires Lists(db, p, ts)
    ensures forall j | 0 <= j < |ts| :: p(ts[j])
  {
  }

  // --------------------- the scan and the wallet check as batches of steps

  lemma BatchIs(env: Env, before: Db, events: map<string, Event>, after: Db)
    requires after.Keys == before.Keys
    requires forall h | h in before ::
               if h in events then Effect(env, events[h], before[h]) == Some(after[h]) else after[h] == before[h]
    ensures Batch(env, before, events) == after
  {
    hide Effect;
  }

  /** What setOutcomes records is one SetOutcome step per written ticket. */
  lemma OutcomesAreBatch(env: Env, net: Scanner.Network, blocks: seq<Scanner.Block>, before: Db, start: int,
                         written: set<string>)
    returns (events: map<string, Event>)
    requires 0 <= start && WellFiled(before) && written <= Matching(before, Votable)
    ensures events.Keys == written
    ensures forall h | h in events ::
              events[h] == SetOutcome(Outcomes.ScanOutcome(net, blocks, before[h], start, |blocks| - 1))
    ensures Outcomes.Recorded(net, blocks, before, start, written) == Batch(env, before, events)
  {
    events := map h | h in written :: SetOutcome(Outcomes.ScanOutcome(net, blocks, before[h], start, |blocks| - 1));
    var after := Outcomes.Recorded(net, blocks, before, start, written);
    hide Effect, Outcomes.ScanOutcome, Batch;
    forall h | h in before
      ensures if h in events then Effect(env, events[h], before[h]) == Some(after[h]) else after[h] == before[h]
    {
      if h in events {
        Outcomes.OutcomeValues(net, blocks, before[h], start);
        OutcomeEffect(env, before[h], events[h].outcome);
      }
    }
    BatchIs(env, before, events, after);
  }

  lemma OutcomeEffect(env: Env, t: Ticket, o: Outcome)
    requires Normal(t) && Votable(t) && o in {Unspent, Voted, Missed, Expired}
    ensures Effect(env, SetOutcome(o), t) == Some(t.(outcome := o))
  {
    ApplyNone(map[t.hash := t]);
    ApplyOne(map[t.hash := t], Update(t.(outcome := o)));
    hide ApplyAll;
  }

  ghost function ListOf(s: set<string>): (r: seq<string>)
    ensures forall a :: a in r <==> a in s
  {
    if s == {} then []
    else
      var a :| a in s;
      [a] + ListOf(s - {a})
  }

  /** Removing agendas one write at a time. */
  lemma ReconcileEffect(env: Env, t: Ticket, agendas: seq<string>)
    requires Normal(t) && Votable(t)
    ensures Effect(env, Reconcile(agendas, true), t)
         == Some(WithEntries(t, t.voteChoices.Entries() - Atomic.Agendas(agendas)))
  {
    var db := map[t.hash := t];
    var u := Atomic.DropsKeepRecord(db, t, agendas, |agendas|);
    assert DropWrites(t, agendas)[..|agendas|] == DropWrites(t, agendas) && agendas[..|agendas|] == agendas;
    hide DropWrites, ApplyAll;
    if agendas == [] {
      assert t.voteChoices.Entries() - Atomic.Agendas(agendas) == t.voteChoices.Entries();
    } else {
      DroppedIsNormal(db, t, agendas);
    }
  }

  lemma {:induction false} DroppedIsNormal(db: Db, t: Ticket, agendas: seq<string>)
    requires t.hash in db && agendas != []
    ensures t.hash in ApplyAll(db, DropWrites(t, agendas)) && Normal(ApplyAll(db, DropWrites(t, agendas))[t.hash])
    ensures ApplyAll(db, DropWrites(t, agendas))[t.hash]
         == Normalise(WithEntries(t, t.voteChoices.Entries() - Atomic.Agendas(agendas)))
    decreases agendas
  {
    var less, rest := WithoutAgenda(t, agendas[0]), agendas[1..];
    FirstThenRest(db, Update(less), DropWrites(less, rest));
    assert DropWrites(t, agendas) == [Update(less)] + DropWrites(less, rest);
    assert Atomic.Agendas(agendas) == {agendas[0]} + Atomic.Agendas(rest);
    assert less.voteChoices.Entries() - Atomic.Agendas(rest) == t.voteChoices.Entries() - Atomic.Agendas(agendas);
    hide DropWrites, ApplyAll;
    if rest == [] {
      NoDropWrites(Apply(db, Update(less)), less);
    } else {
      DroppedIsNormal(Apply(db, Update(less)), less, rest);
    }
  }

  /** What the consistency check does to the database, under any faults, is one
      Reconcile step per votable ticket. */
  lemma ReconciliationIsBatch(env: Env, ts: seq<Ticket>, before: Db, after: Db, ws: seq<Wallet>, ws': seq<Wallet>)
    returns (events: map<string, Event>)
    requires WellFiled(before) && Lists(before, Votable, ts) && SafePass(ts, before, after, ws, ws')
    ensures events.Keys == Matching(before, Votable) && forall h | h in events ::
              events[h].Reconcile? && events[h].toWallet
    ensures after == Batch(env, before, events)
  {
    hide SafePass, Effect, React, WellFiled, Lists, Votable;
    SameKeys(ts, before, after, ws, ws');
    events := map h | h in Matching(before, Votable) :: Loses(before[h], after[h]);
    forall h | h in before
      ensures if h in events then Effect(env, events[h], before[h]) == Some(after[h]) else after[h] == before[h]
    {
      RecordReconciled(env, ts, before, after, ws, ws', h);
    }
  }

  lemma SameKeys(ts: seq<Ticket>, before: Db, after: Db, ws: seq<Wallet>, ws': seq<Wallet>)
    requires SafePass(ts, before, after, ws, ws')
    ensures after.Keys == before.Keys
  {
  }

  /** The step that takes out what `u` lacks. */
  ghost function Loses(t: Ticket, u: Ticket): (e: Event)
    ensures e.Reconcile? && e.toWallet
  {
    Reconcile(ListOf(t.voteChoices.Entries().Keys - u.voteChoices.Entries().Keys), true)
  }

  lemma RecordReconciled(env: Env, ts: seq<Ticket>, before: Db, after: Db, ws: seq<Wallet>, ws': seq<Wallet>, h: string)
    requires WellFiled(before) && Lists(before, Votable, ts) && SafePass(ts, before, after, ws, ws')
    ensures h in before ==> h in after && if Votable(before[h])
            then Effect(env, Loses(before[h], after[h]), before[h]) == Some(after[h])
                                          else after[h] == before[h]
  {
    hide SafeWallet, UnknownToSome, Effect;
    if h !in before {
      return;
    }
    var t, u := before[h], after[h];
    var c, c' := t.voteChoices.Entries(), u.voteChoices.Entries();
    assert Normal(t);
    if !Votable(t) {
      assert h !in Hashes(ts);
      return;
    }
    assert u == WithEntries(t, c') && c - (c.Keys - c'.Keys) == c';
    hide SafePass, WellFiled, Lists;
    var dropped := ListOf(c.Keys - c'.Keys);
    assert Atomic.Agendas(dropped) == c.Keys - c'.Keys;
    ReconcileEffect(env, t, dropped);
  }
}
