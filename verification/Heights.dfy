/** Purchase heights over whole runs: the record of a confirmed ticket has the
    height of the block the ticket is in, so wallets list every votable ticket and
    reconciliation covers all of them. */
module Heights {
  import opened Encoding
  import opened Tickets
  import opened Lifecycle
  import opened Interleavings
  import opened Wallets

  /** What the node says of a ticket with enough confirmations is its block. */
  predicate Truthful(heightOf: string -> int64, step: Step)
  {
    match step.event
    case FeeAddress(hash, _, lookup, _, _, _, _, _) => TellsHeight(heightOf, hash, lookup)
    case CheckTicket(lookup) => step.snapshot.Some? ==> TellsHeight(heightOf, step.snapshot.value.hash, lookup)
    case _ => true
  }

  predicate TellsHeight(heightOf: string -> int64, hash: string, lookup: TxLookup)
  {
    Confirmations(lookup) >= REQUIRED_CONFS ==> lookup.info.blockHeight == heightOf(hash)
  }

  predicate HeightRecorded(heightOf: string -> int64, t: Ticket)
  {
    t.confirmed ==> t.purchaseHeight == heightOf(t.hash)
  }

  lemma {:induction false} DropsKeepHeight(heightOf: string -> int64, t: Ticket, agendas: seq<string>)
    requires HeightRecorded(heightOf, t)
    ensures forall w | w in DropWrites(t, agendas) :: w.Update? && HeightRecorded(heightOf, Normalise(w.ticket))
    decreases agendas
  {
    if agendas != [] {
      DropsKeepHeight(heightOf, WithoutAgenda(t, agendas[0]), agendas[1..]);
    }
  }

  /** The repair step for missing heights is idle: a record that satisfies the
      record invariant has its height. */
  lemma FixHeightIsIdle(env: Env, t: Ticket, lookup: TxLookup)
    requires RecordInv(env, t)
    ensures React(env, FixHeight(lookup), Some(t)) == []
  {
    hide FeeCovered;
  }

  lemma StepRecordsHeights(env: Env, heightOf: string -> int64, step: Step)
    requires Truthful(heightOf, step)
    requires step.snapshot.Some?
             ==> RecordInv(env, step.snapshot.value) && HeightRecorded(heightOf, step.snapshot.value)
    ensures forall w | w in React(env, step.event, step.snapshot) ::
              w.Delete? || HeightRecorded(heightOf, Normalise(w.ticket))
  {
    hide FeeCovered, PayFeeAccepted, ChoicesAccepted, ChoicesPanic, DropWrites, Merge;
    if step.snapshot.Some? {
      var t := step.snapshot.value;
      if step.event.CheckFee? {
        DropsKeepHeight(heightOf, FeeConfirmedRecord(t), step.event.dropped);
      } else if step.event.Reconcile? {
        DropsKeepHeight(heightOf, t, step.event.dropped);
      } else if step.event.FixHeight? {
        FixHeightIsIdle(env, t, step.event.lookup);
      }
    }
  }

  lemma NextRecordsHeights(env: Env, heightOf: string -> int64, s: State, step: Step)
    requires Inv(env, s) && Possible(s, step) && Truthful(heightOf, step)
    requires forall t | t in s.seen :: HeightRecorded(heightOf, t)
    ensures forall t | t in Next(env, s, step).seen :: HeightRecorded(heightOf, t)
  {
    StepRecordsHeights(env, heightOf, step);
    hide React, RecordInv, HeightRecorded, Truthful;
    var ws, s' := React(env, step.event, step.snapshot), Next(env, s, step);
    forall t | t in s'.seen ensures HeightRecorded(heightOf, t) {
      if t !in s.seen {
        var h :| h in s'.db && s'.db[h] == t;
        assert ws[step.nth] in ws;
        if h in s.db {
          assert s.db[h] in s.db.Values;
        }
      }
    }
  }

  /** Over any interleaving, every confirmed record has its chain height. */
  lemma {:induction false} HeightsStayRecorded(env: Env, heightOf: string -> int64, s: State, steps: seq<Step>)
    requires Inv(env, s) && ValidRun(env, s, steps) && forall i | 0 <= i < |steps| :: Truthful(heightOf, steps[i])
    requires forall t | t in s.seen :: HeightRecorded(heightOf, t)
    ensures forall t | t in Run(env, s, steps).seen :: HeightRecorded(heightOf, t)
    decreases steps
  {
    hide Inv, HeightRecorded, Truthful, Next;
    if steps != [] {
      NextKeepsInv(env, s, steps[0]);
      NextRecordsHeights(env, heightOf, s, steps[0]);
      HeightsStayRecorded(env, heightOf, Next(env, s, steps[0]), steps[1..]);
    }
  }

  /** In every reachable state every votable ticket is one the wallets list. */
  lemma VotableTicketsAreListed(env: Env, heightOf: string -> int64, s: State, steps: seq<Step>, ts: seq<Ticket>,
                                oldest: int, t: Ticket)
    requires Inv(env, s) && ValidRun(env, s, steps) && forall i | 0 <= i < |steps| :: Truthful(heightOf, steps[i])
    requires forall u | u in s.seen :: HeightRecorded(heightOf, u)
    ensures Lists(Run(env, s, steps).db, Votable, ts) && IsEarliest(ts, oldest) && t in ts ==>
              t.purchaseHeight == heightOf(t.hash) >= oldest
  {
    var r := Run(env, s, steps);
    if !Lists(r.db, Votable, ts) || !IsEarliest(ts, oldest) || t !in ts {
      return;
    }
    RecordsStayGood(env, s, steps);
    HeightsStayRecorded(env, heightOf, s, steps);
    assert t in r.db.Values && Votable(t) by {
      var i :| 0 <= i < |ts| && ts[i] == t;
      assert r.db[ts[i].hash] == t;
    }
    assert t in r.seen && RecordInv(env, t) && HeightRecorded(heightOf, t);
    RecordedHeightsAreListed(heightOf, oldest, ts, t) by { hide IsEarliest, Lists, FeeCovered, Inv; }
  }

  /** Reconciliation converges in every reachable state, without exception: an
      undisturbed pass leaves every wallet with every votable ticket and with every
      choice the database still has for it. */
  lemma ReachablePassConverges(env: Env, heightOf: string -> int64, s: State, steps: seq<Step>, ts: seq<Ticket>,
                               oldest: int,
                               after: Db, ws: seq<Wallet>, ws': seq<Wallet>, i: nat, h: string)
    requires Inv(env, s) && ValidRun(env, s, steps) && forall k | 0 <= k < |steps| :: Truthful(heightOf, steps[k])
    requires forall t | t in s.seen :: HeightRecorded(heightOf, t)
    ensures var before := Run(env, s, steps).db;
            Lists(before, Votable, ts) && IsEarliest(ts, oldest)
              && Reconciled(heightOf, oldest, ts, before, after, ws, ws')
            && i < |ws| && h in after && Votable(after[h]) ==>
              h in ws'[i].tickets && Agrees(ws'[i].tickets[h], after[h].voteChoices.Entries())
  {
    var before := Run(env, s, steps).db;
    if !Lists(before, Votable, ts) || !IsEarliest(ts, oldest)
       || !Reconciled(heightOf, oldest, ts, before, after, ws, ws')
       || i >= |ws| || h !in after || !Votable(after[h]) {
      return;
    }
    RecordsStayGood(env, s, steps);
    assert WellFiled(before) by { hide RecordInv; }
    ListedTicket(heightOf, oldest, ts, before, after, ws, ws', h);
    hide Inv, Reconciled, Lists, IsEarliest, WellFiled, HeightRecorded, Truthful, Agrees, Votable, ValidRun, Run;
    VotableTicketsAreListed(env, heightOf, s, steps, ts, oldest, before[h]);
    ChoicesAgreeIff(heightOf, oldest, ts, before, after, ws, ws', i, h);
  }

  lemma ListedTicket(heightOf: string -> int64, oldest: int, ts: seq<Ticket>, before: Db, after: Db, ws: seq<Wallet>,
                     ws': seq<Wallet>, h: string)
    requires Reconciled(heightOf, oldest, ts, before, after, ws, ws') && Lists(before, Votable, ts) && WellFiled(before)
    requires h in after && Votable(after[h])
    ensures h in before && before[h] in ts && before[h].hash == h
  {
    hide WalletReconciled, Remaining;
  }
}
