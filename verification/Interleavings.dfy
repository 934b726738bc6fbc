/** Handlers read a ticket early and write the whole record back later, while the
    update loop runs: what survives any interleaving of such writes. */
module Interleavings {
  import opened Encoding
  import opened Tickets
  import opened Lifecycle

  /** `seen` holds every record that was ever stored: each of them may still be in
      the hands of a slow handler. */
  datatype State = State(db: Db, seen: set<Ticket>)

  /** Some handler or background step that read `snapshot` at some time performs
      one of its writes, numbered `nth`, now. */
  datatype Step = Step(event: Event, snapshot: Option<Ticket>, nth: nat)

  predicate Possible(s: State, step: Step)
  {
    step.snapshot.Some? ==> step.snapshot.value in s.seen
  }

  function Next(env: Env, s: State, step: Step): State
  {
    var ws := React(env, step.event, step.snapshot);
    if step.nth >= |ws| then s
    else
      var db := Apply(s.db, ws[step.nth]);
      State(db, s.seen + db.Values)
  }

  ghost predicate ValidRun(env: Env, s: State, steps: seq<Step>)
    decreases steps
  {
    steps == [] || (Possible(s, steps[0]) && ValidRun(env, Next(env, s, steps[0]), steps[1..]))
  }

  ghost function Run(env: Env, s: State, steps: seq<Step>): State
    decreases steps
  {
    if steps == [] then s else Run(env, Next(env, s, steps[0]), steps[1..])
  }

  ghost predicate Inv(env: Env, s: State)
  {
    && WellFiled(s.db) && s.db.Values <= s.seen
    && forall t | t in s.seen :: RecordInv(env, t)
  }

  lemma NextKeepsInv(env: Env, s: State, step: Step)
    requires Inv(env, s) && Possible(s, step)
    ensures Inv(env, Next(env, s, step))
  {
    var ws := React(env, step.event, step.snapshot);
    if step.nth < |ws| {
      StepKeepsRecords(env, step.event, step.snapshot);
      var w := ws[step.nth];
      assert WriteInv(env, w);
      hide RecordInv;
      var db := Apply(s.db, w);
      forall t | t in db.Values ensures t in s.seen || (!w.Delete? && t == Normalise(w.ticket)) {
        var h :| h in db && db[h] == t;
        if h in s.db && db[h] == s.db[h] {
          assert t in s.db.Values;
        }
      }
    }
  }

  /** Under any interleaving of handlers and background steps holding records of
      any age, every record in the database satisfies the record invariant, fee
      sufficiency included. */
  lemma {:induction false} RecordsStayGood(env: Env, s: State, steps: seq<Step>)
    requires Inv(env, s) && ValidRun(env, s, steps)
    ensures Inv(env, Run(env, s, steps))
    ensures forall h | h in Run(env, s, steps).db :: RecordInv(env, Run(env, s, steps).db[h])
    decreases steps
  {
    hide RecordInv;
    if steps != [] {
      NextKeepsInv(env, s, steps[0]);
      RecordsStayGood(env, Next(env, s, steps[0]), steps[1..]);
    } else {
      forall h | h in s.db ensures RecordInv(env, s.db[h]) {
        assert s.db[h] in s.db.Values;
      }
    }
  }

  /** Fee sufficiency under any interleaving: for every ticket whose fee counts as
      received there is a transaction with the recorded hash whose first output to
      the script of the recorded fee address holds at least the recorded amount. */
  lemma FeesAreReallyThere(env: Env, s: State, steps: seq<Step>, h: string)
    requires Inv(env, s) && ValidRun(env, s, steps) && h in Run(env, s, steps).db
    ensures var t := Run(env, s, steps).db[h];
            t.feeTxStatus in {FeeReceived, FeeBroadcast, FeeConfirmed} ==>
              && env.paymentScript(t.feeAddress).Some?
              && var want := env.paymentScript(t.feeAddress).value;
                 exists tx: FeeTx, j: nat | j < |tx.outs| ::
                   && env.txHash(tx) == t.feeTxHash && (t.feeTxHex != "" ==> env.decodeTx(t.feeTxHex) == Some(tx))
                   && tx.outs[j].version == want.version && tx.outs[j].script == want.bytes
                   && tx.outs[j].value >= t.feeAmount
                   && forall k | 0 <= k < j :: !(tx.outs[k].version == want.version && tx.outs[k].script == want.bytes)
  {
    RecordsStayGood(env, s, steps);
    var t := Run(env, s, steps).db[h];
    hide Inv, ValidRun, Run, RecordInv;
    if t.feeTxStatus in {FeeReceived, FeeBroadcast, FeeConfirmed} {
      FeeIsThere(env, t);
      var want := env.paymentScript(t.feeAddress).value;
      var tx: FeeTx, j: int :|
        PaysFirst(tx.outs, want, j) && env.txHash(tx) == t.feeTxHash && tx.outs[j].value >= t.feeAmount
        && (t.feeTxHex != "" ==> env.decodeTx(t.feeTxHex) == Some(tx));
    }
  }

  /** setVoteChoices never assigns to a nil map: no record it can have read has
      one. */
  lemma MergeNeverPanics(env: Env, s: State, steps: seq<Step>, t: Ticket, c: ChoicesRequest)
    requires Inv(env, s) && ValidRun(env, s, steps) && t in Run(env, s, steps).seen
    ensures !ChoicesPanic(t, c)
  {
    RecordsStayGood(env, s, steps);
    assert RecordInv(env, t);
  }

  /** In every reachable state the missed count is the size of the missed filter,
      like the other counts are of theirs. */
  lemma CountsAgreeWithFilters(env: Env, s: State, steps: seq<Step>)
    requires Inv(env, s) && ValidRun(env, s, steps)
    ensures var db := Run(env, s, steps).db;
            |Matching(db, CountedMissed)| == |Matching(db, HasMissed)|
  {
    RecordsStayGood(env, s, steps);
    MissedCountAgrees(Run(env, s, steps).db);
  }

  /** What does not survive: a handler that read the record before the ticket was
      confirmed takes the confirmation back, whatever the ticket. The history
      properties of module Atomic therefore need each step to read and write
      without another step in between. */
  lemma StaleWriteUndoesConfirmation(env: Env, t: Ticket, info: TxInfo, c: ChoicesRequest)
    requires RecordInv(env, t) && t.feeTxStatus == FeeReceived && !t.confirmed
    requires info.confirmations >= REQUIRED_CONFS && ChoicesAccepted(env, t, c, true, true)
    ensures var s := State(map[t.hash := t], {t});
            var confirm := Step(CheckTicket(Found(info)), Some(t), 0);
            var choose := Step(SetVoteChoices(c, true, true), Some(t), 0);
            var s1 := Next(env, s, confirm);
            var s2 := Next(env, s1, choose);
            && Inv(env, s) && Possible(s, confirm) && Possible(s1, choose)
            && t.hash in s1.db && s1.db[t.hash].confirmed
            && t.hash in s2.db && !s2.db[t.hash].confirmed
  {
    hide Inv, React, Next, RecordInv, ChoicesAccepted, WithChoices, Normalise;
    var s := State(map[t.hash := t], {t});
    var confirmed := t.(purchaseHeight := info.blockHeight, confirmed := true);
    SingletonInv(env, t);
    SingleReactions(env, t, info, c);
    NextUpdate(env, s, CheckTicket(Found(info)), t, confirmed);
    var s1 := Next(env, s, Step(CheckTicket(Found(info)), Some(t), 0));
    NextUpdate(env, s1, SetVoteChoices(c, true, true), t, WithChoices(t, c));
  }

  lemma SingletonInv(env: Env, t: Ticket)
    requires RecordInv(env, t)
    ensures Inv(env, State(map[t.hash := t], {t}))
  {
    hide FeeCovered;
  }

  lemma SingleReactions(env: Env, t: Ticket, info: TxInfo, c: ChoicesRequest)
    requires RecordInv(env, t) && !t.confirmed && info.confirmations >= REQUIRED_CONFS
             && ChoicesAccepted(env, t, c, true, true)
    ensures var confirmed := t.(purchaseHeight := info.blockHeight, confirmed := true);
            && React(env, CheckTicket(Found(info)), Some(t)) == [Update(confirmed)]
            && Normalise(confirmed).confirmed && confirmed.hash == t.hash
    ensures React(env, SetVoteChoices(c, true, true), Some(t)) == [Update(WithChoices(t, c))]
    ensures !Normalise(WithChoices(t, c)).confirmed && WithChoices(t, c).hash == t.hash
  {
    hide ChoicesAccepted;
  }

  lemma NextUpdate(env: Env, s: State, e: Event, t: Ticket, u: Ticket)
    requires React(env, e, Some(t)) == [Update(u)] && u.hash in s.db
    ensures Next(env, s, Step(e, Some(t), 0)).db == s.db[u.hash := Normalise(u)]
    ensures s.seen <= Next(env, s, Step(e, Some(t), 0)).seen
  {
    hide React;
  }
}
