/** The stored vote choices and policies as a replay of the requests that wrote
    them, for atomic steps. */
module Choices {
  import opened Tickets
  import opened Lifecycle
  import opened Atomic

  datatype Kind = VoteChoices | TSpendPolicy | TreasuryPolicy

  function StoredMap(t: Ticket, kind: Kind): map<string, string>
  {
    match kind
    case VoteChoices => t.voteChoices.Entries()
    case TSpendPolicy => t.tSpendPolicy.Entries()
    case TreasuryPolicy => t.treasuryPolicy.Entries()
  }

  /** A payFee that found the map valid replaces it, setVoteChoices merges into it,
      and an agenda no wallet knows is taken out. */
  datatype Op = Replace(entries: map<string, string>) | MergeIn(entries: map<string, string>) | Drop(key: string)

  function Do(m: map<string, string>, op: Op): map<string, string>
  {
    match op
    case Replace(entries) => entries
    case MergeIn(entries) => m + entries
    case Drop(key) => m - {key}
  }

  function Replay(m: map<string, string>, ops: seq<Op>): map<string, string>
  {
    if ops == [] then m else Do(Replay(m, ops[..|ops| - 1]), ops[|ops| - 1])
  }

  /** The last word on a key: the latest operation that mentions it decides. */
  function LastWord(m: map<string, string>, ops: seq<Op>, key: string): Option<string>
  {
    if ops == [] then (if key in m then Some(m[key]) else None)
    else
      match ops[|ops| - 1]
      case Replace(entries) => if key in entries then Some(entries[key]) else None
      case MergeIn(entries) => if key in entries then Some(entries[key]) else LastWord(m, ops[..|ops| - 1], key)
      case Drop(dropped) => if key == dropped then None else LastWord(m, ops[..|ops| - 1], key)
  }

  lemma {:induction false} ReplayIsLastWord(m: map<string, string>, ops: seq<Op>, key: string)
    ensures LastWord(m, ops, key) == if key in Replay(m, ops) then Some(Replay(m, ops)[key]) else None
  {
    if ops != [] {
      ReplayIsLastWord(m, ops[..|ops| - 1], key);
    }
  }

  lemma {:induction false} ReplayConcat(m: map<string, string>, a: seq<Op>, b: seq<Op>)
    ensures Replay(m, a + b) == Replay(Replay(m, a), b)
    decreases b
  {
    if b == [] {
      assert a + b == a;
    } else {
      ReplayConcat(m, a, b[..|b| - 1]);
      assert (a + b)[..|a + b| - 1] == a + b[..|b| - 1];
    }
  }

  function Requested(r: PayFeeRequest, kind: Kind): GoMap
  {
    match kind
    case VoteChoices => r.voteChoices
    case TSpendPolicy => r.tSpendPolicy
    case TreasuryPolicy => r.treasuryPolicy
  }

  predicate FoundValid(env: Env, r: PayFeeRequest, kind: Kind)
  {
    match kind
    case VoteChoices => env.validVoteChoices(r.voteChoices)
    case TSpendPolicy => env.validTSpend(r.tSpendPolicy)
    case TreasuryPolicy => env.validTreasury(r.treasuryPolicy)
  }

  function Chosen(c: ChoicesRequest, kind: Kind): GoMap
  {
    match kind
    case VoteChoices => c.voteChoices
    case TSpendPolicy => c.tSpendPolicy
    case TreasuryPolicy => c.treasuryPolicy
  }

  ghost function Drops(agendas: seq<string>): seq<Op>
  {
    seq(|agendas|, i requires 0 <= i < |agendas| => Drop(agendas[i]))
  }

  /** The operations a step performs on the stored map of the ticket it found. */
  ghost function Ops(env: Env, step: Step, t: Ticket, kind: Kind): seq<Op>
  {
    match step.event
    case PayFee(r, lookup, canVote, now, _) =>
      if PayFeeAccepted(env, t, r, lookup, canVote, now) && step.writesOk > 0 && FoundValid(env, r, kind)
      then [Replace(Requested(r, kind).Entries())] else []
    case SetVoteChoices(c, notReplayed, walletsUp) =>
      if ChoicesAccepted(env, t, c, notReplayed, walletsUp) && step.writesOk > 0
      then [MergeIn(Chosen(c, kind).Entries())] else []
    case _ => if kind == VoteChoices then Drops(DroppedBy(step, t)) else []
  }

  lemma {:induction false} ReplayDrops(m: map<string, string>, agendas: seq<string>)
    ensures Replay(m, Drops(agendas)) == m - Agendas(agendas)
  {
    if agendas == [] {
      assert Drops(agendas) == [];
    } else {
      var front := agendas[..|agendas| - 1];
      ReplayDrops(m, front);
      assert Drops(agendas)[..|agendas| - 1] == Drops(front);
      assert agendas == front + [agendas[|agendas| - 1]];
    }
  }

  lemma ReplayOne(m: map<string, string>, op: Op)
    ensures Replay(m, []) == m && Replay(m, [op]) == Do(m, op)
  {
    assert [op][..0] == [];
  }

  /** One step: the stored map afterwards is the replay of the step's operations. */
  lemma StepReplays(env: Env, db: Db, step: Step, kind: Kind)
    requires StoredInv(env, db) && Target(step) in db
    ensures var after := ApplyAll(db, Performed(env, db, step));
            Target(step) in after ==>
              StoredMap(after[Target(step)], kind)
              == Replay(StoredMap(db[Target(step)], kind), Ops(env, step, db[Target(step)], kind))
  {
    var t := db[Target(step)];
    assert RecordInv(env, t);
    if step.event.CheckFee? || step.event.Reconcile? {
      WalletStepReplays(env, db, step, kind);
    } else if step.event.PayFee? {
      PayFeeReplays(env, db, step, kind);
    } else {
      SingleWriteReplays(env, db, step, kind);
    }
  }

  lemma WalletStepReplays(env: Env, db: Db, step: Step, kind: Kind)
    requires StoredInv(env, db) && step.hash in db && (step.event.CheckFee? || step.event.Reconcile?)
    ensures var after := ApplyAll(db, Performed(env, db, step));
            step.hash in after && StoredMap(after[step.hash], kind)
            == Replay(StoredMap(db[step.hash], kind), Ops(env, step, db[step.hash], kind))
  {
    hide React, RecordInv, Performed, Ordered, DroppedBy, ReachesWallet;
    var r := WalletStepEffect(env, db, step);
    ReplayDrops(StoredMap(db[step.hash], kind), DroppedBy(step, db[step.hash]));
    ReplayOne(StoredMap(db[step.hash], kind), Drop(""));
  }

  lemma PaidMap(env: Env, t: Ticket, r: PayFeeRequest, status: FeeStatus, kind: Kind)
    requires env.decodeWIF(r.votingKey).Some? && env.decodeTx(r.feeTx).Some?
    ensures StoredMap(WithFee(env, t, r).(feeTxStatus := status), kind)
         == StoredMap(WithFee(env, t, r), kind)
         == if FoundValid(env, r, kind) then Requested(r, kind).Entries() else StoredMap(t, kind)
  {
  }

  lemma PayFeeWrites(env: Env, e: Event, t: Ticket, kind: Kind)
    requires e.PayFee? && RecordInv(env, t)
    ensures var ws := React(env, e, Some(t));
            && (ws == [] <==> !PayFeeAccepted(env, t, e.request, e.lookup, e.canVote, e.now))
            && forall w | w in ws :: w.Update? && StoredMap(w.ticket, kind)
                 == if FoundValid(env, e.request, kind) then Requested(e.request, kind).Entries()
                   else StoredMap(t, kind)
  {
    hide FeeAccepted, RecordInv, WithFee, StoredMap, FoundValid, Requested, WellFormedPayFee;
    if PayFeeAccepted(env, t, e.request, e.lookup, e.canVote, e.now) {
      PaidMap(env, t, e.request, if e.sent then FeeBroadcast else FeeError, kind);
    }
  }

  lemma NormaliseKeepsMaps(t: Ticket, kind: Kind)
    ensures StoredMap(Normalise(t), kind) == StoredMap(t, kind)
  {
  }

  lemma PayFeeReplays(env: Env, db: Db, step: Step, kind: Kind)
    requires StoredInv(env, db) && step.hash in db && step.event.PayFee?
    ensures var after := ApplyAll(db, Performed(env, db, step));
            step.hash in after && StoredMap(after[step.hash], kind)
            == Replay(StoredMap(db[step.hash], kind), Ops(env, step, db[step.hash], kind))
  {
    hide React, RecordInv, Ordered, PayFeeAccepted, FoundValid, Requested, StoredMap, Normalise;
    var t, e := db[step.hash], step.event;
    var done := Performed(env, db, step);
    PayFeeIsOrdered(env, e, t);
    PayFeeWrites(env, e, t, kind);
    PayFeeEffectIs(db, t, done);
    ReplayOne(StoredMap(t, kind), Replace(Requested(e.request, kind).Entries()));
    if done != [] {
      NormaliseKeepsMaps(done[|done| - 1].ticket, kind);
    }
  }

  lemma MergedMap(t: Ticket, c: ChoicesRequest, kind: Kind)
    ensures StoredMap(WithChoices(t, c), kind) == StoredMap(t, kind) + Chosen(c, kind).Entries()
  {
  }

  lemma ChoicesWrites(env: Env, e: Event, t: Ticket, kind: Kind)
    requires e.SetVoteChoices? && RecordInv(env, t)
    ensures var ws := React(env, e, Some(t));
            && (ws == [] <==> !ChoicesAccepted(env, t, e.choices, e.notReplayed, e.walletsUp))
            && forall w | w in ws ::
                 w.Update? && StoredMap(w.ticket, kind) == StoredMap(t, kind) + Chosen(e.choices, kind).Entries()
  {
    assert Normal(t);
    hide RecordInv, ChoicesAccepted, WithChoices, StoredMap, Chosen, React;
    ChoicesReaction(env, e, t);
    MergedMap(t, e.choices, kind);
  }

  lemma OtherWritesKeepMaps(env: Env, e: Event, t: Ticket, kind: Kind)
    requires SingleWrite(e) && !e.SetVoteChoices?
    ensures forall w | w in React(env, e, Some(t)) && w.Update? :: StoredMap(w.ticket, kind) == StoredMap(t, kind)
  {
  }

  lemma SingleWriteReplays(env: Env, db: Db, step: Step, kind: Kind)
    requires StoredInv(env, db) && Target(step) in db && SingleWrite(step.event)
    ensures var after := ApplyAll(db, Performed(env, db, step));
            Target(step) in after ==>
              StoredMap(after[Target(step)], kind)
              == Replay(StoredMap(db[Target(step)], kind), Ops(env, step, db[Target(step)], kind))
  {
    hide React, RecordInv, Ordered, ChoicesAccepted, StoredMap, Normalise, Chosen;
    var t, e := db[Target(step)], step.event;
    var done := Performed(env, db, step);
    SingleWriteIsOrdered(env, e, t);
    if e.SetVoteChoices? {
      ChoicesWrites(env, e, t, kind);
    } else {
      OtherWritesKeepMaps(env, e, t, kind);
    }
    ApplyNone(db);
    ReplayOne(StoredMap(t, kind), Drop(""));
    if e.SetVoteChoices? {
      ReplayOne(StoredMap(t, kind), MergeIn(Chosen(e.choices, kind).Entries()));
    }
    assert Drops([]) == [];
    if done != [] {
      assert done == [done[0]];
      ApplyOne(db, done[0]);
      OrderedSameHash(t, done[0]);
      if done[0].Update? {
        NormaliseKeepsMaps(done[0].ticket, kind);
      }
    }
  }

  /** All operations on one ticket's map over a run. */
  ghost function RunOps(env: Env, s: State, steps: seq<Step>, h: string, kind: Kind): seq<Op>
    decreases steps
  {
    if steps == [] then []
    else
      (if h in s.db && Target(steps[0]) == h then Ops(env, steps[0], s.db[h], kind) else [])
      + RunOps(env, Next(env, s, steps[0]), steps[1..], h, kind)
  }

  ghost predicate PresentThroughout(env: Env, s: State, steps: seq<Step>, h: string)
    decreases steps
  {
    h in s.db && (steps != [] ==> PresentThroughout(env, Next(env, s, steps[0]), steps[1..], h))
  }

  /** Stored choices are the fold of requests: as long as a ticket exists, each of
      its maps is the replay of every operation the run performed on it. */
  lemma {:induction false} StoredChoicesAreReplay(env: Env, s: State, steps: seq<Step>, h: string, kind: Kind)
    requires StoredInv(env, s.db) && PresentThroughout(env, s, steps, h)
    ensures h in Run(env, s, steps).db
    ensures StoredMap(Run(env, s, steps).db[h], kind)
         == Replay(StoredMap(s.db[h], kind), RunOps(env, s, steps, h, kind))
    decreases steps
  {
    hide RecordInv, Performed, StoredMap, Ops, Ordered, Replay;
    if steps != [] {
      var s1 := Next(env, s, steps[0]);
      var r := StepEffect(env, s.db, steps[0]);
      var first := if Target(steps[0]) == h then Ops(env, steps[0], s.db[h], kind) else [];
      if Target(steps[0]) == h {
        StepReplays(env, s.db, steps[0], kind);
      } else {
        assert s1.db[h] == s.db[h];
        ReplayOne(StoredMap(s.db[h], kind), Drop(""));
      }
      StoredChoicesAreReplay(env, s1, steps[1..], h, kind);
      ReplayConcat(StoredMap(s.db[h], kind), first, RunOps(env, s1, steps[1..], h, kind));
    } else {
      ReplayOne(StoredMap(s.db[h], kind), Drop(""));
    }
  }
}
