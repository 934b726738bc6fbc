/** Histories of tickets when every handler and background step reads and writes
    its record without another step in between. A step may still be cut short
    after any of its writes. */
module Atomic {
  import opened Encoding
  import opened Tickets
  import opened Lifecycle

  /** `added` collects every (ticket, voting key) pair ever sent to a voting
      wallet. */
  datatype State = State(db: Db, added: set<(string, string)>)

  /** A step on the ticket with the given hash; only its first `writesOk` writes
      reach the database. */
  datatype Step = Step(hash: string, event: Event, writesOk: nat)

  function Target(step: Step): string
  {
    if step.event.FeeAddress? then step.event.hash else step.hash
  }

  function Lookup(db: Db, hash: string): Option<Ticket>
  {
    if hash in db then Some(db[hash]) else None
  }

  /** The steps that hand a ticket to voting wallets: addToWallets once the fee is
      confirmed and recorded so, and the consistency check for votable tickets. */
  predicate ReachesWallet(step: Step, t: Ticket)
  {
    match step.event
    case CheckFee(lookup, _, toWallet) =>
      UnconfirmedFee(t) && Confirmations(lookup) >= REQUIRED_CONFS && toWallet && step.writesOk > 0
    case Reconcile(_, toWallet) => Votable(t) && toWallet
    case _ => false
  }

  function Performed(env: Env, db: Db, step: Step): seq<Write>
  {
    var ws := React(env, step.event, Lookup(db, Target(step)));
    if step.writesOk < |ws| then ws[..step.writesOk] else ws
  }

  function Next(env: Env, s: State, step: Step): State
  {
    var h := Target(step);
    State(ApplyAll(s.db, Performed(env, s.db, step)),
          if h in s.db && ReachesWallet(step, s.db[h]) then s.added + {(h, s.db[h].votingWIF)} else s.added)
  }

  ghost function Run(env: Env, s: State, steps: seq<Step>): State
    decreases steps
  {
    if steps == [] then s else Run(env, Next(env, s, steps[0]), steps[1..])
  }

  // ----------------------------------------------------- order of one step

  predicate StatusMove(a: FeeStatus, b: FeeStatus)
  {
    || a == b
    || (a in {NoFee, FeeError} && b in {FeeReceived, FeeBroadcast, FeeError})
    || (a == FeeReceived && b in {FeeBroadcast, FeeError})
    || (a == FeeBroadcast && b in {FeeConfirmed, FeeError})
  }

  predicate OutcomeMove(a: Outcome, b: Outcome)
  {
    || a == b
    || (a == Unspent && b in {Voted, Missed, Expired})
    || (a == Revoked && b in {Missed, Expired})
  }

  predicate SameIdentity(t: Ticket, u: Ticket)
  {
    && u.hash == t.hash && u.commitmentAddress == t.commitmentAddress && u.feeAddress == t.feeAddress
    && u.feeAddressIndex == t.feeAddressIndex && u.feeAddressXPubID == t.feeAddressXPubID
  }

  /** How a record may change in one step. */
  predicate Ordered(t: Ticket, u: Ticket)
  {
    && SameIdentity(t, u)
    && (t.confirmed ==> u.confirmed && u.purchaseHeight == t.purchaseHeight)
    && StatusMove(t.feeTxStatus, u.feeTxStatus)
    && OutcomeMove(t.outcome, u.outcome)
    && (FeeReceivedAlready(t)
       ==> u.votingWIF == t.votingWIF && u.feeTxHash == t.feeTxHash && u.feeAmount == t.feeAmount)
  }

  predicate SameButChoices(t: Ticket, u: Ticket)
  {
    u == t.(voteChoices := u.voteChoices, tSpendPolicy := u.tSpendPolicy, treasuryPolicy := u.treasuryPolicy)
  }

  ghost function Agendas(agendas: seq<string>): set<string>
  {
    set a | a in agendas
  }

  /** A run of agenda removals, cut short anywhere, leaves the same record with
      other choices. */
  lemma {:induction false} DropsKeepRecord(db: Db, t: Ticket, agendas: seq<string>, n: nat) returns (u: Ticket)
    requires t.hash in db && n <= |agendas|
    ensures ApplyAll(db, DropWrites(t, agendas)[..n]) == (if n == 0 then db else db[t.hash := u])
    ensures SameButChoices(t, u) && u.tSpendPolicy.Entries() == t.tSpendPolicy.Entries()
    ensures u.treasuryPolicy.Entries() == t.treasuryPolicy.Entries()
    ensures u.voteChoices.Entries() == t.voteChoices.Entries() - Agendas(agendas[..n])
    decreases agendas
  {
    u := t;
    if n > 0 {
      var less := WithoutAgenda(t, agendas[0]);
      var ws := DropWrites(t, agendas)[..n];
      assert ws[1..] == DropWrites(less, agendas[1..])[..n - 1];
      var db1 := db[t.hash := Normalise(less)];
      assert Apply(db, ws[0]) == db1;
      var v := DropsKeepRecord(db1, less, agendas[1..], n - 1);
      u := if n == 1 then Normalise(less) else v;
      assert db1[t.hash := v] == db[t.hash := v];
      assert agendas[..n] == [agendas[0]] + agendas[1..][..n - 1];
    }
  }

  /** The record a step leaves under its target hash; None when there is none. */
  ghost predicate Leaves(before: Db, after: Db, h: string, r: Option<Ticket>)
  {
    after == if r.Some? then before[h := r.value] else before - {h}
  }

  ghost predicate StoredInv(env: Env, db: Db)
  {
    WellFiled(db) && forall h | h in db :: RecordInv(env, db[h])
  }

  lemma ApplyFirst(db: Db, w: Write, ws: seq<Write>, n: nat)
    requires 0 < n <= 1 + |ws|
    ensures ApplyAll(db, ([w] + ws)[..n]) == ApplyAll(Apply(db, w), ws[..n - 1])
  {
    assert ([w] + ws)[..n][1..] == ws[..n - 1];
  }

  predicate SingleWrite(e: Event)
  {
    !e.PayFee? && !e.CheckFee? && !e.Reconcile?
  }

  /** Most steps write once: an orderly update, or the removal of a ticket that is
      not confirmed. */
  lemma SingleWriteIsOrdered(env: Env, e: Event, t: Ticket)
    requires SingleWrite(e) && RecordInv(env, t)
    ensures var ws := React(env, e, Some(t));
            || ws == []
            || (|ws| == 1 && ws[0].Update? && Ordered(t, Normalise(ws[0].ticket)))
            || (|ws| == 1 && ws[0] == Delete(t.hash) && !t.confirmed)
  {
    hide FeeCovered, MergePanics, Merge, ChoicesPanic;
  }

  lemma NewTicketIsUnpaid(env: Env, e: Event)
    ensures var ws := React(env, e, None);
            || ws == []
            || (|ws| == 1 && ws[0].Insert? && e.FeeAddress? && ws[0].ticket.hash == e.hash
               && ws[0].ticket.feeTxStatus == NoFee)
  {
  }

  /** payFee writes a received fee and then at most its fate. */
  lemma PayFeeIsOrdered(env: Env, e: Event, t: Ticket)
    requires e.PayFee? && RecordInv(env, t)
    ensures var ws := React(env, e, Some(t));
            && |ws| <= 2
            && forall w | w in ws :: w.Update? && Ordered(t, Normalise(w.ticket))
  {
    hide FeeCovered, FeeAccepted;
  }

  /** The wallet steps write the confirmed fee, or its failure, and then remove
      agendas. */
  lemma WalletStepShape(env: Env, e: Event, t: Ticket) returns (head: seq<Write>, u: Ticket, agendas: seq<string>)
    requires (e.CheckFee? || e.Reconcile?) && RecordInv(env, t)
    ensures React(env, e, Some(t)) == head + DropWrites(u, agendas)
    ensures head == [] || head == [Update(u)]
    ensures head == [] ==> u == t
    ensures Ordered(t, u) && Normal(u) && u.hash == t.hash && u.voteChoices == t.voteChoices
    ensures u.tSpendPolicy == t.tSpendPolicy && u.treasuryPolicy == t.treasuryPolicy
    ensures forall step: Step | step.event == e :: DroppedBy(step, t) ==
              if step.writesOk < |head| then [] else agendas[..Least(step.writesOk - |head|, |agendas|)]
    ensures forall step: Step | step.event == e && ReachesWallet(step, t) ::
              u.feeTxStatus == FeeConfirmed && (head == [] || step.writesOk > 0)
  {
    hide FeeCovered, DropWrites;
    head, u, agendas := [], t, [];
    assert DropWrites(t, []) == [] by { NoDrops(t); }
    if e.Reconcile? {
      agendas := if Votable(t) && e.toWallet then e.dropped else [];
    } else if UnconfirmedFee(t) {
      if !e.lookup.Found? {
        u := t.(feeTxStatus := FeeError);
        head := [Update(u)];
        NoDrops(u);
      } else if e.lookup.info.confirmations >= REQUIRED_CONFS {
        u := FeeConfirmedRecord(t);
        head := [Update(u)];
        agendas := if e.toWallet then e.dropped else [];
        NoDrops(u);
      }
    }
  }

  lemma NoDrops(t: Ticket)
    ensures DropWrites(t, []) == []
  {
  }

  lemma OrderedThenChoices(t: Ticket, u: Ticket, v: Ticket)
    requires Ordered(t, u) && SameButChoices(u, v)
    ensures Ordered(t, v)
  {
  }

  /** The agendas a wallet step takes out of the stored choices. */
  ghost function DroppedBy(step: Step, t: Ticket): seq<string>
  {
    match step.event
    case CheckFee(lookup, dropped, toWallet) =>
      if UnconfirmedFee(t) && Confirmations(lookup) >= REQUIRED_CONFS && toWallet && step.writesOk > 0
      then dropped[..Least(step.writesOk - 1, |dropped|)] else []
    case Reconcile(dropped, toWallet) =>
      if Votable(t) && toWallet then dropped[..Least(step.writesOk, |dropped|)] else []
    case _ => []
  }

  function Least(a: nat, b: nat): nat
  {
    if a < b then a else b
  }

  /** An optional update followed by agenda removals, cut short after n writes. */
  lemma HeadThenDrops(db: Db, t: Ticket, head: seq<Write>, u: Ticket, agendas: seq<string>, n: nat) returns (r: Ticket)
    requires t.hash in db && db[t.hash] == t && u.hash == t.hash && Normal(u)
    requires (head == [] && u == t) || head == [Update(u)]
    requires n <= |head| + |agendas|
    ensures ApplyAll(db, (head + DropWrites(u, agendas))[..n]) == db[t.hash := r]
    ensures n == 0 ==> r == t
    ensures n > 0 ==> SameButChoices(u, r) && r.tSpendPolicy.Entries() == u.tSpendPolicy.Entries()
                      && r.treasuryPolicy.Entries() == u.treasuryPolicy.Entries()
                      && r.voteChoices.Entries()
                         == u.voteChoices.Entries() - Agendas(agendas[..if n < |head| then 0 else n - |head|])
  {
    hide DropWrites, SameButChoices;
    var ws := head + DropWrites(u, agendas);
    assert db[t.hash := t] == db;
    if n == 0 {
      assert ws[..0] == [];
      r := t;
    } else if head == [] {
      assert ws == DropWrites(u, agendas);
      r := DropsKeepRecord(db, u, agendas, n);
    } else {
      ApplyFirst(db, Update(u), DropWrites(u, agendas), n);
      var db1 := db[t.hash := u];
      assert Normalise(u) == u && Apply(db, Update(u)) == db1;
      r := DropsKeepRecord(db1, u, agendas, n - 1);
      if n == 1 {
        r := u;
        SameAsItself(u);
      }
      assert db1[t.hash := r] == db[t.hash := r];
      assert Agendas(agendas[..0]) == {};
    }
  }

  lemma SameAsItself(u: Ticket)
    ensures SameButChoices(u, u)
  {
  }

  lemma WalletStepEffect(env: Env, db: Db, step: Step) returns (r: Ticket)
    requires WellFiled(db) && step.hash in db && RecordInv(env, db[step.hash])
    requires step.event.CheckFee? || step.event.Reconcile?
    ensures ApplyAll(db, Performed(env, db, step)) == db[step.hash := r]
    ensures Ordered(db[step.hash], r)
    ensures ReachesWallet(step, db[step.hash]) ==> r.feeTxStatus == FeeConfirmed
    ensures r.voteChoices.Entries() == db[step.hash].voteChoices.Entries() - Agendas(DroppedBy(step, db[step.hash]))
    ensures r.tSpendPolicy.Entries() == db[step.hash].tSpendPolicy.Entries()
    ensures r.treasuryPolicy.Entries() == db[step.hash].treasuryPolicy.Entries()
  {
    hide React, RecordInv, DropWrites, DroppedBy, Ordered, ApplyAll, ReachesWallet;
    var t := db[step.hash];
    var head, u, agendas := WalletStepShape(env, step.event, t);
    var size := |head| + |agendas|;
    var n := Least(step.writesOk, size);
    var ws := head + DropWrites(u, agendas);
    assert ws[..|ws|] == ws;
    assert Performed(env, db, step) == ws[..n];
    r := HeadThenDrops(db, t, head, u, agendas, n);
    if n == 0 {
      OrderedReflexive(t);
      assert agendas[..0] == [];
    } else {
      OrderedThenChoices(t, u, r);
    }
  }

  lemma OrderedReflexive(t: Ticket)
    ensures Ordered(t, t)
  {
  }

  // -------------------------------------------------------- every step

  lemma {:induction false} ApplyAllKeepsInv(env: Env, db: Db, ws: seq<Write>)
    requires StoredInv(env, db) && forall w | w in ws :: WriteInv(env, w)
    ensures StoredInv(env, ApplyAll(db, ws))
    decreases ws
  {
    hide RecordInv;
    if ws != [] {
      assert WriteInv(env, ws[0]);
      ApplyOneKeepsInv(env, db, ws[0]);
      ApplyAllKeepsInv(env, Apply(db, ws[0]), ws[1..]);
    }
  }

  lemma ApplyOneKeepsInv(env: Env, db: Db, w: Write)
    requires StoredInv(env, db) && WriteInv(env, w)
    ensures StoredInv(env, Apply(db, w))
  {
    hide RecordInv;
  }

  /** The effect of any step on the record it targets. */
  lemma StepEffect(env: Env, db: Db, step: Step) returns (r: Option<Ticket>)
    requires StoredInv(env, db)
    ensures Leaves(db, ApplyAll(db, Performed(env, db, step)), Target(step), r)
    ensures StoredInv(env, ApplyAll(db, Performed(env, db, step)))
    ensures Target(step) in db && r.Some? ==> Ordered(db[Target(step)], r.value)
    ensures Target(step) in db && r.None? ==> !db[Target(step)].confirmed
    ensures Target(step) !in db && r.Some? ==> r.value.feeTxStatus == NoFee && step.event.FeeAddress?
  {
    hide RecordInv, React, Ordered, WriteInv;
    var h, e := Target(step), step.event;
    var snap := Lookup(db, h);
    var ws := React(env, e, snap);
    var done := Performed(env, db, step);
    StepKeepsRecords(env, e, snap);
    assert forall w | w in done :: w in ws;
    ApplyAllKeepsInv(env, db, done);
    r := snap;
    if h !in db {
      NewTicketIsUnpaid(env, e);
      if done != [] {
        ApplyOne(db, done[0]);
        assert done == [done[0]];
        r := Some(Normalise(done[0].ticket));
      } else {
        ApplyNone(db);
        assert db - {h} == db;
      }
    } else {
      var t := db[h];
      OrderedReflexive(t);
      ApplyNone(db);
      assert db[h := t] == db;
      if e.CheckFee? || e.Reconcile? {
        var u := WalletStepEffect(env, db, step);
        r := Some(u);
      } else if e.PayFee? {
        PayFeeIsOrdered(env, e, t);
        PayFeeEffectIs(db, t, done);
        r := Some(PayFeeEffect(db, t, done));
      } else {
        SingleWriteIsOrdered(env, e, t);
        if done != [] {
          assert done == [done[0]] == ws;
          ApplyOne(db, done[0]);
          OrderedSameHash(t, done[0]);
          r := if done[0].Delete? then None else Some(Normalise(done[0].ticket));
        }
      }
    }
  }

  lemma OrderedSameHash(t: Ticket, w: Write)
    ensures !w.Delete? && Ordered(t, Normalise(w.ticket)) ==> w.ticket.hash == t.hash
  {
  }

  lemma PayFeeEffectIs(db: Db, t: Ticket, ws: seq<Write>)
    requires t.hash in db && db[t.hash] == t && |ws| <= 2
    requires forall w | w in ws :: w.Update? && Ordered(t, Normalise(w.ticket))
    ensures ApplyAll(db, ws) == db[t.hash := PayFeeEffect(db, t, ws)] && Ordered(t, PayFeeEffect(db, t, ws))
  {
    OrderedReflexive(t);
    assert db[t.hash := t] == db;
    if |ws| == 1 {
      OrderedSameHash(t, ws[0]);
      assert ws == [ws[0]];
      ApplyOne(db, ws[0]);
    } else if |ws| == 2 {
      OrderedSameHash(t, ws[0]);
      OrderedSameHash(t, ws[1]);
      assert ws == [ws[0]] + [ws[1]] && ws[..2] == ws && [ws[1]][..1] == [ws[1]];
      ApplyFirst(db, ws[0], [ws[1]], 2);
      ApplyOne(Apply(db, ws[0]), ws[1]);
    } else {
      ApplyNone(db);
    }
  }

  /** The last write wins. */
  function PayFeeEffect(db: Db, t: Ticket, ws: seq<Write>): Ticket
    requires forall w | w in ws :: w.Update?
  {
    if ws == [] then t else Normalise(ws[|ws| - 1].ticket)
  }

  // -------------------------------------------------------- whole runs

  /** The records a ticket may have later on, once its purchase is confirmed. */
  ghost predicate Later(t: Ticket, u: Ticket)
  {
    && SameIdentity(t, u) && u.confirmed && u.purchaseHeight == t.purchaseHeight
    && (t.feeTxStatus == FeeConfirmed ==> u.feeTxStatus == FeeConfirmed && u.votingWIF == t.votingWIF
                                          && u.feeTxHash == t.feeTxHash && u.feeAmount == t.feeAmount)
    && (t.feeTxStatus != NoFee ==> u.feeTxStatus != NoFee)
    && (t.outcome in {Voted, Missed, Expired} ==> u.outcome == t.outcome)
  }

  lemma OrderedIsLater(t: Ticket, u: Ticket, v: Ticket)
    requires t.confirmed && Ordered(t, u) && Later(u, v)
    ensures Later(t, v)
  {
  }

  /** Confirmation, the confirmed fee and a final outcome are absorbing, and a
      confirmed ticket is never removed, over any run of atomic steps. */
  lemma {:induction false} ConfirmedTicketsStay(env: Env, s: State, steps: seq<Step>, h: string)
    requires StoredInv(env, s.db) && h in s.db && s.db[h].confirmed
    ensures var db := Run(env, s, steps).db;
            StoredInv(env, db) && h in db && Later(s.db[h], db[h])
    decreases steps
  {
    if steps != [] {
      hide RecordInv, Performed, Ordered, Later;
      var s1 := Next(env, s, steps[0]);
      var r := StepEffect(env, s.db, steps[0]);
      assert s1.db == ApplyAll(s.db, Performed(env, s.db, steps[0]));
      OrderedReflexive(s.db[h]);
      OrderedKeepsConfirmed(s.db[h], s1.db[h]);
      ConfirmedTicketsStay(env, s1, steps[1..], h);
      OrderedIsLater(s.db[h], s1.db[h], Run(env, s, steps).db[h]);
    }
  }

  lemma OrderedKeepsConfirmed(t: Ticket, u: Ticket)
    ensures Ordered(t, u) && t.confirmed ==> u.confirmed
  {
  }

  /** Wallet safety: every pair ever sent to a wallet is a stored ticket with a
      confirmed fee and that very voting key. */
  ghost predicate WalletsSafe(s: State)
  {
    forall p | p in s.added :: HeldSafely(s.db, p)
  }

  ghost predicate HeldSafely(db: Db, p: (string, string))
  {
    p.0 in db && db[p.0].confirmed && db[p.0].feeTxStatus == FeeConfirmed && db[p.0].votingWIF == p.1
  }

  lemma NextKeepsWalletsSafe(env: Env, s: State, step: Step)
    requires StoredInv(env, s.db) && WalletsSafe(s)
    ensures StoredInv(env, Next(env, s, step).db) && WalletsSafe(Next(env, s, step))
  {
    hide React, RecordInv, Performed, Ordered, ReachesWallet;
    var h, s1 := Target(step), Next(env, s, step);
    var r := StepEffect(env, s.db, step);
    forall p | p in s1.added ensures HeldSafely(s1.db, p) {
      if p in s.added {
        if p.0 == h {
          StaysHeld(s.db, p, r);
          assert Leaves(s.db, s1.db, p.0, r);
        } else {
          SameRecordSameHold(s.db, s1.db, p);
        }
      } else {
        NewlyHeld(env, s.db, step, r);
      }
    }
  }

  lemma SameRecordSameHold(db: Db, db': Db, p: (string, string))
    requires HeldSafely(db, p) && (p.0 in db ==> p.0 in db' && db'[p.0] == db[p.0])
    ensures HeldSafely(db', p)
  {
  }

  lemma StaysHeld(db: Db, p: (string, string), r: Option<Ticket>)
    requires HeldSafely(db, p)
    requires r.Some? ==> Ordered(db[p.0], r.value)
    requires r.None? ==> !db[p.0].confirmed
    ensures r.Some? && forall db' | Leaves(db, db', p.0, r) :: HeldSafely(db', p)
  {
  }

  /** A step that reaches a wallet has just stored the confirmed fee, or found it
      stored. */
  lemma NewlyHeld(env: Env, db: Db, step: Step, r: Option<Ticket>)
    requires StoredInv(env, db) && Target(step) in db && ReachesWallet(step, db[Target(step)])
    requires Leaves(db, ApplyAll(db, Performed(env, db, step)), Target(step), r)
    ensures HeldSafely(ApplyAll(db, Performed(env, db, step)), (Target(step), db[Target(step)].votingWIF))
  {
    var u := WalletStepEffect(env, db, step);
    assert db[step.hash := u][step.hash] == u;
    assert RecordInv(env, db[step.hash]);
    hide React, Performed, ApplyAll, FeeCovered, DroppedBy;
  }

  /** Every ticket ever added to a voting wallet is still in the database, its fee
      confirmed, under the voting key it was added with: over any run of atomic
      steps, the removal of unconfirmed tickets included. */
  lemma {:induction false} WalletSafety(env: Env, s: State, steps: seq<Step>)
    requires StoredInv(env, s.db) && WalletsSafe(s)
    ensures WalletsSafe(Run(env, s, steps))
    decreases steps
  {
    if steps != [] {
      NextKeepsWalletsSafe(env, s, steps[0]);
      hide WalletsSafe, StoredInv, Next;
      WalletSafety(env, Next(env, s, steps[0]), steps[1..]);
    }
  }

  lemma {:induction false} RunKeepsInv(env: Env, s: State, steps: seq<Step>)
    requires StoredInv(env, s.db)
    ensures StoredInv(env, Run(env, s, steps).db)
    decreases steps
  {
    if steps != [] {
      var r := StepEffect(env, s.db, steps[0]);
      hide StoredInv, Performed;
      RunKeepsInv(env, Next(env, s, steps[0]), steps[1..]);
    }
  }

  /** Lifecycle order: in every reachable state, a step changes each record only as
      `Ordered` allows, and only ever removes tickets that are not confirmed. */
  lemma EveryStepIsOrdered(env: Env, s: State, steps: seq<Step>, step: Step, h: string)
    requires StoredInv(env, s.db) && h in Run(env, s, steps).db
    ensures var a := Run(env, s, steps);
            var b := Next(env, a, step);
            if h in b.db then Ordered(a.db[h], b.db[h]) else !a.db[h].confirmed
  {
    hide RecordInv, Performed, Ordered, Run;
    RunKeepsInv(env, s, steps);
    var a := Run(env, s, steps);
    var r := StepEffect(env, a.db, step);
    OrderedReflexive(a.db[h]);
  }
}
