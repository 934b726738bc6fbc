/** What a write from an old snapshot leaves of a ticket, exactly: confirmation,
    the confirmed fee under its voting key, and the outcome survive a write if and
    only if the record that was read, or the step itself, vouches for them. */
module StaleWrites {
  import opened Encoding
  import opened Tickets
  import opened Lifecycle
  import opened Interleavings
  import Atomic

  /** The facts about a ticket that other parties rely on. */
  datatype Fact = Confirmed | PaidUnder(wif: string) | HasOutcome(outcome: Outcome)

  predicate Shows(t: Ticket, f: Fact)
  {
    match f
    case Confirmed => t.confirmed
    case PaidUnder(wif) => t.confirmed && t.feeTxStatus == FeeConfirmed && t.votingWIF == wif
    case HasOutcome(o) => t.outcome == o
  }

  predicate Holds(db: Db, h: string, f: Fact)
  {
    h in db && Shows(db[h], f)
  }

  /** The step vouches for the fact: the record it read shows it, or it has just
      learned it from the node. Whoever is about to write can tell. */
  predicate Vouches(e: Event, t: Ticket, f: Fact)
  {
    match f
    case Confirmed => t.confirmed || (e.CheckTicket? && e.lookup.Found?)
    case PaidUnder(wif) =>
      && t.votingWIF == wif
      && (t.feeTxStatus == FeeConfirmed || (e.CheckFee? && Confirmations(e.lookup) >= REQUIRED_CONFS))
    case HasOutcome(o) => if e.SetOutcome? || e.FixRevoked? then e.outcome == o else t.outcome == o
  }

  /** The step writes to the ticket: it read some record of it, of whatever age. */
  predicate WritesTo(env: Env, step: Step, h: string)
  {
    step.snapshot.Some? && step.snapshot.value.hash == h && step.nth < |React(env, step.event, step.snapshot)|
  }

  /** The empty outcome is not a fact: every new ticket has it. */
  predicate Meaningful(f: Fact)
  {
    f.HasOutcome? ==> f.outcome != Unspent
  }

  lemma {:induction false} DropsShowTheSame(t: Ticket, agendas: seq<string>, n: nat, f: Fact)
    requires n < |agendas|
    ensures var w := DropWrites(t, agendas)[n];
            w.Update? && (Shows(Normalise(w.ticket), f) <==> Shows(t, f))
    decreases agendas
  {
    var less := WithoutAgenda(t, agendas[0]);
    if n > 0 {
      DropsShowTheSame(less, agendas[1..], n - 1, f);
    }
  }

  lemma WalletWriteShows(env: Env, e: Event, t: Ticket, nth: nat, f: Fact)
    requires e.CheckFee? || e.Reconcile?
    requires RecordInv(env, t) && nth < |React(env, e, Some(t))|
    ensures var w := React(env, e, Some(t))[nth];
            w.Update? && (Shows(Normalise(w.ticket), f) <==> Vouches(e, t, f))
  {
    hide FeeCovered, DropWrites;
    if e.Reconcile? {
      DropsShowTheSame(t, e.dropped, nth, f);
    } else if e.lookup.Found? && e.toWallet && nth > 0 {
      DropsShowTheSame(FeeConfirmedRecord(t), e.dropped, nth - 1, f);
    }
  }

  lemma PaymentWriteShows(env: Env, e: Event, t: Ticket, nth: nat, f: Fact)
    requires e.PayFee? && RecordInv(env, t) && nth < |React(env, e, Some(t))|
    ensures var w := React(env, e, Some(t))[nth];
            w.Update? && (Shows(Normalise(w.ticket), f) <==> Vouches(e, t, f))
  {
    hide FeeCovered, FeeAccepted, WellFormedPayFee;
  }

  lemma SingleWriteShows(env: Env, e: Event, t: Ticket, nth: nat, f: Fact)
    requires !e.PayFee? && !e.CheckFee? && !e.Reconcile? && Meaningful(f)
    requires RecordInv(env, t) && nth < |React(env, e, Some(t))|
    ensures var w := React(env, e, Some(t))[nth];
            if w.Update? then Shows(Normalise(w.ticket), f) <==> Vouches(e, t, f)
            else w == Delete(t.hash) && !Vouches(e, t, f)
  {
    hide FeeCovered, ChoicesAccepted, ChoicesPanic, Merge;
  }

  /** One write: whatever else happened since the snapshot was read, the fact holds
      afterwards exactly when the step vouches for it. */
  lemma WriteKeepsIff(env: Env, s: State, step: Step, h: string, f: Fact)
    requires Inv(env, s) && Possible(s, step) && h in s.db && WritesTo(env, step, h) && Meaningful(f)
    ensures Holds(Next(env, s, step).db, h, f) <==> Vouches(step.event, step.snapshot.value, f)
  {
    hide RecordInv, React, Vouches, Shows, WellFiled;
    var e, t := step.event, step.snapshot.value;
    var w := React(env, e, Some(t))[step.nth];
    assert RecordInv(env, t) && step.snapshot == Some(t);
    StepConcernsItsTicket(env, e, t);
    assert Concerns(w, h);
    if e.CheckFee? || e.Reconcile? {
      WalletWriteShows(env, e, t, step.nth, f);
    } else if e.PayFee? {
      PaymentWriteShows(env, e, t, step.nth, f);
    } else {
      SingleWriteShows(env, e, t, step.nth, f);
    }
  }

  /** A step that does not write to the ticket leaves its record alone. */
  lemma OthersLeaveIt(env: Env, s: State, step: Step, h: string)
    requires h in s.db && !WritesTo(env, step, h)
    ensures h in Next(env, s, step).db && Next(env, s, step).db[h] == s.db[h]
  {
    hide React;
    var ws := React(env, step.event, step.snapshot);
    if step.nth < |ws| {
      var w := ws[step.nth];
      assert w in ws;
      if step.snapshot.Some? {
        StepConcernsItsTicket(env, step.event, step.snapshot.value);
        assert Concerns(w, step.snapshot.value.hash);
      } else {
        Atomic.NewTicketIsUnpaid(env, step.event);
        assert w.Insert?;
      }
    }
  }

  // ------------------------------------------------------------ whole runs

  ghost predicate AlwaysHolds(env: Env, s: State, steps: seq<Step>, h: string, f: Fact)
    decreases steps
  {
    Holds(s.db, h, f) && (steps != [] ==> AlwaysHolds(env, Next(env, s, steps[0]), steps[1..], h, f))
  }

  predicate VouchesIfWriting(env: Env, step: Step, h: string, f: Fact)
  {
    WritesTo(env, step, h) ==> Vouches(step.event, step.snapshot.value, f)
  }

  /** Every step that writes to the ticket vouches for the fact. */
  ghost predicate AllVouch(env: Env, steps: seq<Step>, h: string, f: Fact)
  {
    forall i | 0 <= i < |steps| :: VouchesIfWriting(env, steps[i], h, f)
  }

  lemma AllVouchSplits(env: Env, steps: seq<Step>, h: string, f: Fact)
    requires steps != []
    ensures AllVouch(env, steps, h, f) <==> VouchesIfWriting(env, steps[0], h, f) && AllVouch(env, steps[1..], h, f)
  {
    hide VouchesIfWriting;
    forall i | 0 <= i < |steps| - 1 ensures steps[1..][i] == steps[i + 1] {
    }
    if VouchesIfWriting(env, steps[0], h, f) && AllVouch(env, steps[1..], h, f) {
      forall i | 0 <= i < |steps| ensures VouchesIfWriting(env, steps[i], h, f) {
        if i > 0 {
          assert steps[1..][i - 1] == steps[i];
        }
      }
    }
  }

  /** Over any interleaving of handlers and background steps with records of any
      age, a fact once true of a ticket stays true exactly when every step that
      writes to the ticket vouches for it. */
  lemma {:induction false} StaysTrueIffVouched(env: Env, s: State, steps: seq<Step>, h: string, f: Fact)
    requires Inv(env, s) && ValidRun(env, s, steps) && Holds(s.db, h, f) && Meaningful(f)
    ensures AlwaysHolds(env, s, steps, h, f) <==> AllVouch(env, steps, h, f)
    decreases steps
  {
    hide Inv, Vouches, Shows, WritesTo;
    if steps != [] {
      AllVouchSplits(env, steps, h, f);
      hide AllVouch;
      var s' := Next(env, s, steps[0]);
      NextKeepsInv(env, s, steps[0]);
      if WritesTo(env, steps[0], h) {
        WriteKeepsIff(env, s, steps[0], h, f);
      } else {
        OthersLeaveIt(env, s, steps[0], h);
      }
      hide Next;
      if Holds(s'.db, h, f) {
        StaysTrueIffVouched(env, s', steps[1..], h, f);
      }
    }
  }

  /** Wallet safety at every point of a run, for the pairs in `added`. */
  ghost predicate AlwaysSafe(env: Env, s: State, steps: seq<Step>, added: set<(string, string)>)
    decreases steps
  {
    && Atomic.WalletsSafe(Atomic.State(s.db, added))
    && (steps != [] ==> AlwaysSafe(env, Next(env, s, steps[0]), steps[1..], added))
  }

  lemma {:induction false} SafeIsPaid(env: Env, s: State, steps: seq<Step>, added: set<(string, string)>)
    ensures AlwaysSafe(env, s, steps, added)
            <==> forall p | p in added :: AlwaysHolds(env, s, steps, p.0, PaidUnder(p.1))
    decreases steps
  {
    hide Next;
    if steps != [] {
      SafeIsPaid(env, Next(env, s, steps[0]), steps[1..], added);
    }
    forall p | p in added ensures Atomic.HeldSafely(s.db, p) <==> Holds(s.db, p.0, PaidUnder(p.1)) {
    }
    hide Holds, Atomic.HeldSafely;
  }

  /** Wallet safety under arbitrary interleavings, exactly: tickets that were sent to
      wallets stay stored, paid and under their key as long as every step that
      writes to one of them read it with the fee confirmed under that key, or has
      just seen the fee confirmed. */
  lemma WalletSafetyIffVouched(env: Env, s: State, steps: seq<Step>, added: set<(string, string)>)
    requires Inv(env, s) && ValidRun(env, s, steps) && Atomic.WalletsSafe(Atomic.State(s.db, added))
    ensures AlwaysSafe(env, s, steps, added) <==> forall p | p in added :: AllVouch(env, steps, p.0, PaidUnder(p.1))
  {
    SafeIsPaid(env, s, steps, added);
    forall p | p in added
      ensures AlwaysHolds(env, s, steps, p.0, PaidUnder(p.1)) <==> AllVouch(env, steps, p.0, PaidUnder(p.1))
    {
      assert Atomic.HeldSafely(s.db, p);
      StaysTrueIffVouched(env, s, steps, p.0, PaidUnder(p.1));
    }
    hide Inv, AlwaysSafe, AlwaysHolds, AllVouch;
  }

  /** Such a step exists for every ticket with a broadcast fee: addToWallets confirms
      the fee and sends the ticket to the wallets, and a setVoteChoices that read the
      ticket before then writes the unconfirmed fee back. */
  lemma StaleWriteUnpaysWalletTicket(env: Env, t: Ticket, info: TxInfo, c: ChoicesRequest)
    requires RecordInv(env, t) && t.feeTxStatus == FeeBroadcast
    requires info.confirmations >= REQUIRED_CONFS && ChoicesAccepted(env, t, c, true, true)
    ensures var s, pair := State(map[t.hash := t], {t}), (t.hash, t.votingWIF);
            var confirm := Step(CheckFee(Found(info), [], true), Some(t), 0);
            var choose := Step(SetVoteChoices(c, true, true), Some(t), 0);
            var s1 := Next(env, s, confirm);
            var s2 := Next(env, s1, choose);
            && Inv(env, s) && Possible(s, confirm) && Possible(s1, choose)
            && Atomic.ReachesWallet(Atomic.Step(t.hash, confirm.event, 1), t)
            && Atomic.HeldSafely(s1.db, pair) && !Atomic.HeldSafely(s2.db, pair)
  {
    var s, s1 := AddedToWallets(env, t, info);
    var choose := Step(SetVoteChoices(c, true, true), Some(t), 0);
    Reactions(env, t, c);
    hide React, RecordInv, ChoicesAccepted, Inv;
    WriteKeepsIff(env, s1, choose, t.hash, PaidUnder(t.votingWIF));
  }

  lemma AddedToWallets(env: Env, t: Ticket, info: TxInfo) returns (s: State, s1: State)
    requires RecordInv(env, t) && t.feeTxStatus == FeeBroadcast && info.confirmations >= REQUIRED_CONFS
    ensures var confirm := Step(CheckFee(Found(info), [], true), Some(t), 0);
            && s == State(map[t.hash := t], {t}) && Inv(env, s) && Possible(s, confirm)
            && s1 == Next(env, s, confirm) && Inv(env, s1) && t in s1.seen
            && Holds(s1.db, t.hash, PaidUnder(t.votingWIF))
            && Atomic.HeldSafely(s1.db, (t.hash, t.votingWIF))
  {
    s := State(map[t.hash := t], {t});
    var confirm := Step(CheckFee(Found(info), [], true), Some(t), 0);
    s1 := Next(env, s, confirm);
    SingletonInv(env, t);
    FeeIsConfirmedFirst(env, t, info);
    hide React, RecordInv, Inv;
    NextKeepsInv(env, s, confirm);
    WriteKeepsIff(env, s, confirm, t.hash, PaidUnder(t.votingWIF));
  }

  lemma FeeIsConfirmedFirst(env: Env, t: Ticket, info: TxInfo)
    requires RecordInv(env, t) && t.feeTxStatus == FeeBroadcast && info.confirmations >= REQUIRED_CONFS
    ensures React(env, CheckFee(Found(info), [], true), Some(t)) == [Update(FeeConfirmedRecord(t))]
  {
    hide FeeCovered;
    assert DropWrites(FeeConfirmedRecord(t), []) == [];
  }

  lemma Reactions(env: Env, t: Ticket, c: ChoicesRequest)
    requires RecordInv(env, t) && t.feeTxStatus == FeeBroadcast && ChoicesAccepted(env, t, c, true, true)
    ensures |React(env, SetVoteChoices(c, true, true), Some(t))| > 0
  {
    hide FeeCovered, ChoicesAccepted;
  }
}
