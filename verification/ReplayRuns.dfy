/** Replay protection of the handlers themselves, over any run of requests for one
    ticket with other steps of the daemon in between. */
module ReplayRuns {
  import opened Encoding
  import opened Tickets
  import opened Lifecycle
  import opened VoteLog
  import opened Handlers
  import opened ReplayCheck
  import Atomic

  /** The requests of one ticket and the world they are served in. */
  datatype World = World(env: Env, broken: set<string>, limit: nat, timestampOf: string -> Option<int>, hash: string)

  ghost function Serve1(w: World, d: Desk, c: Call): Desk
  {
    ServeCall(w.env, w.broken, w.limit, w.timestampOf, w.hash, d, c)
  }

  ghost function ServeCalls(w: World, d: Desk, calls: seq<Call>): Desk
    decreases calls
  {
    if calls == [] then d else ServeCalls(w, Serve1(w, d, calls[0]), calls[1..])
  }

  /** What a request is to the timestamp check, if it passes all other guards. */
  ghost function Admits(w: World, d: Desk, c: Call): seq<Request>
  {
    var known := Atomic.Lookup(d.db, w.hash);
    if known.None? then []
    else
      match c
      case PayCall(r, lookup, canVote, now, sent, record) =>
        if PaymentSucceeds(w.env, d.db, w.broken, known.value, r, lookup, canVote, now, sent)
           && w.timestampOf(record.request).Some?
        then [Pay(w.timestampOf(record.request).value)] else []
      case ChooseCall(choices, walletsUp, record) =>
        if ChoiceSucceeds(w.env, d.db, w.broken, known.value, choices, true, walletsUp)
           && w.timestampOf(record.request).Some?
        then [Choose(w.timestampOf(record.request).value)] else []
      case OtherStep(_) => []
  }

  ghost function Admitted(w: World, d: Desk, calls: seq<Call>): seq<Request>
    decreases calls
  {
    if calls == [] then [] else Admits(w, d, calls[0]) + Admitted(w, Serve1(w, d, calls[0]), calls[1..])
  }

  /** Both kinds of request must carry a timestamp to be bound at all. */
  predicate Timed(w: World, c: Call)
  {
    c.OtherStep? || w.timestampOf(c.record.request).Some?
  }

  ghost predicate AllTimed(w: World, saved: seq<VoteChangeRecord>)
  {
    forall i | 0 <= i < |saved| :: w.timestampOf(saved[i].request).Some?
  }

  lemma {:induction false} ServeConcat(h: seq<int>, limit: nat, a: seq<Request>, b: seq<Request>)
    ensures Serve(h, limit, a + b) == Serve(Serve(h, limit, a), limit, b)
    decreases a
  {
    if a == [] {
      assert a + b == b;
    } else {
      assert (a + b)[1..] == a[1..] + b;
      ServeConcat(if Accepted(h, limit, a[0]) then h + [a[0].timestamp] else h, limit, a[1..], b);
    }
  }

  lemma ServeOne(h: seq<int>, limit: nat, r: Request)
    ensures Serve(h, limit, [r]) == if Accepted(h, limit, r) then h + [r.timestamp] else h
    ensures Serve(h, limit, []) == h
  {
    assert [r][1..] == [];
  }

  /** One call: the log's timestamps move as the server of module ReplayCheck says. */
  lemma CallServes(w: World, d: Desk, c: Call)
    requires AllTimed(w, d.saved) && Timed(w, c)
    ensures var d' := Serve1(w, d, c);
            && AllTimed(w, d'.saved)
            && Timestamps(d'.saved, w.timestampOf)
               == Serve(Timestamps(d.saved, w.timestampOf), w.limit, Admits(w, d, c))
  {
    hide Written, PayFeeAccepted, ChoicesAccepted, Newer, Retained, TooOld, Timestamps;
    var h := Timestamps(d.saved, w.timestampOf);
    if c.OtherStep? {
      ServeOne(h, w.limit, Pay(0));
    } else {
      var t := w.timestampOf(c.record.request).value;
      ServeOne(h, w.limit, Pay(t));
      ServeOne(h, w.limit, Choose(t));
      NewerMeansNotTooOld(d.saved, w.limit, w.timestampOf, t);
      TimestampsAppend(d.saved, c.record, w.timestampOf);
      if c.ChooseCall? && Atomic.Lookup(d.db, w.hash).Some? {
        ReplayGuardIsSeparate(w.env, Atomic.Lookup(d.db, w.hash).value, c.choices,
                              Newer(d.saved, w.limit, w.timestampOf, t), c.walletsUp);
      }
    }
  }

  lemma TimestampsAppend(saved: seq<VoteChangeRecord>, record: VoteChangeRecord, timestampOf: string -> Option<int>)
    requires (forall i | 0 <= i < |saved| :: timestampOf(saved[i].request).Some?) && timestampOf(record.request).Some?
    ensures Timestamps(saved + [record], timestampOf)
            == Timestamps(saved, timestampOf) + [timestampOf(record.request).value]
  {
  }

  lemma ReplayGuardIsSeparate(env: Env, t: Ticket, c: ChoicesRequest, newer: bool, walletsUp: bool)
    ensures ChoicesAccepted(env, t, c, newer, walletsUp) <==> newer && ChoicesAccepted(env, t, c, true, walletsUp)
  {
  }

  /** The handlers, over any run, keep exactly the history of the abstract server. */
  lemma {:induction false} HandlersAreTheServer(w: World, d: Desk, calls: seq<Call>)
    requires AllTimed(w, d.saved) && forall i | 0 <= i < |calls| :: Timed(w, calls[i])
    ensures var d' := ServeCalls(w, d, calls);
            && AllTimed(w, d'.saved)
            && Timestamps(d'.saved, w.timestampOf)
               == Serve(Timestamps(d.saved, w.timestampOf), w.limit, Admitted(w, d, calls))
    decreases calls
  {
    hide Serve1, Admits, Timestamps;
    if calls == [] {
      ServeOne(Timestamps(d.saved, w.timestampOf), w.limit, Pay(0));
    } else {
      CallServes(w, d, calls[0]);
      var d1 := Serve1(w, d, calls[0]);
      HandlersAreTheServer(w, d1, calls[1..]);
      ServeConcat(Timestamps(d.saved, w.timestampOf), w.limit, Admits(w, d, calls[0]), Admitted(w, d1, calls[1..]));
      hide Serve, Admitted;
    }
  }

  /** Replay protection of the handlers, exactly: over any run of requests and other
      steps the timestamps on record stay strictly increasing if and only if each
      successful payment is newer than the records its handler could have read. */
  lemma HandlersInOrderIff(w: World, d: Desk, calls: seq<Call>)
    requires AllTimed(w, d.saved) && forall i | 0 <= i < |calls| :: Timed(w, calls[i])
    requires Increasing(Timestamps(d.saved, w.timestampOf))
    ensures AllTimed(w, ServeCalls(w, d, calls).saved)
    ensures Increasing(Timestamps(ServeCalls(w, d, calls).saved, w.timestampOf))
       <==> PaymentsAreNewer(Timestamps(d.saved, w.timestampOf), w.limit, Admitted(w, d, calls))
  {
    HandlersAreTheServer(w, d, calls);
    InOrderIffPaymentsAreNewer(Timestamps(d.saved, w.timestampOf), w.limit, Admitted(w, d, calls));
  }

  // -------------------------------------------- a replay the guards let through

  /** The ticket is stored as it was when its first payment was accepted, as far as
      later payments and choices are concerned. */
  ghost predicate SameTerms(t: Ticket, u: Ticket)
  {
    && u.hash == t.hash && u.confirmed && u.outcome == Unspent && Normal(u)
    && u.feeAddress == t.feeAddress && u.feeAmount == t.feeAmount && u.feeExpiration == t.feeExpiration
  }

  lemma PayAgain(env: Env, t: Ticket, u: Ticket, r: PayFeeRequest, lookup: TxLookup, canVote: bool, now: real)
    requires SameTerms(t, u) && PayFeeAccepted(env, t, r, lookup, canVote, now) && !FeeReceivedAlready(u)
    ensures PayFeeAccepted(env, u, r, lookup, canVote, now)
  {
    SameFeeTerms(env, t, u, env.decodeTx(r.feeTx).value);
    hide FeeAccepted;
  }

  /** A ticket's desk with its record on the terms of `t` and the given status. */
  ghost predicate At(w: World, t: Ticket, d: Desk, status: FeeStatus)
  {
    w.hash in d.db && w.hash == t.hash && SameTerms(t, d.db[w.hash]) && d.db[w.hash].feeTxStatus == status
  }

  lemma WritesOneRecord(db: Db, u: Ticket, v: Ticket)
    requires u.hash in db
    ensures ApplyAll(db, [Update(u)]) == db[u.hash := Normalise(u)]
    ensures v.hash == u.hash ==> ApplyAll(db, [Update(u), Update(v)]) == db[u.hash := Normalise(v)]
  {
    ApplyOne(db, Update(u));
    WriteTwice(db, Update(u), Update(v));
    assert v.hash == u.hash ==> db[u.hash := Normalise(u)][u.hash := Normalise(v)] == db[u.hash := Normalise(v)];
  }

  /** A payment on such a desk is accepted; it is recorded if the broadcast works. */
  lemma PaymentOnDesk(w: World, t: Ticket, d: Desk, c: Call, status: FeeStatus)
    requires c.PayCall? && At(w, t, d, status) && status in {NoFee, FeeError} && w.hash !in w.broken
    requires PayFeeAccepted(w.env, t, c.payment, c.lookup, c.canVote, c.now) && w.timestampOf(c.record.request).Some?
    ensures At(w, t, Serve1(w, d, c), if c.sent then FeeBroadcast else FeeError)
    ensures Admits(w, d, c) == if c.sent then [Pay(w.timestampOf(c.record.request).value)] else []
  {
    var u := d.db[w.hash];
    PayAgain(w.env, t, u, c.payment, c.lookup, c.canVote, c.now);
    PaymentGuards(w.env, u, c.payment, c.lookup, c.canVote, c.now);
    PaymentReaction(w.env, u, c);
    var paid := WithFee(w.env, u, c.payment);
    WritesOneRecord(d.db, paid, paid.(feeTxStatus := if c.sent then FeeBroadcast else FeeError));
    hide React, ApplyAll, PayFeeAccepted;
  }

  lemma PaymentReaction(env: Env, u: Ticket, c: Call)
    requires c.PayCall? && u.confirmed && PayFeeAccepted(env, u, c.payment, c.lookup, c.canVote, c.now)
    ensures env.decodeWIF(c.payment.votingKey).Some? && env.decodeTx(c.payment.feeTx).Some?
    ensures var paid := WithFee(env, u, c.payment);
            React(env, Event.PayFee(c.payment, c.lookup, c.canVote, c.now, c.sent), Some(u))
            == [Update(paid), Update(paid.(feeTxStatus := if c.sent then FeeBroadcast else FeeError))]
  {
    hide FeeAccepted, WellFormedPayFee;
  }

  /** The fee transaction is lost: addToWallets records an error, and the ticket can
      be paid for again. */
  lemma LostFeeOnDesk(w: World, t: Ticket, d: Desk)
    requires At(w, t, d, FeeBroadcast) && w.hash !in w.broken
    ensures At(w, t, Serve1(w, d, OtherStep(CheckFee(NoTxInfo, [], false))), FeeError)
    ensures Serve1(w, d, OtherStep(CheckFee(NoTxInfo, [], false))).saved == d.saved
  {
    var u := d.db[w.hash];
    assert React(w.env, CheckFee(NoTxInfo, [], false), Some(u)) == [Update(u.(feeTxStatus := FeeError))];
    WritesOneRecord(d.db, u.(feeTxStatus := FeeError), u);
    hide React, ApplyAll;
  }

  lemma ChoiceOnDesk(w: World, t: Ticket, d: Desk, c: Call, status: FeeStatus)
    requires c.ChooseCall? && At(w, t, d, status) && status in {FeeError, FeeBroadcast} && w.hash !in w.broken
    requires c.walletsUp && ValidChoices(w.env, c.choices) && w.timestampOf(c.record.request).Some?
    ensures At(w, t, Serve1(w, d, c), status)
    ensures Admits(w, d, c) == [Choose(w.timestampOf(c.record.request).value)]
  {
    hide React, ApplyAll, NewerRequest, ChoicesAccepted, WithChoices, ValidChoices, SameTerms;
    var u := d.db[w.hash];
    var newer := NewerRequest(d.saved, w.limit, w.timestampOf, c.record);
    ChoosableOnTerms(w.env, t, u, c.choices, newer);
    ChoosableOnTerms(w.env, t, u, c.choices, true);
    ChoicesReaction(w.env, Event.SetVoteChoices(c.choices, newer, true), u);
    ApplyNone(d.db);
    WritesOneRecord(d.db, WithChoices(u, c.choices), u);
  }

  lemma ChoosableOnTerms(env: Env, t: Ticket, u: Ticket, c: ChoicesRequest, newer: bool)
    requires SameTerms(t, u) && u.feeTxStatus in {FeeError, FeeBroadcast} && ValidChoices(env, c)
    ensures Normal(u) && u.hash == t.hash
    ensures ChoicesAccepted(env, u, c, newer, true) <==> newer
    ensures WithChoices(u, c).hash == u.hash && SameTerms(t, Normalise(WithChoices(u, c)))
    ensures Normalise(WithChoices(u, c)).feeTxStatus == u.feeTxStatus
  {
    hide WellFormedChoices, Merge;
  }

  predicate ValidChoices(env: Env, c: ChoicesRequest)
  {
    && WellFormedChoices(c.voteChoices, c.tSpendPolicy, c.treasuryPolicy)
    && env.validVoteChoices(c.voteChoices) && env.validTreasury(c.treasuryPolicy) && env.validTSpend(c.tSpendPolicy)
  }

  /** n times: a payment that is recorded, and its transaction lost again. */
  ghost function Rounds(n: nat, payment: Call): seq<Call>
  {
    if n == 0 then [] else [payment, OtherStep(CheckFee(NoTxInfo, [], false))] + Rounds(n - 1, payment)
  }

  lemma {:induction false} RoundsAdmit(w: World, t: Ticket, d: Desk, n: nat, payment: Call, last: Call)
    requires At(w, t, d, FeeError) && w.hash !in w.broken
    requires payment.PayCall? && payment.sent && w.timestampOf(payment.record.request).Some?
    requires PayFeeAccepted(w.env, t, payment.payment, payment.lookup, payment.canVote, payment.now)
    requires last.ChooseCall? && last.walletsUp && ValidChoices(w.env, last.choices)
             && w.timestampOf(last.record.request).Some?
    ensures Admitted(w, d, Rounds(n, payment) + [last])
         == Payments(n, w.timestampOf(payment.record.request).value)
           + [Choose(w.timestampOf(last.record.request).value)]
    decreases n
  {
    hide Serve1, Admits, At, PayFeeAccepted, ValidChoices;
    if n == 0 {
      ChoiceOnDesk(w, t, d, last, FeeError);
      assert Rounds(0, payment) + [last] == [last] && [last][1..] == [];
      assert Admitted(w, Serve1(w, d, last), []) == [];
      assert Payments(0, w.timestampOf(payment.record.request).value) == [];
    } else {
      var lost, rest := OtherStep(CheckFee(NoTxInfo, [], false)), Rounds(n - 1, payment) + [last];
      PaymentOnDesk(w, t, d, payment, FeeError);
      var d1 := Serve1(w, d, payment);
      LostFeeOnDesk(w, t, d1);
      var d2 := Serve1(w, d1, lost);
      assert Rounds(n, payment) + [last] == [payment] + ([lost] + rest);
      AdmittedTwo(w, d, payment, lost, rest);
      NothingAdmitted(w, d1, lost);
      RoundsAdmit(w, t, d2, n - 1, payment, last);
    }
  }

  lemma NothingAdmitted(w: World, d: Desk, c: Call)
    requires c.OtherStep?
    ensures Admits(w, d, c) == []
  {
  }

  lemma AdmittedTwo(w: World, d: Desk, a: Call, b: Call, rest: seq<Call>)
    ensures Admitted(w, d, [a] + ([b] + rest))
         == Admits(w, d, a) + (Admits(w, Serve1(w, d, a), b) + Admitted(w, Serve1(w, Serve1(w, d, a), b), rest))
  {
    hide Serve1, Admits;
    assert ([a] + ([b] + rest))[1..] == [b] + rest && ([b] + rest)[1..] == rest;
  }

  /** The replay goes through all guards: for every limit and every confirmed ticket
      that can be paid for, a first payment whose broadcast fails, a choice at time
      t, as many payments with the timestamp t - 1 as the log holds, each lost again
      afterwards, and then the very same choice is accepted and recorded once more. */
  lemma ReplayPassesTheGuards(w: World, t: Ticket, payment: Call, choice: Call)
    requires t.hash == w.hash && w.hash !in w.broken && Normal(t) && t.confirmed && t.feeTxStatus == NoFee
             && t.outcome == Unspent
    requires payment.PayCall? && payment.sent
    requires PayFeeAccepted(w.env, t, payment.payment, payment.lookup, payment.canVote, payment.now)
    requires choice.ChooseCall? && choice.walletsUp && ValidChoices(w.env, choice.choices)
    requires w.timestampOf(choice.record.request).Some?
    requires w.timestampOf(payment.record.request) == Some(w.timestampOf(choice.record.request).value - 1)
    ensures var failed := payment.(sent := false);
            var d := ServeCalls(w, Desk(map[t.hash := t], []), [failed]
                     + ([choice] + (Rounds(Kept(w.limit), payment) + [choice])));
            && AllTimed(w, d.saved) && |d.saved| == Kept(w.limit) + 2
            && var h, time := Timestamps(d.saved, w.timestampOf), w.timestampOf(choice.record.request).value;
               h[0] == time && h[|h| - 1] == time
  {
    hide Serve1, Admits, At, PayFeeAccepted, ValidChoices, ServeCalls;
    var failed, d0 := payment.(sent := false), Desk(map[t.hash := t], []);
    var rest := Rounds(Kept(w.limit), payment) + [choice];
    var calls := [failed] + ([choice] + rest);
    AtStart(w, t);
    PaymentOnDesk(w, t, d0, failed, NoFee);
    var d1 := Serve1(w, d0, failed);
    ChoiceOnDesk(w, t, d1, choice, FeeError);
    AdmittedTwo(w, d0, failed, choice, rest);
    RoundsAdmit(w, t, Serve1(w, d1, choice), Kept(w.limit), payment, choice);
    var time := w.timestampOf(choice.record.request).value;
    assert Admitted(w, d0, calls) == [Choose(time)] + (Payments(Kept(w.limit), time - 1) + [Choose(time)]);
    RoundsTimed(w, Kept(w.limit), payment);
    HandlersAreTheServer(w, d0, calls);
    assert Timestamps([], w.timestampOf) == [];
    OldPaymentsAllowReplay(w.limit, time);
  }

  lemma AtStart(w: World, t: Ticket)
    requires t.hash == w.hash && Normal(t) && t.confirmed && t.feeTxStatus == NoFee && t.outcome == Unspent
    ensures At(w, t, Desk(map[t.hash := t], []), NoFee)
  {
  }

  lemma {:induction false} RoundsTimed(w: World, n: nat, payment: Call)
    requires Timed(w, payment)
    ensures forall i | 0 <= i < |Rounds(n, payment)| :: Timed(w, Rounds(n, payment)[i])
  {
    if n > 0 {
      RoundsTimed(w, n - 1, payment);
    }
  }
}
