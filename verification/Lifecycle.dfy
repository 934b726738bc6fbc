/** The life of a ticket record. Every handler and background step is a function
    from the record it read to the records it writes back; two transition systems
    run those steps, one with snapshots of any age and one atomically. */
module Lifecycle {
  import opened Encoding
  import opened Tickets

  type NonEmpty = s: string | s != "" witness "x"

  datatype TxOut = TxOut(version: nat, script: string, value: int64)

  /** `rest` stands for whatever else is in the transaction. */
  datatype FeeTx = FeeTx(outs: seq<TxOut>, rest: string)

  datatype Script = Script(version: nat, bytes: string)

  /** The libraries the handlers call: decoding, hashing, scripts and the guards
      on vote choices and policies. */
  datatype Env = Env(
    decodeTx: string -> Option<FeeTx>,
    sane: FeeTx -> bool,
    txHash: FeeTx -> NonEmpty,
    paymentScript: string -> Option<Script>,
    decodeWIF: string -> Option<NonEmpty>,
    votingRightsScript: string -> Option<Script>,
    validVoteChoices: GoMap -> bool,
    validTSpend: GoMap -> bool,
    validTreasury: GoMap -> bool)

  const REQUIRED_CONFS := 6

  /** What getrawtransaction says of a mined or pending transaction. A transaction
      with six confirmations is in a block above the genesis block. `firstOut` is the
      script of the first output; None when the hex does not decode. */
  datatype RawTx = RawTx(confirmations: int, blockHeight: int64, firstOut: Option<Script>)
  type TxInfo = i: RawTx | i.confirmations >= REQUIRED_CONFS ==> i.blockHeight > 0
    witness RawTx(0, 0, None)

  datatype TxLookup = Found(info: TxInfo) | NoTxInfo | RpcError

  datatype PayFeeRequest = PayFeeRequest(
    feeTx: string, votingKey: string, voteChoices: GoMap, tSpendPolicy: GoMap, treasuryPolicy: GoMap)

  datatype ChoicesRequest = ChoicesRequest(voteChoices: GoMap, tSpendPolicy: GoMap, treasuryPolicy: GoMap)

  /** The JSON binding rules of types/types.go. */
  predicate WellFormedChoices(voteChoices: GoMap, tSpend: GoMap, treasury: GoMap)
  {
    voteChoices.GoMap? && |tSpend.Entries()| <= 3 && |treasury.Entries()| <= 3
  }

  predicate WellFormedPayFee(r: PayFeeRequest)
  {
    r.feeTx != "" && r.votingKey != "" && WellFormedChoices(r.voteChoices, r.tSpendPolicy, r.treasuryPolicy)
  }

  datatype NewAddress = NewAddress(address: string, index: uint32, xPubID: uint32)

  /** FixHeight repairs records an old version left without a height; it finds none
      to repair where the record invariant below holds (Heights.FixHeightIsIdle). */
  datatype Event =
    | FeeAddress(hash: string, commitmentAddress: string, lookup: TxLookup, canVote: bool, now: real,
                 expiration: int64, fee: Option<int64>, issued: Option<NewAddress>)
    | PayFee(request: PayFeeRequest, lookup: TxLookup, canVote: bool, now: real, sent: bool)
    | SetVoteChoices(choices: ChoicesRequest, notReplayed: bool, walletsUp: bool)
    | CheckTicket(lookup: TxLookup)
    | BroadcastFee(sent: bool)
    | CheckFee(lookup: TxLookup, dropped: seq<string>, toWallet: bool)
    | SetOutcome(outcome: Outcome)
    | FixHeight(lookup: TxLookup)
    | FixRevoked(outcome: Outcome)
    | Reconcile(dropped: seq<string>, toWallet: bool)

  datatype Write = Insert(ticket: Ticket) | Update(ticket: Ticket) | Delete(hash: string)

  // ------------------------------------------------------------ the steps

  predicate FeeReceivedAlready(t: Ticket)
  {
    t.feeTxStatus in {FeeReceived, FeeBroadcast, FeeConfirmed}
  }

  predicate FeeExpired(t: Ticket, now: real)
  {
    now > t.feeExpiration as real
  }

  /** internal/webapi/payfee.go:158-164: the value of the first output to the
      script; nothing paid is the same as no output. */
  function FeePaid(outs: seq<TxOut>, want: Script): int64
  {
    if outs == [] then 0
    else if outs[0].version == want.version && outs[0].script == want.bytes then outs[0].value
    else FeePaid(outs[1..], want)
  }

  /** Output j is the first to pay to the script. */
  ghost predicate PaysFirst(outs: seq<TxOut>, want: Script, j: int)
  {
    && 0 <= j < |outs| && outs[j].version == want.version && outs[j].script == want.bytes
    && forall k | 0 <= k < j :: !(outs[k].version == want.version && outs[k].script == want.bytes)
  }

  /** The fee paid is what the first output to the script holds, or nothing. */
  lemma {:induction false} FeePaidMeans(outs: seq<TxOut>, want: Script) returns (j: int)
    ensures (PaysFirst(outs, want, j) && outs[j].value == FeePaid(outs, want))
            || (FeePaid(outs, want) == 0
                && forall k | 0 <= k < |outs| :: !(outs[k].version == want.version && outs[k].script == want.bytes))
    decreases outs
  {
    j := 0;
    if outs != [] && !(outs[0].version == want.version && outs[0].script == want.bytes) {
      var i := FeePaidMeans(outs[1..], want);
      j := i + 1;
      assert forall k | 0 < k < |outs| :: outs[k] == outs[1..][k - 1];
    }
  }

  lemma OnlyOneIsFirst(outs: seq<TxOut>, want: Script, i: int, j: int)
    requires PaysFirst(outs, want, i) && PaysFirst(outs, want, j)
    ensures i == j
  {
  }

  /** A fee transaction the handler accepts for the ticket as it read it. */
  predicate FeeAccepted(env: Env, t: Ticket, tx: FeeTx)
  {
    && env.sane(tx)
    && env.paymentScript(t.feeAddress).Some?
    && var paid := FeePaid(tx.outs, env.paymentScript(t.feeAddress).value);
       paid != 0 && paid >= t.feeAmount
  }

  predicate PayFeeAccepted(env: Env, t: Ticket, r: PayFeeRequest, lookup: TxLookup, canVote: bool, now: real)
  {
    && WellFormedPayFee(r) && !FeeReceivedAlready(t)
    && lookup.Found? && canVote && !FeeExpired(t, now)
    && env.decodeWIF(r.votingKey).Some?
    && env.decodeTx(r.feeTx).Some? && FeeAccepted(env, t, env.decodeTx(r.feeTx).value)
    && lookup.info.firstOut.Some?
    && env.votingRightsScript(env.decodeWIF(r.votingKey).value) == lookup.info.firstOut
  }

  function WithFee(env: Env, t: Ticket, r: PayFeeRequest): Ticket
    requires env.decodeWIF(r.votingKey).Some? && env.decodeTx(r.feeTx).Some?
  {
    t.(votingWIF := env.decodeWIF(r.votingKey).value,
       feeTxHex := r.feeTx,
       feeTxHash := env.txHash(env.decodeTx(r.feeTx).value),
       feeTxStatus := FeeReceived,
       voteChoices := if env.validVoteChoices(r.voteChoices) then r.voteChoices else t.voteChoices,
       tSpendPolicy := if env.validTSpend(r.tSpendPolicy) then r.tSpendPolicy else t.tSpendPolicy,
       treasuryPolicy := if env.validTreasury(r.treasuryPolicy) then r.treasuryPolicy else t.treasuryPolicy)
  }

  /** Assigning to a nil map panics; an empty request assigns nothing. */
  predicate MergePanics(base: GoMap, request: GoMap)
  {
    base.NilMap? && request.Entries() != map[]
  }

  function Merge(base: GoMap, request: GoMap): GoMap
  {
    if request.Entries() == map[] then base else GoMap(base.Entries() + request.Entries())
  }

  predicate ChoicesAccepted(env: Env, t: Ticket, c: ChoicesRequest, notReplayed: bool, walletsUp: bool)
  {
    && walletsUp && t.feeTxStatus != NoFee && t.outcome == Unspent
    && WellFormedChoices(c.voteChoices, c.tSpendPolicy, c.treasuryPolicy) && notReplayed
    && env.validVoteChoices(c.voteChoices) && env.validTreasury(c.treasuryPolicy) && env.validTSpend(c.tSpendPolicy)
  }

  predicate ChoicesPanic(t: Ticket, c: ChoicesRequest)
  {
    || MergePanics(t.voteChoices, c.voteChoices)
    || MergePanics(t.tSpendPolicy, c.tSpendPolicy)
    || MergePanics(t.treasuryPolicy, c.treasuryPolicy)
  }

  function WithChoices(t: Ticket, c: ChoicesRequest): Ticket
  {
    t.(voteChoices := Merge(t.voteChoices, c.voteChoices),
       tSpendPolicy := Merge(t.tSpendPolicy, c.tSpendPolicy),
       treasuryPolicy := Merge(t.treasuryPolicy, c.treasuryPolicy))
  }

  function WithoutAgenda(t: Ticket, agenda: string): Ticket
  {
    t.(voteChoices := GoMap(t.voteChoices.Entries() - {agenda}))
  }

  /** One whole-record write per agenda a wallet turned out not to know. */
  function DropWrites(t: Ticket, agendas: seq<string>): (ws: seq<Write>)
    ensures |ws| == |agendas|
    decreases agendas
  {
    if agendas == [] then []
    else [Update(WithoutAgenda(t, agendas[0]))] + DropWrites(WithoutAgenda(t, agendas[0]), agendas[1..])
  }

  function FeeConfirmedRecord(t: Ticket): Ticket
  {
    t.(feeTxHex := "", feeTxStatus := FeeConfirmed)
  }

  function Confirmations(lookup: TxLookup): int
  {
    if lookup.Found? then lookup.info.confirmations else 0
  }

  /** The writes a step makes on account of the record it read, in order; None
      means the hash was not known when it was read. */
  function React(env: Env, e: Event, snap: Option<Ticket>): seq<Write>
  {
    match e
    case FeeAddress(hash, commitment, lookup, canVote, now, expiration, fee, issued) =>
      if !lookup.Found? || !canVote then []
      else if snap.Some? then
        var t := snap.value;
        if FeeReceivedAlready(t) || !FeeExpired(t, now) || fee.None? then []
        else [Update(t.(feeExpiration := expiration, feeAmount := fee.value))]
      else if fee.None? || issued.None? then []
      else
        var confirmed := lookup.info.confirmations >= REQUIRED_CONFS;
        [Insert(Ticket(hash, if confirmed then lookup.info.blockHeight else 0, commitment,
                       issued.value.xPubID, issued.value.index, issued.value.address, fee.value, expiration,
                       confirmed, "", NilMap, NilMap, NilMap, "", "", NoFee, Unspent))]
    case PayFee(r, lookup, canVote, now, sent) =>
      if snap.None? || !PayFeeAccepted(env, snap.value, r, lookup, canVote, now) then []
      else
        var paid := WithFee(env, snap.value, r);
        [Update(paid)] +
        (if paid.confirmed then [Update(paid.(feeTxStatus := if sent then FeeBroadcast else FeeError))] else [])
    case SetVoteChoices(c, notReplayed, walletsUp) =>
      if snap.None? || !ChoicesAccepted(env, snap.value, c, notReplayed, walletsUp) || ChoicesPanic(snap.value, c)
        then []
      else [Update(WithChoices(snap.value, c))]
    case CheckTicket(lookup) =>
      if snap.None? || !Unconfirmed(snap.value) then []
      else if lookup.NoTxInfo? then [Delete(snap.value.hash)]
      else if Confirmations(lookup) < REQUIRED_CONFS then []
      else [Update(snap.value.(purchaseHeight := lookup.info.blockHeight, confirmed := true))]
    case BroadcastFee(sent) =>
      if snap.None? || !PendingFee(snap.value) then []
      else [Update(snap.value.(feeTxStatus := if sent then FeeBroadcast else FeeError))]
    case CheckFee(lookup, dropped, toWallet) =>
      if snap.None? || !UnconfirmedFee(snap.value) then []
      else if !lookup.Found? then [Update(snap.value.(feeTxStatus := FeeError))]
      else if lookup.info.confirmations < REQUIRED_CONFS then []
      else
        var t := FeeConfirmedRecord(snap.value);
        [Update(t)] + (if toWallet then DropWrites(t, dropped) else [])
    case SetOutcome(o) =>
      if snap.None? || !Votable(snap.value) || o !in {Voted, Missed, Expired} then []
      else [Update(snap.value.(outcome := o))]
    case FixHeight(lookup) =>
      if snap.None? || !MissingHeight(snap.value) || !lookup.Found? then []
      else [Update(snap.value.(purchaseHeight := lookup.info.blockHeight))]
    case FixRevoked(o) =>
      if snap.None? || !IsRevoked(snap.value) || o !in {Missed, Expired} then []
      else [Update(snap.value.(outcome := o))]
    case Reconcile(dropped, toWallet) =>
      if snap.None? || !Votable(snap.value) || !toWallet then []
      else DropWrites(snap.value, dropped)
  }

  function Apply(db: Db, w: Write): Db
  {
    match w
    case Insert(t) => if t.hash in db then db else db[t.hash := Normalise(t)]
    case Update(t) => if t.hash in db then db[t.hash := Normalise(t)] else db
    case Delete(hash) => db - {hash}
  }

  function ApplyAll(db: Db, ws: seq<Write>): Db
    decreases ws
  {
    if ws == [] then db else ApplyAll(Apply(db, ws[0]), ws[1..])
  }

  lemma ApplyNone(db: Db)
    ensures ApplyAll(db, []) == db
  {
  }

  lemma ApplyOne(db: Db, w: Write)
    ensures ApplyAll(db, [w]) == Apply(db, w)
  {
    assert [w][1..] == [];
  }

  lemma ChoicesReaction(env: Env, e: Event, t: Ticket)
    requires e.SetVoteChoices? && Normal(t)
    ensures React(env, e, Some(t))
         == if ChoicesAccepted(env, t, e.choices, e.notReplayed, e.walletsUp) then [Update(WithChoices(t, e.choices))]
           else []
  {
    assert !ChoicesPanic(t, e.choices);
    hide ChoicesAccepted;
  }

  /** What setVoteChoices writes, and when: a fee was received, the ticket is not spent,
      and each of the three maps was found valid. */
  lemma ChoicesStepMeans(env: Env, e: Event, t: Ticket)
    requires e.SetVoteChoices? && Normal(t)
    ensures React(env, e, Some(t)) != [] <==>
              && e.walletsUp && t.feeTxStatus != NoFee && t.outcome == Unspent && e.notReplayed
              && e.choices.voteChoices.GoMap?
              && |e.choices.tSpendPolicy.Entries()| <= 3 && |e.choices.treasuryPolicy.Entries()| <= 3
              && env.validVoteChoices(e.choices.voteChoices) && env.validTSpend(e.choices.tSpendPolicy)
              && env.validTreasury(e.choices.treasuryPolicy)
    ensures forall w | w in React(env, e, Some(t)) ::
              && w.Update?
              && w.ticket == t.(voteChoices := w.ticket.voteChoices, tSpendPolicy := w.ticket.tSpendPolicy,
                                treasuryPolicy := w.ticket.treasuryPolicy)
              && w.ticket.voteChoices == GoMap(t.voteChoices.entries + e.choices.voteChoices.Entries())
              && w.ticket.tSpendPolicy == GoMap(t.tSpendPolicy.entries + e.choices.tSpendPolicy.Entries())
              && w.ticket.treasuryPolicy == GoMap(t.treasuryPolicy.entries + e.choices.treasuryPolicy.Entries())
  {
    ChoicesReaction(env, e, t);
    assert forall m: map<string, string> :: m + map[] == m;
  }

  predicate Concerns(w: Write, h: string)
  {
    match w
    case Insert(_) => false
    case Update(t) => t.hash == h
    case Delete(hash) => hash == h
  }

  lemma {:induction false} DropsConcern(t: Ticket, agendas: seq<string>)
    ensures forall w | w in DropWrites(t, agendas) :: Concerns(w, t.hash)
    decreases agendas
  {
    if agendas != [] {
      DropsConcern(WithoutAgenda(t, agendas[0]), agendas[1..]);
    }
  }

  /** A step on a known ticket writes the record it read, or deletes it. */
  lemma StepConcernsItsTicket(env: Env, e: Event, t: Ticket)
    ensures forall w | w in React(env, e, Some(t)) :: Concerns(w, t.hash)
  {
    if e.CheckFee? {
      DropsConcern(FeeConfirmedRecord(t), e.dropped);
    } else if e.Reconcile? {
      DropsConcern(t, e.dropped);
    }
    hide DropWrites;
  }

  // -------------------------------------------- invariants of single records

  /** The fee transaction's first output to the record's fee address pays at least
      the record's fee amount. */
  ghost predicate FeeCovered(env: Env, t: Ticket)
  {
    exists tx: FeeTx :: FeePaidBy(env, t, tx)
  }

  ghost predicate FeePaidBy(env: Env, t: Ticket, tx: FeeTx)
  {
    && env.txHash(tx) == t.feeTxHash
    && (t.feeTxHex != "" ==> env.decodeTx(t.feeTxHex) == Some(tx))
    && FeeAccepted(env, t, tx)
  }

  /** An accepted transaction has an output to the script of the ticket's fee address,
      the first to that script, of at least the ticket's fee amount. */
  lemma AcceptedFeeMeans(env: Env, t: Ticket, tx: FeeTx)
    ensures FeeAccepted(env, t, tx) <==>
              && env.sane(tx) && env.paymentScript(t.feeAddress).Some?
              && exists j :: PaysFirst(tx.outs, env.paymentScript(t.feeAddress).value, j)
                             && tx.outs[j].value != 0 && tx.outs[j].value >= t.feeAmount
  {
    if env.paymentScript(t.feeAddress).Some? {
      var want := env.paymentScript(t.feeAddress).value;
      var j := FeePaidMeans(tx.outs, want);
      if i :| PaysFirst(tx.outs, want, i) && tx.outs[i].value != 0 && tx.outs[i].value >= t.feeAmount {
        if PaysFirst(tx.outs, want, j) {
          OnlyOneIsFirst(tx.outs, want, i, j);
        }
      }
    }
    hide FeePaid;
  }

  /** A received fee is really there: some transaction with the recorded hash pays it. */
  lemma FeeIsThere(env: Env, t: Ticket)
    requires RecordInv(env, t) && t.feeTxStatus in {FeeReceived, FeeBroadcast, FeeConfirmed}
    ensures env.paymentScript(t.feeAddress).Some?
    ensures exists tx: FeeTx, j: int ::
              && PaysFirst(tx.outs, env.paymentScript(t.feeAddress).value, j)
              && env.txHash(tx) == t.feeTxHash && tx.outs[j].value >= t.feeAmount
              && (t.feeTxHex != "" ==> env.decodeTx(t.feeTxHex) == Some(tx))
  {
    var tx: FeeTx :| FeePaidBy(env, t, tx);
    AcceptedFeeMeans(env, t, tx);
    hide PaysFirst, FeeAccepted;
  }

  ghost predicate RecordInv(env: Env, t: Ticket)
  {
    && Normal(t)
    && (t.feeTxStatus in {FeeBroadcast, FeeConfirmed, FeeError} ==> t.confirmed)
    && (t.feeTxHex == "" <==> t.feeTxStatus in {NoFee, FeeConfirmed})
    && (t.feeTxStatus != NoFee ==> t.votingWIF != "" && t.feeTxHash != "")
    && (t.outcome != Unspent ==> t.feeTxStatus == FeeConfirmed)
    && (t.confirmed ==> t.purchaseHeight != 0)
    && (FeeReceivedAlready(t) ==> FeeCovered(env, t))
  }

  ghost predicate WriteInv(env: Env, w: Write)
  {
    w.Delete? || RecordInv(env, Normalise(w.ticket))
  }

  lemma {:induction false} DropWritesKeepRecord(env: Env, t: Ticket, agendas: seq<string>)
    requires RecordInv(env, t)
    ensures forall w | w in DropWrites(t, agendas) :: WriteInv(env, w)
    decreases agendas
  {
    if agendas != [] {
      var u := WithoutAgenda(t, agendas[0]);
      KeepsFee(env, t, u);
      DropWritesKeepRecord(env, u, agendas[1..]);
    }
  }

  /** Steps that leave the fee fields alone leave the fee covered; forgetting the
      raw transaction does too. */
  lemma KeepsFee(env: Env, t: Ticket, u: Ticket)
    requires u.feeAddress == t.feeAddress && u.feeAmount == t.feeAmount && u.feeTxHash == t.feeTxHash
    requires u.feeTxHex == t.feeTxHex || u.feeTxHex == ""
    ensures FeeCovered(env, t) ==> FeeCovered(env, u)
  {
    if FeeCovered(env, t) {
      var tx: FeeTx :| FeePaidBy(env, t, tx);
      assert FeePaidBy(env, u, tx);
    }
  }

  lemma PayFeeKeepsRecord(env: Env, e: Event, t: Ticket)
    requires e.PayFee? && RecordInv(env, t)
    ensures forall w | w in React(env, e, Some(t)) :: WriteInv(env, w)
  {
    hide FeeAccepted;
    if PayFeeAccepted(env, t, e.request, e.lookup, e.canVote, e.now) {
      var paid := Normalise(WithFee(env, t, e.request));
      var tx := env.decodeTx(e.request.feeTx).value;
      SameFeeTerms(env, t, paid, tx);
      assert FeePaidBy(env, paid, tx);
      KeepsFee(env, paid, paid.(feeTxStatus := if e.sent then FeeBroadcast else FeeError));
    }
  }

  lemma SameFeeTerms(env: Env, t: Ticket, u: Ticket, tx: FeeTx)
    requires u.feeAddress == t.feeAddress && u.feeAmount == t.feeAmount
    ensures FeeAccepted(env, t, tx) <==> FeeAccepted(env, u, tx)
  {
  }

  lemma FeeAddressKeepsRecord(env: Env, e: Event, snap: Option<Ticket>)
    requires e.FeeAddress? && (snap.Some? ==> RecordInv(env, snap.value))
    ensures forall w | w in React(env, e, snap) :: WriteInv(env, w)
  {
    hide FeeCovered;
  }

  lemma WalletStepKeepsRecord(env: Env, e: Event, t: Ticket)
    requires (e.CheckFee? || e.Reconcile?) && RecordInv(env, t)
    ensures forall w | w in React(env, e, Some(t)) :: WriteInv(env, w)
  {
    hide FeeCovered;
    var confirmed := FeeConfirmedRecord(t);
    KeepsFee(env, t, confirmed);
    KeepsFee(env, t, Normalise(t.(feeTxStatus := FeeError)));
    if e.Reconcile? {
      DropWritesKeepRecord(env, t, e.dropped);
    } else if UnconfirmedFee(t) {
      KeepsFee(env, confirmed, Normalise(confirmed));
      DropWritesKeepRecord(env, confirmed, e.dropped);
    }
  }

  lemma FieldStepKeepsRecord(env: Env, e: Event, t: Ticket)
    requires e.SetVoteChoices? || e.CheckTicket? || e.BroadcastFee? || e.SetOutcome? || e.FixHeight? || e.FixRevoked?
    requires RecordInv(env, t)
    ensures forall w | w in React(env, e, Some(t)) :: WriteInv(env, w)
  {
    hide FeeCovered, ChoicesAccepted, ChoicesPanic, PayFeeAccepted, WithFee, DropWrites;
    var ws := React(env, e, Some(t));
    if ws != [] && ws[0].Update? {
      KeepsFee(env, t, Normalise(ws[0].ticket));
    }
  }

  /** Whatever record a step read, as long as it was a good one, the records it
      writes back are good. */
  lemma StepKeepsRecords(env: Env, e: Event, snap: Option<Ticket>)
    requires snap.Some? ==> RecordInv(env, snap.value)
    ensures forall w | w in React(env, e, snap) :: WriteInv(env, w)
  {
    if e.FeeAddress? {
      FeeAddressKeepsRecord(env, e, snap);
    } else if snap.Some? {
      if e.PayFee? {
        PayFeeKeepsRecord(env, e, snap.value);
      } else if e.CheckFee? || e.Reconcile? {
        WalletStepKeepsRecord(env, e, snap.value);
      } else {
        FieldStepKeepsRecord(env, e, snap.value);
      }
    }
    hide WriteInv, RecordInv;
  }
}
