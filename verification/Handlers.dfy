/** The request handlers that change tickets, as the code performs them: field by
    field on the record the middleware read, with whole-record writes. Each is
    proved to write what its step in module Lifecycle writes. */
module Handlers {
  import opened Encoding
  import opened Tickets
  import opened Lifecycle
  import opened VoteLog
  import Atomic
  import FeeAddresses
  import ReplayCheck

  datatype ApiError =
    | InternalError | UnknownTicket | BadRequest | FeeAlreadyReceived | TicketCannotVote | FeeIsExpired
    | InvalidPrivKey | InvalidFeeTx | FeeTooSmall | CannotBroadcastFee | FeeNotReceived | InvalidTimestamp
    | InvalidVoteChoices

  datatype FeeAddressResponse = FeeAddressResponse(feeAddress: string, feeAmount: int64, expiration: int64)

  function Quote(t: Ticket): FeeAddressResponse
  {
    FeeAddressResponse(t.feeAddress, t.feeAmount, t.feeExpiration)
  }

  /** What a step leaves in a database that may refuse writes for some tickets. */
  ghost function Written(env: Env, before: Db, broken: set<string>, e: Event, snap: Option<Ticket>, hash: string): Db
  {
    if hash in broken then before else ApplyAll(before, React(env, e, snap))
  }

  /** Whatever good record a handler started from, what it leaves is good. */
  lemma WrittenKeepsRecords(env: Env, before: Db, broken: set<string>, e: Event, snap: Option<Ticket>, hash: string)
    requires Atomic.StoredInv(env, before) && (snap.Some? ==> RecordInv(env, snap.value))
    ensures Atomic.StoredInv(env, Written(env, before, broken, e, snap, hash))
  {
    StepKeepsRecords(env, e, snap);
    Atomic.ApplyAllKeepsInv(env, before, React(env, e, snap));
  }

  /** A handler that is not interrupted between its read and its last write is an
      atomic step. */
  lemma WrittenIsAtomicStep(env: Env, s: Atomic.State, broken: set<string>, e: Event, hash: string)
    requires e.FeeAddress? ==> e.hash == hash
    ensures var ws := React(env, e, Atomic.Lookup(s.db, hash));
            Written(env, s.db, broken, e, Atomic.Lookup(s.db, hash), hash)
            == Atomic.Next(env, s, Atomic.Step(hash, e, if hash in broken then 0 else |ws|)).db
  {
    ApplyNone(s.db);
    hide React;
    var ws := React(env, e, Atomic.Lookup(s.db, hash));
    assert ws[..0] == [] && ws[..|ws|] == ws;
  }

  lemma WriteTwice(db: Db, v: Write, w: Write)
    ensures ApplyAll(db, [v, w]) == Apply(Apply(db, v), w)
  {
    assert [v, w][1..] == [w];
    ApplyOne(Apply(db, v), w);
  }

  /** What a handler can learn of the ticket; None when there is no node client. */
  function Answer(node: Option<TxLookup>): TxLookup
  {
    if node.Some? then node.value else RpcError
  }

  /** A write or a log entry of somebody else. */
  datatype Action = Writes(write: Write) | Saves(hash: string, record: VoteChangeRecord)

  function Target(w: Write): string
  {
    if w.Delete? then w.hash else w.ticket.hash
  }

  ghost function DbAfter(db: Db, broken: set<string>, actions: seq<Action>): Db
    decreases actions
  {
    if actions == [] then db
    else
      DbAfter(if actions[0].Writes? && Target(actions[0].write) !in broken then Apply(db, actions[0].write) else db,
              broken, actions[1..])
  }

  ghost function LogWith(log: map<string, seq<VoteChangeRecord>>, hash: string, record: VoteChangeRecord)
    : map<string, seq<VoteChangeRecord>>
  {
    log[hash := (if hash in log then log[hash] else []) + [record]]
  }

  ghost function LogAfter(log: map<string, seq<VoteChangeRecord>>, actions: seq<Action>)
    : map<string, seq<VoteChangeRecord>>
    decreases actions
  {
    if actions == [] then log
    else LogAfter(if actions[0].Saves? then LogWith(log, actions[0].hash, actions[0].record) else log, actions[1..])
  }

  lemma NobodyElse(db: Db, broken: set<string>, log: map<string, seq<VoteChangeRecord>>)
    ensures DbAfter(db, broken, []) == db && LogAfter(log, []) == log
  {
  }

  // ------------------------------------------- requests about one ticket

  /** What the two handlers that keep a log see of a ticket. */
  datatype Desk = Desk(db: Db, saved: seq<VoteChangeRecord>)

  /** A request, or any other step of the daemon on the ticket in between. */
  datatype Call =
    | PayCall(payment: PayFeeRequest, lookup: TxLookup, canVote: bool, now: real, sent: bool, record: VoteChangeRecord)
    | ChooseCall(choices: ChoicesRequest, walletsUp: bool, record: VoteChangeRecord)
    | OtherStep(event: Event)

  predicate PaymentSucceeds(env: Env, db: Db, broken: set<string>, t: Ticket, r: PayFeeRequest,
                            lookup: TxLookup, canVote: bool, now: real, sent: bool)
  {
    PayFeeAccepted(env, t, r, lookup, canVote, now) && t.hash in db && t.hash !in broken && (t.confirmed ==> sent)
  }

  predicate ChoiceSucceeds(env: Env, db: Db, broken: set<string>, t: Ticket, c: ChoicesRequest, newer: bool,
                           walletsUp: bool)
  {
    ChoicesAccepted(env, t, c, newer, walletsUp) && t.hash in db && t.hash !in broken
  }

  ghost predicate NewerRequest(saved: seq<VoteChangeRecord>, limit: nat, timestampOf: string -> Option<int>,
                               record: VoteChangeRecord)
  {
    timestampOf(record.request).Some? && ReplayCheck.Newer(saved, limit, timestampOf, timestampOf(record.request).value)
  }

  /** One request for a ticket, handled without interruption. */
  ghost function ServeCall(env: Env, broken: set<string>, limit: nat, timestampOf: string -> Option<int>,
                           hash: string, d: Desk, c: Call): Desk
  {
    var known := Atomic.Lookup(d.db, hash);
    if known.None? then (if c.OtherStep? then d.(db := Written(env, d.db, broken, c.event, known, hash)) else d)
    else
      match c
      case PayCall(r, lookup, canVote, now, sent, record) =>
        Desk(Written(env, d.db, broken, Event.PayFee(r, lookup, canVote, now, sent), known, hash),
             if PaymentSucceeds(env, d.db, broken, known.value, r, lookup, canVote, now, sent) then d.saved + [record]
             else d.saved)
      case ChooseCall(choices, walletsUp, record) =>
        var newer := NewerRequest(d.saved, limit, timestampOf, record);
        Desk(Written(env, d.db, broken, Event.SetVoteChoices(choices, newer, walletsUp), known, hash),
             if ChoiceSucceeds(env, d.db, broken, known.value, choices, newer, walletsUp) then d.saved + [record]
             else d.saved)
      case OtherStep(e) => d.(db := Written(env, d.db, broken, e, known, hash))
  }

  lemma AcceptedFeeIs(env: Env, t: Ticket, tx: FeeTx)
    ensures FeeAccepted(env, t, tx) <==>
              && env.sane(tx) && env.paymentScript(t.feeAddress).Some?
              && var want := env.paymentScript(t.feeAddress).value;
                 exists j | 0 <= j < |tx.outs| ::
                   && tx.outs[j].version == want.version && tx.outs[j].script == want.bytes
                   && tx.outs[j].value != 0 && tx.outs[j].value >= t.feeAmount
                   && forall k | 0 <= k < j ::
                        !(tx.outs[k].version == want.version && tx.outs[k].script == want.bytes)
  {
    AcceptedFeeMeans(env, t, tx);
    hide FeeAccepted;
    if env.paymentScript(t.feeAddress).Some? {
      var want := env.paymentScript(t.feeAddress).value;
      if j :| 0 <= j < |tx.outs| && tx.outs[j].version == want.version && tx.outs[j].script == want.bytes
              && tx.outs[j].value != 0 && tx.outs[j].value >= t.feeAmount
              && forall k | 0 <= k < j :: !(tx.outs[k].version == want.version && tx.outs[k].script == want.bytes)
      {
        assert PaysFirst(tx.outs, want, j);
      }
    }
  }

  class WebAPI {
    const env: Env
    const db: TicketStore
    const log: VoteChangeLog
    const xpubs: FeeAddresses.XPubStore
    const addrGen: FeeAddresses.AddressGenerator

    constructor (env: Env, db: TicketStore, log: VoteChangeLog, xpubs: FeeAddresses.XPubStore,
                 addrGen: FeeAddresses.AddressGenerator)
      ensures this.env == env && this.db == db && this.log == log && this.xpubs == xpubs && this.addrGen == addrGen
    {
      this.env, this.db, this.log, this.xpubs, this.addrGen := env, db, log, xpubs, addrGen;
    }

    /** payfee.go:158-164. */
    method FindFeePayment(tx: FeeTx, want: Script) returns (feePaid: int64)
      ensures feePaid == FeePaid(tx.outs, want)
      ensures || (exists j | 0 <= j < |tx.outs| ::
                    && tx.outs[j].version == want.version && tx.outs[j].script == want.bytes
                    && tx.outs[j].value == feePaid
                    && forall k | 0 <= k < j ::
                         !(tx.outs[k].version == want.version && tx.outs[k].script == want.bytes))
              || (feePaid == 0
                  && forall k | 0 <= k < |tx.outs| ::
                       !(tx.outs[k].version == want.version && tx.outs[k].script == want.bytes))
    {
      ghost var first := FeePaidMeans(tx.outs, want);
      feePaid := 0;
      var i := 0;
      while i < |tx.outs|
        invariant 0 <= i <= |tx.outs| && feePaid == 0
        invariant FeePaid(tx.outs, want) == FeePaid(tx.outs[i..], want)
        decreases |tx.outs| - i
      {
        var out := tx.outs[i];
        assert tx.outs[i..][1..] == tx.outs[i + 1..];
        if out.version == want.version && out.script == want.bytes {
          return out.value;
        }
        i := i + 1;
      }
    }

    /** payfee.go:136-183: whether the transaction pays the fee of the ticket. */
    method CheckFeeTx(ticket: Ticket, feeTx: FeeTx) returns (failure: Option<ApiError>)
      ensures failure.None? <==> FeeAccepted(env, ticket, feeTx)
      ensures failure == Some(InternalError) <==> env.sane(feeTx) && env.paymentScript(ticket.feeAddress).None?
      ensures failure == Some(FeeTooSmall) <==>
                && env.sane(feeTx) && env.paymentScript(ticket.feeAddress).Some?
                && var paid := FeePaid(feeTx.outs, env.paymentScript(ticket.feeAddress).value);
                   paid != 0 && paid < ticket.feeAmount
      ensures failure.None? || failure.value in {InvalidFeeTx, InternalError, FeeTooSmall}
      ensures failure.None? <==>
                && env.sane(feeTx) && env.paymentScript(ticket.feeAddress).Some?
                && var want := env.paymentScript(ticket.feeAddress).value;
                   exists j | 0 <= j < |feeTx.outs| ::
                     && feeTx.outs[j].version == want.version && feeTx.outs[j].script == want.bytes
                     && feeTx.outs[j].value != 0 && feeTx.outs[j].value >= ticket.feeAmount
                     && forall k | 0 <= k < j ::
                          !(feeTx.outs[k].version == want.version && feeTx.outs[k].script == want.bytes)
    {
      AcceptedFeeIs(env, ticket, feeTx);
      hide FeePaid;
      if !env.sane(feeTx) {
        return Some(InvalidFeeTx);
      }
      var want := env.paymentScript(ticket.feeAddress);
      if want.None? {
        return Some(InternalError);
      }
      var feePaid := FindFeePayment(feeTx, want.value);
      if feePaid == 0 {
        return Some(InvalidFeeTx);
      }
      if feePaid < ticket.feeAmount {
        return Some(FeeTooSmall);
      }
      return None;
    }

    /** payfee.go:48-221: the checks, in order. */
    method CheckPayFee(ticket: Ticket, request: PayFeeRequest, lookup: TxLookup, canVote: bool, now: real)
      returns (failure: Option<ApiError>)
      ensures failure.None? <==> PayFeeAccepted(env, ticket, request, lookup, canVote, now)
      ensures failure == Some(BadRequest) <==> !WellFormedPayFee(request)
      ensures failure == Some(FeeAlreadyReceived) <==> WellFormedPayFee(request) && FeeReceivedAlready(ticket)
      ensures failure == Some(FeeIsExpired) <==>
                && WellFormedPayFee(request) && !FeeReceivedAlready(ticket) && lookup.Found? && canVote
                   && FeeExpired(ticket, now)
      ensures failure == Some(FeeTooSmall) ==>
                && env.decodeWIF(request.votingKey).Some? && env.decodeTx(request.feeTx).Some?
                && !FeeAccepted(env, ticket, env.decodeTx(request.feeTx).value)
      ensures failure == Some(InvalidPrivKey) && env.decodeWIF(request.votingKey).Some? ==>
                && env.decodeTx(request.feeTx).Some? && FeeAccepted(env, ticket, env.decodeTx(request.feeTx).value)
                && lookup.Found?
                && var want := env.votingRightsScript(env.decodeWIF(request.votingKey).value);
                   want.None? || (lookup.info.firstOut.Some? && want != lookup.info.firstOut)
      ensures failure.None? || failure.value !in {UnknownTicket, CannotBroadcastFee}
      ensures failure == Some(BadRequest) <==>
                || request.feeTx == "" || request.votingKey == "" || request.voteChoices.NilMap?
                || |request.tSpendPolicy.Entries()| > 3 || |request.treasuryPolicy.Entries()| > 3
      ensures failure == Some(FeeAlreadyReceived) ==> ticket.feeTxStatus in {FeeReceived, FeeBroadcast, FeeConfirmed}
      ensures failure == Some(TicketCannotVote) <==>
                && WellFormedPayFee(request) && ticket.feeTxStatus in {NoFee, FeeError} && lookup.Found? && !canVote
      ensures failure == Some(FeeIsExpired) <==>
                && WellFormedPayFee(request) && ticket.feeTxStatus in {NoFee, FeeError} && lookup.Found? && canVote
                && now > ticket.feeExpiration as real
    {
      hide FeeAccepted;
      if !WellFormedPayFee(request) {
        return Some(BadRequest);
      }
      if ticket.feeTxStatus == FeeReceived || ticket.feeTxStatus == FeeBroadcast || ticket.feeTxStatus == FeeConfirmed {
        return Some(FeeAlreadyReceived);
      }
      if !lookup.Found? {
        return Some(InternalError);
      }
      if !canVote {
        return Some(TicketCannotVote);
      }
      if FeeExpired(ticket, now) {
        return Some(FeeIsExpired);
      }
      var wif := env.decodeWIF(request.votingKey);
      if wif.None? {
        return Some(InvalidPrivKey);
      }
      var feeTx := env.decodeTx(request.feeTx);
      if feeTx.None? {
        return Some(InvalidFeeTx);
      }
      failure := CheckFeeTx(ticket, feeTx.value);
      if failure.Some? {
        return;
      }
      var votingScript := env.votingRightsScript(wif.value);
      if votingScript.None? {
        return Some(InvalidPrivKey);
      }
      if lookup.info.firstOut.None? {
        return Some(InternalError);
      }
      if lookup.info.firstOut.value != votingScript.value {
        return Some(InvalidPrivKey);
      }
    }

    /** payfee.go:223-240. */
    method SetFeeFields(known: Ticket, request: PayFeeRequest) returns (ticket: Ticket)
      requires env.decodeWIF(request.votingKey).Some? && env.decodeTx(request.feeTx).Some?
      ensures ticket == WithFee(env, known, request) && ticket.hash == known.hash && ticket.confirmed == known.confirmed
      ensures ticket.votingWIF == env.decodeWIF(request.votingKey).value && ticket.feeTxHex == request.feeTx
      ensures ticket.feeTxHash == env.txHash(env.decodeTx(request.feeTx).value) && ticket.feeTxStatus == FeeReceived
      ensures ticket.voteChoices == if env.validVoteChoices(request.voteChoices) then request.voteChoices
                                    else known.voteChoices
      ensures ticket.tSpendPolicy == if env.validTSpend(request.tSpendPolicy) then request.tSpendPolicy
                                     else known.tSpendPolicy
      ensures ticket.treasuryPolicy == if env.validTreasury(request.treasuryPolicy) then request.treasuryPolicy
                                       else known.treasuryPolicy
    {
      ticket := known;
      ticket := ticket.(votingWIF := env.decodeWIF(request.votingKey).value);
      ticket := ticket.(feeTxHex := request.feeTx);
      ticket := ticket.(feeTxHash := env.txHash(env.decodeTx(request.feeTx).value));
      ticket := ticket.(feeTxStatus := FeeReceived);
      if env.validVoteChoices(request.voteChoices) {
        ticket := ticket.(voteChoices := request.voteChoices);
      }
      if env.validTSpend(request.tSpendPolicy) {
        ticket := ticket.(tSpendPolicy := request.tSpendPolicy);
      }
      if env.validTreasury(request.treasuryPolicy) {
        ticket := ticket.(treasuryPolicy := request.treasuryPolicy);
      }
    }

    /** The writes of an accepted payment. */
    ghost function PaymentWrites(paid: Ticket, sent: bool): seq<Write>
    {
      if paid.confirmed then [Update(paid), Update(paid.(feeTxStatus := if sent then FeeBroadcast else FeeError))]
      else [Update(paid)]
    }

    /** The record of an accepted payment, field by field. */
    ghost predicate PaidRecord(t: Ticket, r: PayFeeRequest, sent: bool, u: Ticket)
      requires env.decodeWIF(r.votingKey).Some? && env.decodeTx(r.feeTx).Some?
    {
      && u == Normalise(t.(votingWIF := u.votingWIF, feeTxHex := u.feeTxHex, feeTxHash := u.feeTxHash,
                           feeTxStatus := u.feeTxStatus, voteChoices := u.voteChoices,
                           tSpendPolicy := u.tSpendPolicy, treasuryPolicy := u.treasuryPolicy))
      && u.votingWIF == env.decodeWIF(r.votingKey).value && u.feeTxHex == r.feeTx
      && u.feeTxHash == env.txHash(env.decodeTx(r.feeTx).value)
      && u.feeTxStatus == (if !sent then FeeError else if t.confirmed then FeeBroadcast else FeeReceived)
      && (u.voteChoices.Entries()
          == if env.validVoteChoices(r.voteChoices) then r.voteChoices.Entries() else t.voteChoices.Entries())
      && (u.tSpendPolicy.Entries()
          == if env.validTSpend(r.tSpendPolicy) then r.tSpendPolicy.Entries() else t.tSpendPolicy.Entries())
      && (u.treasuryPolicy.Entries()
          == if env.validTreasury(r.treasuryPolicy) then r.treasuryPolicy.Entries() else t.treasuryPolicy.Entries())
    }

    /** payfee.go:242-285: store the fee, then broadcast it and store its fate. */
    method StoreFee(paid: Ticket, sent: bool) returns (failure: Option<ApiError>)
      requires db.Valid()
      modifies db`tickets
      ensures db.Valid()
      ensures db.tickets == if paid.hash in db.broken then old(db.tickets)
              else ApplyAll(old(db.tickets), PaymentWrites(paid, sent))
      ensures failure.None? <==> paid.hash in old(db.tickets) && paid.hash !in db.broken && (paid.confirmed ==> sent)
      ensures failure == Some(CannotBroadcastFee)
              <==> paid.hash in old(db.tickets) && paid.hash !in db.broken && paid.confirmed && !sent
      ensures failure.None? || failure.value in {InternalError, CannotBroadcastFee}
    {
      hide WellFiled, ApplyAll;
      var ticket := paid;
      ghost var fate := paid.(feeTxStatus := if sent then FeeBroadcast else FeeError);
      ApplyOne(db.tickets, Update(paid));
      WriteTwice(db.tickets, Update(paid), Update(fate));
      var ok := db.UpdateTicket(ticket);
      if !ok {
        return Some(InternalError);
      }
      if ticket.confirmed {
        if !sent {
          ticket := ticket.(feeTxStatus := FeeError);
          ok := db.UpdateTicket(ticket);
          return Some(CannotBroadcastFee);
        }
        ticket := ticket.(feeTxStatus := FeeBroadcast);
        ok := db.UpdateTicket(ticket);
        if !ok {
          return Some(InternalError);
        }
      }
      return None;
    }

    /** payfee.go:45-287, for a ticket the middleware knows and a node that can be
        asked: the checks, and the writes of the payFee step. */
    method ReceiveFee(known: Ticket, request: PayFeeRequest, lookup: TxLookup, canVote: bool, now: real, sent: bool)
      returns (failure: Option<ApiError>)
      requires db.Valid()
      modifies db`tickets
      ensures db.Valid()
      ensures db.tickets == Written(env, old(db.tickets), db.broken,
                                    Event.PayFee(request, lookup, canVote, now, sent), Some(known), known.hash)
      ensures failure.None? <==>
                PaymentSucceeds(env, old(db.tickets), db.broken, known, request, lookup, canVote, now, sent)
      ensures failure == Some(CannotBroadcastFee) <==>
                && PayFeeAccepted(env, known, request, lookup, canVote, now)
                && known.hash in old(db.tickets) && known.hash !in db.broken && known.confirmed && !sent
      ensures failure != Some(UnknownTicket)
      ensures failure.None? <==>
                && lookup.Found? && canVote && request.feeTx != "" && request.votingKey != ""
                && request.voteChoices.GoMap?
                && |request.tSpendPolicy.Entries()| <= 3 && |request.treasuryPolicy.Entries()| <= 3
                && known.feeTxStatus in {NoFee, FeeError} && now <= known.feeExpiration as real
                && env.decodeWIF(request.votingKey).Some? && env.decodeTx(request.feeTx).Some?
                && FeeAccepted(env, known, env.decodeTx(request.feeTx).value)
                && lookup.info.firstOut.Some?
                && env.votingRightsScript(env.decodeWIF(request.votingKey).value) == lookup.info.firstOut
                && known.hash in old(db.tickets) && known.hash !in db.broken && (known.confirmed ==> sent)
      ensures failure.None? ==>
                && env.paymentScript(known.feeAddress).Some?
                && var outs, want := env.decodeTx(request.feeTx).value.outs, env.paymentScript(known.feeAddress).value;
                   exists j | 0 <= j < |outs| ::
                     && outs[j].version == want.version && outs[j].script == want.bytes
                     && outs[j].value >= known.feeAmount
                     && forall k | 0 <= k < j :: !(outs[k].version == want.version && outs[k].script == want.bytes)
      ensures failure.None? || failure == Some(CannotBroadcastFee) ==>
                && env.decodeWIF(request.votingKey).Some? && env.decodeTx(request.feeTx).Some?
                && known.hash in db.tickets
                && db.tickets == old(db.tickets)[known.hash := db.tickets[known.hash]]
                && PaidRecord(known, request, failure.None?, db.tickets[known.hash])
      ensures failure.Some? && failure != Some(CannotBroadcastFee) ==> db.tickets == old(db.tickets)
    {
      hide PayFeeAccepted, FeeAccepted, WellFiled, React, WithFee, ApplyAll, PaymentWrites, PaidRecord, Normalise;
      PayFeeReaction(Event.PayFee(request, lookup, canVote, now, sent), known);
      PaymentGuards(env, known, request, lookup, canVote, now);
      ApplyNone(db.tickets);
      failure := CheckPayFee(known, request, lookup, canVote, now);
      if failure.Some? {
        return;
      }
      var ticket := SetFeeFields(known, request);
      AcceptedFeeIs(env, known, env.decodeTx(request.feeTx).value);
      PaymentStored(db.tickets, known, request, sent);
      failure := StoreFee(ticket, sent);
    }

    /** POST /api/v3/payfee. The writes are those of the payFee step on the record
        the middleware read, and a vote change is recorded exactly when the request
        succeeded. */
    method PayFee(known: Option<Ticket>, request: PayFeeRequest, node: Option<TxLookup>, canVote: bool, now: real,
                  sent: bool, record: VoteChangeRecord)
      returns (failure: Option<ApiError>)
      requires db.Valid() && log.Valid()
      modifies db`tickets, log
      ensures db.Valid() && log.Valid()
      ensures known.None? ==> db.tickets == old(db.tickets)
      ensures known.Some? ==>
                db.tickets == Written(env, old(db.tickets), db.broken,
                                      Event.PayFee(request, Answer(node), canVote, now, sent), known, known.value.hash)
      ensures failure.None? <==>
                known.Some? && PaymentSucceeds(env, old(db.tickets), db.broken, known.value, request, Answer(node),
                                               canVote, now, sent)
      ensures failure == Some(UnknownTicket) <==> node.Some? && known.None?
      ensures failure == Some(CannotBroadcastFee) <==>
                && known.Some? && PayFeeAccepted(env, known.value, request, Answer(node), canVote, now)
                && known.value.hash in old(db.tickets) && known.value.hash !in db.broken
                && known.value.confirmed && !sent
      ensures failure.None? ==>
                && known.Some? && env.decodeWIF(request.votingKey).Some? && env.decodeTx(request.feeTx).Some?
                && known.value.hash in db.tickets
                && PaidRecord(known.value, request, true, db.tickets[known.value.hash])
      ensures failure.Some? && failure != Some(CannotBroadcastFee) ==> db.tickets == old(db.tickets)
      ensures log.history == if failure.None?
                             then old(log.history)[known.value.hash := old(log.Saved(known.value.hash)) + [record]]
                             else old(log.history)
      ensures known.Some? && known == Atomic.Lookup(old(db.tickets), known.value.hash) ==>
                forall timestampOf ::
                  Desk(db.tickets, log.Saved(known.value.hash))
                  == ServeCall(env, db.broken, log.maxVoteChangeRecords, timestampOf, known.value.hash,
                               Desk(old(db.tickets), old(log.Saved(known.value.hash))),
                               PayCall(request, Answer(node), canVote, now, sent, record))
    {
      hide PayFeeAccepted, FeeAccepted, WellFiled, React, ApplyAll, IsWindow, PaidRecord;
      if known.Some? {
        NoClientNoPayment(Event.PayFee(request, RpcError, canVote, now, sent), known.value);
      }
      ApplyNone(db.tickets);
      if node.None? {
        return Some(InternalError);
      }
      if known.None? {
        return Some(UnknownTicket);
      }
      failure := ReceiveFee(known.value, request, node.value, canVote, now, sent);
      if failure.None? {
        log.SaveVoteChange(known.value.hash, record);
      }
    }

    lemma NoClientNoPayment(e: Event, t: Ticket)
      requires e.PayFee? && e.lookup.RpcError?
      ensures !PayFeeAccepted(env, t, e.request, e.lookup, e.canVote, e.now) && React(env, e, Some(t)) == []
    {
    }

    lemma PaymentStored(before: Db, t: Ticket, r: PayFeeRequest, sent: bool)
      requires env.decodeWIF(r.votingKey).Some? && env.decodeTx(r.feeTx).Some?
      ensures var after := ApplyAll(before, PaymentWrites(WithFee(env, t, r), sent));
              if t.hash !in before then after == before
              else
                && t.hash in after && after == before[t.hash := after[t.hash]]
                && PaidRecord(t, r, t.confirmed ==> sent, after[t.hash])
    {
      var paid := WithFee(env, t, r);
      var fate := paid.(feeTxStatus := if sent then FeeBroadcast else FeeError);
      WriteTwice(before, Update(paid), Update(fate));
      ApplyOne(before, Update(paid));
      hide ApplyAll;
    }

    lemma PayFeeReaction(e: Event, t: Ticket)
      requires e.PayFee?
      ensures if !PayFeeAccepted(env, t, e.request, e.lookup, e.canVote, e.now) then React(env, e, Some(t)) == []
              else React(env, e, Some(t)) == PaymentWrites(WithFee(env, t, e.request), e.sent)
    {
    }

    /** Assigning the entries of a request one by one. */
    method MergeInto(base: map<string, string>, request: map<string, string>) returns (merged: map<string, string>)
      ensures merged == base + request
    {
      merged := base;
      MergeAll(base, request);
      var keys := request.Keys;
      while keys != {}
        invariant keys <= request.Keys
        invariant merged == base + (request - keys)
        decreases |keys|
      {
        var k :| k in keys;
        merged := merged[k := request[k]];
        MergeOne(base, request, keys, k);
        keys := keys - {k};
      }
    }

    /** What other handlers and the background loops do in between. */
    method Meanwhile(actions: seq<Action>)
      requires db.Valid() && log.Valid()
      modifies db`tickets, log
      ensures db.Valid() && log.Valid()
      ensures db.tickets == DbAfter(old(db.tickets), db.broken, actions)
      ensures log.history == LogAfter(old(log.history), actions)
    {
      hide IsWindow;
      for i := 0 to |actions|
        invariant db.Valid() && log.Valid()
        invariant DbAfter(db.tickets, db.broken, actions[i..]) == DbAfter(old(db.tickets), db.broken, actions)
        invariant LogAfter(log.history, actions[i..]) == LogAfter(old(log.history), actions)
      {
        assert actions[i..][1..] == actions[i + 1..];
        match actions[i] {
          case Writes(Insert(t)) => var ok := db.InsertNewTicket(t);
          case Writes(Update(t)) => var ok := db.UpdateTicket(t);
          case Writes(Delete(hash)) =>
            assert hash !in db.tickets ==> db.tickets - {hash} == db.tickets;
            if hash in db.tickets {
              var ok := db.DeleteTicket(db.tickets[hash]);
            }
          case Saves(hash, record) => log.SaveVoteChange(hash, record);
        }
      }
    }

    /** POST /api/v3/setvotechoices. The timestamp is compared with every record the
        log has when the handler reads it; an accepted request is merged into the
        record the middleware read and, once that is written, recorded in the log.
        No lock keeps other requests for the ticket out: `beforeWrite` happens
        between the reading of the log and the write, `beforeSave` between the write
        and the record. */
    method SetVoteChoices(known: Option<Ticket>, request: ChoicesRequest, timestamp: int,
                          timestampOf: string -> Option<int>, walletsUp: bool, record: VoteChangeRecord,
                          beforeWrite: seq<Action>, beforeSave: seq<Action>)
      returns (failure: Option<ApiError>)
      requires db.Valid() && log.Valid()
      requires known.Some? ==> Normal(known.value) && |log.Saved(known.value.hash)| <= KEYS
      modifies db`tickets, log
      ensures db.Valid() && log.Valid()
      ensures known.None? ==> failure.Some? && db.tickets == old(db.tickets) && log.history == old(log.history)
      ensures known.Some? ==>
                var t := known.value;
                var newer := ReplayCheck.Newer(old(log.Saved(t.hash)), log.maxVoteChangeRecords, timestampOf,
                                               timestamp);
                var db1 := DbAfter(old(db.tickets), db.broken, beforeWrite);
                var written := Written(env, db1, db.broken, Event.SetVoteChoices(request, newer, walletsUp), known,
                                       t.hash);
                var log1 := LogAfter(old(log.history), beforeWrite);
                if !ChoicesAccepted(env, t, request, newer, walletsUp) then
                  failure.Some? && db.tickets == old(db.tickets) && log.history == old(log.history)
                else if !ChoiceSucceeds(env, db1, db.broken, t, request, newer, walletsUp) then
                  failure.Some? && db.tickets == db1 && log.history == log1
                else
                  && failure.None? && db.tickets == DbAfter(written, db.broken, beforeSave)
                  && log.history == LogWith(LogAfter(log1, beforeSave), t.hash, record)
      ensures failure.None? ==>
                && walletsUp && known.Some? && known.value.feeTxStatus != NoFee && known.value.outcome == Unspent
                && request.voteChoices.GoMap? && |request.tSpendPolicy.Entries()| <= 3
                && |request.treasuryPolicy.Entries()| <= 3
                && ReplayCheck.Newer(old(log.Saved(known.value.hash)), log.maxVoteChangeRecords, timestampOf, timestamp)
                && env.validVoteChoices(request.voteChoices) && env.validTreasury(request.treasuryPolicy)
                && env.validTSpend(request.tSpendPolicy)
      ensures failure.None? && beforeSave == [] ==>
                known.value.hash in db.tickets && MergedRecord(known.value, request, db.tickets[known.value.hash])
      ensures known.Some? && beforeWrite == beforeSave == [] && timestampOf(record.request) == Some(timestamp)
              && known == Atomic.Lookup(old(db.tickets), known.value.hash) ==>
                Desk(db.tickets, log.Saved(known.value.hash))
                == ServeCall(env, db.broken, log.maxVoteChangeRecords, timestampOf, known.value.hash,
                             Desk(old(db.tickets), old(log.Saved(known.value.hash))),
                               ChooseCall(request, walletsUp, record))
    {
      hide WellFiled, React, ApplyAll, Apply, IsWindow, OldestKept, ChoicesAccepted, WithChoices, ReplayCheck.Newer,
           DbAfter, LogAfter, MergedRecord;
      if known.None? {
        return Some(if walletsUp then UnknownTicket else InternalError);
      }
      ghost var newer := ReplayCheck.Newer(log.Saved(known.value.hash), log.maxVoteChangeRecords, timestampOf,
                                           timestamp);
      failure := CheckChoices(known.value, request, timestamp, timestampOf, walletsUp);
      ChoicesReaction(env, Event.SetVoteChoices(request, newer, walletsUp), known.value);
      ApplyNone(db.tickets);
      if failure.Some? {
        return;
      }
      NobodyElse(db.tickets, db.broken, log.history);
      Meanwhile(beforeWrite);
      var ok := StoreChoices(known.value, request);
      if !ok {
        return Some(InternalError);
      }
      NobodyElse(db.tickets, db.broken, log.history);
      Meanwhile(beforeSave);
      log.SaveVoteChange(known.value.hash, record);
    }

    /** The record with the requested choices over its own, and nothing else changed. */
    ghost predicate MergedRecord(t: Ticket, c: ChoicesRequest, u: Ticket)
      requires Normal(t)
    {
      && u == t.(voteChoices := u.voteChoices, tSpendPolicy := u.tSpendPolicy, treasuryPolicy := u.treasuryPolicy)
      && u.voteChoices == GoMap(t.voteChoices.entries + c.voteChoices.Entries())
      && u.tSpendPolicy == GoMap(t.tSpendPolicy.entries + c.tSpendPolicy.Entries())
      && u.treasuryPolicy == GoMap(t.treasuryPolicy.entries + c.treasuryPolicy.Entries())
    }

    /** setvotechoices.go:125-143: merge and write. */
    method StoreChoices(known: Ticket, request: ChoicesRequest) returns (ok: bool)
      requires db.Valid() && Normal(known)
      modifies db`tickets
      ensures db.Valid()
      ensures ok <==> known.hash in old(db.tickets) && known.hash !in db.broken
      ensures db.tickets == if ok then ApplyAll(old(db.tickets), [Update(WithChoices(known, request))])
              else old(db.tickets)
      ensures ok ==>
                && known.hash in db.tickets && db.tickets == old(db.tickets)[known.hash := db.tickets[known.hash]]
                && MergedRecord(known, request, db.tickets[known.hash])
    {
      hide WellFiled, ApplyAll, WithChoices;
      var ticket := SetChoiceFields(known, request);
      ApplyOne(db.tickets, Update(ticket));
      ok := db.UpdateTicket(ticket);
    }

    /** setvotechoices.go:30-122: the checks, in order. */
    method CheckChoices(ticket: Ticket, request: ChoicesRequest, timestamp: int, timestampOf: string -> Option<int>,
                        walletsUp: bool)
      returns (failure: Option<ApiError>)
      requires log.Valid() && |log.Saved(ticket.hash)| <= KEYS
      ensures failure.None? <==>
                ChoicesAccepted(env, ticket, request,
                                ReplayCheck.Newer(log.Saved(ticket.hash), log.maxVoteChangeRecords, timestampOf,
                                                  timestamp), walletsUp)
      ensures failure == Some(InvalidTimestamp) <==>
                && walletsUp && ticket.feeTxStatus != NoFee && ticket.outcome == Unspent
                && WellFormedChoices(request.voteChoices, request.tSpendPolicy, request.treasuryPolicy)
                && !ReplayCheck.Newer(log.Saved(ticket.hash), log.maxVoteChangeRecords, timestampOf, timestamp)
      ensures failure == Some(FeeNotReceived) <==> walletsUp && ticket.feeTxStatus == NoFee
      ensures failure == Some(TicketCannotVote)
              <==> walletsUp && ticket.feeTxStatus != NoFee && ticket.outcome != Unspent
      ensures failure == Some(InternalError) <==> !walletsUp
      ensures failure == Some(BadRequest) <==>
                && walletsUp && ticket.feeTxStatus != NoFee && ticket.outcome == Unspent
                && (request.voteChoices.NilMap? || |request.tSpendPolicy.Entries()| > 3
                    || |request.treasuryPolicy.Entries()| > 3)
      ensures failure == Some(InvalidVoteChoices) <==>
                && walletsUp && ticket.feeTxStatus != NoFee && ticket.outcome == Unspent
                && request.voteChoices.GoMap? && |request.tSpendPolicy.Entries()| <= 3
                && |request.treasuryPolicy.Entries()| <= 3
                && ReplayCheck.Newer(log.Saved(ticket.hash), log.maxVoteChangeRecords, timestampOf, timestamp)
                && !(env.validVoteChoices(request.voteChoices) && env.validTreasury(request.treasuryPolicy)
                     && env.validTSpend(request.tSpendPolicy))
      ensures failure.None? <==>
                && walletsUp && ticket.feeTxStatus != NoFee && ticket.outcome == Unspent
                && request.voteChoices.GoMap? && |request.tSpendPolicy.Entries()| <= 3
                && |request.treasuryPolicy.Entries()| <= 3
                && ReplayCheck.Newer(log.Saved(ticket.hash), log.maxVoteChangeRecords, timestampOf, timestamp)
                && env.validVoteChoices(request.voteChoices) && env.validTreasury(request.treasuryPolicy)
                && env.validTSpend(request.tSpendPolicy)
    {
      hide ReplayCheck.Newer, IsWindow, OldestKept;
      if !walletsUp {
        return Some(InternalError);
      }
      if ticket.feeTxStatus == NoFee {
        return Some(FeeNotReceived);
      }
      if ticket.outcome != Unspent {
        return Some(TicketCannotVote);
      }
      if !WellFormedChoices(request.voteChoices, request.tSpendPolicy, request.treasuryPolicy) {
        return Some(BadRequest);
      }
      var previous := log.GetVoteChanges(ticket.hash);
      var newer := ReplayCheck.CheckTimestamp(previous, timestampOf, timestamp);
      ReplayCheck.CheckIsAgainstRetained(log.Saved(ticket.hash), log.maxVoteChangeRecords, previous, timestampOf,
                                         timestamp);
      if !newer {
        return Some(InvalidTimestamp);
      }
      if !env.validVoteChoices(request.voteChoices) || !env.validTreasury(request.treasuryPolicy)
         || !env.validTSpend(request.tSpendPolicy)
      {
        return Some(InvalidVoteChoices);
      }
      return None;
    }

    /** setvotechoices.go:125-135. */
    method SetChoiceFields(known: Ticket, request: ChoicesRequest) returns (ticket: Ticket)
      requires Normal(known)
      ensures ticket == WithChoices(known, request) && ticket.hash == known.hash
      ensures ticket == known.(voteChoices := ticket.voteChoices, tSpendPolicy := ticket.tSpendPolicy,
                               treasuryPolicy := ticket.treasuryPolicy)
      ensures ticket.voteChoices == GoMap(known.voteChoices.entries + request.voteChoices.Entries())
      ensures ticket.tSpendPolicy == GoMap(known.tSpendPolicy.entries + request.tSpendPolicy.Entries())
      ensures ticket.treasuryPolicy == GoMap(known.treasuryPolicy.entries + request.treasuryPolicy.Entries())
    {
      ticket := known;
      var voteChoices := MergeInto(ticket.voteChoices.entries, request.voteChoices.Entries());
      ticket := ticket.(voteChoices := GoMap(voteChoices));
      var tSpendPolicy := MergeInto(ticket.tSpendPolicy.entries, request.tSpendPolicy.Entries());
      ticket := ticket.(tSpendPolicy := GoMap(tSpendPolicy));
      var treasuryPolicy := MergeInto(ticket.treasuryPolicy.entries, request.treasuryPolicy.Entries());
      ticket := ticket.(treasuryPolicy := GoMap(treasuryPolicy));
      MergedIs(known, request, ticket);
    }

    /** POST /api/v3/feeaddress. A known ticket gets a new quote when the old one has
        expired, a new one gets a new address; an address is only used up when there
        is a ticket to give it to. */
    method FeeAddress(known: Option<Ticket>, hash: string, commitmentAddress: string, node: Option<TxLookup>,
                      canVote: bool,
                      now: real, expiration: int64, fee: Option<int64>)
      returns (response: Option<FeeAddressResponse>, failure: ApiError, ghost issued: Option<NewAddress>)
      requires db.Valid() && xpubs.Valid()
      requires known.Some? ==> known.value.hash == hash
      modifies db`tickets, xpubs`xpubs, addrGen
      ensures db.Valid() && xpubs.Valid()
      ensures db.tickets == Written(env, old(db.tickets), db.broken,
                Event.FeeAddress(hash, commitmentAddress, Answer(node), canVote, now, expiration, fee, issued), known,
                  hash)
      ensures issued.Some? ==> && known.None? && issued.value.xPubID == addrGen.feeXPubID
                               && issued.value.index == addrGen.lastUsedIndex
                               && (old(addrGen.lastUsedIndex) + 3 < FeeAddresses.MAX_IDS ==>
                                     addrGen.lastUsedIndex > old(addrGen.lastUsedIndex))
                               && addrGen.child(issued.value.index) == FeeAddresses.Address(issued.value.address)
                               && xpubs.xpubs == FeeAddresses.AfterSetIndex(old(xpubs.xpubs), issued.value.index)
      ensures issued.None? ==> xpubs.xpubs == old(xpubs.xpubs)
      ensures known.Some? ==> addrGen.lastUsedIndex == old(addrGen.lastUsedIndex)
      ensures failure == FeeAlreadyReceived <==> node.Some? && known.Some? && FeeReceivedAlready(known.value)
      ensures failure == TicketCannotVote <==>
                !(known.Some? && FeeReceivedAlready(known.value)) && Answer(node).Found? && !canVote
      ensures known.Some? ==> (response.Some? <==>
                && !FeeReceivedAlready(known.value) && Answer(node).Found? && canVote
                && (FeeExpired(known.value, now) ==> fee.Some? && hash in old(db.tickets) && hash !in db.broken))
      ensures known.None? ==> (response.Some? <==> issued.Some? && hash !in old(db.tickets) && hash !in db.broken)
      ensures response.Some? && (known.None? || FeeExpired(known.value, now)) ==>
                hash in db.tickets && response.value == Quote(db.tickets[hash])
      ensures response.Some? && known.Some? && !FeeExpired(known.value, now) ==> response.value == Quote(known.value)
      ensures response.None? ==> db.tickets == old(db.tickets)
      ensures known.None? && node.Some? && node.value.Found? && canVote && fee.Some?
              && old(addrGen.lastUsedIndex) + 3 < FeeAddresses.MAX_IDS ==>
                && old(addrGen.lastUsedIndex) < addrGen.lastUsedIndex <= old(addrGen.lastUsedIndex) + 3
                && (forall j: uint32 | old(addrGen.lastUsedIndex) < j < addrGen.lastUsedIndex ::
                      addrGen.child(j) == FeeAddresses.InvalidChild)
                && (addrGen.child(addrGen.lastUsedIndex) == FeeAddresses.InvalidChild ==>
                      addrGen.lastUsedIndex == old(addrGen.lastUsedIndex) + 3)
                && (issued.Some? <==> addrGen.child(addrGen.lastUsedIndex).Address? && !xpubs.broken)
      ensures !(known.None? && node.Some? && node.value.Found? && canVote && fee.Some?) ==>
                issued.None? && addrGen.lastUsedIndex == old(addrGen.lastUsedIndex)
      ensures response.Some? && known.Some? && now <= known.value.feeExpiration as real ==>
                && db.tickets == old(db.tickets)
                && response.value.feeAddress == known.value.feeAddress
                && response.value.feeAmount == known.value.feeAmount
                && response.value.expiration == known.value.feeExpiration
      ensures response.Some? && (known.None? || now > known.value.feeExpiration as real) ==>
                && hash in db.tickets && db.tickets == old(db.tickets)[hash := db.tickets[hash]]
                && response.value.feeAddress == db.tickets[hash].feeAddress
                && response.value.feeAmount == db.tickets[hash].feeAmount
                && response.value.expiration == db.tickets[hash].feeExpiration
      ensures response.Some? && known.Some? && now > known.value.feeExpiration as real ==>
                && fee.Some? && hash in db.tickets
                && db.tickets[hash] == Normalise(known.value.(feeAmount := fee.value, feeExpiration := expiration))
      ensures response.Some? && known.None? ==>
                && fee.Some? && issued.Some? && node.Some? && node.value.Found? && hash in db.tickets
                && var t, info := db.tickets[hash], node.value.info;
                   && t.hash == hash && t.commitmentAddress == commitmentAddress
                   && t.feeAddressXPubID == issued.value.xPubID && t.feeAddressIndex == issued.value.index
                   && t.feeAddress == issued.value.address && t.feeAmount == fee.value && t.feeExpiration == expiration
                   && (t.confirmed <==> info.confirmations >= 6)
                   && t.purchaseHeight == (if info.confirmations >= 6 then info.blockHeight else 0)
                   && t.votingWIF == t.feeTxHex == t.feeTxHash == "" && t.feeTxStatus == NoFee && t.outcome == Unspent
                   && t.voteChoices == t.tSpendPolicy == t.treasuryPolicy == GoMap(map[])
    {
      hide WellFiled, React, ApplyAll, FeeAddresses.History, FeeAddresses.AfterSetIndex;
      issued, response, failure := None, None, InternalError;
      ApplyNone(db.tickets);
      ghost var e := Event.FeeAddress(hash, commitmentAddress, Answer(node), canVote, now, expiration, fee, None);
      FeeAddressReaction(env, e, known);
      if node.None? {
        return;
      }
      var lookup := node.value;
      if known.Some? && FeeReceivedAlready(known.value) {
        failure := FeeAlreadyReceived;
        return;
      }
      if !lookup.Found? {
        return;
      }
      if !canVote {
        failure := TicketCannotVote;
        return;
      }
      if known.Some? {
        var ticket := known.value;
        if FeeExpired(ticket, now) {
          if fee.None? {
            return;
          }
          ticket := ticket.(feeExpiration := expiration);
          ticket := ticket.(feeAmount := fee.value);
          ApplyOne(db.tickets, Update(ticket));
          var ok := db.UpdateTicket(ticket);
          if !ok {
            return;
          }
        }
        response := Some(Quote(ticket));
        return;
      }
      if fee.None? {
        return;
      }
      var newAddress, newAddressIdx := FeeAddresses.GetNewFeeAddress(addrGen, xpubs);
      if newAddress.None? {
        return;
      }
      issued := Some(NewAddress(newAddress.value, newAddressIdx, addrGen.feeXPubID));
      var confirmed, purchaseHeight: int64 := false, 0;
      if lookup.info.confirmations >= REQUIRED_CONFS {
        confirmed := true;
        purchaseHeight := lookup.info.blockHeight;
      }
      var dbTicket := Ticket(hash, purchaseHeight, commitmentAddress, addrGen.feeXPubID, newAddressIdx,
                             newAddress.value,
                             fee.value, expiration, confirmed, "", NilMap, NilMap, NilMap, "", "", NoFee, Unspent);
      ghost var e1 := Event.FeeAddress(hash, commitmentAddress, Answer(node), canVote, now, expiration, fee, issued);
      FeeAddressReaction(env, e1, known);
      ApplyOne(db.tickets, Insert(dbTicket));
      var ok := db.InsertNewTicket(dbTicket);
      if !ok {
        return;
      }
      response := Some(FeeAddressResponse(newAddress.value, fee.value, expiration));
    }
  }

  lemma MergeAll(base: map<string, string>, request: map<string, string>)
    ensures base + (request - request.Keys) == base && request - {} == request
  {
  }

  lemma MergeOne(base: map<string, string>, request: map<string, string>, keys: set<string>, k: string)
    requires k in keys && keys <= request.Keys
    ensures base + (request - (keys - {k})) == (base + (request - keys))[k := request[k]]
  {
  }

  lemma MergedIs(t: Ticket, c: ChoicesRequest, u: Ticket)
    requires Normal(t)
    requires u == t.(voteChoices := GoMap(t.voteChoices.entries + c.voteChoices.Entries()),
                     tSpendPolicy := GoMap(t.tSpendPolicy.entries + c.tSpendPolicy.Entries()),
                     treasuryPolicy := GoMap(t.treasuryPolicy.entries + c.treasuryPolicy.Entries()))
    ensures u == WithChoices(t, c)
  {
    assert forall m: map<string, string> :: m + map[] == m;
  }

  lemma FeeAddressReaction(env: Env, e: Event, snap: Option<Ticket>)
    requires e.FeeAddress?
    ensures React(env, e, snap) ==
      if !e.lookup.Found? || !e.canVote || e.fee.None? then []
      else if snap.Some? then
        if FeeReceivedAlready(snap.value) || !FeeExpired(snap.value, e.now) then []
        else [Update(snap.value.(feeExpiration := e.expiration, feeAmount := e.fee.value))]
      else if e.issued.None? then []
      else
        var confirmed := e.lookup.info.confirmations >= REQUIRED_CONFS;
        [Insert(Ticket(e.hash, if confirmed then e.lookup.info.blockHeight else 0, e.commitmentAddress,
                       e.issued.value.xPubID, e.issued.value.index, e.issued.value.address, e.fee.value, e.expiration,
                         confirmed,
                       "", NilMap, NilMap, NilMap, "", "", NoFee, Unspent))]
  {
  }

  lemma PaymentGuards(env: Env, t: Ticket, r: PayFeeRequest, lookup: TxLookup, canVote: bool, now: real)
    ensures PayFeeAccepted(env, t, r, lookup, canVote, now) <==>
              && lookup.Found? && canVote && r.feeTx != "" && r.votingKey != "" && r.voteChoices.GoMap?
              && |r.tSpendPolicy.Entries()| <= 3 && |r.treasuryPolicy.Entries()| <= 3
              && t.feeTxStatus in {NoFee, FeeError} && now <= t.feeExpiration as real
              && env.decodeWIF(r.votingKey).Some? && env.decodeTx(r.feeTx).Some?
              && FeeAccepted(env, t, env.decodeTx(r.feeTx).value)
              && lookup.info.firstOut.Some?
              && env.votingRightsScript(env.decodeWIF(r.votingKey).value) == lookup.info.firstOut
  {
    hide FeeAccepted;
    assert FeeReceivedAlready(t) || t.feeTxStatus.NoFee? || t.feeTxStatus.FeeError?;
  }
}
