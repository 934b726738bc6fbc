/** The ticket store of database/ticket.go: one bolt bucket per ticket, one cell
    per field, and the queries the rest of the daemon makes of it. */
module Tickets {
  import opened Encoding

  datatype Option<+T> = None | Some(value: T)

  datatype FeeStatus = NoFee | FeeReceived | FeeBroadcast | FeeConfirmed | FeeError

  /** `Unspent` is the empty outcome: the ticket has not been spent as far as the
      database knows. `Revoked` is deprecated and only found in old databases. */
  datatype Outcome = Unspent | Voted | Missed | Expired | Revoked

  /** A Go map[string]string, which may be nil. */
  datatype GoMap = NilMap | GoMap(entries: map<string, string>)
  {
    function Entries(): map<string, string> {
      if NilMap? then map[] else entries
    }
  }

  datatype Ticket = Ticket(
    hash: string,
    purchaseHeight: int64,
    commitmentAddress: string,
    feeAddressXPubID: uint32,
    feeAddressIndex: uint32,
    feeAddress: string,
    feeAmount: int64,
    feeExpiration: int64,
    confirmed: bool,
    votingWIF: string,
    voteChoices: GoMap,
    tSpendPolicy: GoMap,
    treasuryPolicy: GoMap,
    feeTxHex: string,
    feeTxHash: string,
    feeTxStatus: FeeStatus,
    outcome: Outcome)

  /** What a ticket looks like once it has been through the database: nil maps
      come back empty. */
  function Normalise(t: Ticket): Ticket
  {
    t.(voteChoices := GoMap(t.voteChoices.Entries()),
       tSpendPolicy := GoMap(t.tSpendPolicy.Entries()),
       treasuryPolicy := GoMap(t.treasuryPolicy.Entries()))
  }

  predicate Normal(t: Ticket)
  {
    t.voteChoices.GoMap? && t.tSpendPolicy.GoMap? && t.treasuryPolicy.GoMap?
  }

  // ---------------------------------------------------------------- buckets

  datatype Field =
    | HashK | PurchaseHeightK | CommitmentAddressK | FeeAddressXPubIDK | FeeAddressIndexK
    | FeeAddressK | FeeAmountK | FeeExpirationK | ConfirmedK | VotingWIFK | VoteChoicesK
    | TSpendPolicyK | TreasuryPolicyK | FeeTxHexK | FeeTxHashK | FeeTxStatusK | OutcomeK

  /** The value stored under a key. A Go string and its bytes hold the same
      information, so text cells keep the text; JSON documents are kept parsed,
      null being distinct from an empty object. */
  datatype Cell = Text(text: string) | Raw(bytes: seq<byte>) | Json(doc: GoMap)

  type Cells = map<Field, Cell>

  function StatusText(s: FeeStatus): string
  {
    match s
    case NoFee => "none"
    case FeeReceived => "received"
    case FeeBroadcast => "broadcast"
    case FeeConfirmed => "confirmed"
    case FeeError => "error"
  }

  function ParseStatus(s: string): Option<FeeStatus>
  {
    if s == "none" then Some(NoFee)
    else if s == "received" then Some(FeeReceived)
    else if s == "broadcast" then Some(FeeBroadcast)
    else if s == "confirmed" then Some(FeeConfirmed)
    else if s == "error" then Some(FeeError)
    else None
  }

  function OutcomeText(o: Outcome): string
  {
    match o
    case Unspent => ""
    case Voted => "voted"
    case Missed => "missed"
    case Expired => "expired"
    case Revoked => "revoked"
  }

  function ParseOutcome(s: string): Option<Outcome>
  {
    if s == "" then Some(Unspent)
    else if s == "voted" then Some(Voted)
    else if s == "missed" then Some(Missed)
    else if s == "expired" then Some(Expired)
    else if s == "revoked" then Some(Revoked)
    else None
  }

  lemma StatusTextRoundTrip(s: FeeStatus, o: Outcome)
    ensures ParseStatus(StatusText(s)) == Some(s)
    ensures ParseOutcome(OutcomeText(o)) == Some(o)
  {
    assert |"none"| == 4 && |"received"| == 8 && |"broadcast"| == 9 && |"error"| == 5;
    assert "confirmed"[0] == 'c' && "broadcast"[0] == 'b';
    assert |"voted"| == 5 && |"missed"| == 6 && |"expired"| == 7;
    assert "expired"[0] == 'e' && "revoked"[0] == 'r';
  }

  /** The texts old databases have. */
  lemma StoredTexts()
    ensures StatusText(NoFee) == "none" && StatusText(FeeReceived) == "received"
    ensures StatusText(FeeBroadcast) == "broadcast" && StatusText(FeeConfirmed) == "confirmed"
    ensures StatusText(FeeError) == "error"
    ensures OutcomeText(Unspent) == "" && OutcomeText(Voted) == "voted" && OutcomeText(Missed) == "missed"
    ensures OutcomeText(Expired) == "expired" && OutcomeText(Revoked) == "revoked"
  {
  }

  /** bkt.Get on a missing key gives nil, which Go turns into the empty string. */
  function TextOf(b: Cells, k: Field): Option<string>
  {
    if k !in b then Some("") else if b[k].Text? then Some(b[k].text) else None
  }

  /** Reading a missing or short integer cell panics. */
  function RawOf(b: Cells, k: Field, width: nat): Option<seq<byte>>
    ensures RawOf(b, k, width).Some? ==> |RawOf(b, k, width).value| >= width
  {
    if k in b && b[k].Raw? && |b[k].bytes| >= width then Some(b[k].bytes) else None
  }

  /** bytesToStringMap: a missing cell and a null document both read as empty. */
  function MapOf(b: Cells, k: Field): Option<GoMap>
  {
    if k !in b then Some(GoMap(map[]))
    else if b[k].Json? then Some(GoMap(b[k].doc.Entries()))
    else None
  }

  predicate Readable(b: Cells)
  {
    && TextOf(b, HashK).Some? && TextOf(b, CommitmentAddressK).Some? && TextOf(b, FeeAddressK).Some?
    && TextOf(b, VotingWIFK).Some? && TextOf(b, FeeTxHexK).Some? && TextOf(b, FeeTxHashK).Some?
    && TextOf(b, FeeTxStatusK).Some? && ParseStatus(TextOf(b, FeeTxStatusK).value).Some?
    && TextOf(b, OutcomeK).Some? && ParseOutcome(TextOf(b, OutcomeK).value).Some?
    && RawOf(b, PurchaseHeightK, 8).Some? && RawOf(b, FeeAddressXPubIDK, 4).Some?
    && RawOf(b, FeeAddressIndexK, 4).Some? && RawOf(b, FeeAmountK, 8).Some?
    && RawOf(b, FeeExpirationK, 8).Some? && RawOf(b, ConfirmedK, 1).Some?
    && MapOf(b, VoteChoicesK).Some? && MapOf(b, TSpendPolicyK).Some? && MapOf(b, TreasuryPolicyK).Some?
  }

  function GetTicketFromBkt(b: Cells): Ticket
    requires Readable(b)
  {
    Ticket(
      TextOf(b, HashK).value,
      BytesToInt64(RawOf(b, PurchaseHeightK, 8).value),
      TextOf(b, CommitmentAddressK).value,
      BytesToUint32(RawOf(b, FeeAddressXPubIDK, 4).value),
      BytesToUint32(RawOf(b, FeeAddressIndexK, 4).value),
      TextOf(b, FeeAddressK).value,
      BytesToInt64(RawOf(b, FeeAmountK, 8).value),
      BytesToInt64(RawOf(b, FeeExpirationK, 8).value),
      BytesToBool(RawOf(b, ConfirmedK, 1).value),
      TextOf(b, VotingWIFK).value,
      MapOf(b, VoteChoicesK).value,
      MapOf(b, TSpendPolicyK).value,
      MapOf(b, TreasuryPolicyK).value,
      TextOf(b, FeeTxHexK).value,
      TextOf(b, FeeTxHashK).value,
      ParseStatus(TextOf(b, FeeTxStatusK).value).value,
      ParseOutcome(TextOf(b, OutcomeK).value).value)
  }

  function ReadBucket(b: Cells): Option<Ticket>
  {
    if Readable(b) then Some(GetTicketFromBkt(b)) else None
  }

  /** What putTicketInBucket stores under each key. */
  function CellOf(t: Ticket, k: Field): Cell
  {
    match k
    case HashK => Text(t.hash)
    case CommitmentAddressK => Text(t.commitmentAddress)
    case FeeAddressK => Text(t.feeAddress)
    case VotingWIFK => Text(t.votingWIF)
    case FeeTxHexK => Text(t.feeTxHex)
    case FeeTxHashK => Text(t.feeTxHash)
    case FeeTxStatusK => Text(StatusText(t.feeTxStatus))
    case OutcomeK => Text(OutcomeText(t.outcome))
    case PurchaseHeightK => Raw(Int64ToBytes(t.purchaseHeight))
    case FeeAddressIndexK => Raw(Uint32ToBytes(t.feeAddressIndex))
    case FeeAddressXPubIDK => Raw(Uint32ToBytes(t.feeAddressXPubID))
    case FeeAmountK => Raw(Int64ToBytes(t.feeAmount))
    case FeeExpirationK => Raw(Int64ToBytes(t.feeExpiration))
    case ConfirmedK => Raw(BoolToBytes(t.confirmed))
    case TSpendPolicyK => Json(t.tSpendPolicy)
    case TreasuryPolicyK => Json(t.treasuryPolicy)
    case VoteChoicesK => Json(t.voteChoices)
  }

  /** The bucket contents after every field of `t` was put over `b`. */
  function PutTicketInBucket(b: Cells, t: Ticket): (after: Cells)
  {
    b + (map k: Field | true :: CellOf(t, k))
  }

  lemma PutThenGet(b: Cells, t: Ticket, k: Field)
    ensures k in PutTicketInBucket(b, t) && PutTicketInBucket(b, t)[k] == CellOf(t, k)
  {
  }

  /** Each field goes under its own key, in its own encoding. */
  lemma TextCellsReadBack(x: Cells, t: Ticket)
    requires forall k: Field :: k in x && x[k] == CellOf(t, k)
    ensures && TextOf(x, HashK) == Some(t.hash) && TextOf(x, CommitmentAddressK) == Some(t.commitmentAddress)
            && TextOf(x, FeeAddressK) == Some(t.feeAddress) && TextOf(x, VotingWIFK) == Some(t.votingWIF)
            && TextOf(x, FeeTxHexK) == Some(t.feeTxHex) && TextOf(x, FeeTxHashK) == Some(t.feeTxHash)
            && TextOf(x, FeeTxStatusK) == Some(StatusText(t.feeTxStatus))
            && TextOf(x, OutcomeK) == Some(OutcomeText(t.outcome))
  {
    hide StatusText, OutcomeText;
  }

  lemma MapCellsReadBack(x: Cells, t: Ticket)
    requires forall k: Field :: k in x && x[k] == CellOf(t, k)
    ensures && MapOf(x, VoteChoicesK) == Some(GoMap(t.voteChoices.Entries()))
            && MapOf(x, TSpendPolicyK) == Some(GoMap(t.tSpendPolicy.Entries()))
            && MapOf(x, TreasuryPolicyK) == Some(GoMap(t.treasuryPolicy.Entries()))
  {
  }

  lemma RawCellsReadBack(x: Cells, t: Ticket)
    requires forall k: Field :: k in x && x[k] == CellOf(t, k)
    ensures && RawOf(x, PurchaseHeightK, 8) == Some(Int64ToBytes(t.purchaseHeight))
            && RawOf(x, FeeAmountK, 8) == Some(Int64ToBytes(t.feeAmount))
            && RawOf(x, FeeExpirationK, 8) == Some(Int64ToBytes(t.feeExpiration))
            && RawOf(x, FeeAddressIndexK, 4) == Some(Uint32ToBytes(t.feeAddressIndex))
            && RawOf(x, FeeAddressXPubIDK, 4) == Some(Uint32ToBytes(t.feeAddressXPubID))
            && RawOf(x, ConfirmedK, 1) == Some(BoolToBytes(t.confirmed))
  {
  }

  /** Record round trip: whatever the bucket held before, reading back gives the
      ticket that was put, with nil maps empty. */
  lemma RecordRoundTrip(b: Cells, t: Ticket)
    ensures ReadBucket(PutTicketInBucket(b, t)) == Some(Normalise(t))
  {
    var x := PutTicketInBucket(b, t);
    forall k: Field ensures k in x && x[k] == CellOf(t, k) {
      PutThenGet(b, t, k);
    }
    TextCellsReadBack(x, t);
    MapCellsReadBack(x, t);
    RawCellsReadBack(x, t);
    StatusTextRoundTrip(t.feeTxStatus, t.outcome);
    Int64RoundTrip(t.purchaseHeight, Int64ToBytes(t.purchaseHeight));
    Int64RoundTrip(t.feeAmount, Int64ToBytes(t.feeAmount));
    Int64RoundTrip(t.feeExpiration, Int64ToBytes(t.feeExpiration));
    Uint32RoundTrip(t.feeAddressIndex, Uint32ToBytes(t.feeAddressIndex));
    Uint32RoundTrip(t.feeAddressXPubID, Uint32ToBytes(t.feeAddressXPubID));
    hide TextOf, RawOf, MapOf, CellOf, StatusText, ParseStatus, OutcomeText, ParseOutcome,
         LittleEndian, FromLittleEndian, Int64ToBytes, BytesToInt64, Uint32ToBytes, BytesToUint32;
  }

  /** Overwriting leaves no cell of the older record behind: the bucket ends up
      as if the ticket had been put into an empty one. */
  lemma OverwriteLeavesNothing(b: Cells, t: Ticket)
    ensures PutTicketInBucket(b, t) == PutTicketInBucket(map[], t)
  {
    forall k: Field ensures k in PutTicketInBucket(b, t) && PutTicketInBucket(b, t)[k] == CellOf(t, k) {
      PutThenGet(b, t, k);
    }
  }

  // ---------------------------------------------------------------- queries

  predicate Unconfirmed(t: Ticket) { !t.confirmed }
  predicate PendingFee(t: Ticket) { t.confirmed && t.feeTxStatus == FeeReceived }
  predicate UnconfirmedFee(t: Ticket) { t.feeTxStatus == FeeBroadcast }
  predicate Votable(t: Ticket) { t.feeTxStatus == FeeConfirmed && t.outcome == Unspent }
  predicate HasVoted(t: Ticket) { t.feeTxStatus == FeeConfirmed && t.outcome == Voted }
  predicate HasMissed(t: Ticket) { t.outcome == Missed }
  predicate IsRevoked(t: Ticket) { t.outcome == Revoked }
  predicate MissingHeight(t: Ticket) { t.confirmed && t.purchaseHeight == 0 }

  predicate DistinctHashes(ts: seq<Ticket>)
  {
    forall i, j | 0 <= i < j < |ts| :: ts[i].hash != ts[j].hash
  }

  type Db = map<string, Ticket>

  /** Every record is filed under its own hash and has been normalised. */
  predicate WellFiled(db: Db)
  {
    forall h | h in db :: db[h].hash == h && Normal(db[h])
  }

  /** `r` lists exactly the records of `db` that satisfy `p`, each once. */
  ghost predicate Lists(db: Db, p: Ticket -> bool, r: seq<Ticket>)
  {
    && DistinctHashes(r)
    && (forall i | 0 <= i < |r| :: r[i].hash in db && db[r[i].hash] == r[i] && p(r[i]))
    && (forall h | h in db && p(db[h]) :: db[h] in r)
  }

  lemma ListsGrows(db: Db, h: string, t: Ticket, p: Ticket -> bool, r: seq<Ticket>)
    requires Lists(db, p, r) && h !in db && t.hash == h && p(t)
    ensures Lists(db[h := t], p, r + [t])
  {
    var after := r + [t];
    assert after[|r|] == t;
    forall k | k in db && p(db[k]) ensures db[k] in after {
      var i :| 0 <= i < |r| && r[i] == db[k];
      assert after[i] == db[k];
    }
  }

  lemma {:induction false} HashCount(r: seq<Ticket>)
    requires DistinctHashes(r)
    ensures |set t | t in r :: t.hash| == |r|
  {
    if r != [] {
      var rest, last := r[..|r| - 1], r[|r| - 1];
      HashCount(rest);
      assert r == rest + [last];
      assert (set t | t in r :: t.hash) == (set t | t in rest :: t.hash) + {last.hash};
    }
  }

  /** A filter returns as many tickets as there are matching hashes. */
  lemma ListLength(db: Db, p: Ticket -> bool, r: seq<Ticket>)
    requires WellFiled(db) && Lists(db, p, r)
    ensures |r| == |Matching(db, p)|
  {
    HashCount(r);
    assert (set t | t in r :: t.hash) == Matching(db, p);
  }

  function Matching(db: Db, p: Ticket -> bool): (hs: set<string>)
    ensures hs <= db.Keys
  {
    set h | h in db && p(db[h])
  }

  /** database/ticket.go:108: the least non-zero purchase height, or zero. */
  method EarliestPurchaseHeight(ts: seq<Ticket>) returns (oldest: int)
    ensures oldest == 0 <==> forall t | t in ts :: t.purchaseHeight == 0
    ensures oldest != 0 ==> exists t | t in ts :: t.purchaseHeight == oldest
    ensures oldest != 0 ==> forall t | t in ts && t.purchaseHeight != 0 :: oldest <= t.purchaseHeight
  {
    oldest := 0;
    for i := 0 to |ts|
      invariant oldest == 0 <==> forall t | t in ts[..i] :: t.purchaseHeight == 0
      invariant oldest != 0 ==> exists t | t in ts[..i] :: t.purchaseHeight == oldest
      invariant oldest != 0 ==> forall t | t in ts[..i] && t.purchaseHeight != 0 :: oldest <= t.purchaseHeight
    {
      assert ts[..i + 1] == ts[..i] + [ts[i]];
      if ts[i].purchaseHeight != 0 && (oldest == 0 || oldest > ts[i].purchaseHeight) {
        oldest := ts[i].purchaseHeight;
        assert ts[i] in ts[..i + 1];
      }
    }
    assert ts[..|ts|] == ts;
  }

  type Buckets = map<string, Cells>

  /** The records a ticket bucket stands for. */
  ghost function Load(bs: Buckets): Db
  {
    map h | h in bs && ReadBucket(bs[h]).Some? :: ReadBucket(bs[h]).value
  }

  lemma LoadUpdate(bs: Buckets, h: string, cells: Cells, t: Ticket)
    requires ReadBucket(cells) == Some(t)
    ensures Load(bs[h := cells]) == Load(bs)[h := t]
  {
    hide ReadBucket;
  }

  /** Writing a ticket over whatever bucket its hash has is, on records, a map
      update with the normalised ticket: TicketStore below may keep records. */
  lemma WriteRefinesMapUpdate(bs: Buckets, t: Ticket)
    ensures var cells := PutTicketInBucket(if t.hash in bs then bs[t.hash] else map[], t);
            Load(bs[t.hash := cells]) == Load(bs)[t.hash := Normalise(t)]
  {
    var before := if t.hash in bs then bs[t.hash] else map[];
    RecordRoundTrip(before, t);
    LoadUpdate(bs, t.hash, PutTicketInBucket(before, t), Normalise(t));
  }

  /** database/ticket.go:277-299, on cells: the record in the bucket of a hash. */
  ghost function ReadTicket(bs: Buckets, h: string): Option<Ticket>
  {
    if h in bs then ReadBucket(bs[h]) else None
  }

  /** Reading after a write gives the ticket that was written, normalised, whatever
      its bucket held; what is read under any other hash is as before. */
  lemma WriteThenRead(bs: Buckets, t: Ticket, h: string)
    ensures var cells := PutTicketInBucket(if t.hash in bs then bs[t.hash] else map[], t);
            ReadTicket(bs[t.hash := cells], h) == if h == t.hash then Some(Normalise(t)) else ReadTicket(bs, h)
  {
    RecordRoundTrip(if t.hash in bs then bs[t.hash] else map[], t);
    hide ReadBucket, PutTicketInBucket, Normalise;
  }

  /** The ticket bucket, kept as the records its cells read back to. */
  class TicketStore {
    var tickets: Db
    /** Hashes for which bolt currently refuses writes. */
    var broken: set<string>

    constructor ()
      ensures Valid() && tickets == map[] && broken == {}
    {
      tickets, broken := map[], {};
    }

    ghost predicate Valid()
      reads this
    {
      WellFiled(tickets)
    }

    method GetTicketByHash(hash: string) returns (r: Option<Ticket>)
      requires Valid()
      ensures r.Some? <==> hash in tickets
      ensures r.Some? ==> r.value.hash == hash && Normal(r.value) && r.value == tickets[hash]
    {
      r := if hash in tickets then Some(tickets[hash]) else None;
    }

    /** Fails when the hash is already known; nothing else is checked. */
    method InsertNewTicket(t: Ticket) returns (ok: bool)
      requires Valid()
      modifies this`tickets
      ensures Valid()
      ensures ok <==> t.hash !in old(tickets) && t.hash !in broken
      ensures tickets == if ok then old(tickets)[t.hash := Normalise(t)] else old(tickets)
    {
      ok := t.hash !in tickets && t.hash !in broken;
      if ok {
        tickets := tickets[t.hash := Normalise(t)];
      }
    }

    /** Rewrites the whole record; fails when the hash is not known. */
    method UpdateTicket(t: Ticket) returns (ok: bool)
      requires Valid()
      modifies this`tickets
      ensures Valid()
      ensures ok <==> t.hash in old(tickets) && t.hash !in broken
      ensures tickets == if ok then old(tickets)[t.hash := Normalise(t)] else old(tickets)
    {
      ok := t.hash in tickets && t.hash !in broken;
      if ok {
        tickets := tickets[t.hash := Normalise(t)];
      }
    }

    method DeleteTicket(t: Ticket) returns (ok: bool)
      requires Valid()
      modifies this`tickets
      ensures Valid()
      ensures ok <==> t.hash in old(tickets) && t.hash !in broken
      ensures tickets == if ok then old(tickets) - {t.hash} else old(tickets)
    {
      ok := t.hash in tickets && t.hash !in broken;
      if ok {
        tickets := tickets - {t.hash};
      }
    }

    /** Exactly the matching tickets, each once. */
    method FilterTickets(p: Ticket -> bool) returns (r: seq<Ticket>)
      requires Valid()
      ensures Lists(tickets, p, r)
    {
      r := [];
      var keys := tickets.Keys;
      while keys != {}
        invariant keys <= tickets.Keys
        invariant Lists(tickets - keys, p, r)
        decreases |keys|
      {
        var h :| h in keys;
        var t := tickets[h];
        if p(t) {
          ListsGrows(tickets - keys, h, t, p, r);
          r := r + [t];
        }
        assert tickets - (keys - {h}) == (tickets - keys)[h := t];
        keys := keys - {h};
      }
      assert tickets - keys == tickets;
    }

    /** database/ticket.go:315. */
    method CountTickets() returns (voting: nat, voted: nat, expired: nat, missed: nat)
      ensures Counted(tickets, voting, voted, expired, missed)
      ensures voting == |set h | h in tickets && tickets[h].feeTxStatus == FeeConfirmed
              && tickets[h].outcome == Unspent|
      ensures voted == |set h | h in tickets && tickets[h].feeTxStatus == FeeConfirmed && tickets[h].outcome == Voted|
      ensures expired == |set h | h in tickets && tickets[h].feeTxStatus == FeeConfirmed
                                  && (tickets[h].outcome == Expired || tickets[h].outcome == Revoked)|
      ensures missed == |set h | h in tickets && tickets[h].feeTxStatus == FeeConfirmed && tickets[h].outcome == Missed|
    {
      voting, voted, expired, missed := 0, 0, 0, 0;
      var keys := tickets.Keys;
      while keys != {}
        invariant keys <= tickets.Keys
        invariant Counted(tickets - keys, voting, voted, expired, missed)
        decreases |keys|
      {
        var h :| h in keys;
        var t := tickets[h];
        CountedGrows(tickets - keys, h, t, voting, voted, expired, missed);
        assert tickets - (keys - {h}) == (tickets - keys)[h := t];
        keys := keys - {h};
        if t.feeTxStatus == FeeConfirmed {
          match t.outcome {
            case Voted => voted := voted + 1;
            case Expired => expired := expired + 1;
            case Missed => missed := missed + 1;
            case Revoked => expired := expired + 1;
            case Unspent => voting := voting + 1;
          }
        }
      }
      assert tickets - keys == tickets;
      CountedSets(tickets);
    }
  }

  lemma CountedSets(db: Db)
    ensures Matching(db, Votable) == set h | h in db && db[h].feeTxStatus == FeeConfirmed && db[h].outcome == Unspent
    ensures Matching(db, HasVoted) == set h | h in db && db[h].feeTxStatus == FeeConfirmed && db[h].outcome == Voted
    ensures Matching(db, CountedExpired)
         == set h | h in db && db[h].feeTxStatus == FeeConfirmed
           && (db[h].outcome == Expired || db[h].outcome == Revoked)
    ensures Matching(db, CountedMissed)
         == set h | h in db && db[h].feeTxStatus == FeeConfirmed && db[h].outcome == Missed
  {
  }

  ghost predicate Counted(db: Db, voting: nat, voted: nat, expired: nat, missed: nat)
  {
    && voting == |Matching(db, Votable)| && voted == |Matching(db, HasVoted)|
    && expired == |Matching(db, CountedExpired)| && missed == |Matching(db, CountedMissed)|
  }

  lemma CountedGrows(db: Db, h: string, t: Ticket, voting: nat, voted: nat, expired: nat, missed: nat)
    requires Counted(db, voting, voted, expired, missed) && h !in db
    ensures Counted(db[h := t],
                    voting + (if Votable(t) then 1 else 0), voted + (if HasVoted(t) then 1 else 0),
                    expired + (if CountedExpired(t) then 1 else 0), missed + (if CountedMissed(t) then 1 else 0))
  {
    MatchingGrows(db, h, t, Votable);
    MatchingGrows(db, h, t, HasVoted);
    MatchingGrows(db, h, t, CountedMissed);
    MatchingGrows(db, h, t, CountedExpired);
  }

  predicate CountedMissed(t: Ticket) { t.feeTxStatus == FeeConfirmed && t.outcome == Missed }
  predicate CountedExpired(t: Ticket) { t.feeTxStatus == FeeConfirmed && t.outcome in {Expired, Revoked} }
  predicate FeeIsConfirmed(t: Ticket) { t.feeTxStatus == FeeConfirmed }

  lemma MatchingGrows(db: Db, h: string, t: Ticket, p: Ticket -> bool)
    requires h !in db
    ensures |Matching(db[h := t], p)| == |Matching(db, p)| + (if p(t) then 1 else 0)
  {
    assert Matching(db[h := t], p) == Matching(db, p) + (if p(t) then {h} else {});
  }

  /** The four counts partition the fee-confirmed tickets. */
  lemma {:induction false} CountsSum(db: Db, voting: nat, voted: nat, expired: nat, missed: nat)
    requires Counted(db, voting, voted, expired, missed)
    ensures voting + voted + expired + missed == |Matching(db, FeeIsConfirmed)|
    decreases |db|
  {
    if db == map[] {
      assert Matching(db, FeeIsConfirmed) == {};
      assert Matching(db, Votable) == Matching(db, HasVoted) == Matching(db, CountedExpired)
          == Matching(db, CountedMissed) == {};
    } else {
      var h :| h in db;
      var t, rest := db[h], db - {h};
      assert rest[h := t] == db && |rest| == |db| - 1;
      var a, b := |Matching(rest, Votable)|, |Matching(rest, HasVoted)|;
      var c, d := |Matching(rest, CountedExpired)|, |Matching(rest, CountedMissed)|;
      CountsSum(rest, a, b, c, d);
      CountedGrows(rest, h, t, a, b, c, d);
      MatchingGrows(rest, h, t, FeeIsConfirmed);
    }
  }

  /** The missed count agrees with the missed filter exactly when no ticket is
      recorded as missed without a confirmed fee: the filter does not look at the
      fee. The voting and voted counts agree with their filters always. */
  lemma MissedCountAgrees(db: Db)
    ensures |Matching(db, CountedMissed)| == |Matching(db, HasMissed)|
       <==> forall h | h in db :: db[h].outcome == Missed ==> db[h].feeTxStatus == FeeConfirmed
  {
    var counted, listed := Matching(db, CountedMissed), Matching(db, HasMissed);
    assert counted <= listed;
    if |counted| == |listed| {
      assert |listed - counted| == 0;
      forall h | h in db && db[h].outcome == Missed ensures db[h].feeTxStatus == FeeConfirmed {
        assert h in listed && h !in listed - counted;
      }
    } else {
      assert counted != listed;
    }
  }

  /** Recording an outcome for a votable ticket takes it from the voting count to
      exactly one of the others; the sum of the counts stays what it was. */
  lemma RecordingConserves(db: Db, h: string, o: Outcome, voting: nat, voted: nat, expired: nat, missed: nat)
    requires h in db && Votable(db[h]) && o in {Voted, Missed, Expired}
    requires Counted(db, voting, voted, expired, missed)
    ensures voting > 0
    ensures Counted(db[h := db[h].(outcome := o)], voting - 1,
                    voted + (if o == Voted then 1 else 0),
                    expired + (if o == Expired then 1 else 0),
                    missed + (if o == Missed then 1 else 0))
  {
    var rest, t, spent := db - {h}, db[h], db[h].(outcome := o);
    assert rest[h := t] == db && rest[h := spent] == db[h := spent];
    var a, b := |Matching(rest, Votable)|, |Matching(rest, HasVoted)|;
    var c, d := |Matching(rest, CountedExpired)|, |Matching(rest, CountedMissed)|;
    CountedGrows(rest, h, t, a, b, c, d);
    CountedGrows(rest, h, spent, a, b, c, d);
  }
}
