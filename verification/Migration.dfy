/** The schema upgrades of database/upgrades.go and upgrade_v2 to v5. */
module Migration {
  import opened Encoding
  import opened Tickets
  import opened FeeAddresses

  /** The JSON ticket of versions 1 and 2. */
  datatype V1Ticket = V1Ticket(
    hash: string, purchaseHeight: int64, commitmentAddress: string, feeAddressIndex: uint32,
    feeAddress: string, feeAmount: int64, feeExpiration: int64, confirmed: bool, votingWIF: string,
    voteChoices: GoMap, feeTxHex: string, feeTxHash: string, feeTxStatus: FeeStatus, outcome: Outcome)

  /** An entry of the ticket bucket: a JSON value or, from version 3, a bucket. */
  datatype Entry = JsonTicket(doc: V1Ticket) | BadJson | SubBucket(cells: Cells)

  type Entries = map<string, Entry>

  /** The parent bucket; None is a missing key or bucket. */
  datatype VspBucket = VspBucket(
    version: uint32,
    feeXPub: Option<string>,
    lastAddressIndex: Option<seq<byte>>,
    xpubs: Option<XPubs>,
    tickets: Entries,
    altSignAddrs: Option<map<string, string>>)

  const LATEST_VERSION: uint32 := 5

  // ------------------------------------------------ the effect of each upgrade

  predicate AllJson(es: Entries)
  {
    forall h | h in es :: es[h].JsonTicket?
  }

  function Blanked(t: V1Ticket): V1Ticket
  {
    if t.feeTxStatus == FeeConfirmed then t.(feeTxHex := "") else t
  }

  function FromV1(t: V1Ticket): Ticket
  {
    Ticket(t.hash, t.purchaseHeight, t.commitmentAddress, 0, t.feeAddressIndex, t.feeAddress, t.feeAmount,
           t.feeExpiration, t.confirmed, t.votingWIF, t.voteChoices, NilMap, NilMap,
           t.feeTxHex, t.feeTxHash, t.feeTxStatus, t.outcome)
  }

  function BlankEntry(e: Entry): Entry
    requires e.JsonTicket?
  {
    JsonTicket(Blanked(e.doc))
  }

  function BucketEntry(e: Entry): Entry
    requires e.JsonTicket?
  {
    SubBucket(PutTicketInBucket(map[], FromV1(e.doc)))
  }

  function FilledEntry(e: Entry): Entry
  {
    if e.SubBucket? then SubBucket(e.cells[FeeAddressXPubIDK := Raw(Uint32ToBytes(0))]) else e
  }

  ghost function BlankEntries(es: Entries): Entries
    requires AllJson(es)
  {
    map h | h in es :: BlankEntry(es[h])
  }

  ghost function BucketEntries(es: Entries): Entries
    requires AllJson(es)
  {
    map h | h in es :: BucketEntry(es[h])
  }

  ghost function FilledEntries(es: Entries): Entries
  {
    map h | h in es :: FilledEntry(es[h])
  }

  function LastIndex(b: VspBucket): uint32
    requires b.lastAddressIndex.Some? ==> |b.lastAddressIndex.value| >= 4
  {
    if b.lastAddressIndex.None? then 0 else BytesToUint32(b.lastAddressIndex.value)
  }

  /** The database after the upgrade from version i; None when the transaction is
      rolled back. There is no upgrade from version 0. */
  ghost function Upgraded(i: nat, b: VspBucket): Option<VspBucket>
  {
    if i == 1 then
      if !AllJson(b.tickets) then None
      else Some(b.(tickets := BlankEntries(b.tickets), version := 2))
    else if i == 2 then
      if !AllJson(b.tickets) then None
      else Some(b.(tickets := BucketEntries(b.tickets), version := 3))
    else if i == 3 then
      if b.altSignAddrs.Some? then None else Some(b.(altSignAddrs := Some(map[]), version := 4))
    else if i == 4 then
      if b.feeXPub.None? || (b.lastAddressIndex.Some? && |b.lastAddressIndex.value| < 4) then None
      else
        var existing: XPubs := if b.xpubs.Some? then b.xpubs.value else map[];
        Some(b.(feeXPub := None, lastAddressIndex := None,
                xpubs := Some(existing[0 := FeeXPub(0, b.feeXPub.value, LastIndex(b), 0)]),
                tickets := FilledEntries(b.tickets),
                version := 5))
    else None
  }

  /** Upgrades from, from + 1, ... up to but not including `to`, stopping at the
      first that fails. */
  ghost function UpgradedTo(b: VspBucket, from: nat, to: nat): Option<VspBucket>
    decreases to - from
  {
    if from >= to then Some(b)
    else
      match Upgraded(from, b)
      case None => None
      case Some(next) => UpgradedTo(next, from + 1, to)
  }

  /** Every field of a version 1 or 2 ticket is where it was; the fields it did not
      have are empty. */
  ghost predicate CarriesFields(doc: V1Ticket, r: Option<Ticket>)
  {
    && r.Some?
    && var t := r.value;
       && t.hash == doc.hash && t.purchaseHeight == doc.purchaseHeight
       && t.commitmentAddress == doc.commitmentAddress && t.feeAddress == doc.feeAddress
       && t.feeAddressIndex == doc.feeAddressIndex && t.feeAddressXPubID == 0
       && t.feeAmount == doc.feeAmount && t.feeExpiration == doc.feeExpiration && t.confirmed == doc.confirmed
       && t.votingWIF == doc.votingWIF && t.feeTxHash == doc.feeTxHash
       && t.feeTxStatus == doc.feeTxStatus && t.outcome == doc.outcome
       && t.voteChoices.Entries() == doc.voteChoices.Entries()
       && t.tSpendPolicy.Entries() == t.treasuryPolicy.Entries() == map[] && t.feeTxHex == doc.feeTxHex
  }

  lemma FieldsCarry(doc: V1Ticket)
    ensures BucketEntry(JsonTicket(doc)).SubBucket?
    ensures CarriesFields(doc, ReadBucket(BucketEntry(JsonTicket(doc)).cells))
  {
    RecordRoundTrip(map[], FromV1(doc));
    hide ReadBucket, PutTicketInBucket;
  }

  lemma FilledWithZero(es: Entries)
    ensures FilledEntries(es).Keys == es.Keys
    ensures forall h | h in es ::
              FilledEntries(es)[h] == if !es[h].SubBucket? then es[h]
                                      else SubBucket(es[h].cells[FeeAddressXPubIDK := Raw([0, 0, 0, 0])])
  {
    assert Uint32ToBytes(0) == [0, 0, 0, 0];
  }

  /** database/upgrade_v5.go:70-72: only sub-buckets are visited. */
  method FillXPubIDs(entries: Entries) returns (tickets: Entries)
    ensures tickets == FilledEntries(entries)
  {
    hide Uint32ToBytes;
    tickets := entries;
    var keys := tickets.Keys;
    while keys != {}
      invariant keys <= entries.Keys == tickets.Keys
      invariant forall h | h in tickets && h !in keys :: tickets[h] == FilledEntry(entries[h])
      invariant forall h | h in keys :: tickets[h] == entries[h]
      decreases |keys|
    {
      var h :| h in keys;
      keys := keys - {h};
      if tickets[h].SubBucket? {
        tickets := tickets[h := SubBucket(tickets[h].cells[FeeAddressXPubIDK := Raw(Uint32ToBytes(0))])];
      }
    }
  }

  class Database {
    var root: VspBucket

    constructor (root: VspBucket)
      ensures this.root == root
    {
      this.root := root;
    }

    /** Each upgrade works inside one transaction: it assigns to `root` only once
        everything else has succeeded. */
    method RemoveOldFeeTxUpgrade() returns (ok: bool)
      modifies this
      ensures ok == Upgraded(1, old(root)).Some?
      ensures root == if ok then Upgraded(1, old(root)).value else old(root)
      ensures ok <==> forall h | h in old(root).tickets :: old(root).tickets[h].JsonTicket?
      ensures ok ==>
                && root == old(root).(tickets := root.tickets, version := 2)
                && root.tickets.Keys == old(root).tickets.Keys
                && forall h | h in root.tickets ::
                     var doc := old(root).tickets[h].doc;
                     root.tickets[h] == JsonTicket(if doc.feeTxStatus == FeeConfirmed then doc.(feeTxHex := "")
                       else doc)
    {
      var tickets := root.tickets;
      var keys := tickets.Keys;
      while keys != {}
        invariant keys <= root.tickets.Keys == tickets.Keys
        invariant forall h | h in tickets && h !in keys ::
                    root.tickets[h].JsonTicket? && tickets[h] == BlankEntry(root.tickets[h])
        invariant forall h | h in keys :: tickets[h] == root.tickets[h]
        decreases |keys|
      {
        var h :| h in keys;
        keys := keys - {h};
        if !tickets[h].JsonTicket? {
          return false;
        }
        var ticket := tickets[h].doc;
        if ticket.feeTxStatus == FeeConfirmed {
          tickets := tickets[h := JsonTicket(ticket.(feeTxHex := ""))];
        }
      }
      assert tickets == BlankEntries(root.tickets);
      root := root.(tickets := tickets, version := 2);
      ok := true;
    }

    method TicketBucketUpgrade() returns (ok: bool)
      modifies this
      ensures ok == Upgraded(2, old(root)).Some?
      ensures root == if ok then Upgraded(2, old(root)).value else old(root)
      ensures ok <==> forall h | h in old(root).tickets :: old(root).tickets[h].JsonTicket?
      ensures ok ==>
                && root == old(root).(tickets := root.tickets, version := 3)
                && root.tickets.Keys == old(root).tickets.Keys
                && forall h | h in root.tickets ::
                     && root.tickets[h].SubBucket? && ReadBucket(root.tickets[h].cells).Some?
                     && var t, doc := ReadBucket(root.tickets[h].cells).value, old(root).tickets[h].doc;
                        && t.hash == doc.hash && t.purchaseHeight == doc.purchaseHeight
                        && t.commitmentAddress == doc.commitmentAddress && t.feeAddress == doc.feeAddress
                        && t.feeAddressIndex == doc.feeAddressIndex && t.feeAddressXPubID == 0
                        && t.feeAmount == doc.feeAmount && t.feeExpiration == doc.feeExpiration
                           && t.confirmed == doc.confirmed
                        && t.votingWIF == doc.votingWIF && t.feeTxHash == doc.feeTxHash
                        && t.feeTxStatus == doc.feeTxStatus && t.outcome == doc.outcome
                        && t.voteChoices.Entries() == doc.voteChoices.Entries()
                        && t.tSpendPolicy.Entries() == t.treasuryPolicy.Entries() == map[] && t.feeTxHex == doc.feeTxHex
    {
      hide PutTicketInBucket, ReadBucket;
      var tickets := root.tickets;
      var keys := tickets.Keys;
      while keys != {}
        invariant keys <= root.tickets.Keys == tickets.Keys
        invariant forall h | h in tickets && h !in keys ::
                    root.tickets[h].JsonTicket? && tickets[h] == BucketEntry(root.tickets[h])
        invariant forall h | h in keys :: tickets[h] == root.tickets[h]
        decreases |keys|
      {
        var h :| h in keys;
        keys := keys - {h};
        if !tickets[h].JsonTicket? {
          return false;
        }
        var ticket := tickets[h].doc;
        tickets := tickets - {h};
        tickets := tickets[h := SubBucket(PutTicketInBucket(map[], FromV1(ticket)))];
      }
      assert tickets == BucketEntries(root.tickets);
      forall h | h in tickets
        ensures tickets[h].SubBucket? && CarriesFields(root.tickets[h].doc, ReadBucket(tickets[h].cells))
      {
        FieldsCarry(root.tickets[h].doc);
      }
      root := root.(tickets := tickets, version := 3);
      ok := true;
    }

    method AltSignAddrUpgrade() returns (ok: bool)
      modifies this
      ensures ok == Upgraded(3, old(root)).Some?
      ensures root == if ok then Upgraded(3, old(root)).value else old(root)
      ensures ok <==> old(root).altSignAddrs == None
      ensures ok ==> root == old(root).(altSignAddrs := Some(map[]), version := 4)
    {
      if root.altSignAddrs.Some? {
        return false;
      }
      root := root.(altSignAddrs := Some(map[]), version := 4);
      ok := true;
    }

    method XPubBucketUpgrade() returns (ok: bool)
      modifies this
      ensures ok == Upgraded(4, old(root)).Some?
      ensures root == if ok then Upgraded(4, old(root)).value else old(root)
      ensures ok ==>
                && old(root).feeXPub.Some?
                && (old(root).lastAddressIndex.Some? ==> |old(root).lastAddressIndex.value| >= 4)
                && root == old(root).(feeXPub := None, lastAddressIndex := None, version := 5,
                                      xpubs := root.xpubs, tickets := root.tickets)
                && root.xpubs.Some? && 0 in root.xpubs.value
                && root.xpubs.value[0]
                   == FeeXPub(0, old(root).feeXPub.value,
                              if old(root).lastAddressIndex.None? then 0
                              else BytesToUint32(old(root).lastAddressIndex.value), 0)
                && root.tickets.Keys == old(root).tickets.Keys
                && forall h | h in root.tickets ::
                     root.tickets[h] == if !old(root).tickets[h].SubBucket? then old(root).tickets[h]
                                        else SubBucket(old(root).tickets[h].cells[FeeAddressXPubIDK := Raw([0, 0, 0,
                                                                                                            0])])
    {
      hide BytesToUint32, FilledEntries;
      if root.feeXPub.None? {
        return false;
      }
      var feeXPub := root.feeXPub.value;
      var idx: uint32 := 0;
      if root.lastAddressIndex.Some? {
        if |root.lastAddressIndex.value| < 4 {
          return false;
        }
        idx := BytesToUint32(root.lastAddressIndex.value);
      }
      var xpubs: XPubs := if root.xpubs.Some? then root.xpubs.value else map[];
      xpubs := xpubs[0 := FeeXPub(0, feeXPub, idx, 0)];
      var tickets := FillXPubIDs(root.tickets);
      FilledWithZero(root.tickets);
      root := root.(feeXPub := None, lastAddressIndex := None, xpubs := Some(xpubs), tickets := tickets, version := 5);
      ok := true;
    }

    /** database/upgrades.go:75. `killedBefore` is the upgrade before which the
        process dies, if it does; `reached` is the version the database is left at.
        The table has no upgrade from version 0, whose call panics. */
    method Upgrade(currentVersion: uint32, killedBefore: Option<nat>) returns (ok: bool, ghost reached: nat)
      modifies this
      ensures UpgradedTo(old(root), currentVersion, reached) == Some(root)
      ensures currentVersion > LATEST_VERSION ==> !ok && root == old(root)
      ensures currentVersion <= LATEST_VERSION ==> currentVersion <= reached <= LATEST_VERSION
      ensures currentVersion <= LATEST_VERSION ==> (ok <==> reached == LATEST_VERSION)
      ensures currentVersion <= LATEST_VERSION && !ok
              ==> killedBefore == Some(reached) || Upgraded(reached, root) == None
    {
      hide Upgraded;
      reached := currentVersion;
      if currentVersion == LATEST_VERSION {
        return true, reached;
      }
      if currentVersion > LATEST_VERSION {
        return false, reached;
      }
      var i: nat := currentVersion;
      while i < 5
        invariant currentVersion <= i <= 5 && reached == i
        invariant UpgradedTo(old(root), currentVersion, i) == Some(root)
      {
        if killedBefore == Some(i) {
          return false, reached;
        }
        UpgradeOneMore(old(root), currentVersion, i, root);
        NoUpgradeFromZero(root);
        match i {
          case 1 => ok := RemoveOldFeeTxUpgrade();
          case 2 => ok := TicketBucketUpgrade();
          case 3 => ok := AltSignAddrUpgrade();
          case 4 => ok := XPubBucketUpgrade();
          case _ => ok := false;
        }
        if !ok {
          return false, reached;
        }
        i := i + 1;
        reached := i;
      }
      ok := true;
    }
  }

  lemma NoUpgradeFromZero(b: VspBucket)
    ensures Upgraded(0, b) == None
  {
  }

  lemma {:induction false} UpgradeOneMore(b: VspBucket, from: nat, i: nat, r: VspBucket)
    requires from <= i && UpgradedTo(b, from, i) == Some(r)
    ensures UpgradedTo(b, from, i + 1) == Upgraded(i, r)
    decreases i - from
  {
    hide Upgraded;
    if from < i {
      UpgradeOneMore(Upgraded(from, b).value, from + 1, i, r);
    }
  }

  // --------------------------------------------------------- what is preserved

  /** The ticket an entry stands for, with the xpub ID every ticket had before
      there was more than one. */
  ghost function Reads(e: Entry): Option<Ticket>
  {
    match e
    case JsonTicket(doc) => Some(Normalise(FromV1(doc)))
    case BadJson => None
    case SubBucket(cells) => ReadBucket(cells[FeeAddressXPubIDK := Raw(Uint32ToBytes(0))])
  }

  ghost function Meaning(es: Entries): Db
  {
    map h | h in es && Reads(es[h]).Some? :: Reads(es[h]).value
  }

  function BlankRecord(t: Ticket): Ticket
  {
    if t.feeTxStatus == FeeConfirmed then t.(feeTxHex := "") else t
  }

  ghost function BlankAll(db: Db): Db
  {
    map h | h in db :: BlankRecord(db[h])
  }

  /** A database of version v: all JSON before version 3, all readable buckets
      after, keys where that version keeps them. */
  ghost predicate WellFormed(b: VspBucket)
  {
    && 1 <= b.version <= 4
    && b.feeXPub.Some? && b.xpubs.None?
    && (b.lastAddressIndex.Some? ==> |b.lastAddressIndex.value| == 4)
    && (b.altSignAddrs.Some? <==> b.version == 4)
    && forall h | h in b.tickets ::
         && (if b.version < 3 then b.tickets[h].JsonTicket? else b.tickets[h].SubBucket?)
         && Reads(b.tickets[h]).Some?
  }

  /** A database of the latest version whose tickets all read back with xpub ID 0. */
  ghost predicate Latest(b: VspBucket, meaning: Db, key: string, idx: uint32)
  {
    && b.version == LATEST_VERSION && b.feeXPub.None? && b.lastAddressIndex.None? && b.altSignAddrs.Some?
    && b.xpubs == Some(map[0 := FeeXPub(0, key, idx, 0)])
    && b.tickets.Keys == meaning.Keys
    && forall h | h in b.tickets :: b.tickets[h].SubBucket? && ReadBucket(b.tickets[h].cells) == Some(meaning[h])
                                    && meaning[h].feeAddressXPubID == 0
  }

  lemma BlankReads(doc: V1Ticket)
    ensures BlankEntry(JsonTicket(doc)).JsonTicket?
    ensures Reads(BlankEntry(JsonTicket(doc))) == Some(BlankRecord(Reads(JsonTicket(doc)).value))
  {
  }

  lemma BucketReads(doc: V1Ticket)
    ensures BucketEntry(JsonTicket(doc)).SubBucket?
    ensures Reads(BucketEntry(JsonTicket(doc))) == Reads(JsonTicket(doc))
  {
    var t := FromV1(doc);
    var cells := PutTicketInBucket(map[], t);
    RecordRoundTrip(map[], t);
    PutThenGet(map[], t, FeeAddressXPubIDK);
    assert cells[FeeAddressXPubIDK := Raw(Uint32ToBytes(0))] == cells by {
      hide PutTicketInBucket, Uint32ToBytes;
    }
    hide ReadBucket, PutTicketInBucket, Uint32ToBytes, Normalise;
  }

  lemma ReadsHaveXPubZero(e: Entry)
    requires Reads(e).Some?
    ensures Reads(e).value.feeAddressXPubID == 0
  {
    Uint32RoundTrip(0, Uint32ToBytes(0));
    hide Uint32ToBytes, BytesToUint32;
  }

  ghost function ExpectedMeaning(b: VspBucket): Db
  {
    if b.version == 1 then BlankAll(Meaning(b.tickets)) else Meaning(b.tickets)
  }

  /** One upgrade before the last: the next version's format, the same keys and
      the same tickets, except that the first one blanks confirmed fees. */
  ghost predicate Carries(b: VspBucket, r: VspBucket)
  {
    && WellFormed(r) && r.version == b.version + 1
    && r.feeXPub == b.feeXPub && r.lastAddressIndex == b.lastAddressIndex
    && Meaning(r.tickets) == ExpectedMeaning(b)
  }

  lemma BlankCarries(b: VspBucket)
    requires WellFormed(b) && b.version == 1
    ensures Upgraded(1, b).Some? && Carries(b, Upgraded(1, b).value)
  {
    hide Reads, BlankRecord, BlankEntry;
    var r := Upgraded(1, b).value;
    forall h | h in b.tickets
      ensures BlankEntry(b.tickets[h]).JsonTicket?
              && Reads(r.tickets[h]) == Some(BlankRecord(Reads(b.tickets[h]).value))
    {
      BlankReads(b.tickets[h].doc);
    }
  }

  lemma BucketsCarry(b: VspBucket)
    requires WellFormed(b) && b.version == 2
    ensures Upgraded(2, b).Some? && Carries(b, Upgraded(2, b).value)
  {
    hide Reads, BucketEntry;
    var r := Upgraded(2, b).value;
    forall h | h in b.tickets
      ensures r.tickets[h].SubBucket? && Reads(r.tickets[h]) == Reads(b.tickets[h])
    {
      BucketReads(b.tickets[h].doc);
    }
  }

  lemma AltSignCarries(b: VspBucket)
    requires WellFormed(b) && b.version == 3
    ensures Upgraded(3, b).Some? && Carries(b, Upgraded(3, b).value)
  {
    hide Reads;
  }

  lemma FilledReads(e: Entry)
    requires e.SubBucket?
    ensures FilledEntry(e).SubBucket? && ReadBucket(FilledEntry(e).cells) == Reads(e)
  {
    hide ReadBucket, Uint32ToBytes;
  }

  lemma XPubsCarry(b: VspBucket)
    requires WellFormed(b) && b.version == 4
    ensures Upgraded(4, b).Some?
    ensures Latest(Upgraded(4, b).value, Meaning(b.tickets), b.feeXPub.value, LastIndex(b))
  {
    hide Reads, ReadBucket, FilledEntry, LastIndex;
    var r := Upgraded(4, b).value;
    forall h | h in b.tickets
      ensures && FilledEntry(b.tickets[h]).SubBucket? && ReadBucket(r.tickets[h].cells) == Reads(b.tickets[h])
              && Reads(b.tickets[h]).value.feeAddressXPubID == 0
    {
      FilledReads(b.tickets[h]);
      ReadsHaveXPubZero(b.tickets[h]);
    }
  }

  /** Migration preserves meaning: from a well-formed database of any version 1 to
      4 the upgrade succeeds; the same hashes are there, every ticket reads back
      as it was with xpub ID 0, upgrades from version 1 blank the raw transaction
      of confirmed fees and nothing else, and xpub 0 carries the old key and the
      old index, or 0. */
  lemma {:induction false} UpgradePreservesMeaning(b: VspBucket)
    requires WellFormed(b)
    ensures UpgradedTo(b, b.version, LATEST_VERSION).Some?
    ensures Latest(UpgradedTo(b, b.version, LATEST_VERSION).value, ExpectedMeaning(b), b.feeXPub.value, LastIndex(b))
    decreases 5 - b.version
  {
    hide WellFormed, Upgraded, Meaning, BlankAll, Latest;
    WellFormedVersions(b);
    if b.version == 4 {
      XPubsCarry(b);
      assert UpgradedTo(Upgraded(4, b).value, 5, 5) == Upgraded(4, b);
    } else {
      if b.version == 1 {
        BlankCarries(b);
      } else if b.version == 2 {
        BucketsCarry(b);
      } else {
        AltSignCarries(b);
      }
      UpgradePreservesMeaning(Upgraded(b.version, b).value);
    }
  }

  /** Field by field, for databases of versions 1 and 2: each ticket of the upgraded
      database reads back with every field of the old document under its name, no
      policies and xpub ID 0, and without the raw transaction only if it came from
      version 1 with a confirmed fee. */
  lemma EveryFieldSurvives(b: VspBucket, h: string)
    requires WellFormed(b) && b.version < 3 && h in b.tickets
    ensures UpgradedTo(b, b.version, 5).Some?
    ensures var u := UpgradedTo(b, b.version, 5).value;
            && b.tickets[h].JsonTicket? && h in u.tickets && u.tickets[h].SubBucket?
            && ReadBucket(u.tickets[h].cells).Some?
            && var t, doc := ReadBucket(u.tickets[h].cells).value, b.tickets[h].doc;
               && t.hash == doc.hash && t.purchaseHeight == doc.purchaseHeight
               && t.commitmentAddress == doc.commitmentAddress && t.feeAddress == doc.feeAddress
               && t.feeAddressIndex == doc.feeAddressIndex && t.feeAddressXPubID == 0
               && t.feeAmount == doc.feeAmount && t.feeExpiration == doc.feeExpiration && t.confirmed == doc.confirmed
               && t.votingWIF == doc.votingWIF && t.feeTxHash == doc.feeTxHash
               && t.feeTxStatus == doc.feeTxStatus && t.outcome == doc.outcome
               && t.voteChoices.Entries() == doc.voteChoices.Entries()
               && t.tSpendPolicy.Entries() == t.treasuryPolicy.Entries() == map[]
               && t.feeTxHex == if b.version == 1 && doc.feeTxStatus == FeeConfirmed then "" else doc.feeTxHex
  {
    OldMeaning(b, h);
    var doc := b.tickets[h].doc;
    hide WellFormed, UpgradedTo, ReadBucket, FromV1, Normalise, BlankRecord, OldReads;
    OldReadsFields(doc, b.version == 1);
  }

  ghost function OldReads(doc: V1Ticket, blank: bool): Ticket
  {
    if blank then BlankRecord(Normalise(FromV1(doc))) else Normalise(FromV1(doc))
  }

  lemma OldReadsFields(doc: V1Ticket, blank: bool)
    ensures var t := OldReads(doc, blank);
            && CarriesFields(doc, Some(t.(feeTxHex := doc.feeTxHex)))
            && t.feeTxHex == if blank && doc.feeTxStatus == FeeConfirmed then "" else doc.feeTxHex
  {
  }

  lemma OldMeaning(b: VspBucket, h: string)
    requires WellFormed(b) && b.version < 3 && h in b.tickets
    ensures UpgradedTo(b, b.version, 5).Some? && b.tickets[h].JsonTicket?
    ensures var u := UpgradedTo(b, b.version, 5).value;
            && h in u.tickets && u.tickets[h].SubBucket?
            && ReadBucket(u.tickets[h].cells) == Some(OldReads(b.tickets[h].doc, b.version == 1))
  {
    UpgradePreservesMeaning(b);
    var u := UpgradedTo(b, b.version, 5).value;
    hide UpgradedTo, ReadBucket, FromV1, Normalise, BlankRecord, LastIndex;
    assert h in Meaning(b.tickets) && Meaning(b.tickets)[h] == Normalise(FromV1(b.tickets[h].doc));
    assert h in u.tickets && ReadBucket(u.tickets[h].cells) == Some(ExpectedMeaning(b)[h]);
  }

  /** Key, index and hashes, from any version: xpub 0 has the old key, and the old
      index or 0; no ticket comes or goes. */
  lemma KeyAndHashesSurvive(b: VspBucket)
    requires WellFormed(b)
    ensures UpgradedTo(b, b.version, 5).Some?
    ensures var u := UpgradedTo(b, b.version, 5).value;
            && u.version == 5 && u.feeXPub.None? && u.lastAddressIndex.None? && u.altSignAddrs.Some?
            && u.tickets.Keys == b.tickets.Keys
            && u.xpubs == Some(map[0 := FeeXPub(0, b.feeXPub.value,
                                                if b.lastAddressIndex.None? then 0
                                                else BytesToUint32(b.lastAddressIndex.value), 0)])
  {
    UpgradePreservesMeaning(b);
    hide UpgradedTo, Reads, ReadBucket, BytesToUint32;
    assert ExpectedMeaning(b).Keys == b.tickets.Keys;
  }

  /** From version 3 on tickets already are buckets: only the cell with the xpub ID is
      written, and of version 4 the alternate signing addresses stay. */
  lemma BucketsSurvive(b: VspBucket)
    requires WellFormed(b) && b.version >= 3
    ensures UpgradedTo(b, b.version, 5).Some?
    ensures var u := UpgradedTo(b, b.version, 5).value;
            && u.tickets.Keys == b.tickets.Keys
            && u.altSignAddrs == (if b.version == 3 then Some(map[]) else b.altSignAddrs)
            && forall h | h in b.tickets ::
                 && b.tickets[h].SubBucket?
                 && u.tickets[h] == SubBucket(b.tickets[h].cells[FeeAddressXPubIDK := Raw([0, 0, 0, 0])])
  {
    hide Reads;
    FilledWithZero(b.tickets);
    if b.version == 3 {
      var c := Upgraded(3, b).value;
      assert UpgradedTo(b, 3, 5) == UpgradedTo(c, 4, 5);
      assert UpgradedTo(Upgraded(4, c).value, 5, 5) == Upgraded(4, c);
    } else {
      assert UpgradedTo(Upgraded(4, b).value, 5, 5) == Upgraded(4, b);
    }
  }

  lemma WellFormedVersions(b: VspBucket)
    requires WellFormed(b)
    ensures 1 <= b.version <= 4 && b.feeXPub.Some? && (b.lastAddressIndex.Some? ==> |b.lastAddressIndex.value| == 4)
  {
  }

  /** Each attempt opens the database, reads its version and upgrades until it is
      killed before some upgrade. */
  ghost function Attempt(b: VspBucket, killedBefore: nat): Option<VspBucket>
  {
    var stop := if killedBefore < b.version then 5 else if killedBefore < 5 then killedBefore else 5;
    UpgradedTo(b, b.version, stop)
  }

  ghost function Attempts(b: VspBucket, kills: seq<nat>): Option<VspBucket>
    decreases kills
  {
    if kills == [] then UpgradedTo(b, b.version, 5)
    else if Attempt(b, kills[0]) == None then None
    else Attempts(Attempt(b, kills[0]).value, kills[1..])
  }

  lemma {:induction false} UpgradeInTwo(b: VspBucket, from: nat, mid: nat, to: nat)
    requires from <= mid <= to && UpgradedTo(b, from, to).Some?
    ensures UpgradedTo(b, from, mid).Some?
    ensures UpgradedTo(UpgradedTo(b, from, mid).value, mid, to) == UpgradedTo(b, from, to)
    decreases mid - from
  {
    hide Upgraded;
    if from < mid {
      UpgradeInTwo(Upgraded(from, b).value, from + 1, mid, to);
    }
  }

  lemma UpgradeRaisesVersion(i: nat, b: VspBucket)
    requires Upgraded(i, b).Some?
    ensures Upgraded(i, b).value.version == i + 1
  {
  }

  lemma {:induction false} UpgradeSetsVersion(b: VspBucket, to: nat)
    requires b.version <= to && UpgradedTo(b, b.version, to).Some?
    ensures UpgradedTo(b, b.version, to).value.version == to
    decreases (to as int) - (b.version as int)
  {
    hide Upgraded;
    if b.version < to {
      UpgradeRaisesVersion(b.version, b);
      UpgradeSetsVersion(Upgraded(b.version, b).value, to);
    }
  }

  /** Restartable: however often the process is killed between upgrades, the
      attempts end where one undisturbed upgrade ends. */
  lemma {:induction false} KillsDoNotMatter(b: VspBucket, kills: seq<nat>)
    requires b.version <= 5 && UpgradedTo(b, b.version, 5).Some?
    ensures Attempts(b, kills) == UpgradedTo(b, b.version, 5)
    decreases kills
  {
    hide Upgraded;
    if kills != [] {
      var stop := if kills[0] < b.version then 5 else if kills[0] < 5 then kills[0] else 5;
      UpgradeInTwo(b, b.version, stop, 5);
      UpgradeSetsVersion(b, stop);
      KillsDoNotMatter(Attempt(b, kills[0]).value, kills[1..]);
    }
  }
}
