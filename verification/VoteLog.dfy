/** The bounded vote-change log of database/votechange.go and the replay check
    that setVoteChoices builds on it. */
module VoteLog {
  import opened Encoding
  import opened Tickets

  datatype VoteChangeRecord = VoteChangeRecord(
    request: string, requestSignature: string, response: string, responseSignature: string)

  type Bucket = map<seq<byte>, VoteChangeRecord>

  const KEYS: int := 0x1_0000_0000

  /** At least one record is always kept: with a limit of zero the oldest record
      is still deleted before the new one is put. */
  function Kept(limit: nat): nat
  {
    if limit == 0 then 1 else limit
  }

  /** The first save whose record is still there after n saves. */
  function OldestKept(n: nat, limit: nat): nat
  {
    if n <= Kept(limit) then 0 else n - Kept(limit)
  }

  /** The bucket maps exactly the keys of the newest saves to their records. */
  ghost predicate IsWindow(b: Bucket, history: seq<VoteChangeRecord>, limit: nat)
    requires |history| <= KEYS
  {
    && b.Keys == KeySet(OldestKept(|history|, limit), |history|)
    && forall i | OldestKept(|history|, limit) <= i < |history| ::
         Uint32ToBytes(i) in b && b[Uint32ToBytes(i)] == history[i]
  }

  ghost function KeySet(lo: nat, hi: nat): set<seq<byte>>
    requires hi <= KEYS
  {
    set i | lo <= i < hi :: Uint32ToBytes(i)
  }

  lemma KeysAreInjective(i: uint32, j: uint32)
    ensures Uint32ToBytes(i) == Uint32ToBytes(j) <==> i == j
  {
    hide Uint32ToBytes, BytesToUint32;
    Uint32RoundTrip(i, Uint32ToBytes(i));
    Uint32RoundTrip(j, Uint32ToBytes(j));
  }

  lemma KeySetMember(lo: nat, hi: nat, i: uint32)
    requires hi <= KEYS
    ensures Uint32ToBytes(i) in KeySet(lo, hi) <==> lo <= i < hi
  {
    hide Uint32ToBytes, BytesToUint32;
    if Uint32ToBytes(i) in KeySet(lo, hi) {
      var j :| lo <= j < hi && Uint32ToBytes(j) == Uint32ToBytes(i);
      KeysAreInjective(i, j);
    }
  }

  lemma {:induction false} KeySetSize(lo: nat, hi: nat)
    requires lo <= hi <= KEYS
    ensures |KeySet(lo, hi)| == hi - lo
    decreases hi - lo
  {
    hide Uint32ToBytes, BytesToUint32;
    if lo < hi {
      KeySetSize(lo, hi - 1);
      KeySetMember(lo, hi - 1, hi - 1);
      assert KeySet(lo, hi) == KeySet(lo, hi - 1) + {Uint32ToBytes(hi - 1)};
    } else {
      assert KeySet(lo, hi) == {};
    }
  }

  class VoteChangeLog {
    var buckets: map<string, Bucket>
    const maxVoteChangeRecords: nat
    /** Every record ever saved for a ticket, oldest first. */
    ghost var history: map<string, seq<VoteChangeRecord>>

    constructor (limit: nat)
      ensures Valid() && maxVoteChangeRecords == limit && history == map[]
    {
      buckets, history := map[], map[];
      maxVoteChangeRecords := limit;
    }

    ghost function Saved(hash: string): seq<VoteChangeRecord>
      reads this
    {
      if hash in history then history[hash] else []
    }

    /** As long as the serial keys have not run out, each bucket is the window of
        the newest records. */
    ghost predicate Valid()
      reads this
    {
      && buckets.Keys == history.Keys
      && (forall h, k | h in buckets && k in buckets[h] :: |k| == 4)
      && forall h | h in history :: |history[h]| <= KEYS ==> IsWindow(buckets[h], history[h], maxVoteChangeRecords)
    }

    /** database/votechange.go:41-57. The bucket hands out its keys in the order of
        their bytes, which is not the order of the numbers they encode; any order
        gives the same count and extremes. */
    method Survey(bkt: Bucket) returns (count: nat, newest: uint32, oldest: uint32)
      requires forall k | k in bkt :: |k| == 4
      ensures count == |bkt|
      ensures forall k | k in bkt :: oldest <= BytesToUint32(k) <= newest
      ensures bkt != map[] ==> (exists k | k in bkt :: BytesToUint32(k) == newest)
                               && exists k | k in bkt :: BytesToUint32(k) == oldest
    {
      hide Uint32ToBytes, BytesToUint32;
      count, newest, oldest := 0, 0, 0xFFFF_FFFF;
      var keys := bkt.Keys;
      ghost var last, first := [], [];
      while keys != {}
        invariant keys <= bkt.Keys && count + |keys| == |bkt.Keys|
        invariant forall k | k in bkt && k !in keys :: oldest <= BytesToUint32(k) <= newest
        invariant count == 0 ==> newest == 0 && oldest == 0xFFFF_FFFF
        invariant count > 0 ==> last in bkt && BytesToUint32(last) == newest
        invariant count > 0 ==> first in bkt && BytesToUint32(first) == oldest
        decreases |keys|
      {
        var k :| k in keys;
        keys := keys - {k};
        var key := BytesToUint32(k);
        if key > newest || count == 0 {
          last := k;
        }
        if key < oldest || count == 0 {
          first := k;
        }
        count := count + 1;
        if key > newest {
          newest := key;
        }
        if key < oldest {
          oldest := key;
        }
      }
    }

    /** database/votechange.go:39-85, within the bucket of one ticket. */
    method SaveInBucket(bkt: Bucket, ghost saved: seq<VoteChangeRecord>, record: VoteChangeRecord)
      returns (after: Bucket)
      requires forall k | k in bkt :: |k| == 4
      ensures forall k | k in after :: |k| == 4
      ensures |saved| < KEYS && IsWindow(bkt, saved, maxVoteChangeRecords) ==>
                IsWindow(after, saved + [record], maxVoteChangeRecords)
      ensures |saved| < KEYS && IsWindow(bkt, saved, maxVoteChangeRecords) ==>
                var all, kept := saved + [record], if maxVoteChangeRecords == 0 then 1 else maxVoteChangeRecords;
                && |after| == (if |all| <= kept then |all| else kept)
                && forall i | 0 <= i < |all| && |all| <= i + kept ::
                     Uint32ToBytes(i) in after && after[Uint32ToBytes(i)] == all[i]
    {
      hide Uint32ToBytes, BytesToUint32, IsWindow, KeySet;
      ghost var counted := |saved| < KEYS && IsWindow(bkt, saved, maxVoteChangeRecords);
      if counted {
        WindowFacts(bkt, saved, maxVoteChangeRecords);
      }
      var count, newest, oldest := Survey(bkt);
      if counted {
        WindowExtremes(bkt, saved, maxVoteChangeRecords, newest, oldest);
      }
      after := bkt;
      if count >= maxVoteChangeRecords {
        after := after - {Uint32ToBytes(oldest)};
      }
      var newKey := 0;
      if count > 0 {
        newKey := (newest + 1) % KEYS;
      }
      after := after[Uint32ToBytes(newKey) := record];
      if counted {
        WindowMoves(bkt, after, saved, record, maxVoteChangeRecords, oldest);
        WindowHas(after, saved + [record], maxVoteChangeRecords);
      }
    }

    method SaveVoteChange(hash: string, record: VoteChangeRecord)
      requires Valid()
      modifies this
      ensures Valid()
      ensures history == old(history)[hash := old(Saved(hash)) + [record]]
      ensures hash in buckets && buckets == old(buckets)[hash := buckets[hash]]
    {
      hide IsWindow, Uint32ToBytes, OldestKept, KeySet;
      EmptyWindow(maxVoteChangeRecords);
      var after := SaveInBucket(if hash in buckets then buckets[hash] else map[], Saved(hash), record);
      history := history[hash := Saved(hash) + [record]];
      buckets := buckets[hash := after];
    }

    method GetVoteChanges(hash: string) returns (records: map<uint32, VoteChangeRecord>)
      requires Valid() && |Saved(hash)| <= KEYS
      ensures forall i: uint32 :: i in records <==> OldestKept(|Saved(hash)|, maxVoteChangeRecords) <= i < |Saved(hash)|
      ensures forall i | i in records :: records[i] == Saved(hash)[i]
      ensures var n, kept := |Saved(hash)|, if maxVoteChangeRecords == 0 then 1 else maxVoteChangeRecords;
              forall i: uint32 :: i in records <==> i < n <= i + kept
    {
      hide Uint32ToBytes, BytesToUint32, IsWindow, OldestKept, Decoded;
      records := map[];
      NothingDecoded(if hash in buckets then buckets[hash] else map[]);
      if hash !in buckets {
        KeptMeans(0, maxVoteChangeRecords, map[]);
        return;
      }
      var bkt := buckets[hash];
      WindowFacts(bkt, Saved(hash), maxVoteChangeRecords);
      var keys := bkt.Keys;
      assert bkt.Keys - keys == {};
      while keys != {}
        invariant keys <= bkt.Keys
        invariant Decoded(bkt, bkt.Keys - keys, records)
        decreases |keys|
      {
        var k :| k in keys;
        DecodeOne(bkt, bkt.Keys - keys, records, k);
        assert bkt.Keys - (keys - {k}) == (bkt.Keys - keys) + {k};
        keys := keys - {k};
        records := records[BytesToUint32(k) := bkt[k]];
      }
      assert bkt.Keys - keys == bkt.Keys;
      ReadBack(bkt, Saved(hash), maxVoteChangeRecords, records);
      KeptMeans(|Saved(hash)|, maxVoteChangeRecords, records);
    }
  }

  /** `records` holds the records of the keys in `done`, under the numbers they
      encode. */
  ghost predicate Decoded(b: Bucket, done: set<seq<byte>>, records: map<uint32, VoteChangeRecord>)
  {
    forall i: uint32 ::
      if Uint32ToBytes(i) in done && Uint32ToBytes(i) in b then i in records && records[i] == b[Uint32ToBytes(i)]
      else i !in records
  }

  lemma NothingDecoded(b: Bucket)
    ensures Decoded(b, {}, map[])
  {
  }

  lemma DecodeOne(b: Bucket, done: set<seq<byte>>, records: map<uint32, VoteChangeRecord>, k: seq<byte>)
    requires Decoded(b, done, records) && k in b && |k| == 4
    ensures Decoded(b, done + {k}, records[BytesToUint32(k) := b[k]])
  {
    hide Uint32ToBytes, BytesToUint32;
    Uint32RoundTrip(BytesToUint32(k), k);
    forall i: uint32 ensures Uint32ToBytes(i) == k <==> i == BytesToUint32(k) {
      KeysAreInjective(i, BytesToUint32(k));
    }
  }

  /** The last records saved: as many as the limit, and one if the limit is zero. */
  lemma KeptMeans(n: nat, limit: nat, records: map<uint32, VoteChangeRecord>)
    requires forall i: uint32 :: i in records <==> OldestKept(n, limit) <= i < n
    ensures forall i: uint32 :: i in records <==> i < n <= i + (if limit == 0 then 1 else limit)
  {
  }

  lemma WindowHas(b: Bucket, history: seq<VoteChangeRecord>, limit: nat)
    requires |history| <= KEYS && IsWindow(b, history, limit)
    ensures var kept := if limit == 0 then 1 else limit;
            |b| == if |history| <= kept then |history| else kept
    ensures forall i | 0 <= i < |history| && |history| <= i + (if limit == 0 then 1 else limit) ::
              Uint32ToBytes(i) in b && b[Uint32ToBytes(i)] == history[i]
  {
    WindowFacts(b, history, limit);
    hide Uint32ToBytes, KeySet;
  }

  lemma EmptyWindow(limit: nat)
    ensures IsWindow(map[], [], limit)
  {
    assert KeySet(0, 0) == {};
  }

  lemma WindowFacts(b: Bucket, history: seq<VoteChangeRecord>, limit: nat)
    requires |history| <= KEYS && IsWindow(b, history, limit)
    ensures forall k | k in b :: |k| == 4
    ensures |b| == |history| - OldestKept(|history|, limit)
  {
    hide Uint32ToBytes, BytesToUint32;
    var lo := OldestKept(|history|, limit);
    KeySetSize(lo, |history|);
    assert |b| == |b.Keys|;
  }

  lemma WindowExtremes(b: Bucket, history: seq<VoteChangeRecord>, limit: nat, newest: uint32, oldest: uint32)
    requires |history| <= KEYS && IsWindow(b, history, limit)
    requires forall k | k in b :: |k| == 4 && oldest <= BytesToUint32(k) <= newest
    requires b != map[] ==>
               (exists k | k in b :: BytesToUint32(k) == newest) && exists k | k in b :: BytesToUint32(k) == oldest
    ensures history != [] ==> newest == |history| - 1 && oldest == OldestKept(|history|, limit)
  {
    hide Uint32ToBytes, BytesToUint32;
    if history == [] {
      return;
    }
    var lo, n := OldestKept(|history|, limit), |history|;
    forall k | k in b ensures lo <= BytesToUint32(k) < n {
      var i :| lo <= i < n && k == Uint32ToBytes(i);
      Uint32RoundTrip(i, k);
    }
    Uint32RoundTrip(lo, Uint32ToBytes(lo));
    Uint32RoundTrip(n - 1, Uint32ToBytes(n - 1));
    assert Uint32ToBytes(lo) in b && Uint32ToBytes(n - 1) in b;
  }

  /** Deleting the oldest key when the window is full and putting the next serial
      key moves the window on by one. */
  lemma WindowMoves(before: Bucket, after: Bucket, history: seq<VoteChangeRecord>, record: VoteChangeRecord,
                    limit: nat, oldest: uint32)
    requires |history| < KEYS && IsWindow(before, history, limit)
    requires var n := |history|;
             var kept := if n - OldestKept(n, limit) >= limit then before - {Uint32ToBytes(oldest)} else before;
             after == kept[Uint32ToBytes(n) := record]
    requires history != [] ==> oldest == OldestKept(|history|, limit)
    ensures IsWindow(after, history + [record], limit)
  {
    hide Uint32ToBytes, BytesToUint32, KeySet;
    var n, lo := |history|, OldestKept(|history|, limit);
    var lo' := OldestKept(n + 1, limit);
    KeySetGrows(lo, n);
    if n - lo >= limit && n > 0 {
      assert lo' == lo + 1;
      KeySetDrops(lo, n + 1);
    } else if n - lo >= limit {
      EmptyWindow(limit);
      assert before == map[];
    }
    forall i | lo' <= i < n + 1
      ensures Uint32ToBytes(i) in after && after[Uint32ToBytes(i)] == (history + [record])[i]
    {
      KeysAreInjective(i, n);
      KeysAreInjective(i, oldest);
    }
    assert after.Keys == KeySet(lo', n + 1);
  }

  lemma KeySetGrows(lo: nat, hi: nat)
    requires lo <= hi < KEYS
    ensures KeySet(lo, hi + 1) == KeySet(lo, hi) + {Uint32ToBytes(hi)}
  {
    hide Uint32ToBytes;
  }

  lemma KeySetDrops(lo: nat, hi: nat)
    requires lo + 1 < hi <= KEYS
    ensures KeySet(lo + 1, hi) == KeySet(lo, hi) - {Uint32ToBytes(lo)}
    ensures Uint32ToBytes(lo) != Uint32ToBytes(hi - 1)
  {
    hide Uint32ToBytes, BytesToUint32;
    KeySetMember(lo + 1, hi, lo);
    KeysAreInjective(lo, hi - 1);
    assert KeySet(lo, hi) == KeySet(lo + 1, hi) + {Uint32ToBytes(lo)};
  }

  lemma ReadBack(b: Bucket, history: seq<VoteChangeRecord>, limit: nat, records: map<uint32, VoteChangeRecord>)
    requires |history| <= KEYS && IsWindow(b, history, limit) && Decoded(b, b.Keys, records)
    ensures forall i: uint32 :: i in records <==> OldestKept(|history|, limit) <= i < |history|
    ensures forall i | i in records :: records[i] == history[i]
  {
    hide Uint32ToBytes, BytesToUint32;
    forall i: uint32 ensures i in records <==> OldestKept(|history|, limit) <= i < |history| {
      KeySetMember(OldestKept(|history|, limit), |history|, i);
    }
  }
}
