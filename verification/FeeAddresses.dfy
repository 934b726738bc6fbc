/** Fee address allocation: the xpub history of database/feexpub.go, the counter of
    internal/webapi/addressgenerator.go, and the two of them together over
    crashes, restarts and retirements. */
module FeeAddresses {
  import opened Encoding
  import opened Tickets

  /** Zero in `retired` marks the key in use. */
  datatype FeeXPub = FeeXPub(id: uint32, key: string, lastUsedIdx: uint32, retired: int64)

  type XPubs = map<uint32, FeeXPub>

  const MAX_IDS: int := 0x1_0000_0000

  /** IDs are exactly 0..n, keys are pairwise distinct, and only ID n is in use. */
  ghost predicate History(xs: XPubs)
  {
    && 0 < |xs| <= MAX_IDS
    && (forall i: uint32 :: i in xs <==> i < |xs|)
    && (forall i | i in xs :: xs[i].id == i && (xs[i].retired == 0 <==> i == |xs| - 1))
    && (forall i, j | i in xs && j in xs && i != j :: xs[i].key != xs[j].key)
  }

  ghost function Active(xs: XPubs): FeeXPub
    requires History(xs)
  {
    xs[|xs| - 1]
  }

  class XPubStore {
    var xpubs: XPubs
    /** Whether bolt currently refuses writes. */
    var broken: bool

    /** The xpub part of CreateNew. */
    constructor (key: string)
      ensures Valid() && xpubs == map[0 := FeeXPub(0, key, 0, 0)] && !broken
    {
      xpubs := map[0 := FeeXPub(0, key, 0, 0)];
      broken := false;
    }

    ghost predicate Valid()
      reads this
    {
      History(xpubs)
    }

    /** The key with the highest ID, in whatever order the map is visited. */
    method ActiveXPub() returns (r: FeeXPub)
      requires Valid()
      ensures r == Active(xpubs)
      ensures r.id in xpubs && xpubs[r.id] == r && r.retired == 0 && forall i | i in xpubs :: i <= r.id
    {
      var highest: uint32 := 0;
      var ids := xpubs.Keys;
      while ids != {}
        invariant ids <= xpubs.Keys && highest in xpubs
        invariant forall i | i in xpubs && i !in ids :: i <= highest
        decreases |ids|
      {
        var id :| id in ids;
        ids := ids - {id};
        if id > highest {
          highest := id;
        }
      }
      assert |xpubs| - 1 in xpubs;
      r := xpubs[highest];
    }

    method RetireXPub(key: string, now: int64) returns (ok: bool)
      requires Valid() && now != 0 && |xpubs| < MAX_IDS
      modifies this`xpubs
      ensures Valid()
      ensures ok <==> !broken && forall i | i in old(xpubs) :: old(xpubs)[i].key != key
      ensures !ok ==> xpubs == old(xpubs)
      ensures ok ==> xpubs == AfterRetire(old(xpubs), key, now)
      ensures ok ==>
                var n: uint32 := |old(xpubs)|;
                && xpubs.Keys == old(xpubs).Keys + {n} && n !in old(xpubs) && xpubs[n] == FeeXPub(n, key, 0, 0)
                && forall i | i in old(xpubs) ::
                     xpubs[i] == if old(xpubs)[i].retired == 0 then old(xpubs)[i].(retired := now) else old(xpubs)[i]
    {
      var known := KnownKey(key);
      if known {
        return false;
      }
      RetireKeepsHistory(xpubs, key, now);
      RetireMeans(xpubs, key, now);
      hide History, AfterRetire;
      var current := ActiveXPub();
      if broken {
        return false;
      }
      xpubs := xpubs[current.id := current.(retired := now)];
      xpubs := xpubs[current.id + 1 := FeeXPub(current.id + 1, key, 0, 0)];
      ok := true;
    }

    /** Whether the key is already in the history: database/feexpub.go:76-80. */
    method KnownKey(key: string) returns (known: bool)
      ensures known <==> exists i | i in xpubs :: xpubs[i].key == key
    {
      var ids := xpubs.Keys;
      while ids != {}
        invariant ids <= xpubs.Keys
        invariant forall i | i in xpubs && i !in ids :: xpubs[i].key != key
        decreases |ids|
      {
        var id :| id in ids;
        ids := ids - {id};
        if xpubs[id].key == key {
          return true;
        }
      }
      known := false;
    }

    method SetLastAddressIndex(idx: uint32) returns (ok: bool)
      requires Valid()
      modifies this`xpubs
      ensures Valid() && ok == !broken
      ensures xpubs == if ok then AfterSetIndex(old(xpubs), idx) else old(xpubs)
      ensures ok ==>
                && xpubs.Keys == old(xpubs).Keys
                && forall i | i in xpubs ::
                     xpubs[i] == if old(xpubs)[i].retired == 0 then old(xpubs)[i].(lastUsedIdx := idx)
                       else old(xpubs)[i]
    {
      SetIndexKeepsHistory(xpubs, idx);
      hide History;
      var current := ActiveXPub();
      ok := !broken;
      if ok {
        xpubs := xpubs[current.id := current.(lastUsedIdx := idx)];
      }
    }
  }

  ghost function AfterRetire(xs: XPubs, key: string, now: int64): XPubs
    requires History(xs) && |xs| < MAX_IDS
  {
    xs[|xs| - 1 := Active(xs).(retired := now)][|xs| := FeeXPub(|xs|, key, 0, 0)]
  }

  ghost function AfterSetIndex(xs: XPubs, idx: uint32): XPubs
    requires History(xs)
  {
    xs[|xs| - 1 := Active(xs).(lastUsedIdx := idx)]
  }

  lemma RetiredEntry(xs: XPubs, key: string, now: int64, i: uint32)
    requires History(xs) && |xs| < MAX_IDS && now != 0
    ensures var after := AfterRetire(xs, key, now);
            && (i in after <==> i <= |xs|)
            && (i in after ==> && after[i].id == i && (after[i].retired == 0 <==> i == |xs|)
                               && (if i == |xs| then after[i].key == key else i in xs && after[i].key == xs[i].key))
  {
    assert |xs| - 1 in xs;
  }

  lemma RetireKeepsHistory(xs: XPubs, key: string, now: int64)
    requires History(xs) && |xs| < MAX_IDS && now != 0
    requires forall i | i in xs :: xs[i].key != key
    ensures History(AfterRetire(xs, key, now)) && |AfterRetire(xs, key, now)| == |xs| + 1
  {
    hide AfterRetire;
    var n: uint32 := |xs|;
    var after := AfterRetire(xs, key, now);
    RetiredSize(xs, key, now);
    forall i: uint32
      ensures i in after <==> i < n + 1
      ensures i in after ==> && after[i].id == i && (after[i].retired == 0 <==> i == n)
                             && (if i == n then after[i].key == key else i in xs && after[i].key == xs[i].key)
    {
      RetiredEntry(xs, key, now, i);
    }
  }

  lemma RetireMeans(xs: XPubs, key: string, now: int64)
    requires History(xs) && |xs| < MAX_IDS
    ensures var after, n: uint32 := AfterRetire(xs, key, now), |xs|;
            && after == xs[Active(xs).id := Active(xs).(retired := now)][Active(xs).id
               + 1 := FeeXPub(Active(xs).id + 1, key, 0, 0)]
            && after.Keys == xs.Keys + {n} && n !in xs && after[n] == FeeXPub(n, key, 0, 0)
            && forall i | i in xs :: after[i] == if xs[i].retired == 0 then xs[i].(retired := now) else xs[i]
  {
    assert |xs| - 1 in xs;
  }

  lemma RetiredSize(xs: XPubs, key: string, now: int64)
    requires History(xs) && |xs| < MAX_IDS
    ensures |AfterRetire(xs, key, now)| == |xs| + 1
  {
    var n: uint32 := |xs|;
    assert n - 1 in xs && n !in xs;
    assert AfterRetire(xs, key, now).Keys == xs.Keys + {n};
    assert |AfterRetire(xs, key, now)| == |AfterRetire(xs, key, now).Keys|;
  }

  lemma SetIndexKeepsHistory(xs: XPubs, idx: uint32)
    requires History(xs)
    ensures History(AfterSetIndex(xs, idx)) && |AfterSetIndex(xs, idx)| == |xs|
  {
    assert |xs| - 1 in xs;
    assert AfterSetIndex(xs, idx).Keys == xs.Keys;
  }

  // --------------------------------------------------- the in-memory counter

  /** Deriving the child key of an index can yield no key at all, with negligible
      probability, or fail otherwise. */
  datatype Child = Address(address: string) | InvalidChild | Failed

  /** `after` is where the counter stops and `r` the address it found there: the
      first index above `before` that does not give an invalid child, or the third
      one that does. */
  ghost predicate Advances(child: uint32 -> Child, before: int, after: int, r: Option<string>)
    requires 0 <= before && after < MAX_IDS
  {
    && before < after <= before + 3
    && (forall j: uint32 | before < j < after :: child(j) == InvalidChild)
    && match r
       case Some(a) => child(after) == Address(a)
       case None => child(after) == Failed || (child(after) == InvalidChild && after == before + 3)
  }

  class AddressGenerator {
    const child: uint32 -> Child
    var lastUsedIndex: uint32
    const feeXPubID: uint32

    constructor (xpub: FeeXPub, child: uint32 -> Child)
      ensures this.child == child && lastUsedIndex == xpub.lastUsedIdx && feeXPubID == xpub.id
    {
      this.child := child;
      lastUsedIndex := xpub.lastUsedIdx;
      feeXPubID := xpub.id;
    }

    method NextAddress() returns (r: Option<string>, index: uint32)
      modifies this
      ensures old(lastUsedIndex) + 3 < MAX_IDS ==> Advances(child, old(lastUsedIndex), lastUsedIndex, r)
      ensures r.Some? ==> index == lastUsedIndex && child(index) == Address(r.value)
      ensures old(lastUsedIndex) + 3 < MAX_IDS ==>
                && old(lastUsedIndex) < lastUsedIndex <= old(lastUsedIndex) + 3
                && (forall j: uint32 | old(lastUsedIndex) < j < lastUsedIndex :: child(j) == InvalidChild)
                && (r.Some? <==> child(lastUsedIndex).Address?)
                && (child(lastUsedIndex) == InvalidChild ==> lastUsedIndex == old(lastUsedIndex) + 3)
    {
      var invalidChildren := 0;
      ghost var start := lastUsedIndex;
      while true
        invariant 0 <= invalidChildren <= 2
        invariant start + 3 < MAX_IDS ==>
                    lastUsedIndex == start + invalidChildren
                    && forall j: uint32 | start < j <= lastUsedIndex :: child(j) == InvalidChild
        decreases 3 - invalidChildren
      {
        lastUsedIndex := (lastUsedIndex + 1) % MAX_IDS;
        match child(lastUsedIndex) {
          case InvalidChild =>
            invalidChildren := invalidChildren + 1;
            if invalidChildren > 2 {
              return None, 0;
            }
          case Failed =>
            return None, 0;
          case Address(a) =>
            return Some(a), lastUsedIndex;
        }
      }
    }
  }

  /** getNewFeeAddress: an address is only handed out after its index has been
      stored as the last one used. */
  method GetNewFeeAddress(generator: AddressGenerator, db: XPubStore) returns (r: Option<string>, index: uint32)
    requires db.Valid()
    modifies generator, db`xpubs
    ensures db.Valid()
    ensures old(generator.lastUsedIndex) + 3 < MAX_IDS ==>
              exists found: Option<string> ::
                && Advances(generator.child, old(generator.lastUsedIndex), generator.lastUsedIndex, found)
                && r == (if db.broken then None else found)
    ensures r.Some? ==> index == generator.lastUsedIndex && generator.child(index) == Address(r.value)
                        && db.xpubs == AfterSetIndex(old(db.xpubs), index)
    ensures r.None? ==> db.xpubs == old(db.xpubs)
    ensures var last, next := old(generator.lastUsedIndex), generator.lastUsedIndex;
            last + 3 < MAX_IDS ==>
              && last < next <= last + 3 && (forall j: uint32 | last < j < next :: generator.child(j) == InvalidChild)
              && (generator.child(next) == InvalidChild ==> next == last + 3)
              && (r.Some? <==> generator.child(next).Address? && !db.broken)
  {
    var addr, idx := generator.NextAddress();
    assert old(generator.lastUsedIndex) + 3 < MAX_IDS ==>
      Advances(generator.child, old(generator.lastUsedIndex), generator.lastUsedIndex, addr);
    if addr.None? {
      return None, 0;
    }
    var ok := db.SetLastAddressIndex(idx);
    if !ok {
      return None, 0;
    }
    return addr, idx;
  }

  // ------------------------------------------------------ the whole machine

  /** An (xpub ID, index) pair names one fee address. */
  datatype Pair = Pair(xPubID: uint32, index: uint32)

  datatype Generator = Generator(xPubID: uint32, lastUsedIndex: uint32)

  /** `handed` are all pairs ever handed out, `pending` those held by a handler that
      has not stored its ticket yet, `tickets` the pair each stored ticket has and
      `stored` every pair a ticket's record ever had. */
  datatype State = State(
    xpubs: XPubs,
    generator: Option<Generator>,
    handed: set<Pair>,
    pending: set<Pair>,
    tickets: map<string, Pair>,
    stored: set<(string, Pair)>)

  /** Starting reads the counter back; a crash or a stop forgets the one in memory
      and every handler. `Reallocate` is getNewFeeAddress, `Store` InsertNewTicket,
      `Rewrite` a whole-record write of a record once stored for that hash, and
      retiring a key needs the database file, which a running daemon has locked. */
  datatype Step =
    | Start
    | Crash
    | Allocate(child: uint32 -> Child, after: uint32, found: Option<string>, persisted: bool)
    | Store(hash: string, pair: Pair)
    | GiveUp(pair: Pair)
    | Rewrite(hash: string, pair: Pair)
    | Remove(hash: string)
    | Retire(key: string, now: int64)

  ghost predicate Enabled(s: State, step: Step)
  {
    match step
    case Start => s.generator.None? && History(s.xpubs)
    case Crash => true
    case Allocate(child, after, found, _) =>
      s.generator.Some? && s.generator.value.lastUsedIndex + 3 < MAX_IDS
      && Advances(child, s.generator.value.lastUsedIndex, after, found)
    case Store(hash, pair) => pair in s.pending
    case GiveUp(_) => true
    case Rewrite(hash, pair) => (hash, pair) in s.stored && hash in s.tickets
    case Remove(_) => true
    case Retire(key, now) =>
      s.generator.None? && now != 0 && |s.xpubs| < MAX_IDS && forall i | i in s.xpubs :: s.xpubs[i].key != key
  }

  ghost function Next(s: State, step: Step): State
    requires History(s.xpubs) && Enabled(s, step)
  {
    match step
    case Start => s.(generator := Some(Generator(Active(s.xpubs).id, Active(s.xpubs).lastUsedIdx)))
    case Crash => s.(generator := None, pending := {})
    case Allocate(_, after, found, persisted) =>
      var moved := s.(generator := Some(s.generator.value.(lastUsedIndex := after)));
      if found.None? || !persisted then moved
      else
        var pair := Pair(s.generator.value.xPubID, after);
        moved.(xpubs := AfterSetIndex(s.xpubs, after), handed := s.handed + {pair}, pending := s.pending + {pair})
    case Store(hash, pair) =>
      var left := s.(pending := s.pending - {pair});
      if hash in s.tickets then left
      else left.(tickets := s.tickets[hash := pair], stored := s.stored + {(hash, pair)})
    case GiveUp(pair) => s.(pending := s.pending - {pair})
    case Rewrite(hash, pair) => s.(tickets := s.tickets[hash := pair])
    case Remove(hash) => s.(tickets := s.tickets - {hash})
    case Retire(key, now) => s.(xpubs := AfterRetire(s.xpubs, key, now))
  }

  /** A pair that was handed out lies at or below its key's persisted counter. */
  ghost predicate Persisted(xs: XPubs, p: Pair)
  {
    p.xPubID in xs && p.index <= xs[p.xPubID].lastUsedIdx
  }

  ghost predicate Inv(s: State)
    ensures Inv(s) ==> History(s.xpubs)
  {
    && History(s.xpubs)
    && (forall p | p in s.handed :: Persisted(s.xpubs, p))
    && (s.generator.Some? ==>
          && s.generator.value.xPubID == Active(s.xpubs).id
          && Active(s.xpubs).lastUsedIdx <= s.generator.value.lastUsedIndex)
    && TicketsInv(s.handed, s.pending, s.tickets, s.stored)
  }

  /** A pair is pending with one handler or stored under one hash, never both. */
  /** What GetNewFeeAddress promises is an allocation: the counter in memory moves, and
      a pair is handed out only with the counter in the database moved too. */
  lemma AllocationIsStep(s: State, child: uint32 -> Child, after: uint32, found: Option<string>, broken: bool)
    requires History(s.xpubs) && s.generator.Some? && s.generator.value.lastUsedIndex + 3 < MAX_IDS
    requires Advances(child, s.generator.value.lastUsedIndex, after, found)
    ensures var step, id := Allocate(child, after, found, !broken), s.generator.value.xPubID;
            && Enabled(s, step)
            && Next(s, step).generator == Some(Generator(id, after)) && Next(s, step).tickets == s.tickets
            && if found.Some? && !broken
               then Next(s, step).xpubs == AfterSetIndex(s.xpubs, after)
                    && Next(s, step).handed == s.handed + {Pair(id, after)}
                    && Next(s, step).pending == s.pending + {Pair(id, after)}
               else Next(s, step).xpubs == s.xpubs && Next(s, step).handed == s.handed
                    && Next(s, step).pending == s.pending
  {
  }

  /** A crash can come at any time; it forgets the counter in memory and every handler,
      and the next start reads the counter of the key in use back. */
  lemma RestartReadsBack(s: State)
    requires History(s.xpubs)
    ensures Enabled(s, Crash) && Next(s, Crash) == s.(generator := None, pending := {})
    ensures Enabled(Next(s, Crash), Start)
    ensures var g := Next(Next(s, Crash), Start).generator;
            && g.Some? && g.value.xPubID in s.xpubs && s.xpubs[g.value.xPubID].retired == 0
            && g.value.lastUsedIndex == s.xpubs[g.value.xPubID].lastUsedIdx
  {
    assert |s.xpubs| - 1 in s.xpubs;
  }

  ghost predicate TicketsInv(handed: set<Pair>, pending: set<Pair>, tickets: map<string, Pair>,
                             stored: set<(string, Pair)>)
  {
    && pending <= handed
    && (forall h | h in tickets :: (h, tickets[h]) in stored)
    && (forall e | e in stored :: e.1 in handed && e.1 !in pending)
    && (forall e, f | e in stored && f in stored && e.1 == f.1 :: e.0 == f.0)
  }

  lemma NewPairPending(handed: set<Pair>, pending: set<Pair>, tickets: map<string, Pair>, stored: set<(string, Pair)>,
                       p: Pair)
    requires TicketsInv(handed, pending, tickets, stored) && p !in handed
    ensures TicketsInv(handed + {p}, pending + {p}, tickets, stored)
  {
  }

  lemma NextKeepsInv(s: State, step: Step)
    requires Inv(s) && Enabled(s, step)
    ensures Inv(Next(s, step))
  {
    hide Inv, Next, Enabled;
    if step.Allocate? {
      AllocateKeepsInv(s, step);
    } else if step.Retire? {
      RetireKeepsInv(s, step);
    } else {
      TicketStepKeepsInv(s, step);
    }
  }

  lemma TicketStepKeepsInv(s: State, step: Step)
    requires Inv(s) && !step.Allocate? && !step.Retire? && Enabled(s, step)
    ensures Inv(Next(s, step))
  {
    hide History, Persisted, AfterSetIndex, AfterRetire, Advances, TicketsInv;
    match step {
      case Store(hash, pair) =>
        FewerPending(s.handed, s.pending, s.tickets, s.stored, s.pending - {pair});
        if hash !in s.tickets {
          StorePair(s.handed, s.pending, s.tickets, s.stored, hash, pair);
        }
      case Crash => FewerPending(s.handed, s.pending, s.tickets, s.stored, {});
      case GiveUp(pair) => FewerPending(s.handed, s.pending, s.tickets, s.stored, s.pending - {pair});
      case Rewrite(hash, pair) => OldRecord(s.handed, s.pending, s.tickets, s.stored, hash, pair);
      case Remove(hash) => FewerTickets(s.handed, s.pending, s.tickets, s.stored, hash);
      case Start =>
    }
  }

  lemma FewerPending(handed: set<Pair>, pending: set<Pair>, tickets: map<string, Pair>, stored: set<(string, Pair)>,
                     fewer: set<Pair>)
    requires TicketsInv(handed, pending, tickets, stored) && fewer <= pending
    ensures TicketsInv(handed, fewer, tickets, stored)
  {
  }

  lemma StorePair(handed: set<Pair>, pending: set<Pair>, tickets: map<string, Pair>, stored: set<(string, Pair)>,
                  hash: string, p: Pair)
    requires TicketsInv(handed, pending, tickets, stored) && p in pending && hash !in tickets
    ensures TicketsInv(handed, pending - {p}, tickets[hash := p], stored + {(hash, p)})
  {
  }

  lemma OldRecord(handed: set<Pair>, pending: set<Pair>, tickets: map<string, Pair>, stored: set<(string, Pair)>,
                  hash: string, p: Pair)
    requires TicketsInv(handed, pending, tickets, stored) && (hash, p) in stored
    ensures TicketsInv(handed, pending, tickets[hash := p], stored)
  {
  }

  lemma FewerTickets(handed: set<Pair>, pending: set<Pair>, tickets: map<string, Pair>, stored: set<(string, Pair)>,
                     hash: string)
    requires TicketsInv(handed, pending, tickets, stored)
    ensures TicketsInv(handed, pending, tickets - {hash}, stored)
  {
  }

  lemma AllocateKeepsInv(s: State, step: Step)
    requires Inv(s) && step.Allocate? && Enabled(s, step)
    ensures Inv(Next(s, step))
  {
    assert s.generator.value.lastUsedIndex < step.after;
    hide History, Persisted, AfterSetIndex, Advances, TicketsInv, Active;
    if step.found.Some? && step.persisted {
      SetIndexKeepsHistory(s.xpubs, step.after);
      FreshPair(s, step);
      PersistedAfterSet(s, step.after);
      NewPairPending(s.handed, s.pending, s.tickets, s.stored, Pair(s.generator.value.xPubID, step.after));
    }
  }

  lemma RetireKeepsInv(s: State, step: Step)
    requires Inv(s) && step.Retire? && Enabled(s, step)
    ensures Inv(Next(s, step))
  {
    RetireKeepsHistory(s.xpubs, step.key, step.now);
    forall p | p in s.handed ensures Persisted(AfterRetire(s.xpubs, step.key, step.now), p) {
      assert Persisted(s.xpubs, p);
    }
    hide History, Persisted, AfterRetire;
  }

  lemma PersistedAfterSet(s: State, after: uint32)
    requires Inv(s) && s.generator.Some? && s.generator.value.lastUsedIndex < after
    ensures forall p | p in s.handed :: Persisted(AfterSetIndex(s.xpubs, after), p)
    ensures Persisted(AfterSetIndex(s.xpubs, after), Pair(s.generator.value.xPubID, after))
    ensures History(AfterSetIndex(s.xpubs, after)) ==> Active(AfterSetIndex(s.xpubs, after)).id == Active(s.xpubs).id
    ensures History(AfterSetIndex(s.xpubs, after)) ==> Active(AfterSetIndex(s.xpubs, after)).lastUsedIdx == after
  {
    assert |s.xpubs| - 1 in s.xpubs;
    forall p | p in s.handed ensures Persisted(AfterSetIndex(s.xpubs, after), p) {
      assert Persisted(s.xpubs, p);
    }
    assert AfterSetIndex(s.xpubs, after).Keys == s.xpubs.Keys;
  }

  /** The pair an allocation hands out was never handed out before. */
  lemma FreshPair(s: State, step: Step)
    requires Inv(s) && step.Allocate? && Enabled(s, step)
    ensures Pair(s.generator.value.xPubID, step.after) !in s.handed
  {
    var p := Pair(s.generator.value.xPubID, step.after);
    forall q | q in s.handed ensures q != p {
      assert Persisted(s.xpubs, q);
    }
  }

  ghost predicate ValidRun(s: State, steps: seq<Step>)
    decreases steps
  {
    steps != [] ==> History(s.xpubs) && Enabled(s, steps[0]) && ValidRun(Next(s, steps[0]), steps[1..])
  }

  ghost function Run(s: State, steps: seq<Step>): State
    requires ValidRun(s, steps)
    decreases steps
  {
    if steps == [] then s else Run(Next(s, steps[0]), steps[1..])
  }

  /** Fee addresses are never reissued: over any run of allocations, skips, failed
      writes, crashes, restarts and retirements, what the next allocation hands out
      is new; every stored ticket's index is at most its key's persisted counter;
      and no two tickets share a pair, although storing a ticket only checks its
      hash. */
  lemma {:induction false} AddressesAreNeverReissued(s: State, steps: seq<Step>)
    requires Inv(s) && ValidRun(s, steps)
    ensures var r := Run(s, steps);
            && Inv(r)
            && (forall next: Step | next.Allocate? && Enabled(r, next) ::
                 Pair(r.generator.value.xPubID, next.after) !in r.handed)
            && (forall h | h in r.tickets :: Persisted(r.xpubs, r.tickets[h]))
            && (forall h, k | h in r.tickets && k in r.tickets && h != k :: r.tickets[h] != r.tickets[k])
    decreases steps
  {
    if steps != [] {
      NextKeepsInv(s, steps[0]);
      AddressesAreNeverReissued(Next(s, steps[0]), steps[1..]);
    } else {
      forall next: Step | next.Allocate? && Enabled(s, next)
        ensures Pair(s.generator.value.xPubID, next.after) !in s.handed
      {
        FreshPair(s, next);
      }
      TicketsHavePersistedPairs(s);
    }
    hide Inv, Enabled, Persisted;
  }

  lemma TicketsHavePersistedPairs(s: State)
    requires Inv(s)
    ensures forall h | h in s.tickets :: Persisted(s.xpubs, s.tickets[h])
    ensures forall h, k | h in s.tickets && k in s.tickets && h != k :: s.tickets[h] != s.tickets[k]
  {
    forall h | h in s.tickets ensures Persisted(s.xpubs, s.tickets[h]) {
      assert (h, s.tickets[h]) in s.stored;
    }
    forall h, k | h in s.tickets && k in s.tickets && h != k ensures s.tickets[h] != s.tickets[k] {
      assert (h, s.tickets[h]) in s.stored && (k, s.tickets[k]) in s.stored;
    }
  }

  /** A new database, before the daemon is first started. */
  lemma NewDatabase(key: string)
    ensures Inv(State(map[0 := FeeXPub(0, key, 0, 0)], None, {}, {}, map[], {}))
  {
    var xs: XPubs := map[0 := FeeXPub(0, key, 0, 0)];
    assert xs.Keys == {0};
    assert |xs| == |xs.Keys| == 1;
  }

  /** With injective derivation from distinct keys, distinct pairs are distinct
      addresses. */
  lemma DistinctPairsDistinctAddresses(xs: XPubs, derive: (string, uint32) -> Child, p: Pair, q: Pair)
    requires History(xs) && Persisted(xs, p) && Persisted(xs, q) && p != q
    requires forall a, i, b, j :: derive(a, i) == derive(b, j) && derive(a, i).Address? ==> a == b && i == j
    requires derive(xs[p.xPubID].key, p.index).Address?
    ensures derive(xs[p.xPubID].key, p.index) != derive(xs[q.xPubID].key, q.index)
  {
  }
}
