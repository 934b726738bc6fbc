/** Recording ticket outcomes: setOutcomes of internal/vspm/update.go, which scans
    each block once and carries on from the last scanned one, and checkRevoked of
    internal/vspm/databaseintegrity.go. */
module Outcomes {
  import opened Encoding
  import opened Tickets
  import opened Scanner

  /** The revocation heuristic of spentTicket.missed. */
  predicate RevokedAsMissed(heightSpent: int, expiryHeight: int)
  {
    if heightSpent < expiryHeight then true
    else if heightSpent == expiryHeight then false
    else if heightSpent == expiryHeight + 1 then false
    else true
  }

  function Classify(heightSpent: int, expiryHeight: int, tx: Tx): Outcome
  {
    if tx.isVote then Voted else if RevokedAsMissed(heightSpent, expiryHeight) then Missed else Expired
  }

  /** A revocation counts as an expiry in exactly the two blocks in which an
      expired ticket could first be revoked. */
  lemma ExpiredWindow(heightSpent: int, expiryHeight: int, tx: Tx)
    ensures Classify(heightSpent, expiryHeight, tx) == Expired
       <==> !tx.isVote && expiryHeight <= heightSpent <= expiryHeight + 1
    ensures Classify(heightSpent, expiryHeight, tx) in {Voted, Missed, Expired}
  {
  }

  /** The outcome a scan of [lo, hi] gives a ticket. */
  ghost function ScanOutcome(net: Network, blocks: seq<Block>, t: Ticket, lo: int, hi: int): Outcome
    requires 0 <= lo && hi < |blocks|
  {
    if !Decodable(net, t) then Unspent
    else
      match FirstSpend(blocks, HashOf(net, t), lo, hi)
      case Some(p) => Classify(p.0, ExpiryHeight(net, t), p.1)
      case None => Unspent
  }

  /** The ticket's first spender from `start` on is the transaction at (height, j), and
      `o` is what it makes of the ticket: a vote is a vote, and a revocation counts as
      an expiry in the two blocks in which an expired ticket can first be revoked. */
  ghost predicate Fate(net: Network, blocks: seq<Block>, t: Ticket, start: int, height: int, j: int, o: Outcome)
    requires 0 <= start <= height < |blocks| && 0 <= j < |blocks[height].stakeTxs| && net.parseHash(t.hash).Some?
  {
    var expiry := t.purchaseHeight + net.ticketMaturity + net.ticketExpiry;
    && SpentFirstAt(blocks, net.parseHash(t.hash).value, start, height, j)
    && o == if blocks[height].stakeTxs[j].isVote then Voted
            else if expiry <= height <= expiry + 1 then Expired else Missed
  }

  /** What the outcome of a scan to the end of the chain is, on the chain alone. */
  lemma OutcomeMeans(net: Network, blocks: seq<Block>, t: Ticket, start: int)
    requires 0 <= start && net.parseHash(t.hash).Some? && net.script(t.commitmentAddress).Some?
    ensures var o, hash := ScanOutcome(net, blocks, t, start, |blocks| - 1), net.parseHash(t.hash).value;
            && (o == Unspent <==> NeverSpent(blocks, hash, start, |blocks| - 1))
            && (o != Unspent ==>
                  exists height, j | start <= height < |blocks| && 0 <= j < |blocks[height].stakeTxs| ::
                    && SpentFirstAt(blocks, hash, start, height, j)
                    && var expiry := t.purchaseHeight + net.ticketMaturity + net.ticketExpiry;
                       o == if blocks[height].stakeTxs[j].isVote then Voted
                            else if expiry <= height <= expiry + 1 then Expired else Missed)
  {
    var j := FirstSpendFacts(blocks, net.parseHash(t.hash).value, start, |blocks| - 1);
    hide FirstSpend, NeverSpent, SpentFirstAt;
  }

  lemma OutcomeIsFate(net: Network, blocks: seq<Block>, t: Ticket, start: int)
    requires 0 <= start && net.parseHash(t.hash).Some? && net.script(t.commitmentAddress).Some?
    ensures var o := ScanOutcome(net, blocks, t, start, |blocks| - 1);
            && (o == Unspent <==> NeverSpent(blocks, net.parseHash(t.hash).value, start, |blocks| - 1))
            && (o != Unspent ==> HasFate(net, blocks, t, start, o))
  {
    var j := FirstSpendFacts(blocks, net.parseHash(t.hash).value, start, |blocks| - 1);
    var r := FirstSpend(blocks, net.parseHash(t.hash).value, start, |blocks| - 1);
    hide FirstSpend, NeverSpent, SpentFirstAt;
    if r.Some? {
      assert Fate(net, blocks, t, start, r.value.0, j, ScanOutcome(net, blocks, t, start, |blocks| - 1));
    }
  }

  ghost predicate HasFate(net: Network, blocks: seq<Block>, t: Ticket, start: int, o: Outcome)
    requires 0 <= start
  {
    && net.parseHash(t.hash).Some?
    && exists height, j | start <= height < |blocks| && 0 <= j < |blocks[height].stakeTxs| ::
         Fate(net, blocks, t, start, height, j, o)
  }

  /** There is one such outcome. */
  lemma FateIsUnique(net: Network, blocks: seq<Block>, t: Ticket, start: int, o: Outcome, q: Outcome)
    requires 0 <= start && HasFate(net, blocks, t, start, o) && HasFate(net, blocks, t, start, q)
    ensures o == q
  {
  }

  /** The outcome a scan of the whole chain gives a ticket. */
  ghost function FullOutcome(net: Network, blocks: seq<Block>, t: Ticket): Outcome
  {
    ScanOutcome(net, blocks, t, 0, |blocks| - 1)
  }

  ghost predicate UnspentBelow(net: Network, blocks: seq<Block>, t: Ticket, height: int)
    requires Decodable(net, t)
  {
    forall h | 0 <= h < height && h < |blocks| :: !SpentIn(blocks[h], HashOf(net, t))
  }

  lemma {:induction false} FirstSpendFrom(blocks: seq<Block>, hash: string, lo: int, mid: int, hi: int)
    requires 0 <= lo <= mid <= hi + 1 && hi < |blocks|
    requires forall h | lo <= h < mid :: !SpentIn(blocks[h], hash)
    ensures FirstSpend(blocks, hash, lo, hi) == FirstSpend(blocks, hash, mid, hi)
    decreases mid - lo
  {
    if lo < mid {
      FirstSpendFrom(blocks, hash, lo + 1, mid, hi);
    }
  }

  /** Once found, a first spender stays the first spender as the chain grows. */
  lemma {:induction false} FirstSpendStable(blocks: seq<Block>, longer: seq<Block>, hash: string, lo: int)
    requires 0 <= lo && blocks <= longer
    requires FirstSpend(blocks, hash, lo, |blocks| - 1).Some?
    ensures FirstSpend(longer, hash, lo, |longer| - 1) == FirstSpend(blocks, hash, lo, |blocks| - 1)
    decreases |blocks| - lo
  {
    assert blocks[lo] == longer[lo];
    if !SpentIn(blocks[lo], hash) {
      FirstSpendStable(blocks, longer, hash, lo + 1);
    }
  }

  /** A scan that starts at `start` gets a ticket right exactly when the ticket was
      not spent below it. Returning the best height after an early exit is no
      exception: the scan outcome speaks of the whole range. */
  lemma ScanRightIffUnspentBelow(net: Network, blocks: seq<Block>, t: Ticket, start: int)
    requires 0 <= start <= |blocks| && Decodable(net, t)
    requires forall h, k | 0 <= h < k < |blocks| ::
               !(SpentIn(blocks[h], HashOf(net, t)) && SpentIn(blocks[k], HashOf(net, t)))
    ensures ScanOutcome(net, blocks, t, start, |blocks| - 1) == FullOutcome(net, blocks, t)
       <==> UnspentBelow(net, blocks, t, start)
  {
    var hash, best := HashOf(net, t), |blocks| - 1;
    FirstSpendIsLeast(blocks, hash, 0, best);
    FirstSpendIsLeast(blocks, hash, start, best);
    if UnspentBelow(net, blocks, t, start) {
      FirstSpendFrom(blocks, hash, 0, start, best);
    } else {
      var h :| 0 <= h < start && SpentIn(blocks[h], hash);
      var full, part := FirstSpend(blocks, hash, 0, best), FirstSpend(blocks, hash, start, best);
      assert full.Some? && full.value.0 <= h;
      assert SpentIn(blocks[full.value.0], hash);
      assert part.None?;
    }
  }

  /** The database after the outcomes found by scanning from `start` were recorded
      for the tickets in `written`. */
  ghost function Recorded(net: Network, blocks: seq<Block>, before: Db, start: int, written: set<string>): Db
    requires 0 <= start
  {
    map h | h in before ::
      if h in written then before[h].(outcome := ScanOutcome(net, blocks, before[h], start, |blocks| - 1))
      else before[h]
  }

  ghost predicate DecodableVotable(net: Network, db: Db)
  {
    forall h | h in db && Votable(db[h]) :: Decodable(net, db[h])
  }

  /** `written` is the set of votable tickets with a spender, failed writes aside. */
  ghost predicate WrittenAll(net: Network, blocks: seq<Block>, before: Db, start: int, written: set<string>,
                             broken: set<string>)
    requires 0 <= start
  {
    forall h | h in before && Votable(before[h]) && Decodable(net, before[h]) && h !in broken ::
      FirstSpend(blocks, HashOf(net, before[h]), start, |blocks| - 1).Some? ==> h in written
  }

  /** An entry the scanner may return: a listed record and its first spender. */
  ghost predicate EntryOf(net: Network, blocks: seq<Block>, before: Db, p: Ticket -> bool, start: int, e: SpentTicket)
    requires 0 <= start
  {
    && e.dbTicket.hash in before && before[e.dbTicket.hash] == e.dbTicket && p(e.dbTicket)
    && Decodable(net, e.dbTicket) && e.expiryHeight == ExpiryHeight(net, e.dbTicket)
    && FirstSpend(blocks, HashOf(net, e.dbTicket), start, |blocks| - 1) == Some((e.heightSpent, e.spendingTx))
  }

  /** What the filter gives the scanner, and back. */
  lemma ListFacts(net: Network, db: Db, p: Ticket -> bool, ts: seq<Ticket>, blocks: seq<Block>)
    requires WellFiled(db) && Lists(db, p, ts)
    requires forall h | h in db :: FilterFinds(net, blocks, db[h])
    ensures NoFalseNegatives(net, blocks, ts)
    ensures AllDecodable(net, ts) <==> forall h | h in db && p(db[h]) :: Decodable(net, db[h])
    ensures ts == [] <==> Matching(db, p) == {}
  {
    forall h | h in db && p(db[h]) ensures exists i | 0 <= i < |ts| :: ts[i] == db[h] {
      assert db[h] in ts;
    }
    if Matching(db, p) != {} {
      var h :| h in Matching(db, p);
      assert db[h] in ts;
    }
    if ts != [] {
      assert ts[0].hash in Matching(db, p);
    }
  }

  /** The first start height covers every votable ticket that has a height. */
  ghost predicate StartsEarly(net: Network, ts: seq<Ticket>, start: int)
  {
    forall t | t in ts && t.purchaseHeight != 0 :: start <= t.purchaseHeight + net.ticketMaturity
  }

  /** It is the maturity of one of them, or of block zero when no height is known. */
  ghost predicate StartsAtMaturity(net: Network, ts: seq<Ticket>, start: int)
  {
    || (exists t | t in ts :: t.purchaseHeight != 0 && start == t.purchaseHeight + net.ticketMaturity)
    || (start == net.ticketMaturity && forall t | t in ts :: t.purchaseHeight == 0)
  }

  ghost predicate IsMaturity(net: Network, db: Db, p: Ticket -> bool, start: int)
  {
    || (exists h | h in db && p(db[h]) ::
          db[h].purchaseHeight != 0 && start == db[h].purchaseHeight + net.ticketMaturity)
    || (start == net.ticketMaturity && forall h | h in db && p(db[h]) :: db[h].purchaseHeight == 0)
  }

  lemma MaturityOfListed(net: Network, db: Db, p: Ticket -> bool, ts: seq<Ticket>, start: int)
    requires Lists(db, p, ts) && StartsAtMaturity(net, ts, start)
    ensures IsMaturity(net, db, p, start)
  {
    if t :| t in ts && t.purchaseHeight != 0 && start == t.purchaseHeight + net.ticketMaturity {
      assert t.hash in db && p(db[t.hash]);
    }
  }

  /** A scan after another carries on from its last block; the first one starts
      no later than any votable ticket's maturity. */
  ghost predicate Covers(net: Network, db: Db, last: int, start: int)
  {
    && (last != 0 ==> start == last)
    && (last == 0 ==> StartsByMaturity(net, db, Votable, start))
  }

  /** A scan from `start` is no later than the maturity of any matching ticket that
      has a height. */
  ghost predicate StartsByMaturity(net: Network, db: Db, p: Ticket -> bool, start: int)
  {
    forall h | h in db && p(db[h]) && db[h].purchaseHeight != 0 :: start <= db[h].purchaseHeight + net.ticketMaturity
  }

  /** Some matching ticket has matured. */
  ghost predicate SomeMature(net: Network, node: Node, db: Db, p: Ticket -> bool)
  {
    && (forall h | h in db :: db[h].purchaseHeight >= 0)
    && exists h | h in db && p(db[h]) :: 0 < db[h].purchaseHeight < |node.blocks| - net.ticketMaturity
  }

  /** Nothing stands in the way of a scan: the node answers, and some votable
      ticket has matured if this is the first one. */
  ghost predicate ShouldScan(net: Network, node: Node, db: Db, last: int)
  {
    && node.down == {} && Matching(db, Votable) != {} && DecodableVotable(net, db)
    && if last != 0 then last < |node.blocks| else SomeMature(net, node, db, Votable)
  }

  /** The same for the startup check of revoked tickets, which has no cursor. */
  ghost predicate ShouldCheck(net: Network, node: Node, db: Db)
  {
    && node.down == {} && SomeMature(net, node, db, IsRevoked)
    && forall h | h in db && IsRevoked(db[h]) :: Decodable(net, db[h])
  }

  /** A scan is due when the node answers every call, every votable ticket decodes, and
      the chain reaches the cursor or, for a first scan, some ticket's maturity. */
  lemma ScanIsDue(net: Network, node: Node, db: Db, last: int)
    ensures ShouldScan(net, node, db, last) <==>
              && node.down == {}
              && (exists h :: h in db && db[h].feeTxStatus == FeeConfirmed && db[h].outcome == Unspent)
              && (forall h | h in db && db[h].feeTxStatus == FeeConfirmed && db[h].outcome == Unspent ::
                    net.parseHash(db[h].hash).Some? && net.script(db[h].commitmentAddress).Some?)
              && if last != 0 then last < |node.blocks|
                 else
                   && (forall h | h in db :: db[h].purchaseHeight >= 0)
                   && exists h :: h in db && db[h].feeTxStatus == FeeConfirmed && db[h].outcome == Unspent
                                  && 0 < db[h].purchaseHeight < |node.blocks| - net.ticketMaturity
  {
    if h :| h in db && db[h].feeTxStatus == FeeConfirmed && db[h].outcome == Unspent {
      assert h in Matching(db, Votable);
    }
  }

  /** And the startup check succeeds when the node answers, every revoked ticket decodes
      and some has matured. */
  lemma CheckIsDue(net: Network, node: Node, db: Db)
    ensures ShouldCheck(net, node, db) <==>
              && node.down == {} && (forall h | h in db :: db[h].purchaseHeight >= 0)
              && (forall h | h in db && db[h].outcome == Revoked ::
                    net.parseHash(db[h].hash).Some? && net.script(db[h].commitmentAddress).Some?)
              && exists h :: h in db && db[h].outcome == Revoked
                             && 0 < db[h].purchaseHeight < |node.blocks| - net.ticketMaturity
  {
  }

  lemma EarliestStart(net: Network, node: Node, db: Db, p: Ticket -> bool, ts: seq<Ticket>, start: int)
    requires Lists(db, p, ts) && StartsEarly(net, ts, start)
             && ((forall t | t in ts :: t.purchaseHeight >= 0) ==> 0 <= start)
    ensures StartsByMaturity(net, db, p, start)
    ensures SomeMature(net, node, db, p) ==> 0 <= start < |node.blocks|
  {
    if SomeMature(net, node, db, p) {
      forall t | t in ts ensures t.purchaseHeight >= 0 {
        var i :| 0 <= i < |ts| && ts[i] == t;
      }
      var h :| h in db && p(db[h]) && 0 < db[h].purchaseHeight < |node.blocks| - net.ticketMaturity;
      assert db[h] in ts;
    }
  }

  lemma StartHeightFacts(net: Network, node: Node, db: Db, ts: seq<Ticket>, last: int, start: int)
    requires Lists(db, Votable, ts) && 0 <= last
    requires AllDecodable(net, ts) <==> forall h | h in db && Votable(db[h]) :: Decodable(net, db[h])
    requires last != 0 ==> start == last
    requires last == 0 ==> StartsEarly(net, ts, start) && ((forall t | t in ts :: t.purchaseHeight >= 0) ==> 0 <= start)
    ensures AllDecodable(net, ts) <==> DecodableVotable(net, db)
    ensures Covers(net, db, last, start)
    ensures ShouldScan(net, node, db, last) ==> AllDecodable(net, ts) && 0 <= start < |node.blocks|
  {
    if last == 0 {
      EarliestStart(net, node, db, Votable, ts, start);
    }
    hide Decodable, Lists, StartsEarly, SomeMature;
  }

  /** How a record may change in a scan: a paid ticket that was not spent yet gets the
      fate it met on the chain. */
  ghost predicate MetFate(net: Network, blocks: seq<Block>, start: int, t: Ticket, u: Ticket)
    requires 0 <= start
  {
    && t.feeTxStatus == FeeConfirmed && t.outcome == Unspent
    && u == t.(outcome := u.outcome) && HasFate(net, blocks, t, start, u.outcome)
  }

  ghost predicate KnownUnspent(net: Network, blocks: seq<Block>, start: int, t: Ticket)
    requires 0 <= start
  {
    net.parseHash(t.hash).Some? && NeverSpent(blocks, net.parseHash(t.hash).value, start, |blocks| - 1)
  }

  /** What recording leaves, on the chain alone. */
  lemma RecordedMeans(net: Network, blocks: seq<Block>, before: Db, start: int, written: set<string>,
                      broken: set<string>)
    requires 0 <= start && written <= Matching(before, Votable) && DecodableVotable(net, before)
    ensures var after := Recorded(net, blocks, before, start, written);
            && after.Keys == before.Keys
            && forall h | h in before && after[h] != before[h] :: MetFate(net, blocks, start, before[h], after[h])
    ensures WrittenAll(net, blocks, before, start, written, broken) ==>
              var after := Recorded(net, blocks, before, start, written);
              forall h | h in before && before[h].feeTxStatus == FeeConfirmed && after[h].outcome == Unspent
                         && h !in broken :: KnownUnspent(net, blocks, start, before[h])
  {
    hide ScanOutcome, HasFate, NeverSpent, FirstSpend;
    var after := Recorded(net, blocks, before, start, written);
    forall h | h in before && Votable(before[h])
      ensures var o := ScanOutcome(net, blocks, before[h], start, |blocks| - 1);
              && (o != Unspent ==> HasFate(net, blocks, before[h], start, o))
              && (o == Unspent ==> KnownUnspent(net, blocks, start, before[h]))
      ensures FirstSpend(blocks, HashOf(net, before[h]), start, |blocks| - 1).None? ==>
                KnownUnspent(net, blocks, start, before[h])
    {
      OutcomeIsFate(net, blocks, before[h], start);
      var j := FirstSpendFacts(blocks, net.parseHash(before[h].hash).value, start, |blocks| - 1);
    }
  }

  lemma NothingRecorded(net: Network, blocks: seq<Block>, before: Db, start: int)
    requires 0 <= start
    ensures Recorded(net, blocks, before, start, {}) == before
  {
  }

  lemma RecordOne(net: Network, blocks: seq<Block>, before: Db, start: int, written: set<string>, e: SpentTicket,
                  o: Outcome)
    requires 0 <= start && WellFiled(before) && EntryOf(net, blocks, before, Votable, start, e)
    requires o == Classify(e.heightSpent, e.expiryHeight, e.spendingTx)
    ensures e.dbTicket.hash in Matching(before, Votable)
    ensures Recorded(net, blocks, before, start, written)[e.dbTicket.hash := Normalise(e.dbTicket.(outcome := o))]
         == Recorded(net, blocks, before, start, written + {e.dbTicket.hash})
    ensures e.dbTicket.hash in Recorded(net, blocks, before, start, written)
  {
    hide FirstSpend, Classify;
  }

  lemma EntriesFromScan(net: Network, db: Db, p: Ticket -> bool, ts: seq<Ticket>, blocks: seq<Block>, start: int,
                        spent: seq<SpentTicket>)
    requires 0 <= start < |blocks| && WellFiled(db) && Lists(db, p, ts) && AllDecodable(net, ts)
    requires multiset(spent) == multiset(NaiveScan(net, blocks, ts, start, |blocks| - 1))
    ensures forall i | 0 <= i < |spent| :: EntryOf(net, blocks, db, p, start, spent[i])
    ensures forall h | h in db && p(db[h]) && Decodable(net, db[h])
            && FirstSpend(blocks, HashOf(net, db[h]), start, |blocks| - 1).Some? ::
              exists i | 0 <= i < |spent| :: spent[i].dbTicket.hash == h
  {
    OneEntryPerSpentTicket(net, blocks, ts, start, |blocks| - 1, spent);
    hide NaiveScan, FirstSpend, Decodable, HashOf;
    forall i | 0 <= i < |spent| ensures EntryOf(net, blocks, db, p, start, spent[i]) {
      assert spent[i] in spent;
      var j :| 0 <= j < |ts| && ts[j] == spent[i].dbTicket;
      assert Decodable(net, ts[j]);
    }
    forall h | h in db && p(db[h]) && Decodable(net, db[h])
               && FirstSpend(blocks, HashOf(net, db[h]), start, |blocks| - 1).Some?
      ensures exists i | 0 <= i < |spent| :: spent[i].dbTicket.hash == h
    {
      assert db[h] in ts;
      var e :| e in spent && e.dbTicket == db[h];
      var i :| 0 <= i < |spent| && spent[i] == e;
    }
  }

  lemma EntriesWritten(net: Network, blocks: seq<Block>, db: Db, start: int, spent: seq<SpentTicket>,
                       written: set<string>, broken: set<string>)
    requires 0 <= start < |blocks|
    requires forall h | h in db && Votable(db[h]) && Decodable(net, db[h])
             && FirstSpend(blocks, HashOf(net, db[h]), start, |blocks| - 1).Some? ::
               exists i | 0 <= i < |spent| :: spent[i].dbTicket.hash == h
    ensures (forall i | 0 <= i < |spent| :: spent[i].dbTicket.hash in written || spent[i].dbTicket.hash in broken)
            ==> WrittenAll(net, blocks, db, start, written, broken)
  {
    hide Votable, Decodable, FirstSpend, HashOf;
  }

  /** The revoked tickets among `done` whose spender is a revocation now say
      whether they were missed or expired. */
  ghost function Corrected(net: Network, blocks: seq<Block>, before: Db, start: int, done: set<string>): Db
    requires 0 <= start
  {
    map h | h in before ::
      var o := ScanOutcome(net, blocks, before[h], start, |blocks| - 1);
      if h in done && IsRevoked(before[h]) && o in {Missed, Expired} then before[h].(outcome := o) else before[h]
  }

  /** How the startup check may change a record: a revoked ticket whose fate on the
      chain is not a vote is given that fate. */
  ghost predicate Revised(net: Network, blocks: seq<Block>, start: int, t: Ticket, u: Ticket)
    requires 0 <= start
  {
    && t.outcome == Revoked && u.outcome in {Missed, Expired}
    && u == t.(outcome := u.outcome) && HasFate(net, blocks, t, start, u.outcome)
  }

  /** What the check leaves, on the chain alone: no revoked ticket it handled has a
      revocation as its first spender. */
  lemma CorrectedMeans(net: Network, blocks: seq<Block>, before: Db, start: int, done: set<string>)
    requires 0 <= start && forall h | h in before && before[h].outcome == Revoked :: Decodable(net, before[h])
    ensures var after := Corrected(net, blocks, before, start, done);
            && after.Keys == before.Keys
            && (forall h | h in before && after[h] != before[h] :: Revised(net, blocks, start, before[h], after[h]))
            && forall h | h in before && after[h].outcome == Revoked && h in done ::
                 KnownUnspent(net, blocks, start, before[h]) || HasFate(net, blocks, before[h], start, Voted)
  {
    hide ScanOutcome, HasFate, NeverSpent;
    forall h | h in before && before[h].outcome == Revoked
      ensures var o := ScanOutcome(net, blocks, before[h], start, |blocks| - 1);
              && (o != Unspent ==> HasFate(net, blocks, before[h], start, o))
              && (o == Unspent ==> KnownUnspent(net, blocks, start, before[h]))
              && o in {Unspent, Voted, Missed, Expired}
    {
      OutcomeIsFate(net, blocks, before[h], start);
      OutcomeValues(net, blocks, before[h], start);
    }
  }

  lemma NoneRevoked(db: Db)
    requires Matching(db, IsRevoked) == {}
    ensures forall h | h in db :: db[h].outcome != Revoked
  {
    forall h | h in db ensures db[h].outcome != Revoked {
      assert h !in Matching(db, IsRevoked);
    }
  }

  lemma AllVotableDecode(net: Network, db: Db, ts: seq<Ticket>)
    requires Lists(db, Votable, ts) && AllDecodable(net, ts)
    ensures DecodableVotable(net, db)
  {
    forall h | h in db && Votable(db[h]) ensures Decodable(net, db[h]) {
      var i :| 0 <= i < |ts| && ts[i] == db[h];
    }
  }

  lemma AllRevokedDecode(net: Network, db: Db, ts: seq<Ticket>)
    requires Lists(db, IsRevoked, ts) && AllDecodable(net, ts)
    ensures forall h | h in db && db[h].outcome == Revoked :: Decodable(net, db[h])
  {
    forall h | h in db && db[h].outcome == Revoked ensures Decodable(net, db[h]) {
      var i :| 0 <= i < |ts| && ts[i] == db[h];
    }
  }

  lemma OutcomeValues(net: Network, blocks: seq<Block>, t: Ticket, start: int)
    requires 0 <= start
    ensures ScanOutcome(net, blocks, t, start, |blocks| - 1) in {Unspent, Voted, Missed, Expired}
  {
    hide FirstSpend;
  }

  lemma NothingCorrected(net: Network, blocks: seq<Block>, before: Db, start: int)
    requires 0 <= start
    ensures Corrected(net, blocks, before, start, {}) == before
  {
  }

  lemma CorrectOne(net: Network, blocks: seq<Block>, before: Db, start: int, done: set<string>, e: SpentTicket)
    requires 0 <= start && WellFiled(before) && EntryOf(net, blocks, before, IsRevoked, start, e)
    ensures var o := Classify(e.heightSpent, e.expiryHeight, e.spendingTx);
            Corrected(net, blocks, before, start, done + {e.dbTicket.hash})
            == if e.spendingTx.isVote then Corrected(net, blocks, before, start, done)
               else Corrected(net, blocks, before, start, done)[e.dbTicket.hash := Normalise(e.dbTicket.(outcome := o))]
    ensures e.dbTicket.hash in Corrected(net, blocks, before, start, done)
  {
    var h := e.dbTicket.hash;
    var o := Classify(e.heightSpent, e.expiryHeight, e.spendingTx);
    assert ScanOutcome(net, blocks, before[h], start, |blocks| - 1) == o;
    ExpiredWindow(e.heightSpent, e.expiryHeight, e.spendingTx);
    assert e.spendingTx.isVote <==> o == Voted;
    hide ScanOutcome, FirstSpend, Classify;
  }

  lemma AllCorrected(net: Network, blocks: seq<Block>, before: Db, start: int, done: set<string>, broken: set<string>)
    requires 0 <= start
    requires forall h | h in before && IsRevoked(before[h]) && Decodable(net, before[h])
                        && FirstSpend(blocks, HashOf(net, before[h]), start, |blocks| - 1).Some? :: h in done
    ensures Corrected(net, blocks, before, start, done - broken)
            == Corrected(net, blocks, before, start, before.Keys - broken)
  {
  }

  lemma MatureIsListed(net: Network, node: Node, db: Db)
    ensures ShouldCheck(net, node, db) ==> Matching(db, IsRevoked) != {}
  {
    if ShouldCheck(net, node, db) {
      var h :| h in db && IsRevoked(db[h]) && 0 < db[h].purchaseHeight < |node.blocks| - net.ticketMaturity;
      assert h in Matching(db, IsRevoked);
    }
  }

  lemma RevokedFacts(net: Network, node: Node, db: Db, ts: seq<Ticket>, start: int)
    requires Lists(db, IsRevoked, ts) && StartsEarly(net, ts, start)
             && ((forall t | t in ts :: t.purchaseHeight >= 0) ==> 0 <= start)
    requires AllDecodable(net, ts) <==> forall h | h in db && IsRevoked(db[h]) :: Decodable(net, db[h])
    ensures StartsByMaturity(net, db, IsRevoked, start)
    ensures ShouldCheck(net, node, db) ==> node.down == {} && AllDecodable(net, ts) && 0 <= start < |node.blocks|
  {
    EarliestStart(net, node, db, IsRevoked, ts, start);
    hide Decodable, Lists, StartsEarly, SomeMature, IsRevoked;
  }

  /** A successful check gives every revoked ticket the outcome of a full scan, if it
      is missed or expired by that scan, and leaves it revoked otherwise. */
  lemma CheckGivesFullOutcome(net: Network, blocks: seq<Block>, before: Db, start: int, broken: set<string>, h: string)
    requires 0 <= start <= |blocks| && StartsByMaturity(net, before, IsRevoked, start)
    requires h in before && IsRevoked(before[h]) && h !in broken && before[h].purchaseHeight != 0
    requires Decodable(net, before[h])
             && UnspentBelow(net, blocks, before[h], before[h].purchaseHeight + net.ticketMaturity)
    ensures var after, o := Corrected(net, blocks, before, start, before.Keys - broken),
            FullOutcome(net, blocks, before[h]);
            h in after && after[h] == before[h].(outcome := if o in {Missed, Expired} then o else Revoked)
  {
    var t := before[h];
    FirstSpendFrom(blocks, HashOf(net, t), 0, start, |blocks| - 1);
    hide FirstSpend, Classify;
  }

  class Vspm {
    /** The most recent block scanned for spent tickets; zero before the first scan. */
    var lastScannedBlock: int
    const db: TicketStore

    constructor (db: TicketStore)
      ensures this.db == db && lastScannedBlock == 0
    {
      this.db := db;
      lastScannedBlock := 0;
    }

    /** setOutcomes. `cancelAfter` is how many outcomes are handled before the
        context is found cancelled, if it ever is. */
    method SetOutcomes(net: Network, node: Node, cancelAfter: Option<nat>)
      returns (ghost scanned: bool, ghost start: int, ghost written: set<string>)
      requires db.Valid() && node.blocks != [] && 0 <= lastScannedBlock
      requires forall h | h in db.tickets :: FilterFinds(net, node.blocks, db.tickets[h])
      modifies this, db`tickets
      ensures db.Valid()
      ensures !scanned ==> db.tickets == old(db.tickets) && lastScannedBlock == old(lastScannedBlock)
      ensures scanned ==>
                && 0 <= start < |node.blocks| && lastScannedBlock == |node.blocks| - 1
                && DecodableVotable(net, old(db.tickets))
                && written <= Matching(old(db.tickets), Votable)
                && db.tickets == Recorded(net, node.blocks, old(db.tickets), start, written)
                && (cancelAfter == None ==> WrittenAll(net, node.blocks, old(db.tickets), start, written, db.broken))
      ensures scanned ==> Covers(net, old(db.tickets), old(lastScannedBlock), start)
      ensures scanned && old(lastScannedBlock) != 0 ==> start == old(lastScannedBlock)
      ensures scanned && old(lastScannedBlock) == 0 ==>
                IsMaturity(net, old(db.tickets), Votable, start)
      ensures scanned ==>
                && db.tickets.Keys == old(db.tickets).Keys
                && forall h | h in old(db.tickets) && db.tickets[h] != old(db.tickets)[h] ::
                     MetFate(net, node.blocks, start, old(db.tickets)[h], db.tickets[h])
      ensures scanned && cancelAfter == None ==>
                forall h | h in old(db.tickets) && old(db.tickets)[h].feeTxStatus == FeeConfirmed
                           && h in db.tickets && db.tickets[h].outcome == Unspent && h !in db.broken ::
                  KnownUnspent(net, node.blocks, start, old(db.tickets)[h])
      ensures ShouldScan(net, node, old(db.tickets), old(lastScannedBlock)) ==> scanned
      ensures scanned && cancelAfter == None && db.broken == {} ==>
                Scan(net, ScanState(node.blocks, old(lastScannedBlock), old(db.tickets)),
                     ScanState(node.blocks, lastScannedBlock, db.tickets))
    {
      hide WellFiled, DecodableVotable, Recorded, Votable, Scan, Covers, StartsEarly, WrittenAll, FilterFinds,
           NoFalseNegatives, AllDecodable, Decodable, HashOf, FirstSpend, NaiveScan, EntryOf, Lists,
           MetFate, KnownUnspent, DistinctHashes, Matching, StartsAtMaturity, IsMaturity;
      scanned, start, written := false, 0, {};
      ghost var before := db.tickets;
      var votable := db.FilterTickets(Votable);
      ListFacts(net, before, Votable, votable, node.blocks);
      if |votable| == 0 {
        return;
      }
      var go, startHeight := StartHeight(net, node, votable);
      StartHeightFacts(net, node, before, votable, lastScannedBlock, startHeight);
      if !go {
        return;
      }
      if lastScannedBlock == 0 {
        MaturityOfListed(net, before, Votable, votable, startHeight);
      }
      var result := FindSpentTickets(net, node, votable, startHeight);
      if result.ScanFailed? {
        return;
      }
      scanned, start := true, startHeight;
      written := RecordScan(net, node.blocks, votable, startHeight, result, cancelAfter);
    }

    /** internal/vspm/update.go:321-349. */
    method RecordScan(net: Network, ghost blocks: seq<Block>, ghost votable: seq<Ticket>, ghost start: int,
                      result: ScanResult, cancelAfter: Option<nat>)
      returns (ghost written: set<string>)
      requires db.Valid() && Lists(db.tickets, Votable, votable) && AllDecodable(net, votable)
      requires result.Scanned? && 0 <= start < |blocks| && result.endHeight == |blocks| - 1
      requires multiset(result.spent) == multiset(NaiveScan(net, blocks, votable, start, |blocks| - 1))
      requires Covers(net, db.tickets, lastScannedBlock, start)
      modifies this, db`tickets
      ensures db.Valid() && lastScannedBlock == |blocks| - 1
      ensures written <= Matching(old(db.tickets), Votable)
      ensures db.tickets == Recorded(net, blocks, old(db.tickets), start, written)
      ensures cancelAfter == None ==> WrittenAll(net, blocks, old(db.tickets), start, written, db.broken)
      ensures && db.tickets.Keys == old(db.tickets).Keys
              && forall h | h in old(db.tickets) && db.tickets[h] != old(db.tickets)[h] ::
                   MetFate(net, blocks, start, old(db.tickets)[h], db.tickets[h])
      ensures cancelAfter == None ==>
                forall h | h in old(db.tickets) && old(db.tickets)[h].feeTxStatus == FeeConfirmed
                           && h in db.tickets && db.tickets[h].outcome == Unspent && h !in db.broken ::
                  KnownUnspent(net, blocks, start, old(db.tickets)[h])
      ensures cancelAfter == None && db.broken == {} ==>
                Scan(net, ScanState(blocks, old(lastScannedBlock), old(db.tickets)),
                     ScanState(blocks, lastScannedBlock, db.tickets))
    {
      hide WellFiled, Recorded, Votable, Scan, Covers, WrittenAll, AllDecodable, Decodable, HashOf, FirstSpend,
           NaiveScan, EntryOf, Lists;
      ghost var before, last := db.tickets, lastScannedBlock;
      lastScannedBlock := result.endHeight;
      EntriesFromScan(net, before, Votable, votable, blocks, start, result.spent);
      written := RecordOutcomes(net, blocks, start, result.spent, cancelAfter);
      EntriesWritten(net, blocks, before, start, result.spent, written, db.broken);
      IsScan(net, blocks, last, before, start, written);
      AllVotableDecode(net, before, votable);
      RecordedMeans(net, blocks, before, start, written, db.broken);
    }

    /** internal/vspm/update.go:285-308: where to start, and whether there is
        anything to scan yet. */
    method StartHeight(net: Network, node: Node, votable: seq<Ticket>) returns (go: bool, startHeight: int)
      requires node.blocks != [] && votable != []
      ensures lastScannedBlock != 0 ==> go && startHeight == lastScannedBlock
      ensures lastScannedBlock == 0 ==> StartsEarly(net, votable, startHeight)
      ensures lastScannedBlock == 0 ==> StartsAtMaturity(net, votable, startHeight)
      ensures lastScannedBlock == 0 && (forall t | t in votable :: t.purchaseHeight >= 0) ==> 0 <= startHeight
      ensures go <==> lastScannedBlock != 0 || (BlockCount !in node.down && startHeight < |node.blocks|)
    {
      startHeight := lastScannedBlock;
      if lastScannedBlock == 0 {
        var earliest := EarliestPurchaseHeight(votable);
        startHeight := earliest + net.ticketMaturity;
        if BlockCount in node.down {
          return false, startHeight;
        }
        var bestBlock := |node.blocks| - 1;
        if startHeight > bestBlock {
          return false, startHeight;
        }
      }
      go := true;
    }

    /** checkRevoked: revoked tickets become missed or expired; one that voted is
        reported and left alone. The scan cursor is not involved. */
    method CheckRevoked(net: Network, node: Node) returns (ok: bool, ghost start: int)
      requires db.Valid() && node.blocks != []
      requires forall h | h in db.tickets :: FilterFinds(net, node.blocks, db.tickets[h])
      modifies db`tickets
      ensures db.Valid() && 0 <= start
      ensures !ok ==> db.tickets == old(db.tickets)
      ensures ok && Matching(old(db.tickets), IsRevoked) != {} ==>
                && start < |node.blocks| && StartsByMaturity(net, old(db.tickets), IsRevoked, start)
                && db.tickets == Corrected(net, node.blocks, old(db.tickets), start, old(db.tickets).Keys - db.broken)
      ensures Matching(old(db.tickets), IsRevoked) == {} ==> ok && db.tickets == old(db.tickets)
      ensures && db.tickets.Keys == old(db.tickets).Keys
              && forall h | h in old(db.tickets) && db.tickets[h] != old(db.tickets)[h] ::
                   Revised(net, node.blocks, start, old(db.tickets)[h], db.tickets[h])
      ensures ok ==>
                forall h | h in db.tickets && db.tickets[h].outcome == Revoked && h !in db.broken ::
                  && h in old(db.tickets)
                  && (KnownUnspent(net, node.blocks, start, old(db.tickets)[h])
                      || HasFate(net, node.blocks, old(db.tickets)[h], start, Voted))
      ensures ShouldCheck(net, node, old(db.tickets)) ==> ok && Matching(old(db.tickets), IsRevoked) != {}
    {
      hide WellFiled, Corrected, IsRevoked, FilterFinds, NoFalseNegatives, AllDecodable, Decodable, HashOf, FirstSpend,
           NaiveScan, EntryOf, Lists, ShouldCheck, SomeMature, StartsByMaturity, StartsEarly, Revised, KnownUnspent,
           HasFate, Matching, StartsAtMaturity, DistinctHashes;
      MatureIsListed(net, node, db.tickets);
      ok, start := true, 0;
      ghost var before := db.tickets;
      var revoked := db.FilterTickets(IsRevoked);
      ListFacts(net, before, IsRevoked, revoked, node.blocks);
      if |revoked| == 0 {
        NoneRevoked(before);
        return;
      }
      var startHeight := RevokedStart(net, revoked);
      RevokedFacts(net, node, before, revoked, startHeight);
      var result := FindSpentTickets(net, node, revoked, startHeight);
      if result.ScanFailed? {
        return false, 0;
      }
      start := startHeight;
      FixRevoked(net, node.blocks, revoked, startHeight, result.spent);
      AllRevokedDecode(net, before, revoked);
      CorrectedMeans(net, node.blocks, before, startHeight, before.Keys - db.broken);
    }

    /** internal/vspm/databaseintegrity.go:109-127. */
    method FixRevoked(net: Network, ghost blocks: seq<Block>, ghost revoked: seq<Ticket>, ghost start: int,
                      spent: seq<SpentTicket>)
      requires db.Valid() && Lists(db.tickets, IsRevoked, revoked) && AllDecodable(net, revoked)
               && 0 <= start < |blocks|
      requires multiset(spent) == multiset(NaiveScan(net, blocks, revoked, start, |blocks| - 1))
      modifies db`tickets
      ensures db.Valid()
      ensures db.tickets == Corrected(net, blocks, old(db.tickets), start, old(db.tickets).Keys - db.broken)
    {
      hide WellFiled, Corrected, IsRevoked, AllDecodable, Decodable, NaiveScan, EntryOf, Lists, FirstSpend, HashOf;
      ghost var before := db.tickets;
      EntriesFromScan(net, before, IsRevoked, revoked, blocks, start, spent);
      ghost var done: set<string> := {};
      NothingCorrected(net, blocks, before, start);
      assert done - db.broken == {};
      for i := 0 to |spent|
        invariant db.Valid() && before == old(db.tickets)
        invariant db.tickets == Corrected(net, blocks, before, start, done - db.broken)
        invariant forall j | 0 <= j < i :: spent[j].dbTicket.hash in done
      {
        var entry := spent[i];
        var dbTicket := entry.dbTicket;
        CorrectOne(net, blocks, before, start, done - db.broken, entry);
        assert (done + {dbTicket.hash}) - db.broken
            == if dbTicket.hash in db.broken then done - db.broken else (done - db.broken) + {dbTicket.hash};
        if !entry.spendingTx.isVote {
          var outcome := if RevokedAsMissed(entry.heightSpent, entry.expiryHeight) then Missed else Expired;
          var written := db.UpdateTicket(dbTicket.(outcome := outcome));
        }
        done := done + {dbTicket.hash};
      }
      AllCorrected(net, blocks, before, start, done, db.broken);
    }

    /** internal/vspm/databaseintegrity.go:98. */
    method RevokedStart(net: Network, revoked: seq<Ticket>) returns (startHeight: int)
      ensures StartsEarly(net, revoked, startHeight) && StartsAtMaturity(net, revoked, startHeight)
      ensures (forall t | t in revoked :: t.purchaseHeight >= 0) ==> 0 <= startHeight
    {
      var earliest := EarliestPurchaseHeight(revoked);
      startHeight := earliest + net.ticketMaturity;
    }

    /** internal/vspm/update.go:323-349. */
    method RecordOutcomes(net: Network, ghost blocks: seq<Block>, ghost start: int,
                          spent: seq<SpentTicket>, cancelAfter: Option<nat>)
      returns (ghost written: set<string>)
      requires db.Valid() && 0 <= start < |blocks|
      requires forall i | 0 <= i < |spent| :: EntryOf(net, blocks, db.tickets, Votable, start, spent[i])
      modifies db`tickets
      ensures db.Valid()
      ensures written <= Matching(old(db.tickets), Votable)
      ensures db.tickets == Recorded(net, blocks, old(db.tickets), start, written)
      ensures cancelAfter == None ==>
                forall i | 0 <= i < |spent| :: spent[i].dbTicket.hash in written || spent[i].dbTicket.hash in db.broken
    {
      hide WellFiled, Recorded, EntryOf, Matching;
      written := {};
      ghost var before := db.tickets;
      NothingRecorded(net, blocks, before, start);
      for i := 0 to |spent|
        invariant db.Valid() && before == old(db.tickets)
        invariant written <= Matching(before, Votable)
        invariant db.tickets == Recorded(net, blocks, before, start, written)
        invariant forall j | 0 <= j < i :: spent[j].dbTicket.hash in written || spent[j].dbTicket.hash in db.broken
      {
        if cancelAfter == Some(i) {
          return;
        }
        var entry := spent[i];
        var dbTicket := entry.dbTicket;
        var outcome := Expired;
        if entry.spendingTx.isVote {
          outcome := Voted;
        } else if RevokedAsMissed(entry.heightSpent, entry.expiryHeight) {
          outcome := Missed;
        }
        RecordOne(net, blocks, before, start, written, entry, outcome);
        var ok := db.UpdateTicket(dbTicket.(outcome := outcome));
        if ok {
          written := written + {dbTicket.hash};
        }
      }
    }
  }

  // ------------------------------------------------------ scanning over runs

  /** `last` is lastScannedBlock, zero again after every restart. */
  datatype ScanState = ScanState(blocks: seq<Block>, last: int, db: Db)

  /** The chain does not spend a ticket before it is mature. */
  ghost predicate MatureBeforeSpent(net: Network, blocks: seq<Block>, t: Ticket)
    requires Decodable(net, t)
  {
    UnspentBelow(net, blocks, t, t.purchaseHeight + net.ticketMaturity)
  }

  /** A ticket may join the votable ones when it has a purchase height, is not
      spent immature, and is unspent below the block the next scan starts from. */
  ghost predicate Admissible(net: Network, s: ScanState, t: Ticket)
  {
    && Votable(t) && Decodable(net, t) && t.purchaseHeight > 0
    && MatureBeforeSpent(net, s.blocks, t)
    && UnspentBelow(net, s.blocks, t, s.last)
  }

  /** A tracked ticket stays as it is in everything the scan depends on. */
  ghost predicate SameFate(t: Ticket, u: Ticket)
  {
    && u.hash == t.hash && u.commitmentAddress == t.commitmentAddress && u.purchaseHeight == t.purchaseHeight
    && u.feeTxStatus == t.feeTxStatus && u.outcome == t.outcome
  }

  /** New blocks on top of the old ones. */
  ghost predicate Extend(net: Network, s: ScanState, s': ScanState)
  {
    && s.blocks <= s'.blocks && s' == s.(blocks := s'.blocks)
    && forall h | h in s.db && FeeIsConfirmed(s.db[h]) && Decodable(net, s.db[h]) ::
         MatureBeforeSpent(net, s'.blocks, s.db[h])
  }

  /** Anything the rest of the daemon does to the database between scans. */
  ghost predicate Background(net: Network, s: ScanState, s': ScanState)
  {
    && s' == s.(db := s'.db)
    && forall h | h in s'.db && FeeIsConfirmed(s'.db[h]) ::
         || (h in s.db && SameFate(s.db[h], s'.db[h]))
         || Admissible(net, s, s'.db[h])
  }

  ghost predicate Restart(s: ScanState, s': ScanState)
  {
    s' == s.(last := 0)
  }

  /** A scan that went through: what SetOutcomes promises when no write failed. */
  ghost predicate Scan(net: Network, s: ScanState, s': ScanState)
  {
    exists start: int, written: set<string> | 0 <= start < |s.blocks| ::
      && written <= Matching(s.db, Votable)
      && WrittenAll(net, s.blocks, s.db, start, written, {})
      && Covers(net, s.db, s.last, start)
      && s' == ScanState(s.blocks, |s.blocks| - 1, Recorded(net, s.blocks, s.db, start, written))
  }

  lemma IsScan(net: Network, blocks: seq<Block>, last: int, before: Db, start: int, written: set<string>)
    requires 0 <= start < |blocks| && written <= Matching(before, Votable)
    requires Covers(net, before, last, start)
    ensures WrittenAll(net, blocks, before, start, written, {}) ==>
              Scan(net, ScanState(blocks, last, before),
                   ScanState(blocks, |blocks| - 1, Recorded(net, blocks, before, start, written)))
  {
    hide WrittenAll, Recorded;
  }

  ghost predicate Next(net: Network, s: ScanState, s': ScanState)
  {
    Extend(net, s, s') || Background(net, s, s') || Restart(s, s') || Scan(net, s, s')
  }

  /** Tickets with an outcome have the one a full scan gives; votable tickets are
      unspent below the scan cursor. */
  ghost predicate ScanInv(net: Network, s: ScanState)
  {
    && 0 <= s.last < |s.blocks|
    && forall h | h in s.db && FeeIsConfirmed(s.db[h]) :: TicketInv(net, s.blocks, s.last, s.db[h])
  }

  ghost predicate TicketInv(net: Network, blocks: seq<Block>, last: int, t: Ticket)
  {
    && Decodable(net, t) && t.purchaseHeight > 0 && MatureBeforeSpent(net, blocks, t)
    && if t.outcome == Unspent then UnspentBelow(net, blocks, t, last) else t.outcome == FullOutcome(net, blocks, t)
  }

  lemma OutcomeIsNotUnspent(net: Network, blocks: seq<Block>, t: Ticket)
    requires Decodable(net, t)
    ensures FullOutcome(net, blocks, t) != Unspent <==> FirstSpend(blocks, HashOf(net, t), 0, |blocks| - 1).Some?
  {
  }

  lemma ExtendKeeps(net: Network, s: ScanState, s': ScanState)
    requires ScanInv(net, s) && Extend(net, s, s')
    ensures ScanInv(net, s')
  {
    forall h | h in s.db && FeeIsConfirmed(s.db[h]) ensures TicketInv(net, s'.blocks, s.last, s.db[h]) {
      var t := s.db[h];
      assert TicketInv(net, s.blocks, s.last, t);
      assert forall k | 0 <= k < |s.blocks| :: s.blocks[k] == s'.blocks[k];
      if t.outcome != Unspent {
        OutcomeIsNotUnspent(net, s.blocks, t);
        FirstSpendStable(s.blocks, s'.blocks, HashOf(net, t), 0);
      }
      hide FirstSpend, SpentIn, Classify;
    }
  }

  lemma BackgroundKeeps(net: Network, s: ScanState, s': ScanState)
    requires ScanInv(net, s) && Background(net, s, s')
    ensures ScanInv(net, s')
  {
    hide FirstSpend, SpentIn, Classify;
    forall h | h in s'.db && FeeIsConfirmed(s'.db[h]) ensures TicketInv(net, s.blocks, s.last, s'.db[h]) {
      if h in s.db && SameFate(s.db[h], s'.db[h]) {
        assert TicketInv(net, s.blocks, s.last, s.db[h]);
      }
    }
  }

  lemma RestartKeeps(net: Network, s: ScanState, s': ScanState)
    requires ScanInv(net, s) && Restart(s, s')
    ensures ScanInv(net, s')
  {
    assert forall h | h in s.db && FeeIsConfirmed(s.db[h]) :: TicketInv(net, s.blocks, s.last, s.db[h]);
  }

  /** After a scan every fee-confirmed ticket has exactly the outcome a scan of
      the whole chain would give it. */
  ghost predicate UpToDate(net: Network, s: ScanState)
  {
    forall h | h in s.db && FeeIsConfirmed(s.db[h]) :: s.db[h].outcome == FullOutcome(net, s.blocks, s.db[h])
  }

  lemma ScanBringsUpToDate(net: Network, s: ScanState, s': ScanState)
    requires ScanInv(net, s) && Scan(net, s, s')
    ensures ScanInv(net, s') && UpToDate(net, s')
    ensures forall h | h in s'.db && FeeIsConfirmed(s'.db[h]) :: TrueToChain(net, s'.blocks, s'.db[h])
  {
    var start: int, written: set<string> :| 0 <= start < |s.blocks|
      && written <= Matching(s.db, Votable)
      && WrittenAll(net, s.blocks, s.db, start, written, {})
      && Covers(net, s.db, s.last, start)
      && s' == ScanState(s.blocks, |s.blocks| - 1, Recorded(net, s.blocks, s.db, start, written));
    hide Covers, WrittenAll, TicketInv, FullOutcome, ScanOutcome, TrueToChain, Matching;
    forall h | h in s'.db && FeeIsConfirmed(s'.db[h])
      ensures TicketInv(net, s'.blocks, s'.last, s'.db[h])
              && s'.db[h].outcome == FullOutcome(net, s'.blocks, s'.db[h]) && TrueToChain(net, s'.blocks, s'.db[h])
    {
      RecordScanned(net, s, start, written, h);
      FullOutcomeMeans(net, s'.blocks, s'.db[h]);
    }
  }

  lemma RecordScanned(net: Network, s: ScanState, start: int, written: set<string>, h: string)
    requires 0 <= s.last < |s.blocks| && 0 <= start < |s.blocks| && written <= Matching(s.db, Votable)
    requires WrittenAll(net, s.blocks, s.db, start, written, {}) && Covers(net, s.db, s.last, start)
    requires h in s.db && FeeIsConfirmed(s.db[h]) && TicketInv(net, s.blocks, s.last, s.db[h])
    ensures var u := Recorded(net, s.blocks, s.db, start, written)[h];
            && TicketInv(net, s.blocks, |s.blocks| - 1, u) && u.outcome == FullOutcome(net, s.blocks, u)
            && Decodable(net, u)
  {
    TicketScanned(net, s.blocks, s.last, start, s.db[h], h in written);
    hide FirstSpend, FullOutcome, ScanOutcome, MatureBeforeSpent, UnspentBelow;
  }

  /** The record says of its ticket what the whole chain says: never spent, or its
      first spender a vote, or a revocation in the expiry window or out of it. */
  ghost predicate TrueToChain(net: Network, blocks: seq<Block>, t: Ticket)
  {
    if t.outcome == Unspent then KnownUnspent(net, blocks, 0, t) else HasFate(net, blocks, t, 0, t.outcome)
  }

  /** Having the outcome of a full scan is being true to the chain. */
  lemma FullOutcomeMeans(net: Network, blocks: seq<Block>, t: Ticket)
    requires Decodable(net, t)
    ensures t.outcome == FullOutcome(net, blocks, t) <==> TrueToChain(net, blocks, t)
  {
    OutcomeIsFate(net, blocks, t, 0);
    hide ScanOutcome, HasFate, NeverSpent;
    var o := FullOutcome(net, blocks, t);
    if t.outcome != Unspent && HasFate(net, blocks, t, 0, t.outcome) {
      SpentNotNever(net, blocks, t, t.outcome);
      FateIsUnique(net, blocks, t, 0, t.outcome, o);
    }
  }

  lemma SpentNotNever(net: Network, blocks: seq<Block>, t: Ticket, o: Outcome)
    requires HasFate(net, blocks, t, 0, o)
    ensures !NeverSpent(blocks, net.parseHash(t.hash).value, 0, |blocks| - 1)
  {
  }

  lemma TicketScanned(net: Network, blocks: seq<Block>, last: int, start: int, t: Ticket, written: bool)
    requires 0 <= last < |blocks| && 0 <= start < |blocks|
    requires FeeIsConfirmed(t) && TicketInv(net, blocks, last, t)
    requires last != 0 ==> start == last
    requires last == 0 && Votable(t) ==> start <= t.purchaseHeight + net.ticketMaturity
    requires written ==> Votable(t)
    requires Votable(t) && FirstSpend(blocks, HashOf(net, t), start, |blocks| - 1).Some? ==> written
    ensures var after := if written then t.(outcome := ScanOutcome(net, blocks, t, start, |blocks| - 1)) else t;
            TicketInv(net, blocks, |blocks| - 1, after) && after.outcome == FullOutcome(net, blocks, after)
  {
    if Votable(t) {
      assert UnspentBelow(net, blocks, t, start);
      FirstSpendFrom(blocks, HashOf(net, t), 0, start, |blocks| - 1);
      FirstSpendIsLeast(blocks, HashOf(net, t), 0, |blocks| - 1);
      OutcomeIsNotUnspent(net, blocks, t);
    }
    hide FirstSpend, SpentIn;
  }

  ghost predicate IsRun(net: Network, run: seq<ScanState>)
  {
    forall i | 0 <= i < |run| - 1 :: Next(net, run[i], run[i + 1])
  }

  /** One scan, one ticket: an incremental scan gives a votable ticket the outcome
      of a full scan exactly when the ticket was not spent below the cursor. A
      ticket whose fee confirms after it was spent is missed until a restart. */
  lemma ScanRightIff(net: Network, s: ScanState, s': ScanState, h: string)
    requires 0 < s.last < |s.blocks| && Scan(net, s, s')
    requires h in s.db && Votable(s.db[h]) && Decodable(net, s.db[h])
    requires forall i, j | 0 <= i < j < |s.blocks| ::
               !(SpentIn(s.blocks[i], HashOf(net, s.db[h])) && SpentIn(s.blocks[j], HashOf(net, s.db[h])))
    ensures h in s'.db
    ensures s'.db[h].outcome == FullOutcome(net, s.blocks, s.db[h]) <==> UnspentBelow(net, s.blocks, s.db[h], s.last)
  {
    var t := s.db[h];
    ScanRightIffUnspentBelow(net, s.blocks, t, s.last);
    hide SpentIn, FirstSpend, UnspentBelow;
  }

  /** Such a ticket: bought at height 1, its vote at height 2 never seen, because
      its fee confirmed when block 3 had been scanned. */
  lemma LateTicketIsMissed(t: Ticket, s': ScanState)
    requires Votable(t) && t.purchaseHeight == 1
    ensures var net := Network(1, 1, (_: string) => Some(""), (text: string) => Some(text));
            var vote := Tx([OutPoint(t.hash, 0)], true);
            var blocks := [Block([], {}), Block([], {}), Block([vote], {""}), Block([], {})];
            var s := ScanState(blocks, 3, map[t.hash := t]);
            && FilterFinds(net, blocks, t) && MatureBeforeSpent(net, blocks, t)
            && FullOutcome(net, blocks, t) == Voted
            && (Scan(net, s, s') ==> t.hash in s'.db && s'.db[t.hash].outcome != Voted)
  {
    var net := Network(1, 1, (_: string) => Some(""), (text: string) => Some(text));
    var vote := Tx([OutPoint(t.hash, 0)], true);
    var blocks := [Block([], {}), Block([], {}), Block([vote], {""}), Block([], {})];
    var s := ScanState(blocks, 3, map[t.hash := t]);
    assert SpentIn(blocks[2], t.hash);
    assert FullOutcome(net, blocks, t) == Voted;
    if Scan(net, s, s') {
      ScanRightIff(net, s, s', t.hash);
    }
  }

  /** Incremental scanning equals full scanning, over any run: blocks arriving,
      tickets joining and leaving, restarts and scans in any order. */
  lemma {:induction false} IncrementalEqualsFull(net: Network, run: seq<ScanState>)
    requires run != [] && IsRun(net, run) && ScanInv(net, run[0])
    ensures ScanInv(net, run[|run| - 1])
    ensures |run| > 1 && Scan(net, run[|run| - 2], run[|run| - 1]) ==> UpToDate(net, run[|run| - 1])
  {
    if |run| > 1 {
      var last := |run| - 1;
      IncrementalEqualsFull(net, run[..last]);
      var s, s' := run[last - 1], run[last];
      assert Next(net, s, s');
      if Scan(net, s, s') {
        ScanBringsUpToDate(net, s, s');
      } else if Extend(net, s, s') {
        ExtendKeeps(net, s, s');
      } else if Background(net, s, s') {
        BackgroundKeeps(net, s, s');
      } else {
        RestartKeeps(net, s, s');
      }
    }
  }
}
