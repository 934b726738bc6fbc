/** The spend scanner of internal/vspm/spentticket.go. The chain is a sequence of
    blocks indexed by height; the node answers from it or fails. */
module Scanner {
  import opened Encoding
  import opened Tickets

  datatype OutPoint = OutPoint(hash: string, index: nat)

  /** `isVote` is stake.IsSSGen; a ticket is otherwise spent by a revocation. */
  datatype Tx = Tx(inputs: seq<OutPoint>, isVote: bool)

  /** `filter` is the set of scripts the block's committed filter reports as
      present, false positives included. */
  datatype Block = Block(stakeTxs: seq<Tx>, filter: set<string>)

  /** `script` decodes an address to its payment script and `parseHash` a ticket
      hash; both fail on malformed text. */
  datatype Network = Network(
    ticketMaturity: nat,
    ticketExpiry: nat,
    script: string -> Option<string>,
    parseHash: string -> Option<string>)

  datatype Call = BlockCount | BlockHash(height: int) | BlockHeader(height: int)
                | CFilter(height: int) | WholeBlock(height: int) | Context(height: int)

  /** `down` lists the calls that fail; Context(h) means the context is found
      cancelled when the scan reaches height h. */
  datatype Node = Node(blocks: seq<Block>, down: set<Call>)

  datatype SpentTicket = SpentTicket(dbTicket: Ticket, expiryHeight: int, heightSpent: int, spendingTx: Tx)

  datatype ScanResult = Scanned(spent: seq<SpentTicket>, endHeight: int) | ScanFailed

  datatype TicketTuple = TicketTuple(dbTicket: Ticket, hash: string)

  // ------------------------------------------------- the naive specification

  ghost predicate TxSpends(tx: Tx, hash: string)
  {
    OutPoint(hash, 0) in tx.inputs
  }

  /** The first transaction of a block that spends the ticket. */
  ghost function FirstSpender(txs: seq<Tx>, hash: string): Option<Tx>
  {
    if txs == [] then None
    else if TxSpends(txs[0], hash) then Some(txs[0])
    else FirstSpender(txs[1..], hash)
  }

  ghost predicate SpentIn(b: Block, hash: string)
  {
    FirstSpender(b.stakeTxs, hash).Some?
  }

  /** The least height in [lo, hi] with a spender, and the first spender there. */
  ghost function FirstSpend(blocks: seq<Block>, hash: string, lo: int, hi: int): Option<(int, Tx)>
    requires 0 <= lo && hi < |blocks|
    decreases hi - lo
  {
    if lo > hi then None
    else
      match FirstSpender(blocks[lo].stakeTxs, hash)
      case Some(tx) => Some((lo, tx))
      case None => FirstSpend(blocks, hash, lo + 1, hi)
  }

  lemma {:induction false} FirstSpendIsLeast(blocks: seq<Block>, hash: string, lo: int, hi: int)
    requires 0 <= lo && hi < |blocks|
    ensures var r := FirstSpend(blocks, hash, lo, hi);
            && (r.Some? ==> lo <= r.value.0 <= hi
                            && FirstSpender(blocks[r.value.0].stakeTxs, hash) == Some(r.value.1)
                            && forall h | lo <= h < r.value.0 :: !SpentIn(blocks[h], hash))
            && (r.None? ==> forall h | lo <= h <= hi :: !SpentIn(blocks[h], hash))
    decreases hi - lo
  {
    if lo <= hi && FirstSpender(blocks[lo].stakeTxs, hash).None? {
      FirstSpendIsLeast(blocks, hash, lo + 1, hi);
    }
  }

  /** A block has a spender exactly when some transaction of it has the ticket as an
      input. */
  lemma {:induction false} SpenderFacts(txs: seq<Tx>, hash: string) returns (j: nat)
    ensures FirstSpender(txs, hash).None? <==> forall k | 0 <= k < |txs| :: OutPoint(hash, 0) !in txs[k].inputs
    ensures FirstSpender(txs, hash).Some? ==>
              && j < |txs| && txs[j] == FirstSpender(txs, hash).value && OutPoint(hash, 0) in txs[j].inputs
              && forall k | 0 <= k < j :: OutPoint(hash, 0) !in txs[k].inputs
  {
    j := 0;
    if txs != [] && !TxSpends(txs[0], hash) {
      var i := SpenderFacts(txs[1..], hash);
      j := i + 1;
      assert forall k | 0 < k < |txs| :: txs[k] == txs[1..][k - 1];
    }
  }

  /** The transaction at (height, j) has the ticket as an input, and none before it
      in the scanned range has. */
  ghost predicate SpentFirstAt(blocks: seq<Block>, hash: string, lo: int, height: int, j: int)
    requires 0 <= lo <= height < |blocks|
  {
    && 0 <= j < |blocks[height].stakeTxs| && OutPoint(hash, 0) in blocks[height].stakeTxs[j].inputs
    && (forall k | 0 <= k < j :: OutPoint(hash, 0) !in blocks[height].stakeTxs[k].inputs)
    && forall h, k | lo <= h < height && 0 <= k < |blocks[h].stakeTxs| ::
         OutPoint(hash, 0) !in blocks[h].stakeTxs[k].inputs
  }

  ghost predicate NeverSpent(blocks: seq<Block>, hash: string, lo: int, hi: int)
    requires 0 <= lo && hi < |blocks|
  {
    forall h, k | lo <= h <= hi && 0 <= k < |blocks[h].stakeTxs| :: OutPoint(hash, 0) !in blocks[h].stakeTxs[k].inputs
  }

  /** What the specified spend is, on inputs and outputs alone. */
  lemma FirstSpendFacts(blocks: seq<Block>, hash: string, lo: int, hi: int) returns (j: nat)
    requires 0 <= lo && hi < |blocks|
    ensures FirstSpend(blocks, hash, lo, hi).Some? ==>
              var p := FirstSpend(blocks, hash, lo, hi).value;
              lo <= p.0 <= hi && j < |blocks[p.0].stakeTxs|
    ensures var r := FirstSpend(blocks, hash, lo, hi);
            && (r.None? <==> NeverSpent(blocks, hash, lo, hi))
            && (r.Some? ==> lo <= r.value.0 <= hi && SpentFirstAt(blocks, hash, lo, r.value.0, j)
                            && blocks[r.value.0].stakeTxs[j] == r.value.1)
  {
    FirstSpendIsLeast(blocks, hash, lo, hi);
    hide FirstSpend;
    j := 0;
    forall h | lo <= h <= hi
      ensures !SpentIn(blocks[h], hash) <==>
              forall k | 0 <= k < |blocks[h].stakeTxs| :: OutPoint(hash, 0) !in blocks[h].stakeTxs[k].inputs
    {
      var i := SpenderFacts(blocks[h].stakeTxs, hash);
    }
    var r := FirstSpend(blocks, hash, lo, hi);
    if r.Some? {
      j := SpenderFacts(blocks[r.value.0].stakeTxs, hash);
    }
    hide FirstSpender;
  }

  ghost predicate Decodable(net: Network, t: Ticket)
  {
    net.parseHash(t.hash).Some? && net.script(t.commitmentAddress).Some?
  }

  ghost function HashOf(net: Network, t: Ticket): string
    requires net.parseHash(t.hash).Some?
  {
    net.parseHash(t.hash).value
  }

  ghost predicate AllDecodable(net: Network, ts: seq<Ticket>)
  {
    forall i | 0 <= i < |ts| :: Decodable(net, ts[i])
  }

  function ExpiryHeight(net: Network, t: Ticket): int
  {
    t.purchaseHeight + net.ticketMaturity + net.ticketExpiry
  }

  /** One entry per ticket with a spender, found by scanning every block in full. */
  ghost function NaiveScan(net: Network, blocks: seq<Block>, ts: seq<Ticket>, lo: int, hi: int): seq<SpentTicket>
    requires 0 <= lo && hi < |blocks|
  {
    if ts == [] then []
    else
      NaiveScan(net, blocks, ts[..|ts| - 1], lo, hi) + NaiveEntry(net, blocks, ts[|ts| - 1], lo, hi)
  }

  ghost function NaiveEntry(net: Network, blocks: seq<Block>, t: Ticket, lo: int, hi: int): seq<SpentTicket>
    requires 0 <= lo && hi < |blocks|
  {
    if net.parseHash(t.hash).None? then []
    else
      match FirstSpend(blocks, HashOf(net, t), lo, hi)
      case Some(p) => [SpentTicket(t, ExpiryHeight(net, t), p.0, p.1)]
      case None => []
  }

  /** Filters may report absent scripts but never miss one: a block that spends
      the ticket matches the ticket's commitment script. */
  ghost predicate FilterFinds(net: Network, blocks: seq<Block>, t: Ticket)
  {
    Decodable(net, t) ==>
      forall h | 0 <= h < |blocks| && SpentIn(blocks[h], HashOf(net, t)) ::
        net.script(t.commitmentAddress).value in blocks[h].filter
  }

  ghost predicate NoFalseNegatives(net: Network, blocks: seq<Block>, ts: seq<Ticket>)
  {
    forall i | 0 <= i < |ts| :: FilterFinds(net, blocks, ts[i])
  }

  lemma {:induction false} NaiveScanConcat(net: Network, blocks: seq<Block>, a: seq<Ticket>, b: seq<Ticket>, lo: int,
                                           hi: int)
    requires 0 <= lo && hi < |blocks|
    ensures NaiveScan(net, blocks, a + b, lo, hi)
            == NaiveScan(net, blocks, a, lo, hi) + NaiveScan(net, blocks, b, lo, hi)
    decreases b
  {
    if b == [] {
      assert a + b == a;
    } else {
      var b' := b[..|b| - 1];
      NaiveScanConcat(net, blocks, a, b', lo, hi);
      assert (a + b)[..|a + b| - 1] == a + b' && (a + b)[|a + b| - 1] == b[|b| - 1];
      hide NaiveEntry;
    }
  }

  // ------------------------------------------------------ in-place removal

  /** What is left after element i was overwritten by the last one and the slice
      shortened. */
  function Removed<T>(s: seq<T>, i: int): (r: seq<T>)
    requires 0 <= i < |s|
    ensures |r| == |s| - 1
  {
    s[i := s[|s| - 1]][..|s| - 1]
  }

  lemma RemovedPermutes<T>(s: seq<T>, i: int)
    requires 0 <= i < |s|
    ensures multiset(Removed(s, i)) + multiset{s[i]} == multiset(s)
  {
    var last := |s| - 1;
    if i < last {
      assert s == s[..i] + [s[i]] + s[i + 1..last] + [s[last]];
      assert Removed(s, i) == s[..i] + [s[last]] + s[i + 1..last];
    } else {
      assert s == s[..last] + [s[last]];
      assert Removed(s, i) == s[..last];
    }
  }

  /** Removing a ticket takes exactly its own entry out of the naive scan. */
  lemma RemovedScan(net: Network, blocks: seq<Block>, s: seq<Ticket>, i: int, lo: int, hi: int)
    requires 0 <= i < |s| && 0 <= lo && hi < |blocks|
    ensures multiset(NaiveScan(net, blocks, s, lo, hi))
         == multiset(NaiveScan(net, blocks, Removed(s, i), lo, hi)) + multiset(NaiveEntry(net, blocks, s[i], lo, hi))
  {
    hide NaiveEntry;
    var last := |s| - 1;
    var front, x, z := s[..i], [s[i]], [s[last]];
    assert NaiveScan(net, blocks, [], lo, hi) == [];
    assert x[..0] == [] && z[..0] == [];
    if i < last {
      var mid := s[i + 1..last];
      assert s == front + (x + (mid + z));
      assert Removed(s, i) == front + (z + mid);
      NaiveScanConcat(net, blocks, mid, z, lo, hi);
      NaiveScanConcat(net, blocks, x, mid + z, lo, hi);
      NaiveScanConcat(net, blocks, front, x + (mid + z), lo, hi);
      NaiveScanConcat(net, blocks, z, mid, lo, hi);
      NaiveScanConcat(net, blocks, front, z + mid, lo, hi);
    } else {
      assert s == front + x && Removed(s, i) == front;
      NaiveScanConcat(net, blocks, front, x, lo, hi);
    }
  }

  method NonOrderPreservingRemove<T>(s: array<T>, n: nat, i: nat) returns (m: nat)
    requires i < n <= s.Length
    modifies s
    ensures m == n - 1
    ensures s[..m] == Removed(old(s[..n]), i)
  {
    s[i] := s[n - 1];
    m := n - 1;
  }

  method TxSpendsTicket(tx: Tx, outputHash: string) returns (spends: bool)
    ensures spends <==> TxSpends(tx, outputHash)
  {
    for i := 0 to |tx.inputs|
      invariant OutPoint(outputHash, 0) !in tx.inputs[..i]
    {
      var prevOut := tx.inputs[i];
      if prevOut.index == 0 && prevOut.hash == outputHash {
        return true;
      }
      assert tx.inputs[..i + 1] == tx.inputs[..i] + [prevOut];
    }
    assert tx.inputs[..|tx.inputs|] == tx.inputs;
    return false;
  }

  // ------------------------------------------------------------- the scan

  ghost function TicketsOf(ts: seq<TicketTuple>): (r: seq<Ticket>)
    ensures |r| == |ts| && forall i | 0 <= i < |ts| :: r[i] == ts[i].dbTicket
  {
    seq(|ts|, i requires 0 <= i < |ts| => ts[i].dbTicket)
  }

  ghost function FoundTickets(spent: seq<SpentTicket>): (r: seq<Ticket>)
    ensures |r| == |spent| && forall i | 0 <= i < |spent| :: r[i] == spent[i].dbTicket
  {
    seq(|spent|, i requires 0 <= i < |spent| => spent[i].dbTicket)
  }

  /** The two slices agree: position k of both belongs to the same ticket. */
  ghost predicate Lockstep(net: Network, ts: seq<TicketTuple>, scripts: seq<string>)
  {
    && |ts| == |scripts|
    && forall k | 0 <= k < |ts| ::
         && Decodable(net, ts[k].dbTicket)
         && ts[k].hash == HashOf(net, ts[k].dbTicket)
         && scripts[k] == net.script(ts[k].dbTicket.commitmentAddress).value
  }

  /** What the scan conserves: tickets found plus tickets left are the tickets it
      was given, and entries recorded plus entries still to be found are the naive
      scan of the whole input. */
  ghost predicate Progress(net: Network, blocks: seq<Block>, toCheck: seq<Ticket>, start: int, hi: int,
                           spent: seq<SpentTicket>, left: seq<TicketTuple>, height: int)
    requires 0 <= start && 0 <= height && hi < |blocks|
  {
    && multiset(FoundTickets(spent)) + multiset(TicketsOf(left)) == multiset(toCheck)
    && multiset(spent) + multiset(NaiveScan(net, blocks, TicketsOf(left), height, hi))
       == multiset(NaiveScan(net, blocks, toCheck, start, hi))
  }

  lemma RemovedKeepsLockstep(net: Network, left: seq<TicketTuple>, scripts: seq<string>, i: int)
    requires Lockstep(net, left, scripts) && 0 <= i < |left|
    ensures Lockstep(net, Removed(left, i), Removed(scripts, i))
    ensures Removed(left, i)[..i] == left[..i]
  {
    forall k | 0 <= k < |left| - 1
      ensures var from := if k == i then |left| - 1 else k;
              Removed(left, i)[k] == left[from] && Removed(scripts, i)[k] == scripts[from]
    {
    }
    hide Removed;
  }

  lemma ImmediateEntry(net: Network, blocks: seq<Block>, left: seq<TicketTuple>, scripts: seq<string>,
                       height: int, hi: int, i: int, tx: Tx)
    requires 0 <= height <= hi < |blocks| && 0 <= i < |left| && Lockstep(net, left, scripts)
    requires FirstSpender(blocks[height].stakeTxs, left[i].hash) == Some(tx)
    ensures var t := left[i].dbTicket;
            NaiveEntry(net, blocks, t, height, hi) == [SpentTicket(t, ExpiryHeight(net, t), height, tx)]
  {
  }

  lemma TicketsOfRemoved(left: seq<TicketTuple>, i: int)
    requires 0 <= i < |left|
    ensures TicketsOf(Removed(left, i)) == Removed(TicketsOf(left), i)
  {
  }

  lemma RemovalStep(net: Network, blocks: seq<Block>, toCheck: seq<Ticket>, start: int, hi: int,
                    spent: seq<SpentTicket>, left: seq<TicketTuple>, scripts: seq<string>, height: int, i: int, tx: Tx)
    requires 0 <= start && 0 <= height <= hi < |blocks| && 0 <= i < |left|
    requires Lockstep(net, left, scripts)
    requires Progress(net, blocks, toCheck, start, hi, spent, left, height)
    requires FirstSpender(blocks[height].stakeTxs, left[i].hash) == Some(tx)
    ensures var t := left[i].dbTicket;
            Progress(net, blocks, toCheck, start, hi,
                     spent + [SpentTicket(t, ExpiryHeight(net, t), height, tx)], Removed(left, i), height)
  {
    ImmediateEntry(net, blocks, left, scripts, height, hi, i, tx);
    TicketsOfRemoved(left, i);
    hide Lockstep, NaiveScan, NaiveEntry, FirstSpender, Removed, ExpiryHeight, HashOf, Decodable;
    var t := left[i].dbTicket;
    var entry := SpentTicket(t, ExpiryHeight(net, t), height, tx);
    var before, after := TicketsOf(left), TicketsOf(Removed(left, i));
    assert FoundTickets(spent + [entry]) == FoundTickets(spent) + [t];
    RemovedScan(net, blocks, before, i, height, hi);
    RemovedPermutes(before, i);
    MoveOver(multiset(FoundTickets(spent)), multiset(before), multiset(after), t);
    MoveOver(multiset(spent), multiset(NaiveScan(net, blocks, before, height, hi)),
             multiset(NaiveScan(net, blocks, after, height, hi)), entry);
  }

  lemma MoveOver<T>(a: multiset<T>, b: multiset<T>, c: multiset<T>, x: T)
    requires b == c + multiset{x}
    ensures a + b == (a + multiset{x}) + c
  {
  }

  /** A block with no spender of any remaining ticket can be passed over. */
  lemma {:induction false} PassOver(net: Network, blocks: seq<Block>, left: seq<Ticket>, height: int, hi: int)
    requires 0 <= height <= hi < |blocks|
    requires forall k | 0 <= k < |left| :: Decodable(net, left[k]) && !SpentIn(blocks[height], HashOf(net, left[k]))
    ensures NaiveScan(net, blocks, left, height, hi) == NaiveScan(net, blocks, left, height + 1, hi)
    decreases left
  {
    if left != [] {
      PassOver(net, blocks, left[..|left| - 1], height, hi);
    }
  }

  lemma {:induction false} NothingBeyondTheEnd(net: Network, blocks: seq<Block>, left: seq<Ticket>, hi: int)
    requires -1 <= hi < |blocks|
    ensures NaiveScan(net, blocks, left, hi + 1, hi) == []
    decreases left
  {
    if left != [] {
      NothingBeyondTheEnd(net, blocks, left[..|left| - 1], hi);
    }
  }

  /** The first stake transaction of the block that spends the ticket. */
  method SearchBlock(block: Block, hash: string) returns (spender: Option<Tx>)
    ensures spender == FirstSpender(block.stakeTxs, hash)
    ensures spender.None? <==> forall k | 0 <= k < |block.stakeTxs| :: OutPoint(hash, 0) !in block.stakeTxs[k].inputs
    ensures spender.Some? ==>
              exists j | 0 <= j < |block.stakeTxs| ::
                && block.stakeTxs[j] == spender.value && OutPoint(hash, 0) in block.stakeTxs[j].inputs
                && forall k | 0 <= k < j :: OutPoint(hash, 0) !in block.stakeTxs[k].inputs
  {
    ghost var first := SpenderFacts(block.stakeTxs, hash);
    for j := 0 to |block.stakeTxs|
      invariant FirstSpender(block.stakeTxs, hash) == FirstSpender(block.stakeTxs[j..], hash)
    {
      var spends := TxSpendsTicket(block.stakeTxs[j], hash);
      if spends {
        return Some(block.stakeTxs[j]);
      }
    }
    return None;
  }

  /** internal/vspm/spentticket.go:151-183: examine every remaining ticket against
      one block, removing from both slices as spenders are found. */
  method ScanBlock(net: Network, ghost node: Node, block: Block, height: int,
                   ghost toCheck: seq<Ticket>, ghost start: int, ghost hi: int,
                   tickets: array<TicketTuple>, scripts: array<string>, n: nat, found: seq<SpentTicket>)
    returns (m: nat, spent: seq<SpentTicket>)
    requires 0 <= start && 0 <= height <= hi < |node.blocks| && node.blocks[height] == block
    requires n <= tickets.Length && n <= scripts.Length
    requires Lockstep(net, tickets[..n], scripts[..n])
    requires Progress(net, node.blocks, toCheck, start, hi, found, tickets[..n], height)
    modifies tickets, scripts
    ensures m <= n && Lockstep(net, tickets[..m], scripts[..m])
    ensures Progress(net, node.blocks, toCheck, start, hi, spent, tickets[..m], height)
    ensures forall k | 0 <= k < m :: !SpentIn(block, tickets[..m][k].hash)
  {
    hide Lockstep, Progress, FirstSpender, Removed;
    m, spent := n, found;
    var i := 0;
    while i < m
      invariant 0 <= i <= m <= n
      invariant Lockstep(net, tickets[..m], scripts[..m])
      invariant Progress(net, node.blocks, toCheck, start, hi, spent, tickets[..m], height)
      invariant forall k | 0 <= k < i :: !SpentIn(block, tickets[..m][k].hash)
      decreases m - i
    {
      var blkTx := SearchBlock(block, tickets[i].hash);
      if blkTx.Some? {
        ghost var left, its := tickets[..m], scripts[..m];
        RemovedKeepsLockstep(net, left, its, i);
        RemovalStep(net, node.blocks, toCheck, start, hi, spent, left, its, height, i, blkTx.value);
        var dbTicket := tickets[i].dbTicket;
        spent := spent + [SpentTicket(dbTicket, ExpiryHeight(net, dbTicket), height, blkTx.value)];
        var shorter := NonOrderPreservingRemove(tickets, m, i);
        m := NonOrderPreservingRemove(scripts, m, i);
        assert tickets[..m] == Removed(left, i);
        assert forall k | 0 <= k < i :: tickets[..m][k] == left[..i][k] == left[k];
        i := i - 1;
      }
      i := i + 1;
    }
  }

  /** internal/vspm/spentticket.go:98-113: the two parallel slices. */
  method PrepareSlices(net: Network, toCheck: seq<Ticket>)
    returns (ok: bool, tickets: array<TicketTuple>, scripts: array<string>)
    ensures ok <==> AllDecodable(net, toCheck)
    ensures fresh(tickets) && fresh(scripts)
    ensures ok ==> tickets.Length == scripts.Length == |toCheck| && Lockstep(net, tickets[..], scripts[..])
    ensures ok ==> TicketsOf(tickets[..]) == toCheck
  {
    tickets := new TicketTuple[|toCheck|];
    scripts := new string[|toCheck|];
    for i := 0 to |toCheck|
      invariant forall k | 0 <= k < i :: Decodable(net, toCheck[k])
      invariant forall k | 0 <= k < i :: tickets[k] == TicketTuple(toCheck[k], HashOf(net, toCheck[k]))
      invariant forall k | 0 <= k < i :: scripts[k] == net.script(toCheck[k].commitmentAddress).value
    {
      var script := net.script(toCheck[i].commitmentAddress);
      if script.None? {
        return false, tickets, scripts;
      }
      var hash := net.parseHash(toCheck[i].hash);
      if hash.None? {
        return false, tickets, scripts;
      }
      tickets[i] := TicketTuple(toCheck[i], hash.value);
      scripts[i] := script.value;
    }
    ok := true;
  }

  /** A block whose filter matches no remaining script spends no remaining ticket. */
  lemma SkipIsSound(net: Network, blocks: seq<Block>, toCheck: seq<Ticket>, start: int, hi: int,
                    spent: seq<SpentTicket>, left: seq<TicketTuple>, scripts: seq<string>, height: int)
    requires 0 <= start && 0 <= height <= hi < |blocks| && Lockstep(net, left, scripts)
    requires NoFalseNegatives(net, blocks, toCheck)
    requires Progress(net, blocks, toCheck, start, hi, spent, left, height)
    requires forall k | 0 <= k < |scripts| :: scripts[k] !in blocks[height].filter
    ensures forall k | 0 <= k < |left| :: !SpentIn(blocks[height], left[k].hash)
  {
    forall k | 0 <= k < |left| ensures !SpentIn(blocks[height], left[k].hash) {
      var t := left[k].dbTicket;
      assert TicketsOf(left)[k] in multiset(TicketsOf(left));
      assert t in multiset(toCheck);
      var i :| 0 <= i < |toCheck| && toCheck[i] == t;
      assert FilterFinds(net, blocks, toCheck[i]);
    }
  }

  lemma ProgressAfterBlock(net: Network, blocks: seq<Block>, toCheck: seq<Ticket>, start: int, hi: int,
                           spent: seq<SpentTicket>, left: seq<TicketTuple>, scripts: seq<string>, height: int)
    requires 0 <= start && 0 <= height <= hi < |blocks| && Lockstep(net, left, scripts)
    requires Progress(net, blocks, toCheck, start, hi, spent, left, height)
    requires forall k | 0 <= k < |left| :: !SpentIn(blocks[height], left[k].hash)
    ensures Progress(net, blocks, toCheck, start, hi, spent, left, height + 1)
  {
    PassOver(net, blocks, TicketsOf(left), height, hi);
  }

  lemma ScanBegins(net: Network, blocks: seq<Block>, toCheck: seq<Ticket>, start: int, hi: int, left: seq<TicketTuple>)
    requires 0 <= start && hi < |blocks| && TicketsOf(left) == toCheck
    ensures Progress(net, blocks, toCheck, start, hi, [], left, start)
  {
    assert FoundTickets([]) == [];
  }

  /** The scan is over when the range is exhausted or no ticket is left. */
  lemma ScanIsComplete(net: Network, blocks: seq<Block>, toCheck: seq<Ticket>, start: int, hi: int,
                       spent: seq<SpentTicket>, left: seq<TicketTuple>, height: int)
    requires 0 <= start && 0 <= height && hi < |blocks|
    requires Progress(net, blocks, toCheck, start, hi, spent, left, height)
    requires left == [] || height == hi + 1
    ensures multiset(spent) == multiset(NaiveScan(net, blocks, toCheck, start, hi))
  {
    if height == hi + 1 {
      NothingBeyondTheEnd(net, blocks, TicketsOf(left), hi);
    } else {
      assert TicketsOf(left) == [] && NaiveScan(net, blocks, [], height, hi) == [];
    }
    hide NaiveScan, TicketsOf, FoundTickets;
  }

  /** A list that permutes the naive scan, on inputs and outputs alone. */
  lemma EntriesAreFirstSpends(net: Network, blocks: seq<Block>, ts: seq<Ticket>, lo: int, hi: int,
                              spent: seq<SpentTicket>)
    requires 0 <= lo <= hi == |blocks| - 1 && AllDecodable(net, ts)
    requires multiset(spent) == multiset(NaiveScan(net, blocks, ts, lo, hi))
    ensures forall e | e in spent ::
              && e.dbTicket in ts && lo <= e.heightSpent <= hi
              && e.expiryHeight == e.dbTicket.purchaseHeight + net.ticketMaturity + net.ticketExpiry
              && net.parseHash(e.dbTicket.hash).Some?
              && var hash := net.parseHash(e.dbTicket.hash).value;
                 exists j | 0 <= j < |blocks[e.heightSpent].stakeTxs| ::
                   SpentFirstAt(blocks, hash, lo, e.heightSpent, j) && blocks[e.heightSpent].stakeTxs[j] == e.spendingTx
    ensures forall t | t in ts && net.parseHash(t.hash).Some? ::
              (exists e | e in spent :: e.dbTicket == t) || NeverSpent(blocks, net.parseHash(t.hash).value, lo, hi)
    ensures DistinctHashes(ts) ==> forall a, b | 0 <= a < b < |spent| :: spent[a].dbTicket != spent[b].dbTicket
  {
    EachEntryIsFirst(net, blocks, ts, lo, hi, spent);
    EachTicketHasEntry(net, blocks, ts, lo, hi, spent);
    if DistinctHashes(ts) {
      NoTwoEntries(net, blocks, ts, lo, hi, spent);
    }
    hide SpentFirstAt, NeverSpent, NaiveScan, AllDecodable;
  }

  lemma EachEntryIsFirst(net: Network, blocks: seq<Block>, ts: seq<Ticket>, lo: int, hi: int, spent: seq<SpentTicket>)
    requires 0 <= lo <= hi == |blocks| - 1
    requires multiset(spent) == multiset(NaiveScan(net, blocks, ts, lo, hi))
    ensures forall e | e in spent ::
              && e.dbTicket in ts && lo <= e.heightSpent <= hi
              && e.expiryHeight == e.dbTicket.purchaseHeight + net.ticketMaturity + net.ticketExpiry
              && net.parseHash(e.dbTicket.hash).Some?
              && var hash := net.parseHash(e.dbTicket.hash).value;
                 exists j | 0 <= j < |blocks[e.heightSpent].stakeTxs| ::
                   SpentFirstAt(blocks, hash, lo, e.heightSpent, j) && blocks[e.heightSpent].stakeTxs[j] == e.spendingTx
  {
    hide SpentFirstAt, NeverSpent, FirstSpend, NaiveScan;
    forall e | e in spent
      ensures e.dbTicket in ts && lo <= e.heightSpent <= hi
      ensures e.expiryHeight == e.dbTicket.purchaseHeight + net.ticketMaturity + net.ticketExpiry
      ensures net.parseHash(e.dbTicket.hash).Some?
      ensures var hash := net.parseHash(e.dbTicket.hash).value;
              exists j | 0 <= j < |blocks[e.heightSpent].stakeTxs| ::
                SpentFirstAt(blocks, hash, lo, e.heightSpent, j) && blocks[e.heightSpent].stakeTxs[j] == e.spendingTx
    {
      assert e in multiset(spent);
      NaiveScanMembers(net, blocks, ts, lo, hi, e);
      var j := FirstSpendFacts(blocks, net.parseHash(e.dbTicket.hash).value, lo, hi);
    }
  }

  lemma EachTicketHasEntry(net: Network, blocks: seq<Block>, ts: seq<Ticket>, lo: int, hi: int, spent: seq<SpentTicket>)
    requires 0 <= lo <= hi == |blocks| - 1
    requires multiset(spent) == multiset(NaiveScan(net, blocks, ts, lo, hi))
    ensures forall t | t in ts && net.parseHash(t.hash).Some? ::
              (exists e | e in spent :: e.dbTicket == t) || NeverSpent(blocks, net.parseHash(t.hash).value, lo, hi)
  {
    hide SpentFirstAt, NeverSpent, FirstSpend, NaiveScan;
    forall t | t in ts && net.parseHash(t.hash).Some?
      ensures (exists e | e in spent :: e.dbTicket == t) || NeverSpent(blocks, net.parseHash(t.hash).value, lo, hi)
    {
      var j := FirstSpendFacts(blocks, net.parseHash(t.hash).value, lo, hi);
      var p := FirstSpend(blocks, HashOf(net, t), lo, hi);
      if p.Some? {
        var e := SpentTicket(t, ExpiryHeight(net, t), p.value.0, p.value.1);
        assert NaiveEntry(net, blocks, t, lo, hi) == [e];
        NaiveScanMembers(net, blocks, ts, lo, hi, e);
        assert e in multiset(spent);
      }
    }
  }

  lemma NoTwoEntries(net: Network, blocks: seq<Block>, ts: seq<Ticket>, lo: int, hi: int, spent: seq<SpentTicket>)
    requires 0 <= lo && hi < |blocks| && DistinctHashes(ts)
    requires multiset(spent) == multiset(NaiveScan(net, blocks, ts, lo, hi))
    ensures forall a, b | 0 <= a < b < |spent| :: spent[a].dbTicket != spent[b].dbTicket
  {
    hide NaiveScan, FirstSpend;
    forall a, b | 0 <= a < b < |spent| ensures spent[a].dbTicket != spent[b].dbTicket {
      var e, f := spent[a], spent[b];
      assert e in multiset(spent) && f in multiset(spent);
      NaiveScanMembers(net, blocks, ts, lo, hi, e);
      NaiveScanMembers(net, blocks, ts, lo, hi, f);
      NaiveScanDistinct(net, blocks, ts, lo, hi, e);
      if e == f {
        TwiceInList(spent, a, b);
      }
    }
  }

  lemma TwiceInList(s: seq<SpentTicket>, a: nat, b: nat)
    requires a < b < |s| && s[a] == s[b]
    ensures multiset(s)[s[a]] >= 2
  {
    assert s == s[..a] + [s[a]] + s[a + 1..b] + [s[b]] + s[b + 1..];
  }

  /** The context is cancelled, or a call fails, at that height. */
  ghost predicate CallFails(node: Node, h: int)
  {
    node.down * {Context(h), BlockHash(h), BlockHeader(h), CFilter(h), WholeBlock(h)} != {}
  }

  lemma FailsAt(node: Node, h: int)
    ensures CallFails(node, h) <==>
              || Context(h) in node.down || BlockHash(h) in node.down || BlockHeader(h) in node.down
              || CFilter(h) in node.down || WholeBlock(h) in node.down
  {
    var calls := {Context(h), BlockHash(h), BlockHeader(h), CFilter(h), WholeBlock(h)};
    assert forall c | c in calls && c in node.down :: c in node.down * calls;
  }

  lemma DecodableMeans(net: Network, ts: seq<Ticket>)
    ensures AllDecodable(net, ts) <==>
              forall t | t in ts :: net.parseHash(t.hash).Some? && net.script(t.commitmentAddress).Some?
  {
  }

  /** findSpentTickets: despite filters that skip blocks, removal in place and the
      early exit, the result is a permutation of the naive scan of every block. It
      can only fail for a stated reason. */
  method FindSpentTickets(net: Network, node: Node, toCheck: seq<Ticket>, startHeight: int) returns (r: ScanResult)
    requires node.blocks != []
    requires NoFalseNegatives(net, node.blocks, toCheck)
    ensures r.Scanned? ==>
              && 0 <= startHeight <= r.endHeight == |node.blocks| - 1 && AllDecodable(net, toCheck)
              && multiset(r.spent) == multiset(NaiveScan(net, node.blocks, toCheck, startHeight, r.endHeight))
    ensures r.Scanned? ==>
              forall e | e in r.spent ::
                && e.dbTicket in toCheck && startHeight <= e.heightSpent < |node.blocks|
                && e.expiryHeight == e.dbTicket.purchaseHeight + net.ticketMaturity + net.ticketExpiry
                && net.parseHash(e.dbTicket.hash).Some?
                && var input, txs := OutPoint(net.parseHash(e.dbTicket.hash).value, 0),
                   node.blocks[e.heightSpent].stakeTxs;
                   && (exists j | 0 <= j < |txs| ::
                         && txs[j] == e.spendingTx && input in txs[j].inputs
                         && forall k | 0 <= k < j :: input !in txs[k].inputs)
                   && forall h, k | startHeight <= h < e.heightSpent && 0 <= k < |node.blocks[h].stakeTxs| ::
                        input !in node.blocks[h].stakeTxs[k].inputs
    ensures r.Scanned? ==>
              forall t, h, k | t in toCheck && (forall e | e in r.spent :: e.dbTicket != t)
                               && startHeight <= h < |node.blocks| && 0 <= k < |node.blocks[h].stakeTxs|
                               && net.parseHash(t.hash).Some? ::
                OutPoint(net.parseHash(t.hash).value, 0) !in node.blocks[h].stakeTxs[k].inputs
    ensures r.ScanFailed? ==>
              || BlockCount in node.down || startHeight < 0 || startHeight >= |node.blocks|
              || !AllDecodable(net, toCheck)
              || exists h | startHeight <= h < |node.blocks| :: CallFails(node, h)
    ensures r.Scanned? && DistinctHashes(toCheck) ==>
              forall a, b | 0 <= a < b < |r.spent| :: r.spent[a].dbTicket != r.spent[b].dbTicket
    ensures node.down == {} && 0 <= startHeight < |node.blocks| && AllDecodable(net, toCheck) ==> r.Scanned?
  {
    hide Lockstep, Progress, NoFalseNegatives, NaiveScan, FirstSpender, SpentIn, TicketsOf, AllDecodable, CallFails;
    if BlockCount in node.down {
      return ScanFailed;
    }
    var endHeight := |node.blocks| - 1;
    if startHeight > endHeight {
      return ScanFailed;
    }
    var ok, tickets, scripts := PrepareSlices(net, toCheck);
    if !ok || startHeight < 0 {
      return ScanFailed;
    }
    var n, spent := |toCheck|, [];
    assert tickets[..n] == tickets[..] && scripts[..n] == scripts[..];
    ScanBegins(net, node.blocks, toCheck, startHeight, endHeight, tickets[..n]);
    var iHeight := startHeight;
    while iHeight <= endHeight
      invariant 0 <= startHeight <= iHeight <= endHeight + 1 && n <= |toCheck|
      invariant fresh(tickets) && fresh(scripts)
      invariant Lockstep(net, tickets[..n], scripts[..n])
      invariant Progress(net, node.blocks, toCheck, startHeight, endHeight, spent, tickets[..n], iHeight)
      decreases endHeight - iHeight
    {
      FailsAt(node, iHeight);
      if Context(iHeight) in node.down || BlockHash(iHeight) in node.down
         || BlockHeader(iHeight) in node.down || CFilter(iHeight) in node.down {
        return ScanFailed;
      }
      var block := node.blocks[iHeight];
      if exists k | 0 <= k < n :: scripts[k] in block.filter {
        if WholeBlock(iHeight) in node.down {
          return ScanFailed;
        }
        n, spent := ScanBlock(net, node, block, iHeight, toCheck, startHeight, endHeight, tickets, scripts, n, spent);
        if n == 0 {
          break;
        }
      } else {
        SkipIsSound(net, node.blocks, toCheck, startHeight, endHeight, spent, tickets[..n], scripts[..n], iHeight);
      }
      ProgressAfterBlock(net, node.blocks, toCheck, startHeight, endHeight, spent, tickets[..n], scripts[..n], iHeight);
      iHeight := iHeight + 1;
    }
    ScanIsComplete(net, node.blocks, toCheck, startHeight, endHeight, spent, tickets[..n], iHeight);
    EntriesAreFirstSpends(net, node.blocks, toCheck, startHeight, endHeight, spent);
    r := Scanned(spent, endHeight);
  }

  // ----------------------------------------- what the result says per ticket

  lemma {:induction false} NaiveScanMembers(net: Network, blocks: seq<Block>, ts: seq<Ticket>, lo: int, hi: int,
                                            e: SpentTicket)
    requires 0 <= lo && hi < |blocks|
    ensures e in NaiveScan(net, blocks, ts, lo, hi) <==> exists t | t in ts :: NaiveEntry(net, blocks, t, lo, hi) == [e]
  {
    if ts != [] {
      var rest, last := ts[..|ts| - 1], ts[|ts| - 1];
      NaiveScanMembers(net, blocks, rest, lo, hi, e);
      assert ts == rest + [last];
      hide NaiveEntry;
    }
  }

  lemma {:induction false} NaiveScanDistinct(net: Network, blocks: seq<Block>, ts: seq<Ticket>, lo: int, hi: int,
                                             e: SpentTicket)
    requires 0 <= lo && hi < |blocks| && DistinctHashes(ts)
    ensures multiset(NaiveScan(net, blocks, ts, lo, hi))[e] <= 1
  {
    if ts != [] {
      var rest, last := ts[..|ts| - 1], ts[|ts| - 1];
      NaiveScanDistinct(net, blocks, rest, lo, hi, e);
      NaiveScanMembers(net, blocks, rest, lo, hi, e);
    }
  }

  /** With distinct tickets, a list that permutes the naive scan holds exactly one
      entry for each ticket spent in the range, giving the least such height and
      the first spender in it, and no entry for any other. */
  lemma OneEntryPerSpentTicket(net: Network, blocks: seq<Block>, ts: seq<Ticket>, lo: int, hi: int,
                               spent: seq<SpentTicket>)
    requires 0 <= lo && hi < |blocks| && DistinctHashes(ts) && AllDecodable(net, ts)
    requires multiset(spent) == multiset(NaiveScan(net, blocks, ts, lo, hi))
    ensures forall e :: multiset(spent)[e] <= 1
    ensures forall e | e in spent ::
              && e.dbTicket in ts && e.expiryHeight == ExpiryHeight(net, e.dbTicket)
              && FirstSpend(blocks, HashOf(net, e.dbTicket), lo, hi) == Some((e.heightSpent, e.spendingTx))
    ensures forall t | t in ts ::
              FirstSpend(blocks, HashOf(net, t), lo, hi).Some? ==> exists e | e in spent :: e.dbTicket == t
  {
    forall e ensures multiset(spent)[e] <= 1 {
      NaiveScanDistinct(net, blocks, ts, lo, hi, e);
    }
    forall e | e in spent
      ensures e.dbTicket in ts && e.expiryHeight == ExpiryHeight(net, e.dbTicket)
              && FirstSpend(blocks, HashOf(net, e.dbTicket), lo, hi) == Some((e.heightSpent, e.spendingTx))
    {
      assert e in multiset(spent);
      NaiveScanMembers(net, blocks, ts, lo, hi, e);
    }
    forall t | t in ts && FirstSpend(blocks, HashOf(net, t), lo, hi).Some?
      ensures exists e | e in spent :: e.dbTicket == t
    {
      var p := FirstSpend(blocks, HashOf(net, t), lo, hi).value;
      var e := SpentTicket(t, ExpiryHeight(net, t), p.0, p.1);
      assert NaiveEntry(net, blocks, t, lo, hi) == [e];
      NaiveScanMembers(net, blocks, ts, lo, hi, e);
      assert e in multiset(spent);
    }
  }
}
