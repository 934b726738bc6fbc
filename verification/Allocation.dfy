/** Fee addresses and the ticket records that carry them: the allocator of module
    FeeAddresses beside the record store of module Interleavings. */
module Allocation {
  import opened Encoding
  import opened Tickets
  import opened Lifecycle
  import opened Interleavings
  import A = FeeAddresses

  datatype Both = Both(records: State, allocator: A.State)

  /** The allocator on its own, or a write of some handler or background step with a
      record of any age. */
  datatype Move = Alloc(alloc: A.Step) | Record(record: Step)

  function PairOf(t: Ticket): A.Pair
  {
    A.Pair(t.feeAddressXPubID, t.feeAddressIndex)
  }

  function WriteOf(env: Env, step: Step): Option<Write>
  {
    var ws := React(env, step.event, step.snapshot);
    if step.nth < |ws| then Some(ws[step.nth]) else None
  }

  /** What the write is to the allocator: a new record stores a pair that was handed
      out, an update rewrites the pair of the record it was read from. */
  function StepOf(db: Db, w: Write): Option<A.Step>
  {
    match w
    case Insert(t) => Some(A.Store(t.hash, PairOf(t)))
    case Update(t) => if t.hash in db then Some(A.Rewrite(t.hash, PairOf(t))) else None
    case Delete(hash) => Some(A.Remove(hash))
  }

  ghost predicate Enabled(env: Env, b: Both, m: Move)
  {
    match m
    case Alloc(step) => (step.Start? || step.Crash? || step.Allocate? || step.GiveUp? || step.Retire?)
      && A.Enabled(b.allocator, step)
    case Record(step) =>
      && Possible(b.records, step)
      && var w := WriteOf(env, step);
         w.Some? && w.value.Insert? ==> PairOf(w.value.ticket) in b.allocator.pending
  }

  ghost function Moved(env: Env, b: Both, m: Move): Both
    requires Inv(env, b) && Enabled(env, b, m)
  {
    match m
    case Alloc(step) => b.(allocator := A.Next(b.allocator, step))
    case Record(step) =>
      var w := WriteOf(env, step);
      var a := if w.Some? then StepOf(b.records.db, w.value) else None;
      WritesAreEnabled(env, b, step);
      Both(Next(env, b.records, step), if a.Some? then A.Next(b.allocator, a.value) else b.allocator)
  }

  /** The allocator's tickets are the stored records, and every record anybody may
      still hold has a pair the allocator knows under its hash. */
  ghost predicate Inv(env: Env, b: Both)
  {
    && Interleavings.Inv(env, b.records) && A.Inv(b.allocator)
    && b.allocator.tickets == Pairs(b.records.db)
    && forall t | t in b.records.seen :: (t.hash, PairOf(t)) in b.allocator.stored
  }

  ghost function Pairs(db: Db): map<string, A.Pair>
  {
    map h | h in db :: PairOf(db[h])
  }

  predicate SameFile(t: Ticket, u: Ticket)
  {
    u.hash == t.hash && PairOf(u) == PairOf(t)
  }

  lemma {:induction false} DropsKeepPair(t: Ticket, agendas: seq<string>)
    ensures forall w | w in DropWrites(t, agendas) :: w.Update? && SameFile(t, w.ticket)
    decreases agendas
  {
    if agendas != [] {
      DropsKeepPair(WithoutAgenda(t, agendas[0]), agendas[1..]);
    }
  }

  /** Rewriting a record never changes its hash or its pair. */
  lemma UpdatesKeepPair(env: Env, e: Event, t: Ticket)
    ensures forall w | w in React(env, e, Some(t)) :: !w.Insert? && (w.Update? ==> SameFile(t, w.ticket))
  {
    if e.CheckFee? {
      DropsKeepPair(FeeConfirmedRecord(t), e.dropped);
    } else if e.Reconcile? {
      DropsKeepPair(t, e.dropped);
    }
    hide DropWrites, PayFeeAccepted, ChoicesAccepted, ChoicesPanic, Merge;
  }

  lemma OnlyNewTicketsAreInserted(env: Env, e: Event)
    ensures forall w | w in React(env, e, None) :: w.Insert?
  {
  }

  lemma WriteShape(env: Env, step: Step)
    requires WriteOf(env, step).Some?
    ensures var w := WriteOf(env, step).value;
            if step.snapshot.None? then w.Insert?
            else !w.Insert? && (w.Update? ==> SameFile(step.snapshot.value, w.ticket))
  {
    hide React, SameFile;
    var w := WriteOf(env, step).value;
    assert w in React(env, step.event, step.snapshot);
    if step.snapshot.None? {
      OnlyNewTicketsAreInserted(env, step.event);
    } else {
      UpdatesKeepPair(env, step.event, step.snapshot.value);
    }
  }

  lemma WritesAreEnabled(env: Env, b: Both, step: Step)
    requires Inv(env, b) && Enabled(env, b, Record(step))
    ensures A.History(b.allocator.xpubs)
    ensures var w := WriteOf(env, step);
            w.Some? && StepOf(b.records.db, w.value).Some? ==>
              A.Enabled(b.allocator, StepOf(b.records.db, w.value).value)
  {
    hide Interleavings.Inv, A.Inv;
    if WriteOf(env, step).Some? {
      WriteShape(env, step);
    }
    hide WriteOf;
  }

  lemma PairsOfUpdate(db: Db, h: string, t: Ticket)
    ensures Pairs(db[h := t]) == Pairs(db)[h := PairOf(t)] && Pairs(db - {h}) == Pairs(db) - {h}
  {
  }

  /** What a write does to the records, in the allocator's terms. */
  lemma WriteMovesPairs(db: Db, w: Write, a: A.State)
    requires a.tickets == Pairs(db) && A.History(a.xpubs)
    requires StepOf(db, w).Some? ==> A.Enabled(a, StepOf(db, w).value)
    ensures var a' := if StepOf(db, w).Some? then A.Next(a, StepOf(db, w).value) else a;
            && a'.tickets == Pairs(Apply(db, w)) && a.stored <= a'.stored
            && (w.Insert? && w.ticket.hash !in db ==> (w.ticket.hash, PairOf(w.ticket)) in a'.stored)
  {
    if !w.Delete? {
      PairsOfUpdate(db, w.ticket.hash, Normalise(w.ticket));
      assert PairOf(Normalise(w.ticket)) == PairOf(w.ticket);
    } else {
      PairsOfUpdate(db, w.hash, BlankTicket());
    }
    hide A.History, Pairs, Normalise;
  }

  ghost function BlankTicket(): Ticket
  {
    Ticket("", 0, "", 0, 0, "", 0, 0, false, "", NilMap, NilMap, NilMap, "", "", NoFee, Unspent)
  }

  lemma RecordKeepsInv(env: Env, b: Both, step: Step)
    requires Inv(env, b) && Enabled(env, b, Record(step))
    ensures Inv(env, Moved(env, b, Record(step)))
  {
    NextKeepsInv(env, b.records, step);
    WritesAreEnabled(env, b, step);
    var w := WriteOf(env, step);
    if w.None? {
      return;
    }
    WriteShape(env, step);
    assert A.History(b.allocator.xpubs);
    var db, a := b.records.db, StepOf(b.records.db, w.value);
    WriteMovesPairs(db, w.value, b.allocator);
    if a.Some? {
      A.NextKeepsInv(b.allocator, a.value);
    }
    hide Interleavings.Inv, A.Inv, A.History, A.Next, A.Enabled, React, Pairs;
    var b' := Moved(env, b, Record(step));
    assert b'.records.db == Apply(db, w.value) && b'.records.seen == b.records.seen + b'.records.db.Values;
    forall t | t in b'.records.seen ensures (t.hash, PairOf(t)) in b'.allocator.stored {
      if t !in b.records.seen {
        NewRecordIsStored(env, b, step, w.value, t);
      }
    }
  }

  /** A record that was not seen before is the one just written. */
  lemma NewRecordIsStored(env: Env, b: Both, step: Step, w: Write, t: Ticket)
    requires Inv(env, b) && Possible(b.records, step) && WriteOf(env, step) == Some(w)
    requires t in Apply(b.records.db, w).Values && t !in b.records.seen
    ensures if w.Insert? then w.ticket.hash !in b.records.db && t == Normalise(w.ticket)
            else (t.hash, PairOf(t)) in b.allocator.stored
    ensures t.hash == Normalise(t).hash && PairOf(Normalise(t)) == PairOf(t)
    ensures !w.Delete? && t == Normalise(w.ticket) ==> t.hash == w.ticket.hash && PairOf(t) == PairOf(w.ticket)
  {
    WriteShape(env, step);
    hide A.Inv, React, RecordInv, Pairs, WellFiled;
    forall h | h in b.records.db ensures b.records.db[h] in b.records.seen {
      assert b.records.db[h] in b.records.db.Values;
    }
    var h :| h in Apply(b.records.db, w) && Apply(b.records.db, w)[h] == t;
  }

  lemma AllocKeepsInv(env: Env, b: Both, step: A.Step)
    requires Inv(env, b) && Enabled(env, b, Alloc(step))
    ensures Inv(env, Moved(env, b, Alloc(step)))
  {
    A.NextKeepsInv(b.allocator, step);
    hide Interleavings.Inv, A.Inv, Pairs, A.AfterSetIndex, A.AfterRetire, A.Active;
  }

  ghost predicate ValidRun(env: Env, b: Both, ms: seq<Move>)
    decreases ms
  {
    ms == [] || (Inv(env, b) && Enabled(env, b, ms[0]) && ValidRun(env, Moved(env, b, ms[0]), ms[1..]))
  }

  ghost function Run(env: Env, b: Both, ms: seq<Move>): Both
    requires ValidRun(env, b, ms)
    decreases ms
  {
    if ms == [] then b else Run(env, Moved(env, b, ms[0]), ms[1..])
  }

  lemma {:induction false} RunKeepsInv(env: Env, b: Both, ms: seq<Move>)
    requires Inv(env, b) && ValidRun(env, b, ms)
    ensures Inv(env, Run(env, b, ms))
    decreases ms
  {
    if ms != [] {
      if ms[0].Alloc? {
        AllocKeepsInv(env, b, ms[0].alloc);
      } else {
        RecordKeepsInv(env, b, ms[0].record);
      }
      hide Inv, Enabled, Moved;
      RunKeepsInv(env, Moved(env, b, ms[0]), ms[1..]);
    }
  }

  /** Over any run of allocations, crashes, restarts and retirements, with handlers
      and background steps writing records of any age in between: no two stored
      tickets share an xpub ID and index, and every index is at most the persisted
      counter of its xpub. */
  lemma StoredTicketsHaveTheirOwnPair(env: Env, b: Both, ms: seq<Move>)
    requires Inv(env, b) && ValidRun(env, b, ms)
    ensures var r := Run(env, b, ms);
            && (forall h, k | h in r.records.db && k in r.records.db && h != k ::
                  PairOf(r.records.db[h]) != PairOf(r.records.db[k]))
            && (forall h | h in r.records.db :: A.Persisted(r.allocator.xpubs, PairOf(r.records.db[h])))
  {
    RunKeepsInv(env, b, ms);
    var r := Run(env, b, ms);
    A.TicketsHavePersistedPairs(r.allocator);
    assert forall h | h in r.records.db ::
             h in r.allocator.tickets && r.allocator.tickets[h] == PairOf(r.records.db[h]);
    hide Interleavings.Inv, A.Inv, ValidRun, A.Persisted;
  }
}
