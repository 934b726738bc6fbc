/** Replay protection when requests for one ticket overlap: every handler proceeds
    phase by phase, in any order with the others, and with records of any age. */
module Overlaps {
  import opened Encoding
  import opened Tickets
  import opened Lifecycle
  import opened VoteLog
  import opened Handlers
  import opened ReplayCheck
  import opened ReplayRuns

  /** A handler has passed its checks, written the ticket, or learned what became of
      the fee transaction. */
  datatype Phase = Checked | Stored | Told

  /** A request for the ticket under way: the record its middleware read, and how
      many records the log held when it looked. */
  datatype InFlight = InFlight(call: Call, known: Ticket, read: nat, phase: Phase)

  datatype Shop = Shop(db: Db, saved: seq<VoteChangeRecord>, inFlight: multiset<InFlight>)

  /** `Elsewhere` is any write of anybody else to the database. */
  datatype Move =
    | Arrive(call: Call, known: Ticket)
    | StoreTicket(f: InFlight)
    | StoreFate(f: InFlight)
    | Save(f: InFlight)
    | Drop(f: InFlight)
    | Elsewhere(write: Write)

  /** The guards of the handler on what it has read. */
  ghost predicate Passes(w: World, saved: seq<VoteChangeRecord>, c: Call, known: Ticket)
  {
    match c
    case PayCall(r, lookup, canVote, now, _, _) => PayFeeAccepted(w.env, known, r, lookup, canVote, now)
    case ChooseCall(choices, walletsUp, record) =>
      ChoicesAccepted(w.env, known, choices, NewerRequest(saved, w.limit, w.timestampOf, record), walletsUp)
    case OtherStep(_) => false
  }

  /** The step of module Lifecycle whose writes the handler performs. */
  function EventOf(c: Call): Event
    requires !c.OtherStep?
  {
    match c
    case PayCall(r, lookup, canVote, now, sent, _) => Event.PayFee(r, lookup, canVote, now, sent)
    case ChooseCall(choices, walletsUp, _) => Event.SetVoteChoices(choices, true, walletsUp)
  }

  /** The record is saved once the ticket is stored and, for a payment of a confirmed
      ticket, the transaction is sent and that is stored too. */
  predicate ReadyToSave(f: InFlight)
  {
    f.phase == Told || (f.phase == Stored && !(f.call.PayCall? && f.known.confirmed))
  }

  ghost predicate Enabled(w: World, s: Shop, m: Move)
  {
    match m
    case Arrive(c, known) => known.hash == w.hash && Timed(w, c)
    case StoreTicket(f) => f in s.inFlight && f.phase == Checked
    case StoreFate(f) => f in s.inFlight && f.phase == Stored && f.call.PayCall? && f.known.confirmed
    case Save(f) => f in s.inFlight && ReadyToSave(f)
    case Drop(f) => f in s.inFlight
    case Elsewhere(_) => true
  }

  ghost function Moved(s: Shop, f: InFlight, after: Option<Phase>): multiset<InFlight>
  {
    s.inFlight - multiset{f} + if after.Some? then multiset{f.(phase := after.value)} else multiset{}
  }

  /** The nth write of the handler: it fails when the ticket is gone or the database
      refuses, and the handler then gives up. */
  ghost function AfterWrite(w: World, s: Shop, f: InFlight, nth: nat, next: Option<Phase>): Shop
  {
    var ws := if f.call.OtherStep? then [] else React(w.env, EventOf(f.call), Some(f.known));
    if nth < |ws| && w.hash in s.db && w.hash !in w.broken
    then s.(db := Apply(s.db, ws[nth]), inFlight := Moved(s, f, next))
    else s.(inFlight := Moved(s, f, None))
  }

  ghost function Next(w: World, s: Shop, m: Move): Shop
  {
    match m
    case Arrive(c, known) =>
      if Passes(w, s.saved, c, known)
        then s.(inFlight := s.inFlight + multiset{InFlight(c, known, |s.saved|, Checked)}) else s
    case StoreTicket(f) => AfterWrite(w, s, f, 0, Some(Stored))
    case StoreFate(f) => AfterWrite(w, s, f, 1, if f.call.PayCall? && f.call.sent then Some(Told) else None)
    case Save(f) =>
      if f.call.OtherStep? then s.(inFlight := Moved(s, f, None))
      else s.(saved := s.saved + [f.call.record], inFlight := Moved(s, f, None))
    case Drop(f) => s.(inFlight := Moved(s, f, None))
    case Elsewhere(write) => s.(db := Apply(s.db, write))
  }

  ghost predicate ValidRun(w: World, s: Shop, ms: seq<Move>)
    decreases ms
  {
    ms == [] || (Enabled(w, s, ms[0]) && ValidRun(w, Next(w, s, ms[0]), ms[1..]))
  }

  ghost function Run(w: World, s: Shop, ms: seq<Move>): Shop
    decreases ms
  {
    if ms == [] then s else Run(w, Next(w, s, ms[0]), ms[1..])
  }

  /** The saves of a run, as requests to the timestamp check. */
  ghost function Lates(w: World, ms: seq<Move>): seq<Late>
    decreases ms
  {
    if ms == [] then [] else LateOf(w, ms[0]) + Lates(w, ms[1..])
  }

  ghost function LateOf(w: World, m: Move): seq<Late>
  {
    if !m.Save? || m.f.call.OtherStep? || w.timestampOf(m.f.call.record.request).None? then []
    else
      var t := w.timestampOf(m.f.call.record.request).value;
      [Late(if m.f.call.PayCall? then Pay(t) else Choose(t), m.f.read)]
  }

  /** What is known of a request under way: it has a timestamp, and a choice is newer
      than what the log held when it looked. */
  ghost predicate Vetted(w: World, saved: seq<VoteChangeRecord>, f: InFlight)
  {
    && !f.call.OtherStep? && Timed(w, f.call) && f.read <= |saved|
    && (f.call.ChooseCall? ==> NewerRequest(saved[..f.read], w.limit, w.timestampOf, f.call.record))
  }

  ghost predicate Inv(w: World, s: Shop)
  {
    AllTimed(w, s.saved) && forall f | f in s.inFlight :: Vetted(w, s.saved, f)
  }

  lemma VettedPrefix(w: World, saved: seq<VoteChangeRecord>, record: VoteChangeRecord, f: InFlight)
    requires Vetted(w, saved, f)
    ensures Vetted(w, saved + [record], f)
  {
    assert (saved + [record])[..f.read] == saved[..f.read];
    hide NewerRequest;
  }

  lemma ArrivalIsVetted(w: World, saved: seq<VoteChangeRecord>, c: Call, known: Ticket)
    requires Passes(w, saved, c, known) && Timed(w, c)
    ensures Vetted(w, saved, InFlight(c, known, |saved|, Checked))
  {
    assert saved[..|saved|] == saved;
    hide PayFeeAccepted, NewerRequest;
  }

  lemma NextKeepsInv(w: World, s: Shop, m: Move)
    requires Inv(w, s) && Enabled(w, s, m)
    ensures Inv(w, Next(w, s, m))
  {
    hide Vetted, Passes, React, Apply, Moved;
    var s' := Next(w, s, m);
    if m.Arrive? {
      if Passes(w, s.saved, m.call, m.known) {
        ArrivalIsVetted(w, s.saved, m.call, m.known);
      }
    } else if m.Save? {
      SavedIsTimed(w, s.saved, m.f);
      StillVetted(w, s, m.f, None);
      forall f | f in s'.inFlight ensures Vetted(w, s'.saved, f) {
        VettedPrefix(w, s.saved, m.f.call.record, f);
      }
    } else if m.StoreTicket? || m.StoreFate? || m.Drop? {
      StillVetted(w, s, m.f, None);
      StillVetted(w, s, m.f, Some(Stored));
      StillVetted(w, s, m.f, Some(Told));
    }
  }

  lemma StillVetted(w: World, s: Shop, f: InFlight, after: Option<Phase>)
    requires Inv(w, s) && f in s.inFlight
    ensures forall g | g in Moved(s, f, after) :: Vetted(w, s.saved, g)
  {
    hide Vetted;
    if after.Some? {
      PhaseDoesNotMatter(w, s.saved, f, after.value);
    }
  }

  lemma SavedIsTimed(w: World, saved: seq<VoteChangeRecord>, f: InFlight)
    requires Vetted(w, saved, f) && AllTimed(w, saved)
    ensures !f.call.OtherStep? && AllTimed(w, saved + [f.call.record])
  {
    hide NewerRequest;
  }

  lemma PhaseDoesNotMatter(w: World, saved: seq<VoteChangeRecord>, f: InFlight, phase: Phase)
    requires Vetted(w, saved, f)
    ensures Vetted(w, saved, f.(phase := phase))
  {
    hide NewerRequest;
  }

  /** A vetted request is accepted by the late server on the timestamps it read. */
  lemma SaveIsServed(w: World, saved: seq<VoteChangeRecord>, f: InFlight)
    requires Vetted(w, saved, f) && AllTimed(w, saved)
    ensures AllTimed(w, saved + [f.call.record])
    ensures Timestamps(saved + [f.call.record], w.timestampOf)
         == ServeLate(Timestamps(saved, w.timestampOf), w.limit, LateOf(w, Save(f)))
  {
    var h, t := Timestamps(saved, w.timestampOf), w.timestampOf(f.call.record.request).value;
    var l := LateOf(w, Save(f))[0];
    assert LateOf(w, Save(f)) == [l] && [l][1..] == [];
    TimestampsAppend(saved, f.call.record, w.timestampOf);
    assert ReadBy(h, l) == Timestamps(saved[..f.read], w.timestampOf);
    NewerMeansNotTooOld(saved[..f.read], w.limit, w.timestampOf, t);
    hide Timestamps, Retained, TooOld, ReadBy, Newer;
  }

  lemma {:induction false} LateConcat(h: seq<int>, limit: nat, a: seq<Late>, b: seq<Late>)
    ensures ServeLate(h, limit, a + b) == ServeLate(ServeLate(h, limit, a), limit, b)
    decreases a
  {
    if a == [] {
      assert a + b == b;
    } else {
      assert (a + b)[1..] == a[1..] + b;
      var h1 := if Accepted(ReadBy(h, a[0]), limit, a[0].request) then h + [a[0].request.timestamp] else h;
      LateConcat(h1, limit, a[1..], b);
    }
  }

  lemma LateNothing(h: seq<int>, limit: nat)
    ensures ServeLate(h, limit, []) == h
  {
  }

  lemma OnlySavesAreSaved(w: World, s: Shop, m: Move)
    requires Inv(w, s) && Enabled(w, s, m)
    ensures AllTimed(w, Next(w, s, m).saved)
    ensures Timestamps(Next(w, s, m).saved, w.timestampOf)
         == ServeLate(Timestamps(s.saved, w.timestampOf), w.limit, LateOf(w, m))
  {
    hide Vetted, Passes, React, Apply, ServeLate, Timestamps;
    LateNothing(Timestamps(s.saved, w.timestampOf), w.limit);
    if m.Save? {
      SavedIsTimed(w, s.saved, m.f);
      SaveIsServed(w, s.saved, m.f);
    }
  }

  /** However requests for the ticket overlap, the log has exactly what the late
      server of module ReplayCheck accepts. */
  lemma {:induction false} OverlapsAreTheServer(w: World, s: Shop, ms: seq<Move>)
    requires Inv(w, s) && ValidRun(w, s, ms)
    ensures Inv(w, Run(w, s, ms))
    ensures Timestamps(Run(w, s, ms).saved, w.timestampOf)
         == ServeLate(Timestamps(s.saved, w.timestampOf), w.limit, Lates(w, ms))
    decreases ms
  {
    hide Enabled, Next, Vetted, LateOf, Timestamps;
    if ms == [] {
      LateNothing(Timestamps(s.saved, w.timestampOf), w.limit);
    } else {
      NextKeepsInv(w, s, ms[0]);
      OnlySavesAreSaved(w, s, ms[0]);
      OverlapsAreTheServer(w, Next(w, s, ms[0]), ms[1..]);
      LateConcat(Timestamps(s.saved, w.timestampOf), w.limit, LateOf(w, ms[0]), Lates(w, ms[1..]));
      hide ServeLate;
    }
  }

  /** Replay protection of the handlers, exactly, with requests overlapping in any
      way: the timestamps on record stay strictly increasing if and only if no
      request is overtaken: each payment is newer than the records in the log when it
      is saved, and each choice newer than what was saved after it read the log. */
  lemma OverlapsInOrderIff(w: World, s: Shop, ms: seq<Move>)
    requires Inv(w, s) && ValidRun(w, s, ms) && Increasing(Timestamps(s.saved, w.timestampOf))
    ensures AllTimed(w, Run(w, s, ms).saved)
    ensures Increasing(Timestamps(Run(w, s, ms).saved, w.timestampOf))
       <==> NotOvertaken(Timestamps(s.saved, w.timestampOf), w.limit, Lates(w, ms))
  {
    OverlapsAreTheServer(w, s, ms);
    InOrderIffNotOvertaken(Timestamps(s.saved, w.timestampOf), w.limit, Lates(w, ms));
    hide NotOvertaken, Increasing, ValidRun, Vetted;
  }

  /** What SetVoteChoices promises of the log, whatever others do meanwhile, is what
      the late server does with a choice that read the log when it was called. */
  lemma ChoiceIsServedLate(w: World, log: map<string, seq<VoteChangeRecord>>, beforeWrite: seq<Action>,
                           beforeSave: seq<Action>,
                           record: VoteChangeRecord, known: Ticket)
    requires w.timestampOf(record.request).Some? && NewerRequest(SavedIn(log, w.hash), w.limit, w.timestampOf, record)
    requires AllTimed(w, SavedIn(log, w.hash))
    requires AllTimed(w, SavedIn(LogAfter(LogAfter(log, beforeWrite), beforeSave), w.hash))
    ensures var before := LogAfter(LogAfter(log, beforeWrite), beforeSave);
            var after := LogWith(before, w.hash, record);
            && SavedIn(log, w.hash) <= SavedIn(before, w.hash) && AllTimed(w, SavedIn(after, w.hash))
            && Timestamps(SavedIn(after, w.hash), w.timestampOf)
               == ServeLate(Timestamps(SavedIn(before, w.hash), w.timestampOf), w.limit,
                            [Late(Choose(w.timestampOf(record.request).value), |SavedIn(log, w.hash)|)])
  {
    LogOnlyGrows(log, w.hash, beforeWrite);
    LogOnlyGrows(LogAfter(log, beforeWrite), w.hash, beforeSave);
    var read, saved := SavedIn(log, w.hash), SavedIn(LogAfter(LogAfter(log, beforeWrite), beforeSave), w.hash);
    assert saved[..|read|] == read;
    hide LogAfter, NewerRequest;
    var choice := ChooseCall(ChoicesRequest(NilMap, NilMap, NilMap), true, record);
    SaveIsServed(w, saved, InFlight(choice, known, |read|, Stored));
  }

  ghost function SavedIn(log: map<string, seq<VoteChangeRecord>>, hash: string): seq<VoteChangeRecord>
  {
    if hash in log then log[hash] else []
  }

  lemma {:induction false} LogOnlyGrows(log: map<string, seq<VoteChangeRecord>>, hash: string, actions: seq<Action>)
    ensures SavedIn(log, hash) <= SavedIn(LogAfter(log, actions), hash)
    decreases actions
  {
    if actions != [] {
      var a := actions[0];
      LogOnlyGrows(if a.Saves? then LogWith(log, a.hash, a.record) else log, hash, actions[1..]);
    }
  }

  // ------------------------------------------------- the same request, twice

  ghost function Twice(c: Call, t: Ticket): seq<Move>
  {
    var f := InFlight(c, t, 0, Checked);
    var g := f.(phase := Stored);
    [Arrive(c, t)] + ([Arrive(c, t)] + ([StoreTicket(f)] + ([StoreTicket(f)] + ([Save(g)] + ([Save(g)] + [])))))
  }

  lemma Arrives(w: World, s: Shop, t: Ticket, c: Call)
    requires t.hash == w.hash && s.saved == []
    requires c.ChooseCall? && w.timestampOf(c.record.request).Some?
             && ChoicesAccepted(w.env, t, c.choices, true, c.walletsUp)
    ensures Enabled(w, s, Arrive(c, t))
    ensures Next(w, s, Arrive(c, t)) == s.(inFlight := s.inFlight + multiset{InFlight(c, t, 0, Checked)})
  {
    assert NewerRequest([], w.limit, w.timestampOf, c.record);
    hide NewerRequest, ChoicesAccepted;
    assert Passes(w, [], c, t);
    hide Passes;
  }

  lemma Stores(w: World, s: Shop, f: InFlight)
    requires f in s.inFlight && f.phase == Checked && f.call.ChooseCall? && f.known.hash == w.hash && Normal(f.known)
    requires w.hash in s.db && w.hash !in w.broken
    requires ChoicesAccepted(w.env, f.known, f.call.choices, true, f.call.walletsUp)
    ensures Enabled(w, s, StoreTicket(f))
    ensures var s' := Next(w, s, StoreTicket(f));
            && s'.saved == s.saved && w.hash in s'.db
            && s'.inFlight == s.inFlight - multiset{f} + multiset{f.(phase := Stored)}
  {
    ChoicesReaction(w.env, EventOf(f.call), f.known);
    assert WithChoices(f.known, f.call.choices).hash == w.hash by { hide Merge; }
    hide React, ChoicesAccepted, WithChoices;
  }

  lemma Saves(w: World, s: Shop, g: InFlight)
    requires g in s.inFlight && g.phase == Stored && g.call.ChooseCall?
    ensures Enabled(w, s, Save(g))
    ensures Next(w, s, Save(g)) == Shop(s.db, s.saved + [g.call.record], s.inFlight - multiset{g})
  {
    assert s.inFlight - multiset{g} + multiset{} == s.inFlight - multiset{g};
  }

  lemma Then(w: World, s: Shop, m: Move, ms: seq<Move>)
    requires Enabled(w, s, m) && ValidRun(w, Next(w, s, m), ms)
    ensures ValidRun(w, s, [m] + ms) && Run(w, s, [m] + ms) == Run(w, Next(w, s, m), ms)
  {
    assert ([m] + ms)[0] == m && ([m] + ms)[1..] == ms;
    hide Enabled, Next;
  }

  lemma SavesBoth(w: World, s: Shop, g: InFlight)
    requires s.inFlight == multiset{g, g} && g.phase == Stored && g.call.ChooseCall?
    ensures var ms := [Save(g)] + ([Save(g)] + []);
            ValidRun(w, s, ms) && Run(w, s, ms).saved == s.saved + [g.call.record, g.call.record]
  {
    Saves(w, s, g);
    var s1 := Next(w, s, Save(g));
    assert s1.inFlight == multiset{g};
    Saves(w, s1, g);
    var s2 := Next(w, s1, Save(g));
    assert s2.saved == s.saved + [g.call.record, g.call.record];
    hide Enabled, Next;
    assert ValidRun(w, s2, []) && Run(w, s2, []) == s2;
    Then(w, s1, Save(g), []);
    Then(w, s, Save(g), [Save(g)] + []);
  }

  lemma StoresAndSavesBoth(w: World, s: Shop, f: InFlight)
    requires s.inFlight == multiset{f, f} && f.phase == Checked && f.call.ChooseCall? && f.known.hash == w.hash
             && Normal(f.known)
    requires w.hash in s.db && w.hash !in w.broken
    requires ChoicesAccepted(w.env, f.known, f.call.choices, true, f.call.walletsUp)
    ensures var g := f.(phase := Stored);
            var ms := [StoreTicket(f)] + ([StoreTicket(f)] + ([Save(g)] + ([Save(g)] + [])));
            ValidRun(w, s, ms) && Run(w, s, ms).saved == s.saved + [f.call.record, f.call.record]
  {
    hide Enabled, Next, ChoicesAccepted, ValidRun, Run;
    var g := f.(phase := Stored);
    Stores(w, s, f);
    var s1 := Next(w, s, StoreTicket(f));
    assert s1.inFlight == multiset{f, g};
    Stores(w, s1, f);
    var s2 := Next(w, s1, StoreTicket(f));
    assert s2.inFlight == multiset{g, g};
    SavesBoth(w, s2, g);
    var saves := [Save(g)] + ([Save(g)] + []);
    Then(w, s1, StoreTicket(f), saves);
    Then(w, s, StoreTicket(f), [StoreTicket(f)] + saves);
  }

  /** No payment is needed: any acceptable choice, submitted twice at the same time,
      is recorded twice. Both handlers read the log before either saves. */
  lemma SameRequestTwiceIsRecordedTwice(w: World, t: Ticket, c: Call)
    requires t.hash == w.hash && w.hash !in w.broken && Normal(t)
    requires c.ChooseCall? && w.timestampOf(c.record.request).Some?
    requires ChoicesAccepted(w.env, t, c.choices, true, c.walletsUp)
    ensures var s := Shop(map[t.hash := t], [], multiset{});
            && Inv(w, s) && ValidRun(w, s, Twice(c, t))
            && Run(w, s, Twice(c, t)).saved == [c.record, c.record]
  {
    hide Enabled, Next, ChoicesAccepted, Vetted, ValidRun, Run;
    var f := InFlight(c, t, 0, Checked);
    var s := Shop(map[t.hash := t], [], multiset{});
    Arrives(w, s, t, c);
    var s1 := Next(w, s, Arrive(c, t));
    Arrives(w, s1, t, c);
    var s2 := Next(w, s1, Arrive(c, t));
    assert s2 == Shop(map[t.hash := t], [], multiset{f, f});
    StoresAndSavesBoth(w, s2, f);
    var g := f.(phase := Stored);
    var rest := [StoreTicket(f)] + ([StoreTicket(f)] + ([Save(g)] + ([Save(g)] + [])));
    Then(w, s1, Arrive(c, t), rest);
    Then(w, s, Arrive(c, t), [Arrive(c, t)] + rest);
  }
}
