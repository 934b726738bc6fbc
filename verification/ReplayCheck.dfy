/** The replay check of setVoteChoices: a request must be newer than every record
    still in the log, and the log only keeps the newest ones. */
module ReplayCheck {
  import opened Encoding
  import opened Tickets
  import opened VoteLog

  /** internal/webapi/setvotechoices.go:75-94. `timestampOf` parses the timestamp
      out of a recorded request. */
  method CheckTimestamp(records: map<uint32, VoteChangeRecord>, timestampOf: string -> Option<int>, requested: int)
    returns (newer: bool)
    ensures newer <==> forall i | i in records ::
              timestampOf(records[i].request).Some? && timestampOf(records[i].request).value < requested
  {
    var keys := records.Keys;
    while keys != {}
      invariant keys <= records.Keys
      invariant forall i | i in records && i !in keys ::
        timestampOf(records[i].request).Some? && timestampOf(records[i].request).value < requested
      decreases |keys|
    {
      var i :| i in keys;
      keys := keys - {i};
      var previous := timestampOf(records[i].request);
      if previous.None? {
        return false;
      }
      if requested <= previous.value {
        return false;
      }
    }
    return true;
  }

  /** Some timestamp in the list is not older than t. */
  ghost predicate TooOld(timestamps: seq<int>, t: int)
  {
    exists i | 0 <= i < |timestamps| :: t <= timestamps[i]
  }

  ghost function Retained(h: seq<int>, limit: nat): seq<int>
  {
    h[OldestKept(|h|, limit)..]
  }

  ghost function Timestamps(records: seq<VoteChangeRecord>, timestampOf: string -> Option<int>): (ts: seq<int>)
    requires forall i | 0 <= i < |records| :: timestampOf(records[i].request).Some?
    ensures |ts| == |records| && forall i | 0 <= i < |ts| :: ts[i] == timestampOf(records[i].request).value
  {
    seq(|records|, i requires 0 <= i < |records| => timestampOf(records[i].request).value)
  }

  /** Newer than every request the log still has. */
  ghost predicate Newer(saved: seq<VoteChangeRecord>, limit: nat, timestampOf: string -> Option<int>, timestamp: int)
  {
    forall i | OldestKept(|saved|, limit) <= i < |saved| ::
      timestampOf(saved[i].request).Some? && timestampOf(saved[i].request).value < timestamp
  }

  /** The records compared with are the last ones saved: as many as the limit, and one
      if the limit is zero. */
  lemma NewerMeans(saved: seq<VoteChangeRecord>, limit: nat, timestampOf: string -> Option<int>, timestamp: int)
    ensures Newer(saved, limit, timestampOf, timestamp) <==>
              forall i | 0 <= i < |saved| && |saved| <= i + (if limit == 0 then 1 else limit) ::
                timestampOf(saved[i].request).Some? && timestampOf(saved[i].request).value < timestamp
  {
  }

  /** What the handler compares with is the retained end of everything ever saved. */
  lemma CheckIsAgainstRetained(saved: seq<VoteChangeRecord>, limit: nat, records: map<uint32, VoteChangeRecord>,
                               timestampOf: string -> Option<int>, requested: int)
    requires |saved| <= KEYS
    requires forall i: uint32 :: i in records <==> OldestKept(|saved|, limit) <= i < |saved|
    requires forall i | i in records :: records[i] == saved[i]
    ensures (forall i | i in records ::
              timestampOf(records[i].request).Some? && timestampOf(records[i].request).value < requested)
       <==> Newer(saved, limit, timestampOf, requested)
  {
    forall i | OldestKept(|saved|, limit) <= i < |saved| ensures i in records && records[i] == saved[i] {
      var k: uint32 := i;
      assert k in records;
    }
    hide OldestKept;
  }

  /** On histories of timestamps alone, the check is the one studied below. */
  lemma NewerMeansNotTooOld(saved: seq<VoteChangeRecord>, limit: nat, timestampOf: string -> Option<int>,
                            timestamp: int)
    requires forall i | 0 <= i < |saved| :: timestampOf(saved[i].request).Some?
    ensures Newer(saved, limit, timestampOf, timestamp)
            <==> !TooOld(Retained(Timestamps(saved, timestampOf), limit), timestamp)
  {
    var ts, lo := Timestamps(saved, timestampOf), OldestKept(|saved|, limit);
    var kept := Retained(ts, limit);
    forall k | 0 <= k < |kept| ensures kept[k] == ts[k + lo] {
    }
    forall i | lo <= i < |saved| ensures kept[i - lo] == ts[i] {
    }
    hide OldestKept, Retained, Timestamps;
  }

  // ------------------------------------------------------- all histories

  /** Every dropped timestamp is matched or exceeded by a retained one. */
  ghost predicate Dominated(h: seq<int>, limit: nat)
  {
    forall j | 0 <= j < OldestKept(|h|, limit) :: TooOld(Retained(h, limit), h[j])
  }

  /** The truncated log decides every request like the full history exactly when
      no dropped timestamp is newer than all retained ones. */
  lemma TruncationHarmlessIff(h: seq<int>, limit: nat)
    ensures (forall t :: TooOld(Retained(h, limit), t) <==> TooOld(h, t)) <==> Dominated(h, limit)
  {
    var lo, kept := OldestKept(|h|, limit), Retained(h, limit);
    if forall t :: TooOld(kept, t) <==> TooOld(h, t) {
      forall j | 0 <= j < lo ensures TooOld(kept, h[j]) {
        assert TooOld(h, h[j]);
      }
    }
    if Dominated(h, limit) {
      forall t ensures TooOld(kept, t) <==> TooOld(h, t) {
        if TooOld(kept, t) {
          var i :| 0 <= i < |kept| && t <= kept[i];
          assert h[i + lo] == kept[i];
        }
        if TooOld(h, t) {
          var j :| 0 <= j < |h| && t <= h[j];
          if j < lo {
            assert TooOld(kept, h[j]);
          } else {
            assert kept[j - lo] == h[j];
          }
        }
      }
    }
  }

  /** Requests whose records are saved: payFee does not look at the timestamp. */
  datatype Request = Pay(timestamp: int) | Choose(timestamp: int)

  ghost predicate Accepted(h: seq<int>, limit: nat, r: Request)
  {
    r.Pay? || !TooOld(Retained(h, limit), r.timestamp)
  }

  ghost function Serve(h: seq<int>, limit: nat, rs: seq<Request>): seq<int>
    decreases rs
  {
    if rs == [] then h
    else Serve(if Accepted(h, limit, rs[0]) then h + [rs[0].timestamp] else h, limit, rs[1..])
  }

  /** The same server with the whole history at hand. */
  ghost function ServeWithFullHistory(h: seq<int>, rs: seq<Request>): seq<int>
    decreases rs
  {
    if rs == [] then h
    else ServeWithFullHistory(if rs[0].Pay? || !TooOld(h, rs[0].timestamp) then h + [rs[0].timestamp] else h, rs[1..])
  }

  /** Each payment is newer than the records the log has when the payment arrives:
      the check setVoteChoices makes and payFee does not. */
  ghost predicate PaymentsAreNewer(h: seq<int>, limit: nat, rs: seq<Request>)
    decreases rs
  {
    rs != [] ==>
      && (rs[0].Pay? ==> !TooOld(Retained(h, limit), rs[0].timestamp))
      && PaymentsAreNewer(if Accepted(h, limit, rs[0]) then h + [rs[0].timestamp] else h, limit, rs[1..])
  }

  ghost predicate Increasing(h: seq<int>)
  {
    forall i, j | 0 <= i < j < |h| :: h[i] < h[j]
  }

  lemma IncreasingIsDominated(h: seq<int>, limit: nat, t: int)
    requires Increasing(h)
    ensures TooOld(Retained(h, limit), t) <==> TooOld(h, t)
  {
    var lo, kept := OldestKept(|h|, limit), Retained(h, limit);
    forall j | 0 <= j < lo ensures TooOld(kept, h[j]) {
      assert kept[|kept| - 1] == h[|h| - 1];
    }
    TruncationHarmlessIff(h, limit);
  }

  lemma {:induction false} ServeExtends(h: seq<int>, limit: nat, rs: seq<Request>)
    ensures h <= Serve(h, limit, rs)
    decreases rs
  {
    if rs != [] {
      ServeExtends(if Accepted(h, limit, rs[0]) then h + [rs[0].timestamp] else h, limit, rs[1..]);
    }
  }

  lemma AppendIncreases(h: seq<int>, t: int)
    requires Increasing(h)
    ensures Increasing(h + [t]) <==> !TooOld(h, t)
  {
    if TooOld(h, t) {
      var i :| 0 <= i < |h| && t <= h[i];
      assert (h + [t])[i] == h[i] && (h + [t])[|h|] == t;
    }
  }

  /** Replay protection, exactly: the accepted timestamps are strictly increasing, so
      that none is accepted twice or out of order, if and only if each payment is
      newer than the records in the log when it arrives. */
  lemma {:induction false} InOrderIffPaymentsAreNewer(h: seq<int>, limit: nat, rs: seq<Request>)
    requires Increasing(h)
    ensures Increasing(Serve(h, limit, rs)) <==> PaymentsAreNewer(h, limit, rs)
    decreases rs
  {
    if rs != [] {
      var t := rs[0].timestamp;
      IncreasingIsDominated(h, limit, t);
      AppendIncreases(h, t);
      hide TooOld, Retained;
      if Accepted(h, limit, rs[0]) && TooOld(h, t) {
        ServeExtends(h + [t], limit, rs[1..]);
        PrefixIncreases(h + [t], Serve(h, limit, rs));
      } else {
        InOrderIffPaymentsAreNewer(if Accepted(h, limit, rs[0]) then h + [t] else h, limit, rs[1..]);
      }
    }
  }

  lemma PrefixIncreases(a: seq<int>, b: seq<int>)
    requires a <= b
    ensures Increasing(b) ==> Increasing(a)
  {
    forall i, j | 0 <= i < j < |a| && Increasing(b) ensures a[i] < a[j] {
      assert a[i] == b[i] && a[j] == b[j];
    }
  }

  /** Under the same condition the truncated log takes exactly the decisions of one
      that remembers everything. */
  lemma {:induction false} TruncatedLogSuffices(h: seq<int>, limit: nat, rs: seq<Request>)
    requires Increasing(h) && PaymentsAreNewer(h, limit, rs)
    ensures Serve(h, limit, rs) == ServeWithFullHistory(h, rs)
    decreases rs
  {
    if rs != [] {
      IncreasingIsDominated(h, limit, rs[0].timestamp);
      AppendIncreases(h, rs[0].timestamp);
      var h' := if Accepted(h, limit, rs[0]) then h + [rs[0].timestamp] else h;
      hide TooOld, Retained;
      TruncatedLogSuffices(h', limit, rs[1..]);
    }
  }

  // ------------------------------------------------------- overlapping requests

  /** Requests in the order in which their records are saved; each compared itself
      with the log when it held `read` records, which others may have added to. */
  datatype Late = Late(request: Request, read: nat)

  ghost function ReadBy(h: seq<int>, l: Late): seq<int>
  {
    if l.read <= |h| then h[..l.read] else h
  }

  ghost function ServeLate(h: seq<int>, limit: nat, ls: seq<Late>): seq<int>
    decreases ls
  {
    if ls == [] then h
    else
      var r := ls[0].request;
      ServeLate(if Accepted(ReadBy(h, ls[0]), limit, r) then h + [r.timestamp] else h, limit, ls[1..])
  }

  /** Nothing newer got in between: each payment is newer than the records the log
      has when it is saved, and each accepted choice newer than what was saved after
      it read the log. */
  ghost predicate NotOvertaken(h: seq<int>, limit: nat, ls: seq<Late>)
    decreases ls
  {
    ls != [] ==>
      var l, t := ls[0], ls[0].request.timestamp;
      var accepted := Accepted(ReadBy(h, l), limit, l.request);
      && (l.request.Pay? ==> !TooOld(Retained(h, limit), t))
      && (l.request.Choose? && accepted ==> !TooOld(h[|ReadBy(h, l)|..], t))
      && NotOvertaken(if accepted then h + [t] else h, limit, ls[1..])
  }

  lemma {:induction false} ServeLateExtends(h: seq<int>, limit: nat, ls: seq<Late>)
    ensures h <= ServeLate(h, limit, ls)
    decreases ls
  {
    if ls != [] {
      ServeLateExtends(if Accepted(ReadBy(h, ls[0]), limit, ls[0].request) then h + [ls[0].request.timestamp] else h,
                       limit, ls[1..]);
    }
  }

  lemma TooOldSplits(h: seq<int>, n: nat, t: int)
    requires n <= |h|
    ensures TooOld(h, t) <==> TooOld(h[..n], t) || TooOld(h[n..], t)
  {
    if TooOld(h, t) {
      var i :| 0 <= i < |h| && t <= h[i];
      assert if i < n then h[..n][i] == h[i] else h[n..][i - n] == h[i];
    }
  }

  /** A request accepted late is newer than the whole history exactly when it was
      not overtaken. */
  lemma LateIsNewerIff(h: seq<int>, limit: nat, l: Late)
    requires Increasing(h) && Accepted(ReadBy(h, l), limit, l.request)
    ensures !TooOld(h, l.request.timestamp)
       <==> if l.request.Pay? then !TooOld(Retained(h, limit), l.request.timestamp)
            else !TooOld(h[|ReadBy(h, l)|..], l.request.timestamp)
  {
    var t, read := l.request.timestamp, ReadBy(h, l);
    PrefixIncreases(read, h);
    IncreasingIsDominated(h, limit, t);
    IncreasingIsDominated(read, limit, t);
    TooOldSplits(h, |read|, t);
    hide TooOld, Retained, Increasing;
  }

  /** Replay protection with requests overlapping in any way, exactly: the accepted
      timestamps are strictly increasing, so that none is accepted twice or out of
      order, if and only if no request is overtaken between its check and its save,
      payments having no check at all. */
  lemma {:induction false} InOrderIffNotOvertaken(h: seq<int>, limit: nat, ls: seq<Late>)
    requires Increasing(h)
    ensures Increasing(ServeLate(h, limit, ls)) <==> NotOvertaken(h, limit, ls)
    decreases ls
  {
    if ls != [] {
      var l, t := ls[0], ls[0].request.timestamp;
      hide TooOld, Retained, ReadBy;
      if Accepted(ReadBy(h, l), limit, l.request) {
        AppendIncreases(h, t);
        LateIsNewerIff(h, limit, l);
        if TooOld(h, t) {
          ServeLateExtends(h + [t], limit, ls[1..]);
          PrefixIncreases(h + [t], ServeLate(h, limit, ls));
        } else {
          InOrderIffNotOvertaken(h + [t], limit, ls[1..]);
        }
      } else {
        InOrderIffNotOvertaken(h, limit, ls[1..]);
      }
    }
  }

  /** The failing input without any payment: the same choice twice, both compared
      with the log before either was saved. */
  lemma SameChoiceTwice(limit: nat, t: int)
    ensures ServeLate([], limit, [Late(Choose(t), 0), Late(Choose(t), 0)]) == [t, t]
    ensures !NotOvertaken([], limit, [Late(Choose(t), 0), Late(Choose(t), 0)])
  {
    var one := Late(Choose(t), 0);
    assert ReadBy([], one) == [] && ReadBy([t], one) == [] && Retained([], limit) == [];
    assert Accepted([], limit, Choose(t));
    assert [one, one][1..] == [one] && [one][1..] == [];
    hide Accepted, ReadBy, Retained, NotOvertaken;
    assert ServeLate([], limit, [one, one]) == ServeLate([t], limit, [one]) == ServeLate([t, t], limit, []);
    InOrderIffNotOvertaken([], limit, [one, one]);
    assert [t, t][0] == [t, t][1];
  }

  /** A request that nothing overlaps reads everything saved before it. */
  lemma {:induction false} ServeIsServeLate(h: seq<int>, limit: nat, rs: seq<Request>) returns (ls: seq<Late>)
    ensures |ls| == |rs| && forall i | 0 <= i < |rs| :: ls[i].request == rs[i]
    ensures ServeLate(h, limit, ls) == Serve(h, limit, rs)
    decreases rs
  {
    if rs == [] {
      ls := [];
    } else {
      var rest := ServeIsServeLate(if Accepted(h, limit, rs[0]) then h + [rs[0].timestamp] else h, limit, rs[1..]);
      ls := [Late(rs[0], |h|)] + rest;
      assert ls[1..] == rest && h[..|h|] == h;
    }
  }

  ghost function Payments(n: nat, t: int): seq<Request>
  {
    if n == 0 then [] else [Pay(t)] + Payments(n - 1, t)
  }

  ghost function Repeated(n: nat, t: int): (ts: seq<int>)
    ensures |ts| == n && forall i | 0 <= i < n :: ts[i] == t
  {
    seq(n, i => t)
  }

  /** Without that: a choice made at time t is accepted a second time once as many
      payments with older timestamps as the log holds have been recorded. */
  lemma OldPaymentsAllowReplay(limit: nat, t: int)
    ensures var h := Serve([], limit, [Choose(t)] + (Payments(Kept(limit), t - 1) + [Choose(t)]));
            |h| == Kept(limit) + 2 && h[0] == t && h[|h| - 1] == t
  {
    var rest := Payments(Kept(limit), t - 1) + [Choose(t)];
    assert ([Choose(t)] + rest)[1..] == rest;
    assert Accepted([], limit, Choose(t)) && [] + [t] == [t];
    assert Serve([], limit, [Choose(t)] + rest) == Serve([t], limit, rest);
    ServePayments([t], limit, Kept(limit), [Choose(t)], t - 1);
    var h := [t] + Repeated(Kept(limit), t - 1);
    assert Retained(h, limit) == Repeated(Kept(limit), t - 1);
    assert !TooOld(Retained(h, limit), t);
    assert [Choose(t)][1..] == [];
    assert Serve(h, limit, [Choose(t)]) == h + [t];
  }

  lemma {:induction false} ServePayments(h: seq<int>, limit: nat, n: nat, rest: seq<Request>, t: int)
    ensures Serve(h, limit, Payments(n, t) + rest) == Serve(h + Repeated(n, t), limit, rest)
    decreases n
  {
    if n == 0 {
      assert Payments(0, t) + rest == rest && h + Repeated(0, t) == h;
    } else {
      ServePayments(h + [t], limit, n - 1, rest, t);
      assert (Payments(n, t) + rest)[1..] == Payments(n - 1, t) + rest;
      assert h + [t] + Repeated(n - 1, t) == h + Repeated(n, t);
    }
  }
}
