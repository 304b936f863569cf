/** The event list: a sequence of events kept in time order by a linear-scan
    insertion, with pop-the-head, scheduling, bulk deletion and seeding. The
    list is a value; an operation that can throw returns a `Result`, and on an
    error the caller keeps its list unchanged. */
module EventList {
  import opened Events

  /** The invariant the list keeps: times never decrease along it. */
  predicate TimeSorted(s: seq<Event>) {
    forall i, j :: 0 <= i < j < |s| ==> s[i].time <= s[j].time
  }

  /** `a` is an order-preserving sub-list of `b`. */
  predicate IsSubseq(a: seq<Event>, b: seq<Event>)
    decreases |b|
  {
    if |a| == 0 then true
    else if |b| == 0 then false
    else if a[0] == b[0] then IsSubseq(a[1..], b[1..])
    else IsSubseq(a, b[1..])
  }

  /** The events of `s` that satisfy `keep`, in their original order. */
  function Filter(s: seq<Event>, keep: Event -> bool): (r: seq<Event>)
    ensures |r| <= |s|
  {
    if |s| == 0 then []
    else (if keep(s[0]) then [s[0]] else []) + Filter(s[1..], keep)
  }

  /** Filtering keeps exactly the passing events, each as often as before. */
  lemma {:induction false} FilterCounts(s: seq<Event>, keep: Event -> bool)
    ensures forall x :: multiset(Filter(s, keep))[x] == if keep(x) then multiset(s)[x] else 0
    decreases |s|
  {
    if |s| > 0 {
      FilterCounts(s[1..], keep);
      assert s == [s[0]] + s[1..];
    }
  }

  /** Every event left by a filter was in the list and passes the test. */
  lemma FilterMembers(s: seq<Event>, keep: Event -> bool)
    ensures forall x :: x in Filter(s, keep) ==> x in s && keep(x)
  {
    FilterCounts(s, keep);
    forall x | x in Filter(s, keep)
      ensures x in s && keep(x)
    {
      assert x in multiset(Filter(s, keep));
    }
  }

  /** Tests on an event's time, named so that every use shares one term. */
  function At(t: real): Event -> bool {
    (e: Event) => e.time == t
  }

  function NoLater(t: real): Event -> bool {
    (e: Event) => e.time <= t
  }

  function Later(t: real): Event -> bool {
    (e: Event) => e.time > t
  }

  /** The events of `s` at exactly time `t`, in list order. */
  function AtTime(s: seq<Event>, t: real): seq<Event> {
    Filter(s, At(t))
  }

  /** The events of `s` no later than `t`, in list order. */
  function NoLaterThan(s: seq<Event>, t: real): seq<Event> {
    Filter(s, NoLater(t))
  }

  /** The events of `s` strictly later than `t`, in list order. */
  function LaterThan(s: seq<Event>, t: real): seq<Event> {
    Filter(s, Later(t))
  }

  /** The test "carries exactly this lane". */
  function OnLaneTest(lane: Lane): Event -> bool {
    (e: Event) => e.lane == Some(lane)
  }

  /** The events of `s` on one lane pair, in list order. */
  function OnLane(s: seq<Event>, lane: Lane): seq<Event> {
    Filter(s, OnLaneTest(lane))
  }

  lemma {:induction false} FilterConcat(a: seq<Event>, b: seq<Event>, keep: Event -> bool)
    ensures Filter(a + b, keep) == Filter(a, keep) + Filter(b, keep)
    decreases |a|
  {
    if |a| == 0 {
      assert a + b == b;
    } else {
      var head := if keep(a[0]) then [a[0]] else [];
      assert (a + b)[0] == a[0];
      assert (a + b)[1..] == a[1..] + b;
      assert Filter(a + b, keep) == head + Filter(a[1..] + b, keep);
      FilterConcat(a[1..], b, keep);
      assert Filter(a, keep) == head + Filter(a[1..], keep);
    }
  }

  lemma {:induction false} FilterIsSubseq(s: seq<Event>, keep: Event -> bool)
    ensures IsSubseq(Filter(s, keep), s)
    decreases |s|
  {
    if |s| > 0 {
      FilterIsSubseq(s[1..], keep);
      var r := Filter(s, keep);
      if keep(s[0]) {
        assert r[1..] == Filter(s[1..], keep);
      } else if |r| == 0 {
      } else {
        assert r == Filter(s[1..], keep);
        FilterMembers(s[1..], keep);
        assert r[0] in Filter(s[1..], keep);
        assert r[0] != s[0];
      }
    }
  }

  lemma {:induction false} FilterKeepsSorted(s: seq<Event>, keep: Event -> bool)
    ensures TimeSorted(s) ==> TimeSorted(Filter(s, keep))
    decreases |s|
  {
    if |s| > 0 && TimeSorted(s) {
      var tail := Filter(s[1..], keep);
      FilterKeepsSorted(s[1..], keep);
      FilterMembers(s[1..], keep);
      forall x | x in tail
        ensures s[0].time <= x.time
      {
        var k :| 0 <= k < |s[1..]| && s[1..][k] == x;
        assert s[k + 1] == x;
      }
    }
  }

  /** Filtering keeps everything when every event passes. */
  lemma {:induction false} FilterAll(s: seq<Event>, keep: Event -> bool)
    requires forall k :: 0 <= k < |s| ==> keep(s[k])
    ensures Filter(s, keep) == s
    decreases |s|
  {
    if |s| > 0 {
      FilterAll(s[1..], keep);
    }
  }

  /** Filtering keeps nothing when no event passes. */
  lemma {:induction false} FilterNone(s: seq<Event>, keep: Event -> bool)
    requires forall k :: 0 <= k < |s| ==> !keep(s[k])
    ensures Filter(s, keep) == []
    decreases |s|
  {
    if |s| > 0 {
      FilterNone(s[1..], keep);
    }
  }

  /** `insert`: walk past every event whose time is at most the new event's
      time, then place the new event there. Only times are compared; the type
      code plays no part. */
  function Insert(s: seq<Event>, e: Event): (r: seq<Event>)
    ensures |r| == |s| + 1
  {
    if |s| == 0 || e.time < s[0].time then [e] + s
    else [s[0]] + Insert(s[1..], e)
  }

  /** `insert` adds exactly the new event and loses none of the old ones. */
  lemma {:induction false} InsertAddsOneEvent(s: seq<Event>, e: Event)
    ensures multiset(Insert(s, e)) == multiset(s) + multiset{e}
    decreases |s|
  {
    if |s| > 0 && e.time >= s[0].time {
      InsertAddsOneEvent(s[1..], e);
      assert s == [s[0]] + s[1..];
    }
  }

  /** The scanning loop of `insert`, index by index, shown to build the same
      list as the recursive definition. */
  method InsertScan(s: seq<Event>, e: Event) returns (r: seq<Event>)
    ensures r == Insert(s, e)
  {
    var i := 0;
    while i < |s| && e.time >= s[i].time
      invariant 0 <= i <= |s|
      invariant Insert(s, e) == s[..i] + Insert(s[i..], e)
    {
      ScanStep(s, e, i);
      i := i + 1;
    }
    r := s[..i] + [e] + s[i..];
  }

  /** One step of the scan: an event no later than the new one is walked past. */
  lemma ScanStep(s: seq<Event>, e: Event, i: nat)
    requires i < |s| && e.time >= s[i].time
    ensures s[..i] + Insert(s[i..], e) == s[..i + 1] + Insert(s[i + 1..], e)
  {
    assert s[i..][1..] == s[i + 1..];
    assert s[..i + 1] == s[..i] + [s[i]];
  }

  /** An event no earlier than everything queued goes to the back. */
  lemma {:induction false} InsertLatest(s: seq<Event>, e: Event)
    requires forall k :: 0 <= k < |s| ==> s[k].time <= e.time
    ensures Insert(s, e) == s + [e]
    decreases |s|
  {
    if |s| > 0 {
      InsertLatest(s[1..], e);
      assert s == [s[0]] + s[1..];
    }
  }

  /** Every event of an insertion result is an old event or the new one. */
  lemma InsertMembers(s: seq<Event>, e: Event, x: Event)
    requires x in Insert(s, e)
    ensures x in s || x == e
  {
    InsertAddsOneEvent(s, e);
    assert x in multiset(Insert(s, e));
  }

  /** `insert` preserves the time-order invariant. */
  lemma {:induction false} InsertKeepsSorted(s: seq<Event>, e: Event)
    ensures TimeSorted(s) ==> TimeSorted(Insert(s, e))
    decreases |s|
  {
    if TimeSorted(s) && |s| > 0 && e.time >= s[0].time {
      var tail := Insert(s[1..], e);
      InsertKeepsSorted(s[1..], e);
      forall x | x in tail
        ensures s[0].time <= x.time
      {
        InsertMembers(s[1..], e, x);
        if x in s[1..] {
          var k :| 0 <= k < |s[1..]| && s[1..][k] == x;
          assert s[k + 1] == x;
        }
      }
    }
  }

  /** On a sorted list the new event lands after every event whose time is at
      most its own and before every later one, and both groups keep their
      relative order: equal times keep insertion order, whatever the type. */
  lemma {:induction false} InsertIsStable(s: seq<Event>, e: Event)
    requires TimeSorted(s)
    ensures Insert(s, e) == NoLaterThan(s, e.time) + [e] + LaterThan(s, e.time)
    decreases |s|
  {
    if |s| == 0 {
    } else if e.time < s[0].time {
      SplitBeforeHead(s, e.time);
    } else {
      SortedTail(s);
      SplitPastHead(s, e.time);
      InsertIsStable(s[1..], e);
      InsertPastHead(s, e);
      ConsRegroup([s[0]], Insert(s[1..], e), NoLaterThan(s[1..], e.time), [e], LaterThan(s[1..], e.time));
    }
  }

  /** One step of `insert` past a head no later than the new event. */
  lemma InsertPastHead(s: seq<Event>, e: Event)
    requires |s| > 0 && s[0].time <= e.time
    ensures Insert(s, e) == [s[0]] + Insert(s[1..], e)
  {
  }

  lemma ConsRegroup(head: seq<Event>, tail: seq<Event>, lo: seq<Event>, mid: seq<Event>, hi: seq<Event>)
    requires tail == lo + mid + hi
    ensures head + tail == (head + lo) + mid + hi
  {
  }

  /** The tail of a sorted list is sorted, and no event is earlier than its head. */
  lemma SortedTail(s: seq<Event>)
    requires |s| > 0 && TimeSorted(s)
    ensures TimeSorted(s[1..])
    ensures forall k :: 0 <= k < |s| ==> s[0].time <= s[k].time
  {
  }

  /** Splitting a sorted list at a time before its head puts everything late. */
  lemma SplitBeforeHead(s: seq<Event>, t: real)
    requires |s| > 0 && TimeSorted(s) && t < s[0].time
    ensures NoLaterThan(s, t) == [] && LaterThan(s, t) == s
  {
    SortedTail(s);
    forall k | 0 <= k < |s|
      ensures !NoLater(t)(s[k]) && Later(t)(s[k])
    {
    }
    FilterNone(s, NoLater(t));
    FilterAll(s, Later(t));
  }

  /** Splitting at a time no earlier than the head puts the head early. */
  lemma SplitPastHead(s: seq<Event>, t: real)
    requires |s| > 0 && s[0].time <= t
    ensures NoLaterThan(s, t) == [s[0]] + NoLaterThan(s[1..], t)
    ensures LaterThan(s, t) == LaterThan(s[1..], t)
  {
  }

  /** Filtering by a test and then by a stronger one is filtering by the
      stronger one. */
  lemma {:induction false} FilterSubsumed(s: seq<Event>, p: Event -> bool, q: Event -> bool)
    requires forall x :: q(x) ==> p(x)
    ensures Filter(Filter(s, p), q) == Filter(s, q)
    decreases |s|
  {
    if |s| > 0 {
      FilterSubsumed(s[1..], p, q);
      if p(s[0]) {
        assert Filter(s, p) == [s[0]] + Filter(s[1..], p);
        assert Filter(s, p)[1..] == Filter(s[1..], p);
      } else {
        assert Filter(s, p) == Filter(s[1..], p);
      }
    }
  }

  /** Filtering by a test and then by one it excludes leaves nothing. */
  lemma FilterExcluded(s: seq<Event>, p: Event -> bool, q: Event -> bool)
    requires forall x :: q(x) ==> !p(x)
    ensures Filter(Filter(s, p), q) == []
  {
    var r := Filter(s, p);
    FilterMembers(s, p);
    forall k | 0 <= k < |r|
      ensures !q(r[k])
    {
      assert r[k] in r;
    }
    FilterNone(r, q);
  }

  /** Reading one time off either side of a split at time `u`. */
  lemma AtTimeOfSplit(s: seq<Event>, u: real, t: real)
    ensures t <= u ==> AtTime(NoLaterThan(s, u), t) == AtTime(s, t) && AtTime(LaterThan(s, u), t) == []
    ensures u < t ==> AtTime(NoLaterThan(s, u), t) == [] && AtTime(LaterThan(s, u), t) == AtTime(s, t)
  {
    if t <= u {
      FilterSubsumed(s, NoLater(u), At(t));
      FilterExcluded(s, Later(u), At(t));
    } else {
      FilterExcluded(s, NoLater(u), At(t));
      FilterSubsumed(s, Later(u), At(t));
    }
  }

  /** The events of any one time after an insertion are those of before, with
      the new event appended when it has that time. */
  lemma InsertAtTime(s: seq<Event>, e: Event, t: real)
    requires TimeSorted(s)
    ensures AtTime(Insert(s, e), t) == AtTime(s, t) + (if e.time == t then [e] else [])
  {
    var lo, hi := NoLaterThan(s, e.time), LaterThan(s, e.time);
    InsertIsStable(s, e);
    FilterConcat(lo + [e], hi, At(t));
    FilterConcat(lo, [e], At(t));
    AtTimeOfSplit(s, e.time, t);
    assert AtTime([e], t) == (if e.time == t then [e] else []);
  }

  /** Inserts `es` one after another, as both constructors do. */
  function InsertAll(s: seq<Event>, es: seq<Event>): (r: seq<Event>)
    ensures |r| == |s| + |es|
    ensures multiset(r) == multiset(s) + multiset(es)
    decreases |es|
  {
    if |es| == 0 then s
    else
      assert es == [es[0]] + es[1..];
      InsertAddsOneEvent(s, es[0]);
      InsertAll(Insert(s, es[0]), es[1..])
  }

  lemma {:induction false} InsertAllKeepsSorted(s: seq<Event>, es: seq<Event>)
    requires TimeSorted(s)
    ensures TimeSorted(InsertAll(s, es))
    decreases |es|
  {
    if |es| > 0 {
      InsertKeepsSorted(s, es[0]);
      InsertAllKeepsSorted(Insert(s, es[0]), es[1..]);
    }
  }

  lemma InsertAllStep(s: seq<Event>, es: seq<Event>)
    requires |es| > 0
    ensures InsertAll(s, es) == InsertAll(Insert(s, es[0]), es[1..])
  {
  }

  lemma AtTimeStep(es: seq<Event>, t: real)
    requires |es| > 0
    ensures AtTime(es, t) == (if es[0].time == t then [es[0]] else []) + AtTime(es[1..], t)
  {
  }

  /** Ties keep insertion order: after inserting `es` into a sorted list, the
      events at any one time are the old ones, then those of `es` in the order
      they were inserted. */
  lemma {:induction false} InsertAllKeepsTies(s: seq<Event>, es: seq<Event>, t: real)
    requires TimeSorted(s)
    ensures AtTime(InsertAll(s, es), t) == AtTime(s, t) + AtTime(es, t)
    decreases |es|
  {
    if |es| == 0 {
      assert AtTime(es, t) == [];
    } else {
      var s' := Insert(s, es[0]);
      InsertAllStep(s, es);
      InsertKeepsSorted(s, es[0]);
      InsertAllKeepsTies(s', es[1..], t);
      InsertAtTime(s, es[0], t);
      AtTimeStep(es, t);
      var x: seq<Event> := if es[0].time == t then [es[0]] else [];
      Regroup(AtTime(InsertAll(s, es), t), AtTime(s', t), AtTime(s, t), x,
              AtTime(es[1..], t), AtTime(es, t));
    }
  }

  lemma Regroup(whole: seq<Event>, mid: seq<Event>, a: seq<Event>, x: seq<Event>,
                b: seq<Event>, tail: seq<Event>)
    requires whole == mid + b && mid == a + x && tail == x + b
    ensures whole == a + tail
  {
  }

  /** A sorted list is its early part followed by its late part. */
  lemma {:induction false} SortedSplits(s: seq<Event>, t: real)
    requires TimeSorted(s)
    ensures NoLaterThan(s, t) + LaterThan(s, t) == s
    decreases |s|
  {
    if |s| > 0 {
      if s[0].time <= t {
        SortedTail(s);
        SortedSplits(s[1..], t);
        SplitPastHead(s, t);
        JoinHead(s, NoLaterThan(s[1..], t), LaterThan(s[1..], t));
      } else {
        SplitBeforeHead(s, t);
      }
    }
  }

  lemma JoinHead(s: seq<Event>, a: seq<Event>, b: seq<Event>)
    requires |s| > 0 && a + b == s[1..]
    ensures ([s[0]] + a) + b == s
  {
    assert s == [s[0]] + s[1..];
  }

  /** Two filters may be applied in either order. */
  lemma {:induction false} FilterCommutes(s: seq<Event>, p: Event -> bool, q: Event -> bool)
    ensures Filter(Filter(s, p), q) == Filter(Filter(s, q), p)
    decreases |s|
  {
    if |s| > 0 {
      FilterCommutes(s[1..], p, q);
      var fp, fq := Filter(s, p), Filter(s, q);
      if p(s[0]) {
        assert fp == [s[0]] + Filter(s[1..], p);
        assert fp[1..] == Filter(s[1..], p);
      } else {
        assert fp == Filter(s[1..], p);
      }
      if q(s[0]) {
        assert fq == [s[0]] + Filter(s[1..], q);
        assert fq[1..] == Filter(s[1..], q);
      } else {
        assert fq == Filter(s[1..], q);
      }
    }
  }

  /** On a sorted list, filtering after an insertion is inserting into the
      filtered list, or nothing when the new event is filtered out. */
  lemma FilterInsert(s: seq<Event>, e: Event, p: Event -> bool)
    requires TimeSorted(s)
    ensures Filter(Insert(s, e), p) == if p(e) then Insert(Filter(s, p), e) else Filter(s, p)
  {
    var t := e.time;
    var lo, hi := NoLaterThan(s, t), LaterThan(s, t);
    var flo, fhi := Filter(lo, p), Filter(hi, p);
    InsertIsStable(s, e);
    FilterConcat(lo + [e], hi, p);
    FilterConcat(lo, [e], p);
    assert Filter(Insert(s, e), p) == flo + Filter([e], p) + fhi;
    SortedSplits(s, t);
    FilterConcat(lo, hi, p);
    assert Filter(s, p) == flo + fhi;
    if p(e) {
      assert Filter([e], p) == [e];
      FilterKeepsSorted(s, p);
      InsertIsStable(Filter(s, p), e);
      FilterCommutes(s, p, NoLater(t));
      FilterCommutes(s, p, Later(t));
      assert Insert(Filter(s, p), e) == flo + [e] + fhi;
    } else {
      assert Filter([e], p) == [];
      assert flo + [] + fhi == flo + fhi;
    }
  }


  /** On a sorted list, filtering after a run of insertions is inserting the
      filtered run into the filtered list. */
  lemma {:induction false} FilterInsertAll(s: seq<Event>, es: seq<Event>, p: Event -> bool)
    requires TimeSorted(s)
    ensures Filter(InsertAll(s, es), p) == InsertAll(Filter(s, p), Filter(es, p))
    decreases |es|
  {
    if |es| == 0 {
      assert Filter(es, p) == [];
    } else {
      var s' := Insert(s, es[0]);
      var rest := Filter(es[1..], p);
      assert InsertAll(s, es) == InsertAll(s', es[1..]);
      InsertKeepsSorted(s, es[0]);
      FilterInsertAll(s', es[1..], p);
      FilterInsert(s, es[0], p);
      if p(es[0]) {
        assert Filter(es, p) == [es[0]] + rest;
        assert ([es[0]] + rest)[1..] == rest;
        assert InsertAll(Filter(s, p), [es[0]] + rest) == InsertAll(Insert(Filter(s, p), es[0]), rest);
      } else {
        assert Filter(es, p) == rest;
      }
    }
  }

  /** Inserting a run that is already in time order, and no earlier than the
      list, appends it. */
  lemma {:induction false} InsertAllSortedAppends(s: seq<Event>, es: seq<Event>)
    requires TimeSorted(s + es)
    ensures InsertAll(s, es) == s + es
    decreases |es|
  {
    if |es| > 0 {
      forall k | 0 <= k < |s|
        ensures s[k].time <= es[0].time
      {
        assert (s + es)[k] == s[k] && (s + es)[|s|] == es[0];
      }
      InsertLatest(s, es[0]);
      assert (s + [es[0]]) + es[1..] == s + es;
      InsertAllSortedAppends(s + [es[0]], es[1..]);
    }
  }

  /** The earliest time among some events. */
  function Earliest(es: seq<Event>): (t: real)
    requires |es| > 0
    ensures forall k :: 0 <= k < |es| ==> t <= es[k].time
    ensures exists k :: 0 <= k < |es| && es[k].time == t
  {
    if |es| == 1 then es[0].time
    else
      var rest := Earliest(es[1..]);
      if es[0].time <= rest then es[0].time else rest
  }

  /** The head of a sorted list holding exactly the events `es` is at their
      earliest time. */
  lemma SortedHeadIsEarliest(es: seq<Event>, s: seq<Event>)
    requires |es| > 0 && TimeSorted(s)
    requires multiset(s) == multiset(es)
    ensures |s| > 0 && s[0].time == Earliest(es)
  {
    assert es[0] in multiset(s);
    assert s[0] in multiset(es);
    var m :| 0 <= m < |es| && es[m].time == Earliest(es);
    assert es[m] in multiset(s);
    var i :| 0 <= i < |s| && s[i] == es[m];
    assert s[0].time <= s[i].time;
  }

  /** `insert` orders by time alone, not by `precedes`: an arrival inserted at
      the time of a queued end of phase goes behind it although it precedes it. */
  lemma InsertIgnoresKind()
    ensures var phaseEnd := Event(EndOfPhase, 5.0, None);
            var arrival := Event(Arrival, 5.0, Some(Lane(0, 1)));
            Insert([phaseEnd], arrival) == [phaseEnd, arrival] && Precedes(arrival, phaseEnd)
  {
  }

  /** The outcome of `getNextEvent`: the event taken and the list left. */
  datatype Popped = Popped(next: Event, rest: seq<Event>)

  /** `getNextEvent`: removes and returns the head; fails on an empty list. */
  function GetNextEvent(s: seq<Event>): (r: Result<Popped>)
    ensures r.Err? <==> |s| == 0
    ensures r.Err? ==> r.error == IndexOutOfBounds
    ensures r.Ok? ==> [r.value.next] + r.value.rest == s
    ensures r.Ok? && TimeSorted(s) ==> TimeSorted(r.value.rest)
    ensures r.Ok? && TimeSorted(s) ==> forall x :: x in s ==> r.value.next.time <= x.time
  {
    if |s| == 0 then Err(IndexOutOfBounds)
    else
      assert s == [s[0]] + s[1..];
      Ok(Popped(s[0], s[1..]))
  }

  /** An event earlier than everything queued is inserted at the head, so the
      next pop hands it straight back and restores the list. */
  lemma {:induction false} PopAfterEarliestInsert(s: seq<Event>, e: Event)
    requires forall k :: 0 <= k < |s| ==> e.time < s[k].time
    ensures GetNextEvent(Insert(s, e)) == Ok(Popped(e, s))
  {
  }

  /** `isEmpty`. */
  function IsEmpty(s: seq<Event>): (b: bool)
    ensures b <==> GetNextEvent(s).Err?
  {
    |s| == 0
  }

  /** `empty`: removes every event. */
  function Empty(s: seq<Event>): (r: seq<Event>)
    ensures IsEmpty(r)
    ensures multiset(r) == multiset{}
  {
    []
  }

  /** `schedule(type, time, lane)`: only arrivals and departures. */
  function ScheduleWithLane(s: seq<Event>, kind: int, time: real, lane: Lane): (r: Result<seq<Event>>)
    ensures r.Err? <==> kind !in {Arrival, Departure}
    ensures r.Err? ==> r.error == IllegalArgument
    ensures r.Ok? ==> r.value == Insert(s, Event(kind, time, Some(lane)))
    ensures r.Ok? && TimeSorted(s) ==> TimeSorted(r.value)
  {
    if kind < Arrival || kind > Departure then Err(IllegalArgument)
    else
      var e := NewLaneEvent(kind, time, lane);
      InsertKeepsSorted(s, e);
      Ok(Insert(s, e))
  }

  /** `schedule(type, time)`: only ends of phase. */
  function ScheduleTimed(s: seq<Event>, kind: int, time: real): (r: Result<seq<Event>>)
    ensures r.Err? <==> kind != EndOfPhase
    ensures r.Err? ==> r.error == IllegalArgument
    ensures r.Ok? ==> r.value == Insert(s, Event(EndOfPhase, time, None))
    ensures r.Ok? && TimeSorted(s) ==> TimeSorted(r.value)
  {
    if kind != EndOfPhase then Err(IllegalArgument)
    else
      var e := NewTimedEvent(kind, time).value;
      InsertKeepsSorted(s, e);
      Ok(Insert(s, e))
  }

  /** `deleteAllOfType`, as the filter it is meant to be. The source removes
      from the list while iterating it, which in Java throws a concurrent
      modification error after the first removal (or quietly skips the last
      event); the model gives the intended outcome. */
  function DeleteAllOfType(s: seq<Event>, kind: int): (r: seq<Event>)
    ensures forall x :: x in r ==> x.kind != kind
    ensures forall x: Event :: x.kind != kind ==> multiset(r)[x] == multiset(s)[x]
    ensures IsSubseq(r, s)
    ensures TimeSorted(s) ==> TimeSorted(r)
  {
    var keep := (x: Event) => x.kind != kind;
    FilterIsSubseq(s, keep);
    FilterKeepsSorted(s, keep);
    FilterMembers(s, keep);
    FilterCounts(s, keep);
    Filter(s, keep)
  }

  /** The event is of the given type and carries exactly the given lane. */
  predicate OfTypeAndLane(x: Event, kind: int, lane: Lane) {
    x.kind == kind && x.lane == Some(lane)
  }

  /** `deleteAllOfTypeLane`: only arrivals and departures; otherwise a filter
      on type and both lane components, with the same divergence from the
      source's remove-while-iterating as `DeleteAllOfType`. */
  function DeleteAllOfTypeLane(s: seq<Event>, kind: int, lane: Lane): (r: Result<seq<Event>>)
    ensures r.Err? <==> kind !in {Arrival, Departure}
    ensures r.Err? ==> r.error == IllegalArgument
    ensures r.Ok? ==> forall x :: x in r.value ==> !OfTypeAndLane(x, kind, lane)
    ensures r.Ok? ==> forall x :: !OfTypeAndLane(x, kind, lane) ==> multiset(r.value)[x] == multiset(s)[x]
    ensures r.Ok? ==> IsSubseq(r.value, s)
    ensures r.Ok? && TimeSorted(s) ==> TimeSorted(r.value)
  {
    if kind == Arrival || kind == Departure then
      var keep := (x: Event) => !(x.kind == kind && x.lane == Some(lane));
      FilterIsSubseq(s, keep);
      FilterKeepsSorted(s, keep);
      FilterMembers(s, keep);
      FilterCounts(s, keep);
      Ok(Filter(s, keep))
    else Err(IllegalArgument)
  }

  /** `initializeOtherEvents`: an end of phase at the head's time and the
      termination event at the horizon; reading the head of an empty list
      fails. */
  function InitializeOtherEvents(s: seq<Event>, terminationTime: real): (r: Result<seq<Event>>)
    ensures r.Err? <==> |s| == 0
    ensures r.Err? ==> r.error == IndexOutOfBounds
    ensures r.Ok? ==> |r.value| == |s| + 2
    ensures r.Ok? ==>
              multiset(r.value) == multiset(s) + multiset{Event(EndOfPhase, s[0].time, None),
                                                           Event(Termination, terminationTime, None)}
    ensures r.Ok? && TimeSorted(s) ==> TimeSorted(r.value)
    ensures r.Ok? && TimeSorted(s) ==>
              AtTime(r.value, s[0].time) == AtTime(s, s[0].time) + SeededAt(s[0].time, terminationTime)
  {
    if |s| == 0 then Err(IndexOutOfBounds)
    else
      var phaseEnd := NewTimedEvent(EndOfPhase, s[0].time).value;
      var termination := NewTimedEvent(Termination, terminationTime).value;
      SeedingInserts(s, terminationTime);
      Ok(Insert(Insert(s, phaseEnd), termination))
  }

  /** What the two seeding insertions do, proved once for the function above. */
  lemma SeedingInserts(s: seq<Event>, terminationTime: real)
    requires |s| > 0
    ensures var r := Insert(Insert(s, Event(EndOfPhase, s[0].time, None)), Event(Termination, terminationTime, None));
            && |r| == |s| + 2
            && multiset(r) == multiset(s) + multiset{Event(EndOfPhase, s[0].time, None),
                                                     Event(Termination, terminationTime, None)}
            && (TimeSorted(s) ==> TimeSorted(r))
            && (TimeSorted(s) ==> AtTime(r, s[0].time) == AtTime(s, s[0].time) + SeededAt(s[0].time, terminationTime))
  {
    var phaseEnd := Event(EndOfPhase, s[0].time, None);
    var termination := Event(Termination, terminationTime, None);
    InsertAddsOneEvent(s, phaseEnd);
    InsertAddsOneEvent(Insert(s, phaseEnd), termination);
    InsertKeepsSorted(s, phaseEnd);
    InsertKeepsSorted(Insert(s, phaseEnd), termination);
    if TimeSorted(s) {
      SeedingHeadTies(s, terminationTime);
    }
  }

  lemma SeedingHeadTies(s: seq<Event>, terminationTime: real)
    requires |s| > 0 && TimeSorted(s)
    ensures AtTime(Insert(Insert(s, Event(EndOfPhase, s[0].time, None)), Event(Termination, terminationTime, None)),
                   s[0].time)
            == AtTime(s, s[0].time) + SeededAt(s[0].time, terminationTime)
  {
    var t := s[0].time;
    var pe, te := Event(EndOfPhase, t, None), Event(Termination, terminationTime, None);
    SeedingTies(s, terminationTime, t);
    var x: seq<Event> := if terminationTime == t then [te] else [];
    Regroup(AtTime(Insert(Insert(s, pe), te), t), AtTime(s, t) + [pe], AtTime(s, t), [pe], x,
            SeededAt(t, terminationTime));
  }

  /** The events seeding adds at time `t` when `t` is the head's time: the end
      of phase, then the termination event if the horizon is that same time. */
  function SeededAt(t: real, terminationTime: real): seq<Event> {
    [Event(EndOfPhase, t, None)] + (if terminationTime == t then [Event(Termination, terminationTime, None)] else [])
  }

  /** Seeding a sorted list appends to the events of each time: the end of
      phase goes behind every queued event at the head's time, and the
      termination event behind every queued event at the horizon (and behind
      that end of phase when the two times coincide). */
  lemma SeedingTies(s: seq<Event>, terminationTime: real, t: real)
    requires |s| > 0 && TimeSorted(s)
    ensures AtTime(Insert(Insert(s, Event(EndOfPhase, s[0].time, None)), Event(Termination, terminationTime, None)), t)
            == AtTime(s, t) + (if t == s[0].time then [Event(EndOfPhase, s[0].time, None)] else [])
               + (if t == terminationTime then [Event(Termination, terminationTime, None)] else [])
  {
    var phaseEnd := Event(EndOfPhase, s[0].time, None);
    InsertAtTime(s, phaseEnd, t);
    InsertKeepsSorted(s, phaseEnd);
    InsertAtTime(Insert(s, phaseEnd), Event(Termination, terminationTime, None), t);
  }

  lemma SeedingUnfolds(s: seq<Event>, terminationTime: real)
    requires |s| > 0
    ensures InitializeOtherEvents(s, terminationTime)
            == Ok(Insert(Insert(s, Event(EndOfPhase, s[0].time, None)), Event(Termination, terminationTime, None)))
  {
  }

  /** Seeding adds no event on any lane pair: a sorted list keeps its
      per-lane sub-lists. */
  lemma SeedingKeepsLanes(s: seq<Event>, terminationTime: real, lane: Lane)
    requires |s| > 0 && TimeSorted(s)
    ensures OnLane(InitializeOtherEvents(s, terminationTime).value, lane) == OnLane(s, lane)
  {
    var phaseEnd := Event(EndOfPhase, s[0].time, None);
    SeedingUnfolds(s, terminationTime);
    FilterInsert(s, phaseEnd, OnLaneTest(lane));
    InsertKeepsSorted(s, phaseEnd);
    FilterInsert(Insert(s, phaseEnd), Event(Termination, terminationTime, None), OnLaneTest(lane));
  }
}
