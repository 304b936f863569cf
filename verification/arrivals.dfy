/** The two seeding constructors of the event list: one from an explicit list
    of arrivals, one generating arrivals per lane pair from arrival rates.
    The random draws of the rate-based constructor are supplied by the caller. */
module Arrivals {
  import opened Events
  import opened EventList

  /** Bounds of Java's 32-bit `int`. */
  const IntMin: int := -0x8000_0000
  const IntMax: int := 0x7fff_ffff

  /** Java's narrowing `(int)` cast of a double: truncation toward zero,
      saturated at the bounds of `int`. */
  function ToInt(x: real): (n: int)
    ensures IntMin <= n <= IntMax
    ensures 0.0 <= x < IntMax as real ==> n as real <= x < n as real + 1.0
    ensures IntMin as real < x <= 0.0 ==> n as real - 1.0 < x <= n as real
    ensures x >= IntMax as real ==> n == IntMax
    ensures x <= IntMin as real ==> n == IntMin
  {
    if x >= IntMax as real then IntMax
    else if x <= IntMin as real then IntMin
    else if x >= 0.0 then x.Floor
    else -((-x).Floor)
  }

  /** Lane numbers written as whole numbers survive the cast unchanged. */
  lemma ToIntKeepsWholeNumbers(n: int)
    requires IntMin <= n <= IntMax
    ensures ToInt(n as real) == n
  {
  }

  /** One entry of the explicit arrival list, `[time from to]` as doubles. */
  datatype ArrivalRow = ArrivalRow(time: real, from: real, to: real)

  /** The arrival event a row describes. */
  function RowEvent(row: ArrivalRow): Event {
    NewLaneEvent(Arrival, row.time, Lane(ToInt(row.from), ToInt(row.to)))
  }

  /** The arrival events of the rows, in row order. */
  function RowEvents(rows: seq<ArrivalRow>): (r: seq<Event>)
    ensures |r| == |rows|
    ensures forall k :: 0 <= k < |rows| ==> r[k] == RowEvent(rows[k])
  {
    seq(|rows|, k requires 0 <= k < |rows| => RowEvent(rows[k]))
  }

  /** The explicit-arrival constructor: one arrival per row, inserted in row
      order, then the end of phase and the termination event. An empty list
      fails when the head is read. */
  function FromArrivalList(terminationTime: real, rows: seq<ArrivalRow>): (r: Result<seq<Event>>)
    ensures r.Err? <==> |rows| == 0
    ensures r.Err? ==> r.error == IndexOutOfBounds
    ensures r.Ok? ==> TimeSorted(r.value) && |r.value| == |rows| + 2
    ensures r.Ok? ==>
              multiset(r.value) == multiset(RowEvents(rows))
                                   + multiset{Event(EndOfPhase, Earliest(RowEvents(rows)), None),
                                              Event(Termination, terminationTime, None)}
    ensures r.Ok? ==>
              var first := Earliest(RowEvents(rows));
              AtTime(r.value, first) == AtTime(RowEvents(rows), first) + SeededAt(first, terminationTime)
  {
    if |rows| > 0 then
      SeedingAfterInsertAll(RowEvents(rows), terminationTime);
      InitializeOtherEvents(InsertAll([], RowEvents(rows)), terminationTime)
    else
      InitializeOtherEvents(InsertAll([], RowEvents(rows)), terminationTime)
  }

  /** Both constructors insert a run of arrivals into the empty list and then
      seed it: the outcome is sorted, holds the run plus the two seeded
      events, and at the earliest arrival time lists the run's arrivals at
      that time in run order, then the end of phase. */
  lemma SeedingAfterInsertAll(es: seq<Event>, terminationTime: real)
    requires |es| > 0
    ensures var r := InitializeOtherEvents(InsertAll([], es), terminationTime);
            && r.Ok?
            && TimeSorted(r.value)
            && |r.value| == |es| + 2
            && multiset(r.value) == multiset(es) + multiset{Event(EndOfPhase, Earliest(es), None),
                                                            Event(Termination, terminationTime, None)}
            && AtTime(r.value, Earliest(es)) == AtTime(es, Earliest(es)) + SeededAt(Earliest(es), terminationTime)
  {
    var arrivals := InsertAll([], es);
    var first := Earliest(es);
    InsertAllKeepsSorted([], es);
    SortedHeadIsEarliest(es, arrivals);
    InsertAllKeepsTies([], es, first);
    var none: seq<Event> := [];
    assert AtTime(none, first) == none;
    assert none + AtTime(es, first) == AtTime(es, first);
    SeedingInserts(arrivals, terminationTime);
    SeedingUnfolds(arrivals, terminationTime);
  }

  /** Arrivals listed at one time keep their row order in the list. */
  lemma ArrivalListKeepsTies(rows: seq<ArrivalRow>, t: real)
    ensures AtTime(InsertAll([], RowEvents(rows)), t) == AtTime(RowEvents(rows), t)
  {
    InsertAllKeepsTies([], RowEvents(rows), t);
  }

  /** Two arrivals at time 5 and one at 10 with horizon 20: the list pops the
      two five-minute arrivals in row order, then the end of phase, then the
      later arrival, then termination. */
  lemma ArrivalListExample()
    ensures FromArrivalList(20.0, [ArrivalRow(5.0, 0.0, 1.0), ArrivalRow(5.0, 2.0, 3.0),
                                   ArrivalRow(10.0, 1.0, 2.0)])
            == Ok([Event(Arrival, 5.0, Some(Lane(0, 1))), Event(Arrival, 5.0, Some(Lane(2, 3))),
                   Event(EndOfPhase, 5.0, None), Event(Arrival, 10.0, Some(Lane(1, 2))),
                   Event(Termination, 20.0, None)])
  {
    var rows := [ArrivalRow(5.0, 0.0, 1.0), ArrivalRow(5.0, 2.0, 3.0), ArrivalRow(10.0, 1.0, 2.0)];
    var a := Event(Arrival, 5.0, Some(Lane(0, 1)));
    var b := Event(Arrival, 5.0, Some(Lane(2, 3)));
    var c := Event(Arrival, 10.0, Some(Lane(1, 2)));
    assert RowEvents(rows) == [a, b, c];
    ExampleArrivalsInOrder(a, b, c);
    SeedingUnfolds([a, b, c], 20.0);
    ExampleSeeding();
  }

  lemma ExampleArrivalsInOrder(a: Event, b: Event, c: Event)
    requires a.time == b.time == 5.0 && c.time == 10.0
    ensures InsertAll([], [a, b, c]) == [a, b, c]
  {
    assert Insert([], a) == [a];
    assert Insert([a], b) == [a, b];
    assert [a, b][1..] == [b] && Insert([b], c) == [b, c];
    assert Insert([a, b], c) == [a, b, c];
    assert [a, b, c][1..] == [b, c] && [b, c][1..] == [c] && [c][1..] == [];
    assert InsertAll([a, b], [c]) == InsertAll([a, b, c], []) == [a, b, c];
    assert InsertAll([a], [b, c]) == InsertAll([a, b], [c]);
  }

  lemma ExampleSeeding()
    ensures var a := Event(Arrival, 5.0, Some(Lane(0, 1)));
            var b := Event(Arrival, 5.0, Some(Lane(2, 3)));
            var c := Event(Arrival, 10.0, Some(Lane(1, 2)));
            Insert(Insert([a, b, c], Event(EndOfPhase, 5.0, None)), Event(Termination, 20.0, None))
            == [a, b, Event(EndOfPhase, 5.0, None), c, Event(Termination, 20.0, None)]
  {
    var a := Event(Arrival, 5.0, Some(Lane(0, 1)));
    var b := Event(Arrival, 5.0, Some(Lane(2, 3)));
    var c := Event(Arrival, 10.0, Some(Lane(1, 2)));
    var p := Event(EndOfPhase, 5.0, None);
    var t := Event(Termination, 20.0, None);
    assert [a, b, c][1..] == [b, c] && [b, c][1..] == [c];
    assert Insert([c], p) == [p, c];
    assert Insert([b, c], p) == [b, p, c];
    InsertLatest([a, b, p, c], t);
  }

  /** Java's `Math.round(x * 10) / 10.0`: `x` rounded half-up to a multiple
      of 0.1. */
  function RoundToTenth(x: real): (r: real)
    ensures -0.05 < r - x <= 0.05
    ensures (r * 10.0).Floor as real == r * 10.0
    ensures x >= 0.0 ==> r >= 0.0
  {
    (x * 10.0 + 0.5).Floor as real / 10.0
  }

  /** The arrival times of one lane pair: while the current time is before
      the horizon, add the next rounded draw and emit the new time. The
      source's draws never run out; here generation also stops when they do. */
  function PairTimes(time: real, horizon: real, draws: seq<real>): (ts: seq<real>)
    ensures |ts| <= |draws|
    decreases |draws|
  {
    if time >= horizon || |draws| == 0 then []
    else
      var next := time + RoundToTenth(draws[0]);
      [next] + PairTimes(next, horizon, draws[1..])
  }

  /** The total of the rounded draws. */
  function Elapsed(draws: seq<real>): real
    decreases |draws|
  {
    if |draws| == 0 then 0.0 else RoundToTenth(draws[0]) + Elapsed(draws[1..])
  }

  /** Each time is the start plus the rounded draws consumed so far. */
  lemma {:induction false} PairTimesAreCumulative(time: real, horizon: real, draws: seq<real>)
    ensures forall k :: 0 <= k < |PairTimes(time, horizon, draws)| ==>
              PairTimes(time, horizon, draws)[k] == time + Elapsed(draws[..k + 1])
    decreases |draws|
  {
    var ts := PairTimes(time, horizon, draws);
    if |ts| > 0 {
      var next := time + RoundToTenth(draws[0]);
      PairTimesAreCumulative(next, horizon, draws[1..]);
      forall k | 0 <= k < |ts|
        ensures ts[k] == time + Elapsed(draws[..k + 1])
      {
        assert draws[..k + 1][1..] == draws[1..][..k];
        if k > 0 {
          assert ts[k] == PairTimes(next, horizon, draws[1..])[k - 1];
        }
      }
    }
  }

  /** A time is emitted only while the previous one (the start, for the
      first) is before the horizon; generation ends at the horizon unless the
      draws ran out first. So the last time may reach or pass the horizon. */
  lemma {:induction false} PairTimesStopAtHorizon(time: real, horizon: real, draws: seq<real>)
    ensures |PairTimes(time, horizon, draws)| > 0 ==> time < horizon
    ensures var ts := PairTimes(time, horizon, draws);
            forall k :: 0 <= k < |ts| - 1 ==> ts[k] < horizon
    ensures var ts := PairTimes(time, horizon, draws);
            |ts| < |draws| ==> (if |ts| == 0 then time else ts[|ts| - 1]) >= horizon
    decreases |draws|
  {
    var ts := PairTimes(time, horizon, draws);
    if |ts| > 0 {
      var next := time + RoundToTenth(draws[0]);
      var rest := PairTimes(next, horizon, draws[1..]);
      PairTimesStopAtHorizon(next, horizon, draws[1..]);
      assert ts == [next] + rest;
    }
  }

  /** With non-negative draws the times of a lane pair never decrease and
      never fall below the start. */
  lemma {:induction false} PairTimesNonDecreasing(time: real, horizon: real, draws: seq<real>)
    requires forall k :: 0 <= k < |draws| ==> draws[k] >= 0.0
    ensures var ts := PairTimes(time, horizon, draws);
            forall i, j :: 0 <= i < j < |ts| ==> ts[i] <= ts[j]
    ensures var ts := PairTimes(time, horizon, draws);
            forall i :: 0 <= i < |ts| ==> time <= ts[i]
    decreases |draws|
  {
    var ts := PairTimes(time, horizon, draws);
    if |ts| > 0 {
      var next := time + RoundToTenth(draws[0]);
      PairTimesNonDecreasing(next, horizon, draws[1..]);
      assert ts == [next] + PairTimes(next, horizon, draws[1..]);
    }
  }

  /** The last arrival of a pair can lie past the horizon. */
  lemma LastArrivalMayPassHorizon()
    ensures PairTimes(0.0, 1.0, [5.0]) == [5.0]
  {
    assert RoundToTenth(5.0) == 5.0;
  }

  /** A draw that rounds to zero repeats the previous time: times of a pair
      are non-decreasing, not strictly increasing. */
  lemma ArrivalTimesMayRepeat()
    ensures PairTimes(0.0, 1.0, [0.5, 0.01]) == [0.5, 0.5]
  {
    assert RoundToTenth(0.5) == 0.5;
    assert RoundToTenth(0.01) == 0.0;
  }

  /** The raw exponential samples for every lane pair, in draw order:
      `samples(i, j)` feeds the pair from lane `i` to lane `j`. */
  type Samples = (int, int) -> seq<real>

  /** The arrival events at the given times on one lane pair. */
  function LaneEvents(ts: seq<real>, lane: Lane): (r: seq<Event>)
    ensures |r| == |ts|
    ensures forall k :: 0 <= k < |ts| ==> r[k] == Event(Arrival, ts[k], Some(lane))
  {
    seq(|ts|, k requires 0 <= k < |ts| => NewLaneEvent(Arrival, ts[k], lane))
  }

  /** The arrivals of one lane pair: none unless its rate is strictly
      positive, otherwise the generated times from time 0. */
  function PairArrivals(horizon: real, lane: Lane, rate: real, draws: seq<real>): seq<Event> {
    if rate > 0.0 then LaneEvents(PairTimes(0.0, horizon, draws), lane) else []
  }

  /** The arrivals of row `i` of the rate matrix, from column `j` on. */
  function RowArrivals(horizon: real, i: int, row: seq<real>, j: nat, samples: Samples): seq<Event>
    requires j <= |row|
    decreases |row| - j
  {
    if j == |row| then []
    else PairArrivals(horizon, Lane(i, j), row[j], samples(i, j)) + RowArrivals(horizon, i, row, j + 1, samples)
  }

  /** The arrivals of the rate matrix from row `i` on, row by row and column
      by column, which is the order the source inserts them in. */
  function GridArrivals(horizon: real, rates: seq<seq<real>>, i: nat, samples: Samples): seq<Event>
    requires i <= |rates|
    decreases |rates| - i
  {
    if i == |rates| then []
    else RowArrivals(horizon, i, rates[i], 0, samples) + GridArrivals(horizon, rates, i + 1, samples)
  }

  /** Whether a lane pair produces any arrival at all: a positive rate, a
      positive horizon (the first test is 0 < horizon) and a draw to use. */
  predicate Produces(horizon: real, rate: real, draws: seq<real>) {
    rate > 0.0 && 0.0 < horizon && |draws| > 0
  }

  lemma PairArrivalsOnLane(horizon: real, lane: Lane, rate: real, draws: seq<real>, other: Lane)
    ensures OnLane(PairArrivals(horizon, lane, rate, draws), other)
            == if lane == other then PairArrivals(horizon, lane, rate, draws) else []
    ensures |PairArrivals(horizon, lane, rate, draws)| == 0 <==> !Produces(horizon, rate, draws)
  {
    var es := PairArrivals(horizon, lane, rate, draws);
    if lane == other {
      FilterAll(es, OnLaneTest(other));
    } else {
      FilterNone(es, OnLaneTest(other));
    }
  }

  lemma {:induction false} RowArrivalsOnLane(horizon: real, i: int, row: seq<real>, j: nat, samples: Samples, lane: Lane)
    requires j <= |row|
    ensures OnLane(RowArrivals(horizon, i, row, j, samples), lane)
            == if lane.from == i && j <= lane.to < |row|
               then PairArrivals(horizon, lane, row[lane.to], samples(i, lane.to))
               else []
    decreases |row| - j
  {
    if j < |row| {
      var here := PairArrivals(horizon, Lane(i, j), row[j], samples(i, j));
      RowArrivalsOnLane(horizon, i, row, j + 1, samples, lane);
      PairArrivalsOnLane(horizon, Lane(i, j), row[j], samples(i, j), lane);
      FilterConcat(here, RowArrivals(horizon, i, row, j + 1, samples), OnLaneTest(lane));
    }
  }

  lemma {:induction false} GridArrivalsOnLane(horizon: real, rates: seq<seq<real>>, i: nat, samples: Samples, lane: Lane)
    requires i <= |rates|
    ensures OnLane(GridArrivals(horizon, rates, i, samples), lane)
            == if i <= lane.from < |rates| && 0 <= lane.to < |rates[lane.from]|
               then PairArrivals(horizon, lane, rates[lane.from][lane.to], samples(lane.from, lane.to))
               else []
    decreases |rates| - i
  {
    if i < |rates| {
      RowArrivalsOnLane(horizon, i, rates[i], 0, samples, lane);
      GridArrivalsOnLane(horizon, rates, i + 1, samples, lane);
      FilterConcat(RowArrivals(horizon, i, rates[i], 0, samples), GridArrivals(horizon, rates, i + 1, samples),
                   OnLaneTest(lane));
    }
  }

  /** The generated arrivals of each lane pair are exactly the times drawn
      for it, on that pair, in draw order; a pair outside the matrix or with
      a rate of zero or less has none, whatever the horizon. */
  lemma RateArrivalsPerLane(horizon: real, rates: seq<seq<real>>, samples: Samples, i: int, j: int)
    ensures OnLane(GridArrivals(horizon, rates, 0, samples), Lane(i, j))
            == if 0 <= i < |rates| && 0 <= j < |rates[i]| && rates[i][j] > 0.0
               then LaneEvents(PairTimes(0.0, horizon, samples(i, j)), Lane(i, j))
               else []
  {
    GridArrivalsOnLane(horizon, rates, 0, samples, Lane(i, j));
  }

  lemma {:induction false} RowArrivalsEmpty(horizon: real, i: int, row: seq<real>, j: nat, samples: Samples)
    requires j <= |row|
    ensures |RowArrivals(horizon, i, row, j, samples)| == 0
            <==> forall c :: j <= c < |row| ==> !Produces(horizon, row[c], samples(i, c))
    decreases |row| - j
  {
    if j < |row| {
      RowArrivalsEmpty(horizon, i, row, j + 1, samples);
      PairArrivalsOnLane(horizon, Lane(i, j), row[j], samples(i, j), Lane(i, j));
    }
  }

  lemma {:induction false} GridArrivalsEmpty(horizon: real, rates: seq<seq<real>>, i: nat, samples: Samples)
    requires i <= |rates|
    ensures |GridArrivals(horizon, rates, i, samples)| == 0
            <==> forall a, c :: i <= a < |rates| && 0 <= c < |rates[a]| ==> !Produces(horizon, rates[a][c], samples(a, c))
    decreases |rates| - i
  {
    if i < |rates| {
      RowArrivalsEmpty(horizon, i, rates[i], 0, samples);
      GridArrivalsEmpty(horizon, rates, i + 1, samples);
    }
  }

  /** The rate-based constructor: every lane pair's arrivals inserted in
      matrix order, then the end of phase at the earliest arrival and the
      termination event. When no pair produces an arrival the head of the
      empty list is read and the constructor fails. */
  function FromRates(horizon: real, rates: seq<seq<real>>, samples: Samples): (r: Result<seq<Event>>)
    ensures r.Err? <==> forall i, j :: 0 <= i < |rates| && 0 <= j < |rates[i]| ==>
                                         !Produces(horizon, rates[i][j], samples(i, j))
    ensures r.Err? ==> r.error == IndexOutOfBounds
    ensures r.Ok? ==> TimeSorted(r.value)
    ensures r.Ok? ==> |r.value| == |GridArrivals(horizon, rates, 0, samples)| + 2
    ensures r.Ok? ==>
              |GridArrivals(horizon, rates, 0, samples)| > 0 &&
              multiset(r.value) == multiset(GridArrivals(horizon, rates, 0, samples))
                                   + multiset{Event(EndOfPhase, Earliest(GridArrivals(horizon, rates, 0, samples)), None),
                                              Event(Termination, horizon, None)}
    ensures r.Ok? ==>
              var generated := GridArrivals(horizon, rates, 0, samples);
              |generated| > 0 &&
              AtTime(r.value, Earliest(generated)) == AtTime(generated, Earliest(generated))
                                                      + SeededAt(Earliest(generated), horizon)
  {
    var generated := GridArrivals(horizon, rates, 0, samples);
    GridArrivalsEmpty(horizon, rates, 0, samples);
    if |generated| > 0 then
      SeedingAfterInsertAll(generated, horizon);
      InitializeOtherEvents(InsertAll([], generated), horizon)
    else
      InitializeOtherEvents(InsertAll([], generated), horizon)
  }

  /** With non-negative samples, the finished list holds each lane pair's
      arrivals in the order they were drawn, and nothing else on that pair. */
  lemma FromRatesKeepsLaneOrder(horizon: real, rates: seq<seq<real>>, samples: Samples, i: int, j: int)
    requires forall k :: 0 <= k < |samples(i, j)| ==> samples(i, j)[k] >= 0.0
    ensures FromRates(horizon, rates, samples).Ok? ==>
              OnLane(FromRates(horizon, rates, samples).value, Lane(i, j))
              == if 0 <= i < |rates| && 0 <= j < |rates[i]| && rates[i][j] > 0.0
                 then LaneEvents(PairTimes(0.0, horizon, samples(i, j)), Lane(i, j))
                 else []
  {
    var generated := GridArrivals(horizon, rates, 0, samples);
    var arrivals := InsertAll([], generated);
    var lane := Lane(i, j);
    if |generated| > 0 {
      assert FromRates(horizon, rates, samples) == InitializeOtherEvents(arrivals, horizon);
      InsertAllKeepsSorted([], generated);
      SeedingKeepsLanes(arrivals, horizon, lane);
      LaneArrivalsSorted(horizon, rates, samples, i, j);
      SortedLaneSurvivesInsertion(generated, lane);
      RateArrivalsPerLane(horizon, rates, samples, i, j);
    }
  }

  /** Inserting a run into the empty list leaves each lane's events in run
      order when that lane's events are already in time order. */
  lemma SortedLaneSurvivesInsertion(es: seq<Event>, lane: Lane)
    requires TimeSorted(OnLane(es, lane))
    ensures OnLane(InsertAll([], es), lane) == OnLane(es, lane)
  {
    var mine := OnLane(es, lane);
    var none: seq<Event> := [];
    assert Filter(none, OnLaneTest(lane)) == none;
    FilterInsertAll(none, es, OnLaneTest(lane));
    assert none + mine == mine;
    InsertAllSortedAppends(none, mine);
  }

  lemma LaneArrivalsSorted(horizon: real, rates: seq<seq<real>>, samples: Samples, i: int, j: int)
    requires forall k :: 0 <= k < |samples(i, j)| ==> samples(i, j)[k] >= 0.0
    ensures TimeSorted(OnLane(GridArrivals(horizon, rates, 0, samples), Lane(i, j)))
  {
    RateArrivalsPerLane(horizon, rates, samples, i, j);
    PairTimesNonDecreasing(0.0, horizon, samples(i, j));
  }
}
