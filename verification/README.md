# Event list of a road-intersection simulation, in Dafny

This project models the event list that drives a discrete-event simulation of
a road intersection (`EventList.java`). An `Event` has a type code (1 arrival
of a car, 2 departure of a car, 3 end of a colour phase, 4 termination of the
run), a time, and a lane pair `(from, to)`. Arrivals and departures carry the
lane pair; the other two types do not. The `EventList` holds the pending
events in time order. It supports these operations:

- insertion by a linear scan;
- popping the head;
- two guarded `schedule` calls;
- two bulk deletions;
- seeding with the first end of phase and the termination event;
- two constructors. One takes an explicit arrival list. The other generates
  arrivals per lane pair from arrival rates.

The model is functional. The list is a `seq<Event>`, and every operation
returns a new list. An operation that throws in the source returns
`Result.Err`, and the caller keeps its old list. Times are `real`.

Files:

- `event.dfy` (module `Events`): the event datatype, both event constructors,
  `precedes`, and the error and result types.
- `eventlist.dfy` (module `EventList`): the following pieces.
  - The time-order invariant `TimeSorted`.
  - Order-preserving filters, and the `IsSubseq` relation.
  - `Insert`, as a recursive function and as the source's scanning loop.
  - Pop, `isEmpty`, `empty`, and both `schedule` calls.
  - Both deletions and seeding.
  - Lemmas about sortedness, stability and multiset preservation.
- `arrivals.dfy` (module `Arrivals`): the two constructors.
  - Java's `(int)` cast and `Math.round(x * 10) / 10.0`, written out.
  - The per-lane-pair arrival generator, taking the random samples as input.

The Javadoc of `insert` (`EventList.java:132-133`) promises the order that
`Event` defines, and the comments describe intentions that the code does not
always meet. In the following places the model follows the code:

- `insert` compares times only (`EventList.java:139`). Events at equal times
  therefore stay in insertion order, whatever their type codes. They are not
  ordered by type as `precedes` would order them. `EventList.InsertIgnoresKind`
  shows an arrival queued behind an end of phase at the same time, although the
  arrival precedes it.
- The rate-based generator emits a time whenever the previous time is before
  the horizon. So the last arrival of a pair may reach or pass the horizon
  (`Arrivals.LastArrivalMayPassHorizon`). A sample that rounds to 0 repeats a
  time, so times are non-decreasing but not strictly increasing
  (`Arrivals.ArrivalTimesMayRepeat`).
- Seeding an empty list reads `list.get(0)` and fails with an index error. This
  happens for an empty arrival list, and for rates that generate nothing.
- `deleteAllOfType` accepts any type code. `Event(type, time)` refuses only
  codes 1 and 2, so codes other than 1–4 are accepted.

## Model

| member | source | states |
|---|---|---|
| Events.NewTimedEvent | EventList.java:264-270 | the lane-free constructor fails with an illegal-argument error exactly for codes 1 and 2; otherwise the event keeps the code and time, has no lane, and is well formed |
| Events.NewLaneEvent | EventList.java:279-283 | the lane constructor accepts every type code and yields a well-formed event that carries the lane |
| Events.PrecedesIsLexicographic | EventList.java:292-302 | `precedes` holds iff the time is strictly earlier, or the times are equal and the type code is strictly smaller |
| Events.PrecedesIsStrictOrder | EventList.java:292-302 | `precedes` is irreflexive, asymmetric and transitive |
| Events.PrecedesIsTotalOnKeys | EventList.java:292-302 | two events are ordered one way or the other unless they share time and type code, and then neither precedes the other |
| EventList.InsertScan | EventList.java:137-143 | the source's scanning loop builds exactly the list of the recursive insertion |
| EventList.InsertAddsOneEvent | EventList.java:137-143 | insertion adds exactly the new event, and every old event keeps its multiplicity |
| EventList.InsertKeepsSorted | EventList.java:137-143 | insertion preserves the invariant that times never decrease along the list |
| EventList.InsertIsStable | EventList.java:137-143 | on a sorted list the new event goes after every event with time at most its own and before every later one, and both groups keep their relative order |
| EventList.InsertLatest | EventList.java:137-143 | an event no earlier than every queued event goes to the back |
| EventList.InsertAtTime | EventList.java:137-143 | the events at any one time after an insertion are the old ones at that time, followed by the new event if it has that time |
| EventList.InsertAllKeepsSorted | EventList.java:35-38 | inserting a run of events one at a time keeps the list sorted |
| EventList.InsertAllKeepsTies | EventList.java:137-143 | after a run of insertions into a sorted list, the events at each time are the old ones followed by the run's ones in insertion order |
| EventList.InsertIgnoresKind | EventList.java:139 | an arrival inserted at the time of a queued end of phase lands behind it, although it precedes it |
| EventList.GetNextEvent | EventList.java:97-99 | popping fails with an index error iff the list is empty; otherwise the head put back in front of the rest rebuilds the list, the rest stays sorted, and the head has the smallest time of a sorted list |
| EventList.PopAfterEarliestInsert | EventList.java:97-99 | an event earlier than everything queued is popped straight back and leaves the list as it was |
| EventList.IsEmpty | EventList.java:150-152 | the list is empty exactly when popping would fail |
| EventList.Empty | EventList.java:158-160 | emptying leaves a list that is empty and holds no event |
| EventList.ScheduleWithLane | EventList.java:109-115 | scheduling with a lane fails with an illegal-argument error iff the code is not 1 or 2; otherwise it is the insertion of the new lane event, and sortedness is kept |
| EventList.ScheduleTimed | EventList.java:123-129 | scheduling without a lane fails iff the code is not 3; otherwise it is the insertion of a lane-free end of phase, and sortedness is kept |
| EventList.DeleteAllOfType | EventList.java:168-174 | no event of the type is left; every other event keeps its multiplicity; the result is an order-preserving sub-list and stays sorted |
| EventList.DeleteAllOfTypeLane | EventList.java:182-193 | fails iff the code is not 1 or 2; otherwise it removes exactly the events with that type and lane, keeps every other event with its multiplicity and order, and stays sorted |
| EventList.InitializeOtherEvents | EventList.java:84-90 | fails with an index error iff the list is empty; otherwise it adds exactly an end of phase at the head's time and a termination at the horizon (length grows by 2), keeping sortedness; on a sorted list the end of phase comes after every queued event at the head's time, followed by the termination when the horizon is that same time |
| EventList.SeedingTies | EventList.java:84-90 | on a sorted list, seeding appends the end of phase to the events at the head's time and the termination to the events at the horizon; every other time's events are unchanged |
| EventList.SeedingKeepsLanes | EventList.java:84-90 | seeding a sorted list changes no lane pair's sub-list |
| Arrivals.ToInt | EventList.java:36 | Java's `(int)` cast truncates toward zero within the 32-bit range and saturates outside it |
| Arrivals.ToIntKeepsWholeNumbers | EventList.java:36 | whole-number lane ids in range survive the cast unchanged |
| Arrivals.FromArrivalList | EventList.java:34-41 | the explicit-arrival constructor fails iff there are no rows; otherwise the list is sorted and holds one arrival per row, an end of phase at the earliest arrival time, and the termination; at the earliest time it lists that time's arrivals in row order, then the end of phase |
| Arrivals.SeedingAfterInsertAll | EventList.java:34-41 | inserting any non-empty run of arrivals into the empty list and seeding it succeeds, is sorted, holds the run plus the two seeded events, and at the earliest time lists the run's arrivals in run order before the end of phase |
| Arrivals.ArrivalListKeepsTies | EventList.java:34-38 | arrivals listed at the same time stay in row order |
| Arrivals.ArrivalListExample | EventList.java:34-41 | arrivals at 5 (0,1), 5 (2,3) and 10 (1,2) with horizon 20 give the arrivals at 5 in row order, then the end of phase at 5, the arrival at 10 and the termination at 20 |
| Arrivals.RoundToTenth | EventList.java:68 | `Math.round(x * 10) / 10.0` is a multiple of 0.1 within 0.05 of `x` (half-up), and non-negative for non-negative `x` |
| Arrivals.PairTimesAreCumulative | EventList.java:61-70 | each generated time is the start (0) plus the rounded samples drawn so far |
| Arrivals.PairTimesStopAtHorizon | EventList.java:64-70 | a time is emitted only while the previous one is before the horizon, and generation ends with the last time at or past the horizon unless the samples ran out |
| Arrivals.PairTimesNonDecreasing | EventList.java:64-70 | with non-negative samples a pair's times never decrease and never fall below the start |
| Arrivals.LastArrivalMayPassHorizon | EventList.java:64-70 | with horizon 1 and a sample of 5, the single arrival is at 5, past the horizon |
| Arrivals.ArrivalTimesMayRepeat | EventList.java:66-69 | a sample that rounds to 0 repeats the previous arrival time |
| Arrivals.RateArrivalsPerLane | EventList.java:55-73 | the generated arrivals on each lane pair are exactly that pair's times in draw order; a pair outside the matrix or with rate at most 0 gets none |
| Arrivals.GridArrivalsEmpty | EventList.java:55-73 | generation yields nothing iff no pair has a positive rate, a positive horizon and a sample |
| Arrivals.FromRates | EventList.java:52-76 | the rate-based constructor fails with an index error iff no pair produces an arrival; otherwise the list is sorted and holds the generated arrivals, an end of phase at the earliest arrival and the termination; at the earliest time it lists the arrivals of that time in generation order, then the end of phase |
| Arrivals.FromRatesKeepsLaneOrder | EventList.java:52-76 | with non-negative samples the finished list holds each pair's arrivals in draw order, and nothing else on that pair |

## Left out

- `Lane.java`, `Light.java` and `main.java`: plain records and console output, with no scheduling logic.
- The random draw: `Math.random` and `Math.log(...) / (-rate / 60)` at `EventList.java:66` are not modelled. Each lane pair instead takes a caller-supplied sequence of raw exponential samples. A rate's magnitude enters only that sampling, so the model uses the rate only for its positivity test.
- Arrivals.PairTimes: the source's random source never runs out. The model's samples are finite, so generation also stops when a pair's samples are used up. `PairTimesStopAtHorizon` says which of the two stops happened.
- `toString`, `Event.toString` and `printNextEvents`: string output only. `Event.toString` would also dereference the missing lane of types 3 and 4.
- `getList` and the `Event` accessors: the model's list is the value itself, and the accessors are the datatype's fields. The no-argument constructor is the empty sequence `[]`.
- Aliasing of the list: `getList` (`EventList.java:200-202`) returns the live `ArrayList`, so a caller can reorder or change it directly. The model treats the list as a value. Its time-order invariant covers only changes made through the modelled operations.
- EventList.DeleteAllOfType: the model is the intended filter. The source removes from the `ArrayList` while iterating over it. In Java that throws `ConcurrentModificationException` after the first removal, unless that removal ends the loop early. It also removes by identity.
- EventList.DeleteAllOfTypeLane: the same divergence as `DeleteAllOfType`. In addition, an event of the given type with no lane would throw `NullPointerException` in the source, while the model treats it as not matching. Such an event can only come from passing `null` to the lane constructor.
- Double arithmetic: times are exact reals, so rounding in `time + Δ`, NaN and infinities are not modelled. `Math.round` saturating at the bounds of `long` is not modelled either.
- Arrivals.ToInt: a NaN argument, which Java casts to 0, is not modelled.
- Lane arrays are modelled as pairs, so arrays of another length are not modelled.
- Aliasing of lane arrays: in the source, lanes are shared, mutable `int[]` references. Every event of one generated lane pair holds the same `tmpArray` (`EventList.java:57`). `schedule` and the lane constructor store the caller's array (`EventList.java:114`, `EventList.java:282`), and `getLane` hands it out. Mutating such an array changes the lane of every event that holds it, and with it what `deleteAllOfTypeLane` matches. The model's lanes are immutable values, so its statements about lanes hold only while no lane array is mutated.
