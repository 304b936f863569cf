/** Events of the intersection simulation: the value held by the event list,
    its two constructors, the error outcomes the event list can raise, and the
    `precedes` ordering the event class defines. */
module Events {

  /** Event type codes: 1 arrival of a car, 2 departure of a car,
      3 end of a colour phase, 4 termination of the run. */
  const Arrival: int := 1
  const Departure: int := 2
  const EndOfPhase: int := 3
  const Termination: int := 4

  /** A lane pair: the lane a car comes from and the lane it heads to. */
  datatype Lane = Lane(from: int, to: int)

  datatype Option<T> = None | Some(value: T)

  /** The exceptions the event list raises: an IllegalArgumentException from a
      type-code guard, and the IndexOutOfBoundsException of reading the head of
      an empty list. */
  datatype Error = IllegalArgument | IndexOutOfBounds

  datatype Result<T> = Ok(value: T) | Err(error: Error)

  /** An immutable event. The type code is kept as the integer the source
      uses, since its guards are written as integer comparisons; events built
      by the lane-free constructor carry no lane. */
  datatype Event = Event(kind: int, time: real, lane: Option<Lane>)

  /** Arrivals and departures always name a lane. */
  predicate WellFormed(e: Event) {
    (e.kind == Arrival || e.kind == Departure) ==> e.lane.Some?
  }

  /** The lane-free constructor: refuses arrival and departure codes, accepts
      every other code. */
  function NewTimedEvent(kind: int, time: real): (r: Result<Event>)
    ensures r.Err? <==> kind in {Arrival, Departure}
    ensures r.Err? ==> r.error == IllegalArgument
    ensures r.Ok? ==> WellFormed(r.value) && r.value.lane.None?
    ensures r.Ok? ==> r.value.kind == kind && r.value.time == time
  {
    if kind == Arrival || kind == Departure then Err(IllegalArgument)
    else Ok(Event(kind, time, None))
  }

  /** The lane constructor: no guard at all, whatever the type code. */
  function NewLaneEvent(kind: int, time: real, lane: Lane): (e: Event)
    ensures WellFormed(e)
    ensures e.kind == kind && e.time == time && e.lane == Some(lane)
  {
    Event(kind, time, Some(lane))
  }

  /** `precedes`, written as the source's if / else-if chain. */
  predicate Precedes(a: Event, b: Event) {
    if a.time < b.time then true
    else if a.time == b.time then a.kind < b.kind
    else false
  }

  /** `a` precedes `b` exactly when it is strictly earlier, or at the same
      time with a strictly smaller type code: the lexicographic order on
      (time, type code). */
  lemma PrecedesIsLexicographic(a: Event, b: Event)
    ensures Precedes(a, b) <==> a.time < b.time || (a.time == b.time && a.kind < b.kind)
  {
  }

  /** `precedes` is a strict order: irreflexive, asymmetric and transitive. */
  lemma PrecedesIsStrictOrder(a: Event, b: Event, c: Event)
    ensures !Precedes(a, a)
    ensures Precedes(a, b) ==> !Precedes(b, a)
    ensures Precedes(a, b) && Precedes(b, c) ==> Precedes(a, c)
  {
  }

  /** Two events are either ordered one way or the other, or share both time
      and type code; the lane plays no part. */
  lemma PrecedesIsTotalOnKeys(a: Event, b: Event)
    ensures Precedes(a, b) || Precedes(b, a) || (a.time == b.time && a.kind == b.kind)
    ensures (a.time == b.time && a.kind == b.kind) ==> !Precedes(a, b) && !Precedes(b, a)
  {
  }
}
