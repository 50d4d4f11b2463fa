/**
 * The collaborators every command handler of this model consumes: events,
 * aggregates and their preconditions, the event log's query filter and push
 * contract, and the append-then-reduce read/write model that folds persisted
 * events back into current field values.
 */
module Eventstore {

  datatype Option<+T> = None | Some(value: T)

  /**
   * The error kinds of the errors package that the handlers raise or pass on.
   * NotFound and Unavailable are never raised here: they stand for whatever a
   * loader or a push may fail with, which the handlers return unchanged.
   */
  datatype ErrorKind =
    | PreconditionFailed
    | InvalidArgument
    | NotFound
    | Internal
    | Unavailable

  datatype Result<+T> = Success(value: T) | Failure(error: ErrorKind)

  /** What this model reads from a request context: the acting user, stamped on aggregates as their editor. */
  datatype Context = Context(userId: string)

  /** The domain data an event carries, for the events this model emits. */
  datatype Payload =
    | NoPayload
    | MemberPayload(userId: string, roles: seq<string>)
    | UserPayload(userId: string)
    | FieldPayload(field: string, oldValue: string, newValue: string)

  /** A persisted fact; `sequence` is assigned by the log at commit time. */
  datatype Event = Event(aggregateId: string, aggregateType: string, eventType: string, sequence: nat, payload: Payload)

  /** An event an aggregate carries before it is committed. */
  datatype PendingEvent = PendingEvent(eventType: string, payload: Payload)

  /** "All events of this aggregate type for this aggregate id". */
  datatype Query = Query(aggregateType: string, aggregateId: string)

  /**
   * A precondition: the query run against the log and the validation applied
   * to its result. Every validation in this model is a reservation check, so
   * the validation is given by the event type that marks a value as reserved.
   */
  datatype Precondition = Precondition(query: Query, reservedType: string)

  /**
   * A consistency boundary handed to the log in one push: its identity, the
   * acting editor, the sequence the caller believes is current, the pending
   * events and an optional precondition.
   */
  datatype Aggregate = Aggregate(
    id: string,
    aggregateType: string,
    editor: string,
    previousSequence: nat,
    events: seq<PendingEvent>,
    precondition: Option<Precondition>)

  predicate Matches(q: Query, e: Event) {
    e.aggregateType == q.aggregateType && e.aggregateId == q.aggregateId
  }

  /** The events of `log` that a query selects, in log order. */
  function MatchingEvents(q: Query, log: seq<Event>): (r: seq<Event>)
    ensures |r| <= |log|
    ensures forall e :: e in r <==> e in log && Matches(q, e)
  {
    if log == [] then []
    else (if Matches(q, log[0]) then [log[0]] else []) + MatchingEvents(q, log[1..])
  }

  /** Appending one event to the log appends it to every query result that selects it, and to no other. */
  lemma {:induction false} MatchingEventsAppend(q: Query, log: seq<Event>, e: Event)
    ensures MatchingEvents(q, log + [e]) == MatchingEvents(q, log) + (if Matches(q, e) then [e] else [])
  {
    if log == [] {
      assert log + [e] == [e];
    } else {
      assert (log + [e])[1..] == log[1..] + [e];
      MatchingEventsAppend(q, log[1..], e);
    }
  }

  /** The events a committed aggregate becomes, numbered from `last + 1`. */
  function EventsOf(a: Aggregate, last: nat): (r: seq<Event>)
    ensures |r| == |a.events|
  {
    seq(|a.events|, i requires 0 <= i < |a.events| =>
      Event(a.id, a.aggregateType, a.events[i].eventType, last + 1 + i, a.events[i].payload))
  }

  function EventCount(aggs: seq<Aggregate>): nat {
    if aggs == [] then 0 else |aggs[0].events| + EventCount(aggs[1..])
  }

  /** The events of a batch of aggregates, in the order given, numbered consecutively from `last + 1`. */
  function Stamp(aggs: seq<Aggregate>, last: nat): (r: seq<Event>)
    ensures |r| == EventCount(aggs)
    ensures forall i :: 0 <= i < |r| ==> r[i].sequence == last + 1 + i
  {
    if aggs == [] then [] else EventsOf(aggs[0], last) + Stamp(aggs[1..], last + |aggs[0].events|)
  }

  /**
   * The event log as the handlers see it: an append-only sequence of events
   * whose sequence numbers are 1, 2, 3, ... The outcome of the durable write
   * is decided outside the model: when `failure` holds an error, every push
   * fails with it and persists nothing.
   */
  class EventStore {
    var log: seq<Event>
    var failure: Option<ErrorKind>

    ghost predicate Valid()
      reads this
    {
      forall i :: 0 <= i < |log| ==> log[i].sequence == i + 1
    }

    constructor (failure: Option<ErrorKind>)
      ensures Valid() && log == [] && this.failure == failure
    {
      log := [];
      this.failure := failure;
    }

    /** Commits a batch of aggregates: all of their events are persisted, or none. */
    method PushAggregates(aggs: seq<Aggregate>) returns (r: Result<seq<Event>>)
      requires Valid()
      modifies this`log
      ensures Valid()
      ensures failure.Some? ==> r == Failure(failure.value) && log == old(log)
      ensures failure.None? ==> r == Success(Stamp(aggs, |old(log)|)) && log == old(log) + r.value
    {
      if failure.Some? {
        return Failure(failure.value);
      }
      var events := Stamp(aggs, |log|);
      log := log + events;
      r := Success(events);
    }
  }

  /** Every event lies strictly above `processed`, and each one strictly above the one before it. */
  ghost predicate InOrderAfter(processed: nat, events: seq<Event>) {
    && (|events| > 0 ==> processed < events[0].sequence)
    && forall i :: 0 < i < |events| ==> events[i - 1].sequence < events[i].sequence
  }

  /**
   * Folds `events` one by one, in the order given, into the state `s` whose
   * last folded sequence is `processed`. An event at or below the last folded
   * sequence is stream corruption and fails with an internal error.
   * On success the result is the new state and the new processed sequence.
   */
  function Fold<S>(apply: (S, Event) -> S, s: S, processed: nat, events: seq<Event>): (r: Result<(S, nat)>)
    ensures r.Failure? ==> r.error == Internal && events != []
    ensures r.Success? ==> processed <= r.value.1
    decreases events
  {
    if events == [] then Success((s, processed))
    else if events[0].sequence <= processed then Failure(Internal)
    else Fold(apply, apply(s, events[0]), events[0].sequence, events[1..])
  }

  /** A fold succeeds exactly on a stream in strictly ascending sequence order above the last folded sequence. */
  lemma {:induction false} FoldSucceedsIff<S>(apply: (S, Event) -> S, s: S, processed: nat, events: seq<Event>)
    ensures Fold(apply, s, processed, events).Success? <==> InOrderAfter(processed, events)
    decreases events
  {
    if events != [] && events[0].sequence > processed {
      FoldSucceedsIff(apply, apply(s, events[0]), events[0].sequence, events[1..]);
      assert InOrderAfter(processed, events) <==> InOrderAfter(events[0].sequence, events[1..]) by {
        forall i | 0 < i < |events[1..]|
          ensures events[1..][i - 1].sequence == events[i].sequence && events[1..][i].sequence == events[i + 1].sequence
        {
        }
      }
    }
  }

  /** After a successful fold the processed sequence is the last folded event's sequence. */
  lemma {:induction false} FoldAdvances<S>(apply: (S, Event) -> S, s: S, processed: nat, events: seq<Event>)
    requires Fold(apply, s, processed, events).Success?
    ensures Fold(apply, s, processed, events).value.1 == if events == [] then processed else events[|events| - 1].sequence
    ensures events != [] ==> Fold(apply, s, processed, events).value.1 >= events[0].sequence
    decreases events
  {
    if events != [] {
      FoldAdvances(apply, apply(s, events[0]), events[0].sequence, events[1..]);
    }
  }

  /** Folding the same events a second time fails instead of applying them twice. */
  lemma RefoldFails<S>(apply: (S, Event) -> S, s: S, processed: nat, events: seq<Event>)
    requires events != [] && Fold(apply, s, processed, events).Success?
    ensures var (s', processed') := Fold(apply, s, processed, events).value;
      Fold(apply, s', processed', events) == Failure(Internal)
  {
    FoldAdvances(apply, s, processed, events);
  }

  /** Folding a concatenation folds the first part, then the second part from where the first ended. */
  lemma {:induction false} FoldConcat<S>(apply: (S, Event) -> S, s: S, processed: nat, xs: seq<Event>, ys: seq<Event>)
    ensures Fold(apply, s, processed, xs + ys) ==
      match Fold(apply, s, processed, xs)
      case Success((s', processed')) => Fold(apply, s', processed', ys)
      case Failure(e) => Failure(e)
    decreases xs
  {
    if xs == [] {
      assert xs + ys == ys;
    } else {
      assert (xs + ys)[0] == xs[0];
      assert (xs + ys)[1..] == xs[1..] + ys;
      if xs[0].sequence > processed {
        FoldConcat(apply, apply(s, xs[0]), xs[0].sequence, xs[1..], ys);
      }
    }
  }

  /**
   * A per-aggregate projection: the state folded so far, the sequence of the
   * last event folded into it, and a buffer of events appended but not yet
   * folded.
   */
  class WriteModel<S> {
    const aggregateId: string
    var state: S
    var processedSequence: nat
    var pending: seq<Event>

    constructor (aggregateId: string, state: S, processedSequence: nat)
      ensures this.aggregateId == aggregateId && this.state == state
      ensures this.processedSequence == processedSequence && pending == []
    {
      this.aggregateId := aggregateId;
      this.state := state;
      this.processedSequence := processedSequence;
      pending := [];
    }

    /** Buffers events for a later Reduce; the folded state does not change. */
    method AppendEvents(events: seq<Event>)
      modifies this`pending
      ensures pending == old(pending) + events
    {
      pending := pending + events;
    }

    /**
     * Folds the buffered events in order with `apply`, advancing the processed
     * sequence and clearing the buffer. On a sequence violation it fails with
     * an internal error and leaves the model as it was.
     */
    method Reduce(apply: (S, Event) -> S) returns (err: Option<ErrorKind>)
      modifies this`state, this`processedSequence, this`pending
      ensures Fold(apply, old(state), old(processedSequence), old(pending)).Success? ==>
        && err.None?
        && (state, processedSequence) == Fold(apply, old(state), old(processedSequence), old(pending)).value
        && pending == []
      ensures Fold(apply, old(state), old(processedSequence), old(pending)).Failure? ==>
        && err == Some(Internal)
        && state == old(state) && processedSequence == old(processedSequence) && pending == old(pending)
    {
      var s, processed, i := state, processedSequence, 0;
      while i < |pending|
        invariant 0 <= i <= |pending|
        invariant Fold(apply, state, processedSequence, pending) == Fold(apply, s, processed, pending[i..])
      {
        assert pending[i..][1..] == pending[i + 1..];
        if pending[i].sequence <= processed {
          return Some(Internal);
        }
        s, processed, i := apply(s, pending[i]), pending[i].sequence, i + 1;
      }
      state, processedSequence, pending := s, processed, [];
      err := None;
    }

    /** AppendEvents followed by Reduce. */
    method AppendAndReduce(events: seq<Event>, apply: (S, Event) -> S) returns (err: Option<ErrorKind>)
      modifies this`state, this`processedSequence, this`pending
      ensures Fold(apply, old(state), old(processedSequence), old(pending) + events).Success? ==>
        && err.None?
        && (state, processedSequence) == Fold(apply, old(state), old(processedSequence), old(pending) + events).value
        && pending == []
      ensures Fold(apply, old(state), old(processedSequence), old(pending) + events).Failure? ==>
        && err == Some(Internal)
        && state == old(state) && processedSequence == old(processedSequence) && pending == old(pending) + events
    {
      AppendEvents(events);
      err := Reduce(apply);
    }
  }
}
