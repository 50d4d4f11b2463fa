/**
 * Organisation command builders of the event-sourced org repository: the
 * reservation check that makes names and domains unique without an index,
 * the reservation aggregates, the two-stage (de)activation builders, the
 * field diff behind an update and the creation batch.
 */
module OrgEventsourcing {
  import opened Eventstore

  const ORG_AGGREGATE_TYPE := "org"
  const ORG_NAME_AGGREGATE_TYPE := "org.name.unique"
  const ORG_DOMAIN_AGGREGATE_TYPE := "org.domain.unique"

  const ORG_ADDED := "org.added"
  const ORG_CHANGED := "org.changed"
  const ORG_DEACTIVATED := "org.deactivated"
  const ORG_REACTIVATED := "org.reactivated"
  const ORG_NAME_RESERVED := "org.name.reserved"
  const ORG_DOMAIN_RESERVED := "org.domain.reserved"

  /**
   * The org's state, an int32 in the source. The named codes follow the org
   * model's declaration order; any other code is representable too.
   */
  newtype OrgState = x: int | -0x8000_0000 <= x < 0x8000_0000

  const ORG_STATE_ACTIVE: OrgState := 0
  const ORG_STATE_INACTIVE: OrgState := 1
  const ORG_STATE_REMOVED: OrgState := 2

  /** An organisation: its identity, the sequence of its last event, and its fields. */
  datatype Org = Org(id: string, sequence: nat, name: string, domain: string, state: OrgState)

  function Last(events: seq<Event>): Event
    requires events != []
  {
    events[|events| - 1]
  }

  // ---------------------------------------------------------------------------
  // isReservedValidation

  /**
   * What the validation closure built by isReservedValidation(aggregate,
   * reservedType) decides for the matched events (ascending sequence, the
   * latest last): Success(s) is the PreviousSequence it writes, Failure the
   * error it returns.
   */
  function ReservedCheck(reservedType: string, events: seq<Event>): (r: Result<nat>)
    ensures events == [] ==> r == Success(0)
    ensures events != [] ==> (r.Failure? <==> Last(events).eventType == reservedType)
    ensures r.Failure? ==> r.error == PreconditionFailed
    ensures r.Success? && events != [] ==> r.value == Last(events).sequence
  {
    if events == [] then Success(0)
    else if Last(events).eventType == reservedType then Failure(PreconditionFailed)
    else Success(Last(events).sequence)
  }

  /** Only the most recent matched event decides: whatever came before it is irrelevant. */
  lemma ReservedCheckLatestWins(reservedType: string, older: seq<Event>, latest: Event)
    ensures ReservedCheck(reservedType, older + [latest]) == ReservedCheck(reservedType, [latest])
  {
  }

  /** The aggregate pointer a validation closure captures; the closure writes its PreviousSequence. */
  class AggregateRef {
    var aggregate: Aggregate

    constructor (aggregate: Aggregate)
      ensures this.aggregate == aggregate
    {
      this.aggregate := aggregate;
    }
  }

  /**
   * Runs the validation closure isReservedValidation(target, reservedType)
   * on the matched events: on success it writes the anchor sequence into the
   * target's PreviousSequence, on failure it leaves the target as it was.
   */
  method IsReservedValidation(target: AggregateRef, reservedType: string, events: seq<Event>) returns (err: Option<ErrorKind>)
    modifies target
    ensures events == [] ==> err == None && target.aggregate == old(target.aggregate).(previousSequence := 0)
    ensures events != [] && Last(events).eventType == reservedType ==>
      err == Some(PreconditionFailed) && target.aggregate == old(target.aggregate)
    ensures events != [] && Last(events).eventType != reservedType ==>
      err == None && target.aggregate == old(target.aggregate).(previousSequence := Last(events).sequence)
    ensures ReservedCheck(reservedType, events).Failure? ==>
      err == Some(PreconditionFailed) && target.aggregate == old(target.aggregate)
    ensures ReservedCheck(reservedType, events).Success? ==>
      err == None && target.aggregate == old(target.aggregate).(previousSequence := ReservedCheck(reservedType, events).value)
  {
    if |events| == 0 {
      target.aggregate := target.aggregate.(previousSequence := 0);
      return None;
    }
    var latest := events[|events| - 1];
    if latest.eventType == reservedType {
      return Some(PreconditionFailed);
    }
    target.aggregate := target.aggregate.(previousSequence := latest.sequence);
    err := None;
  }

  /** What the log decides for a precondition: run its query, then its validation. */
  function EvaluatePrecondition(p: Precondition, log: seq<Event>): Result<nat> {
    ReservedCheck(p.reservedType, MatchingEvents(p.query, log))
  }

  /** No event of the log after position `i` lies on the query's stream. */
  ghost predicate NoMatchAfter(q: Query, log: seq<Event>, i: nat) {
    forall j :: i < j < |log| ==> !Matches(q, log[j])
  }

  /**
   * A value is taken when, among the log's events on its reservation stream,
   * the most recent one is a reservation.
   */
  ghost predicate IsTaken(q: Query, reservedType: string, log: seq<Event>) {
    exists i :: 0 <= i < |log| && Matches(q, log[i]) && log[i].eventType == reservedType && NoMatchAfter(q, log, i)
  }

  lemma TakenAfterMatch(q: Query, reservedType: string, init: seq<Event>, e: Event)
    requires Matches(q, e)
    ensures IsTaken(q, reservedType, init + [e]) <==> e.eventType == reservedType
  {
    var log := init + [e];
    if e.eventType == reservedType {
      assert log[|init|] == e && NoMatchAfter(q, log, |init|);
    }
    if IsTaken(q, reservedType, log) {
      var i :| 0 <= i < |log| && Matches(q, log[i]) && log[i].eventType == reservedType && NoMatchAfter(q, log, i);
      assert log[|init|] == e;
      assert i == |init|;
    }
  }

  lemma TakenAfterOther(q: Query, reservedType: string, init: seq<Event>, e: Event)
    requires !Matches(q, e)
    ensures IsTaken(q, reservedType, init + [e]) <==> IsTaken(q, reservedType, init)
  {
    var log := init + [e];
    if IsTaken(q, reservedType, init) {
      var i :| 0 <= i < |init| && Matches(q, init[i]) && init[i].eventType == reservedType && NoMatchAfter(q, init, i);
      assert log[i] == init[i];
      forall j | i < j < |log| ensures !Matches(q, log[j]) {
        if j < |init| { assert log[j] == init[j]; } else { assert log[j] == e; }
      }
      assert NoMatchAfter(q, log, i);
    }
    if IsTaken(q, reservedType, log) {
      var i :| 0 <= i < |log| && Matches(q, log[i]) && log[i].eventType == reservedType && NoMatchAfter(q, log, i);
      assert i != |init| by { assert log[|init|] == e; }
      assert init[i] == log[i];
      forall j | i < j < |init| ensures !Matches(q, init[j]) {
        assert init[j] == log[j];
      }
      assert NoMatchAfter(q, init, i);
    }
  }

  /** A reservation precondition rejects exactly when the value is taken. */
  lemma {:induction false} ReservationRejectsIffTaken(q: Query, reservedType: string, log: seq<Event>)
    ensures EvaluatePrecondition(Precondition(q, reservedType), log).Failure? <==> IsTaken(q, reservedType, log)
    decreases |log|
  {
    if log == [] {
      return;
    }
    var init, e := log[..|log| - 1], log[|log| - 1];
    assert log == init + [e];
    MatchingEventsAppend(q, init, e);
    if Matches(q, e) {
      TakenAfterMatch(q, reservedType, init, e);
    } else {
      ReservationRejectsIffTaken(q, reservedType, init);
      TakenAfterOther(q, reservedType, init, e);
    }
  }

  // ---------------------------------------------------------------------------
  // uniqueNameAggregate, uniqueDomainAggregate

  /**
   * The reservation aggregate for `value` on the uniqueness stream of
   * `aggregateType`: the value itself is the aggregate id, the aggregate claims
   * it with a `reservedType` event, and its precondition rejects the commit
   * while the value is reserved. An empty value fails before any query.
   */
  function UniqueAggregate(ctx: Context, aggregateType: string, reservedType: string, value: string): (r: Result<Aggregate>)
    ensures r.Failure? <==> value == ""
    ensures r.Failure? ==> r.error == PreconditionFailed
    ensures r.Success? ==>
      && r.value.id == value && r.value.aggregateType == aggregateType
      && r.value.precondition == Some(Precondition(Query(aggregateType, value), reservedType))
  {
    if value == "" then Failure(PreconditionFailed)
    else Success(Aggregate(value, aggregateType, ctx.userId, 0,
      [PendingEvent(reservedType, NoPayload)],
      Some(Precondition(Query(aggregateType, value), reservedType))))
  }

  function UniqueNameAggregate(ctx: Context, name: string): (r: Result<Aggregate>)
    ensures r.Failure? <==> name == ""
    ensures r.Success? ==> r.value.id == name && r.value.aggregateType == ORG_NAME_AGGREGATE_TYPE
  {
    UniqueAggregate(ctx, ORG_NAME_AGGREGATE_TYPE, ORG_NAME_RESERVED, name)
  }

  function UniqueDomainAggregate(ctx: Context, domain: string): (r: Result<Aggregate>)
    ensures r.Failure? <==> domain == ""
    ensures r.Success? ==> r.value.id == domain && r.value.aggregateType == ORG_DOMAIN_AGGREGATE_TYPE
  {
    UniqueAggregate(ctx, ORG_DOMAIN_AGGREGATE_TYPE, ORG_DOMAIN_RESERVED, domain)
  }

  /**
   * An empty value fails with PreconditionFailed; any other value gives an
   * aggregate whose precondition is set and whose commit the log rejects
   * exactly when the value is already taken.
   */
  lemma UniqueAggregateGuardsValue(ctx: Context, aggregateType: string, reservedType: string, value: string, log: seq<Event>)
    ensures value == "" ==> UniqueAggregate(ctx, aggregateType, reservedType, value) == Failure(PreconditionFailed)
    ensures value != "" ==>
      var r := UniqueAggregate(ctx, aggregateType, reservedType, value);
      && r.Success? && r.value.id == value && r.value.precondition.Some?
      && (EvaluatePrecondition(r.value.precondition.value, log).Failure? <==>
          IsTaken(Query(aggregateType, value), reservedType, log))
  {
    ReservationRejectsIffTaken(Query(aggregateType, value), reservedType, log);
  }

  lemma UniqueNameAggregateOutcome(ctx: Context, name: string, log: seq<Event>)
    ensures name == "" ==> UniqueNameAggregate(ctx, name) == Failure(PreconditionFailed)
    ensures name != "" ==>
      var r := UniqueNameAggregate(ctx, name);
      && r.Success? && r.value.precondition.Some?
      && (EvaluatePrecondition(r.value.precondition.value, log).Failure? <==>
          IsTaken(Query(ORG_NAME_AGGREGATE_TYPE, name), ORG_NAME_RESERVED, log))
  {
    UniqueAggregateGuardsValue(ctx, ORG_NAME_AGGREGATE_TYPE, ORG_NAME_RESERVED, name, log);
  }

  lemma UniqueDomainAggregateOutcome(ctx: Context, domain: string, log: seq<Event>)
    ensures domain == "" ==> UniqueDomainAggregate(ctx, domain) == Failure(PreconditionFailed)
    ensures domain != "" ==>
      var r := UniqueDomainAggregate(ctx, domain);
      && r.Success? && r.value.precondition.Some?
      && (EvaluatePrecondition(r.value.precondition.value, log).Failure? <==>
          IsTaken(Query(ORG_DOMAIN_AGGREGATE_TYPE, domain), ORG_DOMAIN_RESERVED, log))
  {
    UniqueAggregateGuardsValue(ctx, ORG_DOMAIN_AGGREGATE_TYPE, ORG_DOMAIN_RESERVED, domain, log);
  }

  // ---------------------------------------------------------------------------
  // orgReactivateAggregate, orgDeactivateAggregate

  /**
   * The first stage of a state transition: the org (None for a nil org), the
   * state the transition leads to and the event that records it. Nothing is
   * checked until the second stage, Realize, is given a context.
   */
  datatype Transition = Transition(org: Option<Org>, target: OrgState, eventType: string)

  /** The first stage of reactivation; the second refuses exactly a nil or an already active org. */
  function OrgReactivateAggregate(org: Option<Org>): (t: Transition)
    ensures forall ctx :: Realize(t, ctx).Failure? <==> org.None? || org.value.state == ORG_STATE_ACTIVE
  {
    Transition(org, ORG_STATE_ACTIVE, ORG_REACTIVATED)
  }

  /** The first stage of deactivation; the second refuses exactly a nil or an already inactive org. */
  function OrgDeactivateAggregate(org: Option<Org>): (t: Transition)
    ensures forall ctx :: Realize(t, ctx).Failure? <==> org.None? || org.value.state == ORG_STATE_INACTIVE
  {
    Transition(org, ORG_STATE_INACTIVE, ORG_DEACTIVATED)
  }

  /**
   * The second stage: a nil org fails with PreconditionFailed, an org already
   * in the target state with InvalidArgument; otherwise one aggregate with the
   * transition event, anchored at the org's current sequence.
   */
  function Realize(t: Transition, ctx: Context): (r: Result<Aggregate>)
    ensures r.Failure? <==> t.org.None? || t.org.value.state == t.target
    ensures r.Failure? ==> r.error == if t.org.None? then PreconditionFailed else InvalidArgument
    ensures r.Success? ==>
      && r.value.id == t.org.value.id && r.value.aggregateType == ORG_AGGREGATE_TYPE
      && r.value.previousSequence == t.org.value.sequence && r.value.editor == ctx.userId
      && |r.value.events| == 1 && r.value.events[0].eventType == t.eventType
  {
    if t.org.None? then Failure(PreconditionFailed)
    else if t.org.value.state == t.target then Failure(InvalidArgument)
    else Success(Aggregate(t.org.value.id, ORG_AGGREGATE_TYPE, ctx.userId, t.org.value.sequence,
      [PendingEvent(t.eventType, NoPayload)], None))
  }

  /** The outcome of the state checks does not depend on the context given to the second stage. */
  lemma RealizeOutcomeIgnoresContext(t: Transition, c1: Context, c2: Context)
    ensures Realize(t, c1).Failure? <==> Realize(t, c2).Failure?
    ensures Realize(t, c1).Failure? ==> Realize(t, c1).error == Realize(t, c2).error
  {
  }

  /** Folds one org event into the org, as the org's read model does. */
  function ApplyOrgEvent(o: Org, e: Event): Org {
    var o' := o.(sequence := e.sequence);
    if e.eventType == ORG_REACTIVATED then o'.(state := ORG_STATE_ACTIVE)
    else if e.eventType == ORG_DEACTIVATED then o'.(state := ORG_STATE_INACTIVE)
    else if e.eventType == ORG_CHANGED && e.payload.FieldPayload? then
      if e.payload.field == NAME_FIELD then o'.(name := e.payload.newValue)
      else if e.payload.field == DOMAIN_FIELD then o'.(domain := e.payload.newValue)
      else o'
    else o'
  }

  /**
   * Reactivation fails with PreconditionFailed for a nil org and with
   * InvalidArgument for an active one; for any other org (inactive, removed,
   * or in any other state code) it gives one
   * aggregate on the org anchored at its sequence, and once that aggregate is
   * committed and folded the org is active and a second reactivation is
   * refused.
   */
  lemma ReactivateOutcome(org: Option<Org>, ctx: Context, last: nat)
    ensures org.None? ==> Realize(OrgReactivateAggregate(org), ctx) == Failure(PreconditionFailed)
    ensures org.Some? && org.value.state == ORG_STATE_ACTIVE ==>
      Realize(OrgReactivateAggregate(org), ctx) == Failure(InvalidArgument)
    ensures org.Some? && org.value.state != ORG_STATE_ACTIVE ==>
      var r := Realize(OrgReactivateAggregate(org), ctx);
      && r.Success? && r.value.id == org.value.id && r.value.previousSequence == org.value.sequence
      && |r.value.events| == 1
      && var o' := ApplyOrgEvent(org.value, EventsOf(r.value, last)[0]);
         o'.state == ORG_STATE_ACTIVE && Realize(OrgReactivateAggregate(Some(o')), ctx) == Failure(InvalidArgument)
  {
  }

  /** The mirror image of ReactivateOutcome, with active and inactive swapped; a removed org can be deactivated too. */
  lemma DeactivateOutcome(org: Option<Org>, ctx: Context, last: nat)
    ensures org.None? ==> Realize(OrgDeactivateAggregate(org), ctx) == Failure(PreconditionFailed)
    ensures org.Some? && org.value.state == ORG_STATE_INACTIVE ==>
      Realize(OrgDeactivateAggregate(org), ctx) == Failure(InvalidArgument)
    ensures org.Some? && org.value.state != ORG_STATE_INACTIVE ==>
      var r := Realize(OrgDeactivateAggregate(org), ctx);
      && r.Success? && r.value.id == org.value.id && r.value.previousSequence == org.value.sequence
      && |r.value.events| == 1
      && var o' := ApplyOrgEvent(org.value, EventsOf(r.value, last)[0]);
         o'.state == ORG_STATE_INACTIVE && Realize(OrgDeactivateAggregate(Some(o')), ctx) == Failure(InvalidArgument)
  {
  }

  // ---------------------------------------------------------------------------
  // OrgUpdateAggregates

  const NAME_FIELD := "name"
  const DOMAIN_FIELD := "domain"

  /** One field whose value differs between the existing and the updated org. */
  datatype Change = Change(field: string, oldValue: string, newValue: string)

  /** The field diff over Name and Domain, Name first. */
  function Changes(existing: Org, updated: Org): (r: seq<Change>)
    ensures |r| <= 2
    ensures forall c :: c in r ==> c.field in {NAME_FIELD, DOMAIN_FIELD} && c.oldValue != c.newValue
  {
    (if existing.name != updated.name then [Change(NAME_FIELD, existing.name, updated.name)] else []) +
    (if existing.domain != updated.domain then [Change(DOMAIN_FIELD, existing.domain, updated.domain)] else [])
  }

  /** The diff is empty exactly when Name and Domain agree, and holds one entry per differing field. */
  lemma ChangesDiff(existing: Org, updated: Org)
    ensures Changes(existing, updated) == [] <==> existing.name == updated.name && existing.domain == updated.domain
    ensures |Changes(existing, updated)| ==
      (if existing.name != updated.name then 1 else 0) + (if existing.domain != updated.domain then 1 else 0)
    ensures forall c :: c in Changes(existing, updated) ==> c.oldValue != c.newValue
  {
  }

  /**
   * The two aggregates for one changed field: the "field changed" event on the
   * org itself, anchored at its sequence, and the reservation of the new value
   * on that field's uniqueness stream.
   */
  function ChangeAggregates(ctx: Context, org: Org, c: Change): Result<seq<Aggregate>> {
    var reservation :=
      if c.field == NAME_FIELD then UniqueNameAggregate(ctx, c.newValue) else UniqueDomainAggregate(ctx, c.newValue);
    if reservation.Failure? then Failure(reservation.error)
    else Success([
      Aggregate(org.id, ORG_AGGREGATE_TYPE, ctx.userId, org.sequence,
        [PendingEvent(ORG_CHANGED, FieldPayload(c.field, c.oldValue, c.newValue))], None),
      reservation.value])
  }

  /** The aggregates of every change, in order; the first failing change aborts with its error. */
  function ChangesAggregates(ctx: Context, org: Org, cs: seq<Change>): (r: Result<seq<Aggregate>>)
    ensures r.Success? ==> |r.value| == 2 * |cs|
    ensures r.Failure? ==> r.error == PreconditionFailed
  {
    if cs == [] then Success([])
    else
      var head := ChangeAggregates(ctx, org, cs[0]);
      if head.Failure? then Failure(head.error)
      else
        var tail := ChangesAggregates(ctx, org, cs[1..]);
        if tail.Failure? then tail else Success(head.value + tail.value)
  }

  /** Building a diff's aggregates fails exactly when some change sets a field to the empty value. */
  lemma {:induction false} ChangesAggregatesSucceedIff(ctx: Context, org: Org, cs: seq<Change>)
    ensures ChangesAggregates(ctx, org, cs).Success? <==> forall c :: c in cs ==> c.newValue != ""
    decreases |cs|
  {
    if cs != [] {
      ChangesAggregatesSucceedIff(ctx, org, cs[1..]);
      assert forall c :: c in cs <==> c == cs[0] || c in cs[1..];
    }
  }

  /**
   * OrgUpdateAggregates: a nil existing or updated org and an update that
   * changes nothing fail with PreconditionFailed; otherwise two aggregates per
   * changed field.
   */
  function OrgUpdateAggregates(ctx: Context, existing: Option<Org>, updated: Option<Org>): (r: Result<seq<Aggregate>>)
    ensures r.Failure? ==> r.error == PreconditionFailed
    ensures r.Success? ==>
      existing.Some? && updated.Some? && |r.value| == 2 * |Changes(existing.value, updated.value)| > 0
  {
    if existing.None? || updated.None? then Failure(PreconditionFailed)
    else
      var cs := Changes(existing.value, updated.value);
      if cs == [] then Failure(PreconditionFailed)
      else ChangesAggregates(ctx, existing.value, cs)
  }

  /** Replays the committed events that belong to org `o` (its id, the org aggregate type) into it. */
  function Replay(o: Org, events: seq<Event>): Org
    decreases |events|
  {
    if events == [] then o
    else
      var o' := if events[0].aggregateId == o.id && events[0].aggregateType == ORG_AGGREGATE_TYPE
        then ApplyOrgEvent(o, events[0]) else o;
      Replay(o', events[1..])
  }

  /**
   * The update's error cases, its aggregate count, and what it achieves: once
   * its aggregates are committed and replayed into the existing org, the org
   * has the updated Name and Domain.
   */
  lemma OrgUpdateOutcome(ctx: Context, existing: Option<Org>, updated: Option<Org>, last: nat)
    ensures existing.None? || updated.None? ==> OrgUpdateAggregates(ctx, existing, updated) == Failure(PreconditionFailed)
    ensures existing.Some? && updated.Some? ==>
      var (e, u) := (existing.value, updated.value);
      var r := OrgUpdateAggregates(ctx, existing, updated);
      && (e.name == u.name && e.domain == u.domain ==> r == Failure(PreconditionFailed))
      && (r.Success? <==> (e.name != u.name || e.domain != u.domain) &&
                          (e.name != u.name ==> u.name != "") && (e.domain != u.domain ==> u.domain != ""))
      && (r.Failure? ==> r.error == PreconditionFailed)
      && (r.Success? ==> |r.value| == 2 * |Changes(e, u)|)
      && (e.name != u.name && e.domain == u.domain && u.name != "" ==> r.Success? && |r.value| == 2)
      && (e.name == u.name && e.domain != u.domain && u.domain != "" ==> r.Success? && |r.value| == 2)
      && (e.name != u.name && e.domain != u.domain && u.name != "" && u.domain != "" ==> r.Success? && |r.value| == 4)
      && (r.Success? ==> var o := Replay(e, Stamp(r.value, last)); o.name == u.name && o.domain == u.domain)
  {
    if existing.Some? && updated.Some? {
      var (e, u) := (existing.value, updated.value);
      ChangesDiff(e, u);
      ChangesAggregatesSucceedIff(ctx, e, Changes(e, u));
      var r := OrgUpdateAggregates(ctx, existing, updated);
      if r.Success? {
        UpdateReplay(ctx, e, u, last);
      }
    }
  }

  /** Applies a field change directly to an org: the reference the replayed update is compared with. */
  function ApplyChange(o: Org, c: Change): Org {
    if c.field == NAME_FIELD then o.(name := c.newValue)
    else if c.field == DOMAIN_FIELD then o.(domain := c.newValue)
    else o
  }

  function ApplyChanges(o: Org, cs: seq<Change>): Org
    decreases |cs|
  {
    if cs == [] then o else ApplyChanges(ApplyChange(o, cs[0]), cs[1..])
  }

  /** Two orgs agree on everything but the sequence of the last event folded into them. */
  predicate SameFields(a: Org, b: Org) {
    a.id == b.id && a.name == b.name && a.domain == b.domain && a.state == b.state
  }

  lemma {:induction false} ApplyChangesKeepsSameFields(a: Org, b: Org, cs: seq<Change>)
    requires SameFields(a, b)
    ensures SameFields(ApplyChanges(a, cs), ApplyChanges(b, cs))
    decreases |cs|
  {
    if cs != [] {
      ApplyChangesKeepsSameFields(ApplyChange(a, cs[0]), ApplyChange(b, cs[0]), cs[1..]);
    }
  }

  lemma {:induction false} ReplayConcat(o: Org, xs: seq<Event>, ys: seq<Event>)
    ensures Replay(o, xs + ys) == Replay(Replay(o, xs), ys)
    decreases |xs|
  {
    if xs == [] {
      assert xs + ys == ys;
    } else {
      assert (xs + ys)[0] == xs[0];
      assert (xs + ys)[1..] == xs[1..] + ys;
      var o' := if xs[0].aggregateId == o.id && xs[0].aggregateType == ORG_AGGREGATE_TYPE
        then ApplyOrgEvent(o, xs[0]) else o;
      ReplayConcat(o', xs[1..], ys);
    }
  }

  lemma {:induction false} StampConcat(xs: seq<Aggregate>, ys: seq<Aggregate>, last: nat)
    ensures EventCount(xs + ys) == EventCount(xs) + EventCount(ys)
    ensures Stamp(xs + ys, last) == Stamp(xs, last) + Stamp(ys, last + EventCount(xs))
    decreases |xs|
  {
    if xs == [] {
      assert xs + ys == ys;
    } else {
      assert (xs + ys)[0] == xs[0];
      assert (xs + ys)[1..] == xs[1..] + ys;
      StampConcat(xs[1..], ys, last + |xs[0].events|);
    }
  }

  /** Replaying the two aggregates of one change applies that change to the org and nothing else. */
  lemma ChangeReplay(ctx: Context, org: Org, o: Org, c: Change, last: nat)
    requires ChangeAggregates(ctx, org, c).Success? && o.id == org.id
    ensures EventCount(ChangeAggregates(ctx, org, c).value) == 2
    ensures SameFields(Replay(o, Stamp(ChangeAggregates(ctx, org, c).value, last)), ApplyChange(o, c))
  {
    var aggs := ChangeAggregates(ctx, org, c).value;
    var a0, a1 := aggs[0], aggs[1];
    assert aggs[1..] == [a1] && aggs[1..][1..] == [];
    var e0 := Event(a0.id, a0.aggregateType, a0.events[0].eventType, last + 1, a0.events[0].payload);
    var e1 := Event(a1.id, a1.aggregateType, a1.events[0].eventType, last + 2, a1.events[0].payload);
    assert EventsOf(a0, last) == [e0];
    assert EventsOf(a1, last + 1) == [e1];
    assert Stamp([a1], last + 1) == [e1];
    var evs := Stamp(aggs, last);
    assert evs == [e0, e1];
    assert evs[1..] == [e1] && evs[1..][1..] == [];
    assert a1.aggregateType != ORG_AGGREGATE_TYPE;
    var o1 := ApplyOrgEvent(o, e0);
    assert Replay(o, evs) == Replay(o1, [e1]);
    assert Replay(o1, [e1]) == Replay(o1, []);
    assert SameFields(o1, ApplyChange(o, c));
  }

  /** Replaying the aggregates of a whole diff applies every change in order. */
  lemma {:induction false} ChangesReplay(ctx: Context, org: Org, o: Org, cs: seq<Change>, last: nat)
    requires ChangesAggregates(ctx, org, cs).Success? && o.id == org.id
    ensures SameFields(Replay(o, Stamp(ChangesAggregates(ctx, org, cs).value, last)), ApplyChanges(o, cs))
    decreases |cs|
  {
    if cs != [] {
      var head := ChangeAggregates(ctx, org, cs[0]).value;
      var tail := ChangesAggregates(ctx, org, cs[1..]).value;
      StampConcat(head, tail, last);
      ChangeReplay(ctx, org, o, cs[0], last);
      var o1 := Replay(o, Stamp(head, last));
      ReplayConcat(o, Stamp(head, last), Stamp(tail, last + 2));
      ChangesReplay(ctx, org, o1, cs[1..], last + 2);
      ApplyChangesKeepsSameFields(o1, ApplyChange(o, cs[0]), cs[1..]);
    }
  }

  lemma UpdateReplay(ctx: Context, e: Org, u: Org, last: nat)
    requires OrgUpdateAggregates(ctx, Some(e), Some(u)).Success?
    ensures var o := Replay(e, Stamp(OrgUpdateAggregates(ctx, Some(e), Some(u)).value, last));
      o.name == u.name && o.domain == u.domain
  {
    var cs := Changes(e, u);
    ChangesReplay(ctx, e, e, cs, last);
    var nameChange := Change(NAME_FIELD, e.name, u.name);
    var domainChange := Change(DOMAIN_FIELD, e.domain, u.domain);
    if e.name != u.name && e.domain != u.domain {
      assert cs == [nameChange, domainChange] && cs[1..] == [domainChange] && cs[1..][1..] == [];
      var o1 := ApplyChange(e, nameChange);
      assert ApplyChanges(e, cs) == ApplyChanges(o1, [domainChange]);
      assert ApplyChanges(o1, [domainChange]) == ApplyChange(o1, domainChange);
    } else if e.name != u.name {
      assert cs == [nameChange] && cs[1..] == [];
      assert ApplyChanges(e, cs) == ApplyChanges(ApplyChange(e, nameChange), []);
    } else {
      assert cs == [domainChange] && cs[1..] == [];
      assert ApplyChanges(e, cs) == ApplyChanges(ApplyChange(e, domainChange), []);
    }
  }

  // ---------------------------------------------------------------------------
  // orgCreatedAggregates

  /** The aggregates a builder produced and the error it reports alongside them. */
  datatype Batch = Batch(aggregates: seq<Aggregate>, err: Option<ErrorKind>)

  /**
   * orgCreatedAggregates: a nil org fails with no aggregates. Otherwise the
   * "org added" aggregate, then the domain reservation, then the name
   * reservation; a reservation that cannot be built (empty value) is left out
   * and makes the batch report PreconditionFailed.
   */
  function OrgCreatedAggregates(ctx: Context, org: Option<Org>): (b: Batch)
    ensures b.aggregates == [] <==> org.None?
    ensures b.err.Some? ==> b.err == Some(PreconditionFailed)
    ensures b.err.None? ==> |b.aggregates| == 3
  {
    if org.None? then Batch([], Some(PreconditionFailed))
    else
      var o := org.value;
      var created := Aggregate(o.id, ORG_AGGREGATE_TYPE, ctx.userId, o.sequence, [PendingEvent(ORG_ADDED, NoPayload)], None);
      var domain := UniqueDomainAggregate(ctx, o.domain);
      var name := UniqueNameAggregate(ctx, o.name);
      Batch(
        [created] + (if domain.Success? then [domain.value] else []) + (if name.Success? then [name.value] else []),
        if domain.Failure? || name.Failure? then Some(PreconditionFailed) else None)
  }

  /**
   * A nil org gives PreconditionFailed and no aggregates; otherwise the batch
   * succeeds exactly when Name and Domain are both set, then with three
   * aggregates: the org itself followed by the two reservations, each guarded
   * by its precondition. A missing field gives PreconditionFailed and one
   * aggregate fewer.
   */
  lemma OrgCreatedOutcome(ctx: Context, org: Option<Org>)
    ensures org.None? ==> OrgCreatedAggregates(ctx, org) == Batch([], Some(PreconditionFailed))
    ensures org.Some? ==>
      var b := OrgCreatedAggregates(ctx, org);
      && (b.err.None? <==> org.value.name != "" && org.value.domain != "")
      && (b.err.Some? ==> b.err == Some(PreconditionFailed))
      && |b.aggregates| == 1 + (if org.value.domain != "" then 1 else 0) + (if org.value.name != "" then 1 else 0)
      && b.aggregates[0].id == org.value.id && b.aggregates[0].aggregateType == ORG_AGGREGATE_TYPE
      && (forall i :: 1 <= i < |b.aggregates| ==> b.aggregates[i].precondition.Some?)
      && (b.err.None? ==> b.aggregates[1].id == org.value.domain && b.aggregates[2].id == org.value.name)
  {
  }
}
