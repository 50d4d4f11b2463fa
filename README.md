# Identity/access domain core: org command builders, IAM member handlers, user grants

A Dafny model of three sequential pieces of the domain core of an event-sourced
identity and access management platform. Every change is an event appended to
an event log. Current state is rebuilt by folding those events into read
models. Uniqueness is enforced against the log, not by an index.

- `org_eventsourcing.dfy` (module `OrgEventsourcing`) models the organisation
  command builders of `internal/org/repository/eventsourcing`. These are the
  reservation check behind unique names and domains (`isReservedValidation`),
  the reservation aggregates, the two-stage reactivate/deactivate builders, the
  update diff and the creation batch. The implementation file is not part of
  this model. Its behaviour comes from `org_test.go`, which pins down error
  kinds, aggregate counts, preconditions and `PreviousSequence`.
- `iam_member.dfy` (module `IamBusiness`) models the IAM member command
  handlers `AddIAMMember`, `ChangeIAMMember` and `RemoveIAMMember`.
  `AddIAMMember` and `ChangeIAMMember` first check that the member is valid;
  `RemoveIAMMember` does not. `AddIAMMember` and `RemoveIAMMember` load the
  IAM's read model and look the user up in its member list; `ChangeIAMMember`
  loads the member's own write model. Each then pushes one aggregate and folds
  the returned events back into the loaded model. The module also models the
  member list's lookup `MemberByUserID`.
- `user_grant.dfy` (module `UserGrantModel`) models the user grant's state
  enum and its `IsValid`, `IsActive` and `IsInactive` predicates.
- `eventstore.dfy` (module `Eventstore`) holds the collaborators these use.
  It has events, aggregates and preconditions, the log's query filter, and an
  event log whose push either fails or appends the batch with consecutive
  sequence numbers. It also has a generic read/write model,
  `WriteModel<S>`. Its `Reduce` folds buffered events in ascending sequence
  order and refuses an event at or below the last folded sequence.

Functions model the pure builders and predicates. Classes model what the
source updates in place:
- the aggregate a validation closure writes `PreviousSequence` into (`AggregateRef`);
- the event log (`EventStore`);
- the read and write models (`WriteModel<S>`);
- the repository whose handlers push and then reduce (`Repository`).

The loaders `iamByID` and `memberWriteModelByID` are not part of this model.
Each handler takes what its loader produced, as `loaded`: either the model or
the loader's error. The loaders look up by the request's IAM id (and, for the
member write model, its user id), so a handler requires that a loaded model
belongs to that IAM (and user). The request context is reduced to the acting user, which
is stamped on every aggregate as its editor.

Reactivating an active org (or deactivating an inactive one) fails with
`InvalidArgument`, the kind the tests assert (`org_test.go:256`,
`org_test.go:330`). It is a different kind from the `PreconditionFailed` of a
nil org.

The tests leave some behaviour open. There the model makes these choices:
- The latest matched event is the last one; matched events come in ascending
  sequence order.
- The reactivate and deactivate builders refuse only a nil org and an org
  already in the target state. So a removed org, or one with any other state
  code, can be reactivated or deactivated; the tests cover only active, inactive and nil orgs.
- The creation batch keeps the aggregates it could build alongside the error.
- A changed field contributes two aggregates: the "org changed" event on the
  org, and the reservation of the new value.
- An update that sets Name or Domain to the empty value fails with
  `PreconditionFailed`, because the reservation of an empty value cannot be
  built. The tests only change fields to non-empty values.

In `AddIAMMember` the "member not saved" guard (`member.go:40`) tests the input
`member`, which was already dereferenced at line 13. So it can never fire. The
model has no such branch. It proves (`AddedMemberIsFound`) that after a
successful fold the lookup always finds the user. So the guard the authors
evidently meant (`addedMember == nil`) could not fire either.

## Model

| member | source | states |
|---|---|---|
| `OrgEventsourcing.ReservedCheck` | internal/org/repository/eventsourcing/org_test.go:13-96 | No matched events give success with PreviousSequence 0; otherwise the check fails, always with PreconditionFailed, exactly when its input's latest event has the reserved type, whatever aggregate type the events carry, and else succeeds with that event's sequence as the new PreviousSequence |
| `OrgEventsourcing.IsReservedValidation` | internal/org/repository/eventsourcing/org_test.go:79-93 | Running the closure on its input events: no events sets PreviousSequence to 0 and succeeds; a latest event that is not the reservation type sets it to that event's sequence (45 in the test) and succeeds; a latest reservation fails with PreconditionFailed and leaves the aggregate unchanged |
| `OrgEventsourcing.ReservedCheckLatestWins` | internal/org/repository/eventsourcing/org_test.go:40-77 | Only the most recent matched event decides the outcome; earlier events are irrelevant (last-writer-wins reservation) |
| `OrgEventsourcing.ReservationRejectsIffTaken` | internal/org/repository/eventsourcing/org_test.go:59-90 | Running a reservation precondition (query, then validation) against a log fails exactly when the latest event on the value's stream is a reservation |
| `OrgEventsourcing.UniqueAggregateGuardsValue` | internal/org/repository/eventsourcing/org_test.go:117-155 | An empty value fails with PreconditionFailed; a non-empty one gives an aggregate keyed by the value whose precondition is set and rejects exactly a taken value |
| `OrgEventsourcing.UniqueNameAggregateOutcome` | internal/org/repository/eventsourcing/org_test.go:102-156 | uniqueNameAggregate: empty name gives PreconditionFailed; otherwise an aggregate with precondition (query and validation) that rejects a taken name |
| `OrgEventsourcing.UniqueDomainAggregateOutcome` | internal/org/repository/eventsourcing/org_test.go:158-212 | uniqueDomainAggregate: empty domain gives PreconditionFailed; otherwise an aggregate with precondition that rejects a taken domain |
| `OrgEventsourcing.UniqueAggregate` | internal/org/repository/eventsourcing/org_test.go:117-155 | The reservation aggregate fails (PreconditionFailed) exactly for an empty value; otherwise it is keyed by the value on the uniqueness stream and carries the precondition querying that stream; what the precondition rejects is proved by `UniqueAggregateGuardsValue` |
| `OrgEventsourcing.UniqueNameAggregate` | internal/org/repository/eventsourcing/org_test.go:102-156 | Fails exactly for an empty name; otherwise an aggregate keyed by the name on the name-uniqueness stream; the rejection of a taken name is proved by `UniqueNameAggregateOutcome` |
| `OrgEventsourcing.UniqueDomainAggregate` | internal/org/repository/eventsourcing/org_test.go:158-212 | Fails exactly for an empty domain; otherwise an aggregate keyed by the domain on the domain-uniqueness stream; the rejection of a taken domain is proved by `UniqueDomainAggregateOutcome` |
| `OrgEventsourcing.OrgReactivateAggregate` | internal/org/repository/eventsourcing/org_test.go:214-286 | The first stage's result makes the second stage fail, for every context, exactly for a nil or an already Active org; the error kinds and the replay are proved by `ReactivateOutcome` |
| `OrgEventsourcing.OrgDeactivateAggregate` | internal/org/repository/eventsourcing/org_test.go:288-360 | The second stage fails, for every context, exactly for a nil or an already Inactive org; the rest is proved by `DeactivateOutcome` |
| `OrgEventsourcing.Realize` | internal/org/repository/eventsourcing/org_test.go:227-286 | The second stage fails exactly for a nil org (PreconditionFailed) or an org already in the target state (InvalidArgument); otherwise one aggregate on the org, anchored at its sequence, edited by the context's user, holding the one transition event |
| `OrgEventsourcing.Changes` | internal/org/repository/eventsourcing/org_test.go:404-470 | At most two entries, each for Name or Domain and each with old value different from new; emptiness and count are proved by `ChangesDiff` |
| `OrgEventsourcing.OrgUpdateAggregates` | internal/org/repository/eventsourcing/org_test.go:362-486 | Every failure is PreconditionFailed; a success needs both orgs and gives a non-zero count, two aggregates per changed field (each changed to a non-empty value); the cases and the replay are proved by `OrgUpdateOutcome` |
| `OrgEventsourcing.OrgCreatedAggregates` | internal/org/repository/eventsourcing/org_test.go:488-585 | No aggregates exactly for a nil org; the only error is PreconditionFailed; without error there are exactly three aggregates; the rest is proved by `OrgCreatedOutcome` |
| `Eventstore.MatchingEvents` | internal/org/repository/eventsourcing/org_test.go:79-93 | The precondition's query selects exactly the log's events on the queried stream (aggregate type and id), never more events than the log holds |
| `Eventstore.Fold` | internal/v2/business/iam/member.go:69-74 | Folding fails only with Internal and only on a non-empty stream, and never moves the processed sequence backwards; success and failure are characterised by `FoldSucceedsIff` |
| `Eventstore.WriteModel.AppendEvents` | internal/v2/business/iam/member.go:69-71 | The buffer gains the pushed events at its end, in order |
| `IamBusiness.ApplyMemberEvent` | internal/v2/business/iam/member.go:35-43 | One event changes the member list's length by at most one; a removal introduces no entry; an unrelated event changes nothing; the effect of each kind is proved by `AddedMemberIsFound`, `ChangeReplacesOnlyRoles` and `RemoveDropsOnlyTheMember` |
| `OrgEventsourcing.ReactivateOutcome` | internal/org/repository/eventsourcing/org_test.go:214-286 | Nil org gives PreconditionFailed, an Active org InvalidArgument; any other org (Inactive as in the test, Removed, or any other state code) gives one aggregate on the org anchored at its sequence, after which the org is Active and reactivating again is refused |
| `OrgEventsourcing.DeactivateOutcome` | internal/org/repository/eventsourcing/org_test.go:288-360 | Mirror image: nil gives PreconditionFailed, Inactive gives InvalidArgument, any other org (Active as in the test, Removed, or any other state code) gives one aggregate that leaves the org Inactive, after which deactivating again is refused |
| `OrgEventsourcing.RealizeOutcomeIgnoresContext` | internal/org/repository/eventsourcing/org_test.go:273-274 | The two-stage builders' state checks give the same outcome and error kind whatever context the second stage receives |
| `OrgEventsourcing.ChangesDiff` | internal/org/repository/eventsourcing/org_test.go:404-470 | The field diff is empty exactly when Name and Domain agree, and has one entry per differing field, each with old value different from new |
| `OrgEventsourcing.ChangesAggregatesSucceedIff` | internal/org/repository/eventsourcing/org_test.go:417-470 | Building the aggregates of a diff succeeds exactly when no change sets a field to the empty value |
| `OrgEventsourcing.ChangesAggregates` | internal/org/repository/eventsourcing/org_test.go:481-483 | A successful diff yields two aggregates per change; a failure is PreconditionFailed |
| `OrgEventsourcing.OrgUpdateOutcome` | internal/org/repository/eventsourcing/org_test.go:362-486 | Nil existing or updated org, and identical orgs, give PreconditionFailed; only Name or only Domain changed, to a non-empty value, gives exactly 2 aggregates, both changed to non-empty values gives 4; a field changed to the empty value gives PreconditionFailed; and once committed and replayed the org carries the updated Name and Domain |
| `OrgEventsourcing.ChangeReplay` | internal/org/repository/eventsourcing/org_test.go:417-443 | The two aggregates of one change hold two events; replaying them applies that change to the org; its id and state stay as they were, and only its sequence advances |
| `OrgEventsourcing.ChangesReplay` | internal/org/repository/eventsourcing/org_test.go:417-470 | Replaying the committed aggregates of a whole diff applies every change in order |
| `OrgEventsourcing.UpdateReplay` | internal/org/repository/eventsourcing/org_test.go:417-470 | After a successful update is committed and replayed, the org's Name and Domain are the updated ones |
| `OrgEventsourcing.OrgCreatedOutcome` | internal/org/repository/eventsourcing/org_test.go:488-585 | Nil org gives PreconditionFailed and no aggregates; otherwise success exactly when Name and Domain are both set, then 3 aggregates (the org, the domain and the name reservation, both guarded by preconditions); a missing field gives PreconditionFailed |
| `IamBusiness.IndexOfUser` | internal/v2/business/iam/member.go:22-25 | The index is that of the first member with the user id, or -1 exactly when no member has it |
| `IamBusiness.MemberByUserID` | internal/v2/business/iam/member.go:85-88 | The lookup loop returns the first matching index and that member, or -1 and nil |
| `IamBusiness.AddedMemberIsFound` | internal/v2/business/iam/member.go:35-43 | After a member-added event is folded the user is always found, so the not-saved branch is unreachable; a previously absent user is found at the appended entry with exactly the added roles, and user ids stay unique |
| `IamBusiness.ChangeReplacesOnlyRoles` | internal/v2/business/iam/member.go:58-62 | In the IAM read model's member list (the write model of `ChangeIAMMember` itself folds with `ApplyToMember`), a member-changed event replaces the roles of that user's entry; the list's length, every user id and aggregate id, and every other entry are unchanged |
| `IamBusiness.RemoveDropsOnlyTheMember` | internal/v2/business/iam/member.go:90-98 | A member-removed event takes out that user's entry and keeps the others in order; with unique user ids the user is then absent and exactly the other members remain; an absent user changes nothing |
| `IamBusiness.Repository.AddIAMMember` | internal/v2/business/iam/member.go:12-44 | Invalid member gives PreconditionFailed before any read; a loader error is returned unchanged; an existing member gives PreconditionFailed with nothing pushed; a push error is returned with nothing changed; otherwise exactly one member-added event for the given user and roles is appended, folded into the read model, and the member found there is returned: exactly the requested member when nothing else was buffered. The loaded read model must be the requested IAM's, as `iamByID` loads it by `member.AggregateID` |
| `IamBusiness.Repository.ChangeIAMMember` | internal/v2/business/iam/member.go:48-77 | Invalid member gives PreconditionFailed; loader and push errors are returned unchanged; otherwise one member-changed event for the requested user with the new roles is pushed, appended and reduced, after which the member write model holds that user with exactly the new roles; the returned member is always nil. The loaded write model must be the requested IAM's and user's, as `memberWriteModelByID` loads it by both |
| `IamBusiness.Repository.RemoveIAMMember` | internal/v2/business/iam/member.go:79-98 | A loader error is returned unchanged; a user who is not a member gives no error and nothing pushed; otherwise one member-removed event is pushed and folded, after which the user is absent and the other members remain |
| `Eventstore.EventStore.PushAggregates` | internal/v2/business/iam/member.go:30-33 | A failing push returns its error and persists nothing; a successful one appends the batch's events numbered consecutively after the log |
| `Eventstore.WriteModel.Reduce` | internal/v2/business/iam/member.go:69-74 | Folds the appended events in order and clears the buffer, or fails with an internal error on a sequence at or below the last folded one and leaves the model unchanged |
| `Eventstore.WriteModel.AppendAndReduce` | internal/v2/business/iam/member.go:35-37 | Appending then reducing: the read model becomes the fold of its buffer plus the pushed events |
| `Eventstore.FoldSucceedsIff` | internal/v2/business/iam/member.go:72-74 | Reduce succeeds exactly on events in strictly ascending sequence order above the last folded sequence |
| `Eventstore.FoldAdvances` | internal/v2/business/iam/member.go:72-74 | After reducing, the processed sequence is that of the last folded event |
| `Eventstore.RefoldFails` | internal/v2/business/iam/member.go:72-74 | Folding the same events a second time fails instead of applying them twice |
| `Eventstore.FoldConcat` | internal/v2/business/iam/member.go:35-37 | Folding buffered and newly pushed events is folding the buffer, then the new events from where it ended |
| `Eventstore.MatchingEventsAppend` | internal/org/repository/eventsourcing/org_test.go:81-83 | The precondition query over a log with one more event selects that event exactly when it lies on the queried stream |
| `UserGrantModel.IsValid` | internal/usergrant/model/user_grant.go:22-24 | A grant is valid exactly when ProjectID and UserID are both non-empty; its contract is held by `IsValidIgnoresRolesAndState` |
| `UserGrantModel.IsActive` | internal/usergrant/model/user_grant.go:26-28 | Holds exactly for state code ACTIVE, and never together with IsInactive; its contract is held by `ActivityIsExclusive` |
| `UserGrantModel.IsInactive` | internal/usergrant/model/user_grant.go:30-32 | Holds exactly for state code INACTIVE, and never together with IsActive; its contract is held by `ActivityIsExclusive` |
| `UserGrantModel.IsValidIgnoresRolesAndState` | internal/usergrant/model/user_grant.go:22-24 | IsValid holds exactly when ProjectID and UserID are non-empty; RoleKeys and State do not matter |
| `UserGrantModel.ActivityIsExclusive` | internal/usergrant/model/user_grant.go:26-32 | IsActive holds exactly for state ACTIVE, IsInactive exactly for INACTIVE; never both; a REMOVED grant, or any other code, is neither |
| `UserGrantModel.ZeroGrantIsActive` | internal/usergrant/model/user_grant.go:16-20 | ACTIVE=0, INACTIVE=1, REMOVED=2, so a zero-valued grant is Active (and not valid) |

## Left out

- The org implementation file itself is not part of this model. Event type and aggregate type names (`org.added`, `org.name.unique`, …) are labels of this model. The payload of the "org added" event is not modelled.
- Releasing the old name or domain when an update claims a new one is not modelled. The tests observe only the aggregate count, and each changed field's reservation aggregate claims the new value.
- The resource owner argument of `uniqueNameAggregate`/`uniqueDomainAggregate` and the resource-owner part of the context are not modelled. Only the acting user is stamped on aggregates.
- Event store internals are not modelled: durable storage, evaluating preconditions at push time, checking `PreviousSequence` against the log, and races between concurrent commands. The push's success or failure is an input of the model (`EventStore.failure`).
- The loaders `iamByID` and `memberWriteModelByID` are not part of this model. Their outcome is an input (`loaded`). Error IDs and i18n message keys are dropped; only the error kind is kept.
- `IAMMember.IsValid` and the member read/write models' event handling are defined outside the files this model covers. The model takes validity as a non-empty IAM id, user id and role list. A member-added event appends an entry, a changed event replaces the first entry's roles, and a removed event removes the first entry.
- A nil `member` passed to a handler is not modelled: the source dereferences it at once (`member.go:13`, `member.go:80`).
- `Repository.ChangeIAMMember`: `AppendEvents` on the member write model cannot fail in the model. The source checks an error from it (`member.go:69-71`). The change event is pushed even when the roles are unchanged.
- `internal/telemetry/metrics/metrics.go` (a global telemetry singleton) and the console's Angular module are not part of this model. They hold no domain logic.
- The org model's state enum is not part of this model. The org state is an int32 code, as in `org_test.go:238`. Its named codes ACTIVE=0, INACTIVE=1 and REMOVED=2 follow the enum's declaration order.
