/**
 * Command handlers that add, change and remove a member of an IAM aggregate:
 * validity and duplicate checks, one push to the event log, then the pushed
 * events folded back into the loaded read or write model.
 */
module IamBusiness {
  import opened Eventstore

  const IAM_AGGREGATE_TYPE := "iam"
  const MEMBER_ADDED := "iam.member.added"
  const MEMBER_CHANGED := "iam.member.changed"
  const MEMBER_REMOVED := "iam.member.removed"

  /** The member a caller asks for: the IAM it belongs to, the user and the user's roles. */
  datatype IAMMember = IAMMember(aggregateId: string, userId: string, roles: seq<string>)

  /** Required fields present: the IAM, the user and at least one role. */
  predicate IsValid(m: IAMMember) {
    m.aggregateId != "" && m.userId != "" && |m.roles| > 0
  }

  /** One entry of the IAM read model's member list. */
  datatype MemberReadModel = MemberReadModel(aggregateId: string, userId: string, roles: seq<string>)

  /** The IAM read model: the member list, folded from the IAM's events. */
  type IAMReadModel = WriteModel<seq<MemberReadModel>>

  /** The write model of one member of an IAM. */
  datatype MemberState = MemberState(userId: string, roles: seq<string>)

  type MemberWriteModel = WriteModel<MemberState>

  function ReadModelToMember(m: MemberReadModel): IAMMember {
    IAMMember(m.aggregateId, m.userId, m.roles)
  }

  // ---------------------------------------------------------------------------
  // Member lookup

  /** The index of the first member with the given user id, or -1 if there is none. */
  function IndexOfUser(members: seq<MemberReadModel>, userId: string): (r: int)
    ensures -1 <= r < |members|
    ensures r >= 0 ==> members[r].userId == userId
    ensures forall j :: 0 <= j < |members| && (r == -1 || j < r) ==> members[j].userId != userId
    decreases |members|
  {
    if members == [] then -1
    else if members[0].userId == userId then 0
    else
      var k := IndexOfUser(members[1..], userId);
      if k == -1 then -1 else k + 1
  }

  /** MembersReadModel.MemberByUserID: the first member with the user id and its index, or -1 and nil. */
  method MemberByUserID(members: seq<MemberReadModel>, userId: string) returns (idx: int, member: Option<MemberReadModel>)
    ensures idx == IndexOfUser(members, userId)
    ensures idx == -1 ==> member == None
    ensures idx >= 0 ==> member == Some(members[idx])
  {
    var i := 0;
    while i < |members|
      invariant 0 <= i <= |members|
      invariant forall j :: 0 <= j < i ==> members[j].userId != userId
    {
      if members[i].userId == userId {
        return i, Some(members[i]);
      }
      i := i + 1;
    }
    return -1, None;
  }

  /** No user appears twice in the member list. */
  ghost predicate UniqueUsers(members: seq<MemberReadModel>) {
    forall i, j :: 0 <= i < j < |members| ==> members[i].userId != members[j].userId
  }

  // ---------------------------------------------------------------------------
  // Folding member events

  function MemberAddedEvent(iamId: string, sequence: nat, userId: string, roles: seq<string>): Event {
    Event(iamId, IAM_AGGREGATE_TYPE, MEMBER_ADDED, sequence, MemberPayload(userId, roles))
  }

  function MemberChangedEvent(iamId: string, sequence: nat, userId: string, roles: seq<string>): Event {
    Event(iamId, IAM_AGGREGATE_TYPE, MEMBER_CHANGED, sequence, MemberPayload(userId, roles))
  }

  function MemberRemovedEvent(iamId: string, sequence: nat, userId: string): Event {
    Event(iamId, IAM_AGGREGATE_TYPE, MEMBER_REMOVED, sequence, UserPayload(userId))
  }

  /**
   * Folds one event into the member list: an added member is appended, a
   * changed member gets the new roles, a removed member is taken out; the
   * first entry with the user id is the one changed or removed.
   */
  function ApplyMemberEvent(members: seq<MemberReadModel>, e: Event): (r: seq<MemberReadModel>)
    ensures |members| - 1 <= |r| <= |members| + 1
    ensures e.eventType == MEMBER_REMOVED ==> forall m :: m in r ==> m in members
    ensures e.eventType !in {MEMBER_ADDED, MEMBER_CHANGED, MEMBER_REMOVED} ==> r == members
  {
    if e.eventType == MEMBER_ADDED && e.payload.MemberPayload? then
      members + [MemberReadModel(e.aggregateId, e.payload.userId, e.payload.roles)]
    else if e.eventType == MEMBER_CHANGED && e.payload.MemberPayload? then
      var i := IndexOfUser(members, e.payload.userId);
      if i == -1 then members else members[i := members[i].(roles := e.payload.roles)]
    else if e.eventType == MEMBER_REMOVED && e.payload.UserPayload? then
      var i := IndexOfUser(members, e.payload.userId);
      if i == -1 then members else members[..i] + members[i + 1..]
    else members
  }

  /** Folds one event into a member's write model: an added or changed event for that user sets its roles. */
  function ApplyToMember(m: MemberState, e: Event): MemberState {
    if (e.eventType == MEMBER_ADDED || e.eventType == MEMBER_CHANGED) && e.payload.MemberPayload? && e.payload.userId == m.userId
    then m.(roles := e.payload.roles)
    else m
  }

  /**
   * After a member-added event is folded the user is found, so the "member not
   * saved" branch after the lookup is unreachable; when the user was absent
   * before, the entry found is the appended one, with exactly the added roles,
   * and the list still has no duplicate user.
   */
  lemma AddedMemberIsFound(members: seq<MemberReadModel>, iamId: string, sequence: nat, userId: string, roles: seq<string>)
    ensures var after := ApplyMemberEvent(members, MemberAddedEvent(iamId, sequence, userId, roles));
      && after == members + [MemberReadModel(iamId, userId, roles)]
      && IndexOfUser(after, userId) >= 0
      && after[IndexOfUser(after, userId)].userId == userId
      && (IndexOfUser(members, userId) == -1 ==>
            IndexOfUser(after, userId) == |members| && after[|members|] == MemberReadModel(iamId, userId, roles))
      && (IndexOfUser(members, userId) == -1 && UniqueUsers(members) ==> UniqueUsers(after))
  {
    var m := MemberReadModel(iamId, userId, roles);
    var after := members + [m];
    IndexOfUserAppend(members, m, userId);
    if IndexOfUser(members, userId) == -1 && UniqueUsers(members) {
      forall i, j | 0 <= i < j < |after| ensures after[i].userId != after[j].userId {
        if j == |members| {
          assert after[i] == members[i];
        } else {
          assert after[i] == members[i] && after[j] == members[j];
        }
      }
    }
  }

  /** Looking a user up in a list with one more entry at the end. */
  lemma IndexOfUserAppend(members: seq<MemberReadModel>, m: MemberReadModel, userId: string)
    ensures IndexOfUser(members + [m], userId) ==
      if IndexOfUser(members, userId) >= 0 then IndexOfUser(members, userId)
      else if m.userId == userId then |members|
      else -1
  {
    var after := members + [m];
    var k := IndexOfUser(members, userId);
    var k' := IndexOfUser(after, userId);
    assert forall j :: 0 <= j < |members| ==> after[j] == members[j];
    if k >= 0 {
      assert after[k].userId == userId;
    } else if m.userId == userId {
      assert after[|members|].userId == userId;
    }
  }

  /** The user is absent from `after`, which holds exactly the entries of `before` for other users. */
  ghost predicate RemovedFrom(after: seq<MemberReadModel>, before: seq<MemberReadModel>, userId: string) {
    && UniqueUsers(after)
    && IndexOfUser(after, userId) == -1
    && forall m :: m in after <==> m in before && m.userId != userId
  }

  /** A change event replaces the roles of the user's entry; every other entry and field stays as it was. */
  lemma ChangeReplacesOnlyRoles(members: seq<MemberReadModel>, iamId: string, sequence: nat, userId: string, roles: seq<string>)
    ensures var after := ApplyMemberEvent(members, MemberChangedEvent(iamId, sequence, userId, roles));
      var k := IndexOfUser(members, userId);
      && |after| == |members|
      && (forall j :: 0 <= j < |members| ==>
            after[j].userId == members[j].userId && after[j].aggregateId == members[j].aggregateId)
      && (forall j :: 0 <= j < |members| && j != k ==> after[j] == members[j])
      && (k >= 0 ==> after[k].roles == roles)
      && (UniqueUsers(members) ==> UniqueUsers(after))
  {
  }

  /**
   * A removal takes the user's entry out and keeps every other entry, in
   * order; on a list without duplicate users the user is then absent.
   * Removing an absent user changes nothing.
   */
  lemma RemoveDropsOnlyTheMember(members: seq<MemberReadModel>, iamId: string, sequence: nat, userId: string)
    ensures var after := ApplyMemberEvent(members, MemberRemovedEvent(iamId, sequence, userId));
      var k := IndexOfUser(members, userId);
      && (k == -1 ==> after == members)
      && (k >= 0 ==> after == members[..k] + members[k + 1..])
      && (UniqueUsers(members) ==> RemovedFrom(after, members, userId))
  {
    var k := IndexOfUser(members, userId);
    if k >= 0 && UniqueUsers(members) {
      DeleteUniqueEntry(members, k);
    }
  }

  /** Deleting entry `k` of a list without duplicate users leaves exactly the entries of the other users. */
  lemma DeleteUniqueEntry(members: seq<MemberReadModel>, k: nat)
    requires k < |members| && UniqueUsers(members)
    ensures RemovedFrom(members[..k] + members[k + 1..], members, members[k].userId)
  {
    var userId := members[k].userId;
    var after := members[..k] + members[k + 1..];
    assert forall j :: 0 <= j < |after| ==> after[j] == members[if j < k then j else j + 1];
    forall i, j | 0 <= i < j < |after| ensures after[i].userId != after[j].userId {
      assert after[i] == members[if i < k then i else i + 1];
      assert after[j] == members[if j < k then j else j + 1];
    }
    forall j | 0 <= j < |after| ensures after[j].userId != userId {
      assert after[j] == members[if j < k then j else j + 1];
    }
    forall m | m in members && m.userId != userId ensures m in after {
      var j :| 0 <= j < |members| && members[j] == m;
      assert after[if j < k then j else j - 1] == m;
    }
  }

  // ---------------------------------------------------------------------------
  // Command handlers

  function Footprint<S>(loaded: Result<WriteModel<S>>): set<object> {
    if loaded.Success? then {loaded.value} else {}
  }

  /**
   * The command side of the IAM: it pushes to the event log it holds. The read
   * and write models its loaders (iamByID, memberWriteModelByID) produce are
   * passed in as `loaded`: the model or the loader's error. The loaders look
   * models up by the request's IAM id (and user id), so a loaded model belongs
   * to that IAM (and that user).
   */
  class Repository {
    const eventstore: EventStore

    constructor (eventstore: EventStore)
      ensures this.eventstore == eventstore
    {
      this.eventstore := eventstore;
    }

    /**
     * AddIAMMember: an invalid member is rejected before anything is read; an
     * IAM that cannot be loaded passes its error on; a user who already is a
     * member is rejected with nothing pushed. Otherwise one member-added event
     * for exactly the given user and roles is pushed and folded back into the
     * read model, and the member found there is returned: on a model with
     * nothing buffered, exactly the requested member.
     */
    method AddIAMMember(ctx: Context, member: IAMMember, loaded: Result<IAMReadModel>) returns (r: Result<IAMMember>)
      requires eventstore.Valid()
      requires loaded.Success? ==> loaded.value.aggregateId == member.aggregateId
      modifies eventstore, Footprint(loaded)
      ensures eventstore.Valid()
      ensures !IsValid(member) ==>
        r == Failure(PreconditionFailed) && unchanged(eventstore) && unchanged(Footprint(loaded))
      ensures IsValid(member) && loaded.Failure? ==> r == Failure(loaded.error) && unchanged(eventstore)
      ensures IsValid(member) && loaded.Success? && IndexOfUser(old(loaded.value.state), member.userId) >= 0 ==>
        r == Failure(PreconditionFailed) && unchanged(eventstore) && unchanged(loaded.value)
      ensures IsValid(member) && loaded.Success? && IndexOfUser(old(loaded.value.state), member.userId) == -1 ==>
        var iam := loaded.value;
        var added := MemberAddedEvent(member.aggregateId, |old(eventstore.log)| + 1, member.userId, member.roles);
        var folded := Fold(ApplyMemberEvent, old(iam.state), old(iam.processedSequence), old(iam.pending) + [added]);
        if old(eventstore.failure).Some? then
          r == Failure(old(eventstore.failure).value) && unchanged(eventstore) && unchanged(iam)
        else
          && eventstore.log == old(eventstore.log) + [added]
          && (folded.Failure? ==> r == Failure(Internal) && iam.state == old(iam.state))
          && (folded.Success? ==>
                && (iam.state, iam.processedSequence) == folded.value && iam.pending == []
                && r.Success? && r.value.userId == member.userId)
          && (folded.Success? && old(iam.pending) == [] ==>
                && iam.state == old(iam.state) + [MemberReadModel(iam.aggregateId, member.userId, member.roles)]
                && r == Success(member)
                && (UniqueUsers(old(iam.state)) ==> UniqueUsers(iam.state)))
    {
      if !IsValid(member) {
        return Failure(PreconditionFailed);
      }
      if loaded.Failure? {
        return Failure(loaded.error);
      }
      var iam := loaded.value;
      var idx, _ := MemberByUserID(iam.state, member.userId);
      if idx > -1 {
        return Failure(PreconditionFailed);
      }
      var iamAgg := Aggregate(iam.aggregateId, IAM_AGGREGATE_TYPE, ctx.userId, iam.processedSequence,
        [PendingEvent(MEMBER_ADDED, MemberPayload(member.userId, member.roles))], None);
      ghost var added := MemberAddedEvent(iam.aggregateId, |eventstore.log| + 1, member.userId, member.roles);
      assert Stamp([iamAgg], |eventstore.log|) == [added] by {
        assert EventsOf(iamAgg, |eventstore.log|) == [added];
      }
      var events := eventstore.PushAggregates([iamAgg]);
      if events.Failure? {
        return Failure(events.error);
      }
      ghost var before, processed, pending := iam.state, iam.processedSequence, iam.pending;
      var err := iam.AppendAndReduce(events.value, ApplyMemberEvent);
      if err.Some? {
        return Failure(err.value);
      }
      FoldConcat(ApplyMemberEvent, before, processed, pending, [added]);
      AddedMemberIsFound(Fold(ApplyMemberEvent, before, processed, pending).value.0,
        iam.aggregateId, |old(eventstore.log)| + 1, member.userId, member.roles);
      var _, addedMember := MemberByUserID(iam.state, member.userId);
      // The source's "member not saved" guard tests the input member, which is
      // never nil here; the lookup itself always succeeds on this path.
      assert addedMember.Some?;
      r := Success(ReadModelToMember(addedMember.value));
    }

    /**
     * ChangeIAMMember: an invalid member is rejected; a member that cannot be
     * loaded passes the loader's error on. Otherwise the changed copy is the
     * existing member with only its roles replaced; one member-changed event
     * carrying it is pushed, appended to the write model and reduced. The
     * handler returns no member.
     */
    method ChangeIAMMember(ctx: Context, member: IAMMember, loaded: Result<MemberWriteModel>)
      returns (changed: Option<IAMMember>, err: Option<ErrorKind>)
      requires eventstore.Valid()
      requires loaded.Success? ==>
        loaded.value.aggregateId == member.aggregateId && loaded.value.state.userId == member.userId
      modifies eventstore, Footprint(loaded)
      ensures eventstore.Valid()
      ensures changed == None
      ensures !IsValid(member) ==>
        err == Some(PreconditionFailed) && unchanged(eventstore) && unchanged(Footprint(loaded))
      ensures IsValid(member) && loaded.Failure? ==> err == Some(loaded.error) && unchanged(eventstore)
      ensures IsValid(member) && loaded.Success? ==>
        var wm := loaded.value;
        var ev := MemberChangedEvent(member.aggregateId, |old(eventstore.log)| + 1, member.userId, member.roles);
        var folded := Fold(ApplyToMember, old(wm.state), old(wm.processedSequence), old(wm.pending) + [ev]);
        if old(eventstore.failure).Some? then
          err == Some(old(eventstore.failure).value) && unchanged(eventstore) && unchanged(wm)
        else
          && eventstore.log == old(eventstore.log) + [ev]
          && (folded.Failure? ==> err == Some(Internal) && wm.state == old(wm.state))
          && (folded.Success? ==> err == None && (wm.state, wm.processedSequence) == folded.value && wm.pending == [])
          && (folded.Success? && old(wm.pending) == [] ==>
                wm.state == MemberState(member.userId, member.roles))
    {
      changed := None;
      if !IsValid(member) {
        return None, Some(PreconditionFailed);
      }
      if loaded.Failure? {
        return None, Some(loaded.error);
      }
      var existingMember := loaded.value;
      var changedMember := existingMember.state.(roles := member.roles);
      var iamAgg := Aggregate(existingMember.aggregateId, IAM_AGGREGATE_TYPE, ctx.userId, existingMember.processedSequence,
        [PendingEvent(MEMBER_CHANGED, MemberPayload(changedMember.userId, changedMember.roles))], None);
      ghost var ev := MemberChangedEvent(existingMember.aggregateId, |eventstore.log| + 1, changedMember.userId, member.roles);
      assert Stamp([iamAgg], |eventstore.log|) == [ev] by {
        assert EventsOf(iamAgg, |eventstore.log|) == [ev];
      }
      var events := eventstore.PushAggregates([iamAgg]);
      if events.Failure? {
        return None, Some(events.error);
      }
      existingMember.AppendEvents(events.value);
      err := existingMember.Reduce(ApplyToMember);
    }

    /**
     * RemoveIAMMember: an IAM that cannot be loaded passes its error on;
     * removing a user who is not a member succeeds without pushing anything.
     * Otherwise one member-removed event is pushed and folded back into the
     * read model.
     */
    method RemoveIAMMember(ctx: Context, member: IAMMember, loaded: Result<IAMReadModel>) returns (err: Option<ErrorKind>)
      requires eventstore.Valid()
      requires loaded.Success? ==> loaded.value.aggregateId == member.aggregateId
      modifies eventstore, Footprint(loaded)
      ensures eventstore.Valid()
      ensures loaded.Failure? ==> err == Some(loaded.error) && unchanged(eventstore)
      ensures loaded.Success? && IndexOfUser(old(loaded.value.state), member.userId) == -1 ==>
        err == None && unchanged(eventstore) && unchanged(loaded.value)
      ensures loaded.Success? && IndexOfUser(old(loaded.value.state), member.userId) >= 0 ==>
        var iam := loaded.value;
        var removed := MemberRemovedEvent(member.aggregateId, |old(eventstore.log)| + 1, member.userId);
        var folded := Fold(ApplyMemberEvent, old(iam.state), old(iam.processedSequence), old(iam.pending) + [removed]);
        if old(eventstore.failure).Some? then
          err == Some(old(eventstore.failure).value) && unchanged(eventstore) && unchanged(iam)
        else
          && eventstore.log == old(eventstore.log) + [removed]
          && (folded.Failure? ==> err == Some(Internal) && iam.state == old(iam.state))
          && (folded.Success? ==> err == None && (iam.state, iam.processedSequence) == folded.value && iam.pending == [])
          && (folded.Success? && old(iam.pending) == [] && UniqueUsers(old(iam.state)) ==>
                RemovedFrom(iam.state, old(iam.state), member.userId))
    {
      if loaded.Failure? {
        return Some(loaded.error);
      }
      var iam := loaded.value;
      var i, _ := MemberByUserID(iam.state, member.userId);
      if i == -1 {
        return None;
      }
      var iamAgg := Aggregate(iam.aggregateId, IAM_AGGREGATE_TYPE, ctx.userId, iam.processedSequence,
        [PendingEvent(MEMBER_REMOVED, UserPayload(member.userId))], None);
      ghost var removed := MemberRemovedEvent(iam.aggregateId, |eventstore.log| + 1, member.userId);
      assert Stamp([iamAgg], |eventstore.log|) == [removed] by {
        assert EventsOf(iamAgg, |eventstore.log|) == [removed];
      }
      var events := eventstore.PushAggregates([iamAgg]);
      if events.Failure? {
        return Some(events.error);
      }
      RemoveDropsOnlyTheMember(iam.state, iam.aggregateId, |old(eventstore.log)| + 1, member.userId);
      err := iam.AppendAndReduce(events.value, ApplyMemberEvent);
    }
  }
}
