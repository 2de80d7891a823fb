/**
 The events page's `handleRegister`: pick the participant id from the
 session data, then link participant and event by two set-union
 updates issued one after the other, with no transaction around them.
 Whether each update succeeds is decided by the store and supplied as
 a fault pattern.
 */
module Registration {
  import opened Values
  import opened DocStore

  /** The id used when the page holds no session user data. */
  const DefaultUserId := "DEFAULT_USER_ID"
  const Users := "users"
  const Events := "events"

  /** The alert the participant sees. */
  datatype Outcome = NotLoggedIn | Registered | RegistrationFailed

  /** Which of the two updates the store rejects. */
  datatype WriteFaults = WriteFaults(userWriteFails: bool, eventWriteFails: bool)

  const NoFaults := WriteFaults(false, false)

  /** One `updateDoc(doc(db, collection, key), {field: arrayUnion(elem)})` call. */
  datatype Write = Write(collection: string, key: Value, field: string, elem: Value)

  /** The result of one registration attempt: the alert, the store afterwards, the updates issued. */
  datatype Attempt = Attempt(outcome: Outcome, store: Store, issued: seq<Write>)

  /** `userData ? userData.id : "DEFAULT_USER_ID"`. */
  function UserId(session: Value): (uid: Value)
    ensures !Truthy(session) ==> uid == Str(DefaultUserId)
    ensures session.Obj? ==> uid == Field(session.fields, "id")
    ensures !session.Obj? && Truthy(session) ==> uid == Undefined
  {
    if Truthy(session) then Member(session, "id") else Str(DefaultUserId)
  }

  /** Add the event to the participant's `registeredEvents`. */
  function UserWrite(uid: Value, eventId: Value): Write
  {
    Write(Users, uid, "registeredEvents", eventId)
  }

  /** Add the participant to the event's `registeredUsers`. */
  function EventWrite(uid: Value, eventId: Value): Write
  {
    Write(Events, eventId, "registeredUsers", uid)
  }

  /** The store after the update `w` succeeded. */
  function Apply(s: Store, w: Write): Store
  {
    UpdateDoc(s, w.collection, w.key, w.field, w.elem)
  }

  /** True iff the document `key` of `coll` has `e` in its array field `field`. */
  predicate Linked(s: Store, coll: string, key: Value, field: string, e: Value)
  {
    match Get(Col(s, coll), key)
    case Some(d) => Holds(Field(d, field), e)
    case None => false
  }

  /** True iff `s` and `s'` hold the same documents apart from `users/uid` and `events/eventId`. */
  ghost predicate OthersUnchanged(s: Store, s': Store, uid: Value, eventId: Value)
  {
    && (forall coll :: coll != Users && coll != Events ==> Col(s', coll) == Col(s, coll))
    && (forall k :: k != uid ==> Get(Col(s', Users), k) == Get(Col(s, Users), k))
    && (forall k :: k != eventId ==> Get(Col(s', Events), k) == Get(Col(s, Events), k))
  }

  /** `handleRegister(eventId)` against the store `s`. */
  function Register(s: Store, session: Value, eventId: Value, faults: WriteFaults): (a: Attempt)
    ensures a.outcome == NotLoggedIn <==> !Truthy(UserId(session))
    ensures a.outcome == NotLoggedIn ==> a.store == s && a.issued == []
    ensures a.outcome == Registered <==> Truthy(UserId(session)) && faults == NoFaults
    ensures a.outcome == Registered ==>
      && Linked(a.store, Users, UserId(session), "registeredEvents", eventId)
      && Linked(a.store, Events, eventId, "registeredUsers", UserId(session))
    ensures a.outcome == Registered ==>
      a.store == Apply(Apply(s, UserWrite(UserId(session), eventId)), EventWrite(UserId(session), eventId))
    ensures a.outcome != NotLoggedIn && !faults.userWriteFails ==>
      Field(Current(Col(a.store, Users), UserId(session)), "registeredEvents")
        == ArrayUnion(Field(Current(Col(s, Users), UserId(session)), "registeredEvents"), eventId)
    ensures a.outcome == Registered ==>
      Field(Current(Col(a.store, Events), eventId), "registeredUsers")
        == ArrayUnion(Field(Current(Col(s, Events), eventId), "registeredUsers"), UserId(session))
    ensures OthersUnchanged(s, a.store, UserId(session), eventId)
    ensures a.outcome != NotLoggedIn ==> |a.issued| >= 1 && a.issued[0] == UserWrite(UserId(session), eventId)
    ensures a.outcome != NotLoggedIn && faults.userWriteFails ==>
      a.outcome == RegistrationFailed && a.store == s && |a.issued| == 1
    ensures a.outcome != NotLoggedIn && !faults.userWriteFails ==>
      a.issued == [UserWrite(UserId(session), eventId), EventWrite(UserId(session), eventId)]
    ensures a.outcome != NotLoggedIn && !faults.userWriteFails && faults.eventWriteFails ==>
      a.outcome == RegistrationFailed && a.store == Apply(s, UserWrite(UserId(session), eventId))
  {
    var uid := UserId(session);
    if !Truthy(uid) then Attempt(NotLoggedIn, s, [])
    else
      var first := UserWrite(uid, eventId);
      if faults.userWriteFails then Attempt(RegistrationFailed, s, [first])
      else
        var s1 := Apply(s, first);
        var second := EventWrite(uid, eventId);
        if faults.eventWriteFails then Attempt(RegistrationFailed, s1, [first, second])
        else Attempt(Registered, Apply(s1, second), [first, second])
  }

  /**
   Re-registering is the recovery path: whatever the first attempt left
   behind (nothing, the participant side only, or both sides), a retry
   the store accepts ends in the store a single accepted registration
   would have produced. With `first == NoFaults` this is idempotence.
   */
  lemma RetryRecovers(s: Store, session: Value, eventId: Value, first: WriteFaults)
    ensures Register(Register(s, session, eventId, first).store, session, eventId, NoFaults).store
         == Register(s, session, eventId, NoFaults).store
  {
    var uid := UserId(session);
    if Truthy(uid) && !first.userWriteFails {
      var w1 := UserWrite(uid, eventId);
      var w2 := EventWrite(uid, eventId);
      var s1 := Apply(s, w1);
      var s2 := Apply(s1, w2);
      UpdateDocAbsorbed(s1, Col(s, Users), Users, uid, "registeredEvents", eventId);
      assert Apply(s1, w1) == s1;
      if !first.eventWriteFails {
        assert Col(s2, Users) == Col(s1, Users);
        UpdateDocAbsorbed(s2, Col(s, Users), Users, uid, "registeredEvents", eventId);
        assert Apply(s2, w1) == s2;
        UpdateDocAbsorbed(s2, Col(s1, Events), Events, eventId, "registeredUsers", uid);
        assert Apply(s2, w2) == s2;
      }
    }
  }

  /** True iff the array field `field` of `coll/key`, when it is an array, has no duplicates. */
  predicate DuplicateFree(s: Store, coll: string, key: Value, field: string)
  {
    match Get(Col(s, coll), key)
    case Some(d) => Field(d, field).Arr? ==> NoDuplicates(Field(d, field).elems)
    case None => true
  }

  /** Registration never puts the same id into either array twice. */
  lemma RegisterKeepsArraysDuplicateFree(s: Store, session: Value, eventId: Value, faults: WriteFaults)
    requires DuplicateFree(s, Users, UserId(session), "registeredEvents")
    requires DuplicateFree(s, Events, eventId, "registeredUsers")
    ensures var s' := Register(s, session, eventId, faults).store;
      && DuplicateFree(s', Users, UserId(session), "registeredEvents")
      && DuplicateFree(s', Events, eventId, "registeredUsers")
  {
    var uid := UserId(session);
    var a := Register(s, session, eventId, faults);
    if Truthy(uid) && !faults.userWriteFails {
      var s1 := Apply(s, UserWrite(uid, eventId));
      ArrayUnionNoDuplicates(Field(Current(Col(s, Users), uid), "registeredEvents"), eventId);
      assert DuplicateFree(s1, Users, uid, "registeredEvents");
      assert Col(s1, Events) == Col(s, Events);
      if !faults.eventWriteFails {
        var s2 := Apply(s1, EventWrite(uid, eventId));
        assert a.store == s2;
        ArrayUnionNoDuplicates(Field(Current(Col(s1, Events), eventId), "registeredUsers"), uid);
        assert Col(s2, Users) == Col(s1, Users);
      }
    }
  }

  /**
   A registration touches only the two link fields: every other field of
   the participant's and the event's documents keeps its stored value.
   */
  lemma RegisterChangesOnlyLinkFields(s: Store, session: Value, eventId: Value, faults: WriteFaults)
    ensures var s' := Register(s, session, eventId, faults).store; var uid := UserId(session);
      && (forall f :: f != "registeredEvents" ==>
            Field(Current(Col(s', Users), uid), f) == Field(Current(Col(s, Users), uid), f))
      && (forall f :: f != "registeredUsers" ==>
            Field(Current(Col(s', Events), eventId), f) == Field(Current(Col(s, Events), eventId), f))
  {
    var uid := UserId(session);
    var a := Register(s, session, eventId, faults);
    if Truthy(uid) && !faults.userWriteFails {
      var s1 := Apply(s, UserWrite(uid, eventId));
      assert Col(s1, Events) == Col(s, Events);
      if !faults.eventWriteFails {
        var s2 := Apply(s1, EventWrite(uid, eventId));
        assert a.store == s2;
        assert Col(s2, Users) == Col(s1, Users);
      }
    }
  }
}
