/**
 * `POST` and `DELETE /api/events/register` of
 * `app/api/events/register/route.ts`: the status decisions around
 * `registerUserForEvent` and `unregisterUserFromEvent`.
 *
 * `sessionEmail` is `session?.user?.email`; `body` is the parsed JSON body,
 * `None` when parsing throws; `parse` is `new ObjectId(text)`.
 */
module EventsRegisterRoute {
  import opened Common
  import opened Database

  datatype EventBody = EventBody(eventId: Option<string>)

  function PostSpec(db: Db, sessionEmail: Option<string>, body: Option<EventBody>, parse: string -> ParsedId): (Reply, Db)
  {
    if !Truthy(sessionEmail) then (Reply(401, Some("Unauthorized")), db)
    else if body.None? then (Reply(500, Some("Registration failed")), db)
    else if !Truthy(body.value.eventId) then (Reply(400, Some("Event ID is required")), db)
    else
      var r := RegisterSpec(db, sessionEmail.value, parse(body.value.eventId.value));
      if r.0.Success? then (Reply(200, None), r.1) else (Reply(500, Some("Registration failed")), db)
  }

  function DeleteSpec(db: Db, sessionEmail: Option<string>, body: Option<EventBody>, parse: string -> ParsedId): (Reply, Db)
  {
    if !Truthy(sessionEmail) then (Reply(401, Some("Unauthorized")), db)
    else if body.None? then (Reply(500, Some("Unregistration failed")), db)
    else if !Truthy(body.value.eventId) then (Reply(400, Some("Event ID is required")), db)
    else
      var r := UnregisterSpec(db, sessionEmail.value, parse(body.value.eventId.value));
      if r.0.Success? then (Reply(200, None), r.1) else (Reply(500, Some("Unregistration failed")), db)
  }

  /** Without a session email both handlers answer 401 and leave the store alone. */
  lemma UnauthorizedRejected(db: Db, sessionEmail: Option<string>, body: Option<EventBody>, parse: string -> ParsedId)
    requires !Truthy(sessionEmail)
    ensures PostSpec(db, sessionEmail, body, parse) == (Reply(401, Some("Unauthorized")), db)
    ensures DeleteSpec(db, sessionEmail, body, parse) == (Reply(401, Some("Unauthorized")), db)
  {
  }

  /** A missing or empty `eventId` gives 400 from both handlers. */
  lemma MissingEventIdRejected(db: Db, email: string, parse: string -> ParsedId)
    requires email != ""
    ensures PostSpec(db, Some(email), Some(EventBody(None)), parse).0 == Reply(400, Some("Event ID is required"))
    ensures DeleteSpec(db, Some(email), Some(EventBody(Some(""))), parse).0 == Reply(400, Some("Event ID is required"))
  {
  }

  /** A second registration for the same event is answered 500 "Registration failed" and changes nothing. */
  lemma DuplicateIs500(db: Db, email: string, text: string, parse: string -> ParsedId, i: nat)
    requires email != "" && text != "" && parse(text).Oid?
    requires i < |db.rows| && SameRegistration(db.rows[i], email, parse(text).id)
    ensures PostSpec(db, Some(email), Some(EventBody(Some(text))), parse) == (Reply(500, Some("Registration failed")), db)
  {
    RegisterDuplicateRejected(db, email, parse(text).id, i);
  }

  /** Unregistering something never registered is answered 500 "Unregistration failed" and changes nothing. */
  lemma MissingRegistrationIs500(db: Db, email: string, text: string, parse: string -> ParsedId)
    requires email != "" && text != "" && parse(text).Oid?
    requires forall i :: 0 <= i < |db.rows| ==> !SameRegistration(db.rows[i], email, parse(text).id)
    ensures DeleteSpec(db, Some(email), Some(EventBody(Some(text))), parse) == (Reply(500, Some("Unregistration failed")), db)
  {
    UnregisterMissingRejected(db, email, parse(text).id);
  }

  /**
   * The row is keyed by the session's email: a successful registration adds
   * one row whose `userEmail` is the session email, since the body carries no
   * identity of its own.
   */
  lemma RowKeyedBySession(db: Db, email: string, text: string, parse: string -> ParsedId)
    requires WellFormed(db)
    requires PostSpec(db, Some(email), Some(EventBody(Some(text))), parse).0.status == 200
    ensures var db' := PostSpec(db, Some(email), Some(EventBody(Some(text))), parse).1;
      |db'.rows| == |db.rows| + 1 && db'.rows[..|db.rows|] == db.rows
      && db'.rows[|db.rows|].userEmail == email && db'.rows[|db.rows|].eventId == parse(text).id
  {
    RegisterInsertsOneRow(db, email, parse(text).id);
    var db' := PostSpec(db, Some(email), Some(EventBody(Some(text))), parse).1;
    assert db'.rows[..|db.rows|] == db.rows;
  }

  /** The 200 answers of `POST` then `DELETE` for the same event leave the store as it was, up to the id counter. */
  lemma PostThenDeleteRestores(db: Db, email: string, text: string, parse: string -> ParsedId)
    requires WellFormed(db)
    requires PostSpec(db, Some(email), Some(EventBody(Some(text))), parse).0.status == 200
    ensures var db1 := PostSpec(db, Some(email), Some(EventBody(Some(text))), parse).1;
      DeleteSpec(db1, Some(email), Some(EventBody(Some(text))), parse) == (Reply(200, None), db.(nextId := db1.nextId))
  {
    RegisterUnregisterRoundTrip(db, email, parse(text).id);
  }

  method Post(store: Store, sessionEmail: Option<string>, body: Option<EventBody>, parse: string -> ParsedId)
    returns (reply: Reply)
    requires store.Valid()
    modifies store
    ensures store.Valid()
    ensures (reply, store.State()) == PostSpec(old(store.State()), sessionEmail, body, parse)
  {
    if !Truthy(sessionEmail) {
      return Reply(401, Some("Unauthorized"));
    }
    if body.None? {
      return Reply(500, Some("Registration failed"));
    }
    if !Truthy(body.value.eventId) {
      return Reply(400, Some("Event ID is required"));
    }
    var res := store.RegisterUserForEvent(sessionEmail.value, parse(body.value.eventId.value));
    reply := if res.Success? then Reply(200, None) else Reply(500, Some("Registration failed"));
  }

  method Delete(store: Store, sessionEmail: Option<string>, body: Option<EventBody>, parse: string -> ParsedId)
    returns (reply: Reply)
    requires store.Valid()
    modifies store
    ensures store.Valid()
    ensures (reply, store.State()) == DeleteSpec(old(store.State()), sessionEmail, body, parse)
  {
    if !Truthy(sessionEmail) {
      return Reply(401, Some("Unauthorized"));
    }
    if body.None? {
      return Reply(500, Some("Unregistration failed"));
    }
    if !Truthy(body.value.eventId) {
      return Reply(400, Some("Event ID is required"));
    }
    var res := store.UnregisterUserFromEvent(sessionEmail.value, parse(body.value.eventId.value));
    reply := if res.Success? then Reply(200, None) else Reply(500, Some("Unregistration failed"));
  }
}

/** `POST /api/merch/order` of `app/api/merch/order/route.ts`. */
module MerchOrderRoute {
  import opened Common
  import opened Database

  /** The JSON body; the client also sends a `quantity`, which the handler never reads. */
  datatype OrderBody = OrderBody(merchId: Option<string>, size: Option<string>, quantity: Option<int>)

  function PostSpec(db: Db, sessionEmail: Option<string>, body: Option<OrderBody>, parse: string -> ParsedId): (Reply, Db)
  {
    if !Truthy(sessionEmail) then (Reply(401, Some("Unauthorized")), db)
    else if body.None? then (Reply(500, Some("Order failed")), db)
    else if !Truthy(body.value.merchId) || !Truthy(body.value.size) then
      (Reply(400, Some("Merch ID and size are required")), db)
    else
      var r := CreateMerchOrderSpec(db, sessionEmail.value, parse(body.value.merchId.value), body.value.size.value);
      if r.0.Success? then (Reply(200, None), r.1) else (Reply(500, Some("Order failed")), db)
  }

  /** The status codes: 401 without a session, 400 without an id or a size, 500 for an unknown item, 200 otherwise. */
  lemma StatusCases(db: Db, sessionEmail: Option<string>, body: OrderBody, parse: string -> ParsedId)
    ensures var reply := PostSpec(db, sessionEmail, Some(body), parse).0;
      (!Truthy(sessionEmail) ==> reply.status == 401)
      && (Truthy(sessionEmail) && (!Truthy(body.merchId) || !Truthy(body.size)) ==> reply.status == 400)
      && (Truthy(sessionEmail) && Truthy(body.merchId) && Truthy(body.size) ==>
            (reply.status == 200 <==> parse(body.merchId.value).Oid? && parse(body.merchId.value).id in db.merch)
            && (reply.status != 200 ==> reply == Reply(500, Some("Order failed"))))
  {
  }

  /**
   * The quantity the client sends changes nothing: the reply and the new
   * state are the same for any two quantities, and a success adds one order.
   */
  lemma QuantityIgnored(db: Db, sessionEmail: Option<string>, merchId: Option<string>, size: Option<string>,
                        q1: Option<int>, q2: Option<int>, parse: string -> ParsedId)
    requires WellFormed(db)
    ensures PostSpec(db, sessionEmail, Some(OrderBody(merchId, size, q1)), parse)
         == PostSpec(db, sessionEmail, Some(OrderBody(merchId, size, q2)), parse)
    ensures var (reply, db') := PostSpec(db, sessionEmail, Some(OrderBody(merchId, size, q1)), parse);
      reply.status == 200 ==> |db'.orders| == |db.orders| + 1
  {
    if Truthy(sessionEmail) && Truthy(merchId) && Truthy(size) {
      MerchOrderProperties(db, sessionEmail.value, parse(merchId.value), size.value);
    }
  }

  method Post(store: Store, sessionEmail: Option<string>, body: Option<OrderBody>, parse: string -> ParsedId)
    returns (reply: Reply)
    requires store.Valid()
    modifies store
    ensures store.Valid()
    ensures (reply, store.State()) == PostSpec(old(store.State()), sessionEmail, body, parse)
  {
    if !Truthy(sessionEmail) {
      return Reply(401, Some("Unauthorized"));
    }
    if body.None? {
      return Reply(500, Some("Order failed"));
    }
    if !Truthy(body.value.merchId) || !Truthy(body.value.size) {
      return Reply(400, Some("Merch ID and size are required"));
    }
    var res := store.CreateMerchOrder(sessionEmail.value, parse(body.value.merchId.value), body.value.size.value);
    reply := if res.Success? then Reply(200, None) else Reply(500, Some("Order failed"));
  }
}

/** `POST /api/user/register` of `app/api/user/register/route.ts`: completing the team profile. */
module UserRegisterRoute {
  import opened Common
  import opened Database

  /** The JSON body; `sports` is an object, truthy whenever present. */
  datatype ProfileBody = ProfileBody(leaderName: Option<string>, phoneNumber: Option<string>,
                                     collegeName: Option<string>, sports: Option<SportsCounts>)

  predicate Complete(b: ProfileBody)
  {
    Truthy(b.leaderName) && Truthy(b.phoneNumber) && Truthy(b.collegeName) && b.sports.Some?
  }

  /** The update a complete body asks for. */
  function BodyUpdate(body: ProfileBody): ProfileUpdate
    requires Complete(body)
  {
    ProfileUpdate(body.leaderName.value, body.phoneNumber.value, body.collegeName.value, body.sports.value)
  }

  function PostSpec(db: Db, sessionEmail: Option<string>, body: Option<ProfileBody>): (r: (Reply, Db))
    ensures r.0.status == 200 ==> Truthy(sessionEmail) && body.Some? && Complete(body.value)
  {
    if !Truthy(sessionEmail) then (Reply(401, Some("Unauthorized")), db)
    else if body.None? then (Reply(500, Some("Internal server error")), db)
    else if !Complete(body.value) then (Reply(400, Some("All fields are required")), db)
    else
      match UserByEmail(db.users, sessionEmail.value)
      case None => (Reply(404, Some("User not found")), db)
      case Some(user) =>
        var b := body.value;
        var upd := BodyUpdate(b);
        var r := UpdateUserSpec(db, Oid(user.id), upd);
        (Reply(200, None), r.1)
  }

  /** The failure statuses, each leaving the store unchanged. */
  lemma FailureCases(db: Db, sessionEmail: Option<string>, body: ProfileBody)
    ensures !Truthy(sessionEmail) ==> PostSpec(db, sessionEmail, Some(body)) == (Reply(401, Some("Unauthorized")), db)
    ensures Truthy(sessionEmail) && !Complete(body) ==>
      PostSpec(db, sessionEmail, Some(body)) == (Reply(400, Some("All fields are required")), db)
    ensures Truthy(sessionEmail) && Complete(body) && UserByEmail(db.users, sessionEmail.value).None? ==>
      PostSpec(db, sessionEmail, Some(body)) == (Reply(404, Some("User not found")), db)
  {
  }

  /**
   * On success exactly the name (from `leaderName`), phone number, college
   * name and sports of the session's user (the first user with that email,
   * the one `getUserByEmail` finds) are written; every other user and
   * every other field stays as it was.
   */
  lemma SuccessWritesProfile(db: Db, email: string, body: ProfileBody)
    requires WellFormed(db) && email != "" && Complete(body)
    requires UserByEmail(db.users, email).Some?
    ensures var (reply, db') := PostSpec(db, Some(email), Some(body));
      reply == Reply(200, None)
      && exists i :: (0 <= i < |db.users| && db.users[i].email == email
        && (forall j :: 0 <= j < i ==> db.users[j].email != email)
        && db'.users[i] == db.users[i].(name := body.leaderName.value, phoneNumber := body.phoneNumber,
                                        collegeName := body.collegeName, sports := body.sports)
        && |db'.users| == |db.users|
        && forall j :: 0 <= j < |db.users| && j != i ==> db'.users[j] == db.users[j])
  {
    var user := UserByEmail(db.users, email).value;
    var i :| 0 <= i < |db.users| && db.users[i] == user
             && forall j :: 0 <= j < i ==> db.users[j].email != email;
    var upd := BodyUpdate(body);
    SuccessUpdatesFoundUser(db, email, body);
    assert UniqueUserIds(db.users);
    UpdateFirstUserProperties(db.users, i, upd);
  }

  /** A complete body from a known user answers 200 and applies the update to the user `getUserByEmail` found. */
  lemma {:induction false} SuccessUpdatesFoundUser(db: Db, email: string, body: ProfileBody)
    requires email != "" && Complete(body)
    requires UserByEmail(db.users, email).Some?
    ensures PostSpec(db, Some(email), Some(body))
      == (Reply(200, None), db.(users := UpdateFirstUser(db.users, UserByEmail(db.users, email).value.id, BodyUpdate(body)).1))
  {
  }

  method Post(store: Store, sessionEmail: Option<string>, body: Option<ProfileBody>) returns (reply: Reply)
    requires store.Valid()
    modifies store
    ensures store.Valid()
    ensures (reply, store.State()) == PostSpec(old(store.State()), sessionEmail, body)
  {
    if !Truthy(sessionEmail) {
      return Reply(401, Some("Unauthorized"));
    }
    if body.None? {
      return Reply(500, Some("Internal server error"));
    }
    var b := body.value;
    if !Complete(b) {
      return Reply(400, Some("All fields are required"));
    }
    var user := UserByEmail(store.users, sessionEmail.value);
    if user.None? {
      return Reply(404, Some("User not found"));
    }
    var upd := BodyUpdate(b);
    var _ := store.UpdateUser(Oid(user.value.id), upd);
    reply := Reply(200, None);
  }
}
