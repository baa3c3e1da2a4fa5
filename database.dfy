/**
 * The registration and order store of `lib/database-operations.ts`.
 *
 * The MongoDB collections `events`, `users`, `merch`, `event_registrations`
 * and `merch_orders` are the fields of `Store`; a collection whose documents
 * are looked up by `_id` only is a map from id to document, one that is
 * scanned with `find`/`findOne` is a sequence in insertion (natural) order.
 * An ObjectId is a natural number; `new ObjectId(text)` is the `ParsedId`
 * the caller obtained from the text, `Unparsable` when the constructor
 * throws. The driver's fresh ids come from a counter kept above every id the
 * store holds or refers to. `createdAt`, `updatedAt`, `registeredAt` and
 * `orderDate` timestamps are not modelled.
 *
 * Each state-changing operation is a method of `Store` whose new state is
 * stated through a function on the snapshot `Db`; the properties of the
 * operations are lemmas about those functions.
 */
module Database {
  import opened Common

  /** The outcome of `new ObjectId(text)`. */
  datatype ParsedId = Unparsable | Oid(id: nat)

  /** A resolved promise with its value, or a thrown error with its message. */
  datatype Result<T> = Success(value: T) | Failure(error: string)

  const InvalidObjectId: string := "input must be a 24 character hex string"
  const AlreadyRegistered: string := "User already registered for this event"
  const RegistrationNotFound: string := "Registration not found"
  const MerchNotFound: string := "Merchandise not found"

  // ---------------------------------------------------------------------------
  // Documents
  // ---------------------------------------------------------------------------

  /** The descriptive fields of an event, as `createEvent` receives them. */
  datatype EventInfo = EventInfo(title: string, description: string, image: string, prizePool: string,
                                 venue: string, time: string, date: string)

  /** An `events` document: its fields and the ids of its registration rows. */
  datatype Event = Event(info: EventInfo, registrations: seq<nat>)

  /** The `$set` of `updateEvent`: each descriptive field, when present, is overwritten. */
  datatype EventUpdate = EventUpdate(title: Option<string>, description: Option<string>, image: Option<string>,
                                     prizePool: Option<string>, venue: Option<string>, time: Option<string>,
                                     date: Option<string>)

  /** The participant count per sport, in the object's key order. */
  type SportsCounts = seq<(string, int)>

  datatype User = User(id: nat, googleId: string, email: string, name: string, image: Option<string>,
                       phoneNumber: Option<string>, collegeName: Option<string>, collegeType: Option<string>,
                       sports: Option<SportsCounts>, registeredEvents: seq<nat>)

  /** What `createUser` receives. */
  datatype NewUser = NewUser(googleId: string, email: string, name: string, image: Option<string>)

  /** The `$set` of `updateUser` as its one caller builds it. */
  datatype ProfileUpdate = ProfileUpdate(name: string, phoneNumber: string, collegeName: string, sports: SportsCounts)

  /** A `merch` document; the price is a whole number of rupees. */
  datatype Merch = Merch(title: string, description: string, images: seq<string>, sizes: seq<string>, price: int)

  /** A `merch_orders` document. */
  datatype Order = Order(id: nat, userEmail: string, merchId: nat, title: string, size: string, price: int, status: string)

  /** An `event_registrations` document as `registerUserForEvent` writes it. */
  datatype RegistrationRow = RegistrationRow(id: nat, userEmail: string, eventId: nat)

  /** A snapshot of the whole store. */
  datatype Db = Db(events: map<nat, Event>, users: seq<User>, merch: map<nat, Merch>,
                   rows: seq<RegistrationRow>, orders: seq<Order>, nextId: nat)

  // ---------------------------------------------------------------------------
  // Invariants
  // ---------------------------------------------------------------------------

  /** Every id the store holds or refers to is below the fresh-id counter. */
  ghost predicate IdsBelow(db: Db)
  {
    && (forall k :: k in db.events ==> k < db.nextId)
    && (forall k, j :: k in db.events && 0 <= j < |db.events[k].registrations| ==> db.events[k].registrations[j] < db.nextId)
    && (forall i :: 0 <= i < |db.users| ==> db.users[i].id < db.nextId)
    && (forall k :: k in db.merch ==> k < db.nextId)
    && (forall i :: 0 <= i < |db.rows| ==> db.rows[i].id < db.nextId && db.rows[i].eventId < db.nextId)
    && (forall i :: 0 <= i < |db.orders| ==> db.orders[i].id < db.nextId)
  }

  ghost predicate UniqueRowIds(rows: seq<RegistrationRow>)
  {
    forall i, j :: 0 <= i < j < |rows| ==> rows[i].id != rows[j].id
  }

  predicate SameRegistration(row: RegistrationRow, userEmail: string, eventId: nat)
  {
    row.userEmail == userEmail && row.eventId == eventId
  }

  /** No user is registered twice for the same event. */
  ghost predicate NoDuplicateRegistrations(rows: seq<RegistrationRow>)
  {
    forall i, j :: 0 <= i < j < |rows| ==> !SameRegistration(rows[j], rows[i].userEmail, rows[i].eventId)
  }

  ghost predicate UniqueUserIds(users: seq<User>)
  {
    forall i, j :: 0 <= i < j < |users| ==> users[i].id != users[j].id
  }

  ghost predicate WellFormed(db: Db)
  {
    IdsBelow(db) && UniqueRowIds(db.rows) && NoDuplicateRegistrations(db.rows) && UniqueUserIds(db.users)
  }

  /** The ids of the registration rows of event `e`, in insertion order. */
  function RowIdsFor(rows: seq<RegistrationRow>, e: nat): seq<nat>
  {
    if rows == [] then [] else (if rows[0].eventId == e then [rows[0].id] else []) + RowIdsFor(rows[1..], e)
  }

  /** Each event's `registrations` list is exactly the ids of its rows, in the order they were inserted. */
  ghost predicate InStep(db: Db)
  {
    forall k :: k in db.events ==> db.events[k].registrations == RowIdsFor(db.rows, k)
  }

  lemma {:induction false} RowIdsForAppend(a: seq<RegistrationRow>, b: seq<RegistrationRow>, e: nat)
    ensures RowIdsFor(a + b, e) == RowIdsFor(a, e) + RowIdsFor(b, e)
  {
    if a == [] {
      assert a + b == b;
    } else {
      var head := if a[0].eventId == e then [a[0].id] else [];
      assert (a + b)[0] == a[0];
      assert (a + b)[1..] == a[1..] + b;
      RowIdsForAppend(a[1..], b, e);
      assert RowIdsFor(a + b, e) == head + RowIdsFor(a[1..] + b, e);
      assert RowIdsFor(a, e) == head + RowIdsFor(a[1..], e);
    }
  }

  /** Every id listed for `e` is the id of a row of `e`. */
  lemma {:induction false} RowIdsForSource(rows: seq<RegistrationRow>, e: nat, x: nat)
    requires x in RowIdsFor(rows, e)
    ensures exists i :: 0 <= i < |rows| && rows[i].id == x && rows[i].eventId == e
  {
    if rows[0].eventId == e && rows[0].id == x {
      assert rows[0].id == x && rows[0].eventId == e;
    } else {
      RowIdsForSource(rows[1..], e, x);
      var i :| 0 <= i < |rows[1..]| && rows[1..][i].id == x && rows[1..][i].eventId == e;
      assert rows[i + 1].id == x && rows[i + 1].eventId == e;
    }
  }

  /** No row refers to an id at or above the counter. */
  lemma {:induction false} RowIdsForUnused(rows: seq<RegistrationRow>, e: nat)
    requires forall i :: 0 <= i < |rows| ==> rows[i].eventId < e
    ensures RowIdsFor(rows, e) == []
  {
    if rows != [] {
      RowIdsForUnused(rows[1..], e);
    }
  }

  // ---------------------------------------------------------------------------
  // Queries
  // ---------------------------------------------------------------------------

  /**
   * `findOne({ userEmail, eventId })` on `event_registrations`: the index of
   * the first matching row, or -1.
   */
  function FindRow(rows: seq<RegistrationRow>, userEmail: string, eventId: nat): (k: int)
    ensures -1 <= k < |rows|
    ensures k >= 0 ==> SameRegistration(rows[k], userEmail, eventId)
    ensures k >= 0 ==> forall j :: 0 <= j < k ==> !SameRegistration(rows[j], userEmail, eventId)
    ensures k < 0 ==> forall j :: 0 <= j < |rows| ==> !SameRegistration(rows[j], userEmail, eventId)
  {
    if rows == [] then -1
    else if SameRegistration(rows[0], userEmail, eventId) then 0
    else
      var k := FindRow(rows[1..], userEmail, eventId);
      if k < 0 then -1 else k + 1
  }

  /** `getUserByEmail`: the first user with that email. */
  function UserByEmail(users: seq<User>, email: string): (r: Option<User>)
    ensures r.None? <==> forall i :: 0 <= i < |users| ==> users[i].email != email
    ensures r.Some? ==> r.value in users && r.value.email == email
    ensures r.Some? && users[0].email == email ==> r.value == users[0]
    ensures r.Some? ==> exists i :: 0 <= i < |users| && users[i] == r.value
                                    && forall j :: 0 <= j < i ==> users[j].email != email
  {
    if users == [] then None
    else if users[0].email == email then Some(users[0])
    else
      var r := UserByEmail(users[1..], email);
      assert forall j :: 1 <= j < |users| ==> users[j] == users[1..][j - 1];
      if r.Some? then
        var i :| 0 <= i < |users[1..]| && users[1..][i] == r.value
                 && forall j :: 0 <= j < i ==> users[1..][j].email != email;
        assert users[i + 1] == r.value;
        r
      else r
  }

  /**
   * `getUserEventRegistrations`: the event ids of the user's rows, in row
   * order. The ids are the client's strings; their hexadecimal rendering is
   * not modelled, and it is injective.
   */
  function UserEventRegistrations(rows: seq<RegistrationRow>, userEmail: string): (r: seq<nat>)
    ensures |r| <= |rows|
    ensures forall j :: 0 <= j < |r| ==> exists i :: 0 <= i < |rows| && SameRegistration(rows[i], userEmail, r[j])
    ensures forall i :: 0 <= i < |rows| && rows[i].userEmail == userEmail ==> rows[i].eventId in r
  {
    if rows == [] then []
    else
      var rest := UserEventRegistrations(rows[1..], userEmail);
      assert forall j :: 0 <= j < |rest| ==> exists i :: 0 <= i < |rows| && SameRegistration(rows[i], userEmail, rest[j]) by {
        forall j | 0 <= j < |rest| ensures exists i :: 0 <= i < |rows| && SameRegistration(rows[i], userEmail, rest[j]) {
          var i :| 0 <= i < |rows[1..]| && SameRegistration(rows[1..][i], userEmail, rest[j]);
          assert SameRegistration(rows[i + 1], userEmail, rest[j]);
        }
      }
      if rows[0].userEmail == userEmail then [rows[0].eventId] + rest else rest
  }

  lemma {:induction false} UserEventRegistrationsAppend(a: seq<RegistrationRow>, b: seq<RegistrationRow>, userEmail: string)
    ensures UserEventRegistrations(a + b, userEmail) == UserEventRegistrations(a, userEmail) + UserEventRegistrations(b, userEmail)
  {
    if a == [] {
      assert a + b == b;
    } else {
      assert (a + b)[1..] == a[1..] + b;
      UserEventRegistrationsAppend(a[1..], b, userEmail);
    }
  }

  /** A registration row joined with its user and its event, as the aggregation of `getAllEventRegistrations` yields it. */
  datatype JoinedRegistration = JoinedRegistration(row: RegistrationRow, user: User, event: Event)

  /** The users whose email is `email`, in collection order (the `$lookup` into `users`). */
  function UsersWithEmail(users: seq<User>, email: string): (r: seq<User>)
    ensures forall j :: 0 <= j < |r| ==> r[j] in users && r[j].email == email
    ensures forall i :: 0 <= i < |users| && users[i].email == email ==> users[i] in r
  {
    Filter((u: User) => u.email == email, users)
  }

  /** The two `$unwind` stages for one row: one output per matching user, and none when the event is missing. */
  function JoinRow(row: RegistrationRow, users: seq<User>, events: map<nat, Event>): seq<JoinedRegistration>
  {
    if row.eventId in events then
      var matching := UsersWithEmail(users, row.userEmail);
      seq(|matching|, j requires 0 <= j < |matching| => JoinedRegistration(row, matching[j], events[row.eventId]))
    else []
  }

  /** `getAllEventRegistrations`: the inner join of the rows with `users` (by email) and `events` (by id). */
  function AllEventRegistrations(rows: seq<RegistrationRow>, users: seq<User>, events: map<nat, Event>): seq<JoinedRegistration>
  {
    if rows == [] then [] else JoinRow(rows[0], users, events) + AllEventRegistrations(rows[1..], users, events)
  }

  /** The join distributes over concatenation of the rows: each row's outputs stay together, in row order. */
  lemma {:induction false} AllEventRegistrationsAppend(a: seq<RegistrationRow>, b: seq<RegistrationRow>,
                                                      users: seq<User>, events: map<nat, Event>)
    ensures AllEventRegistrations(a + b, users, events)
      == AllEventRegistrations(a, users, events) + AllEventRegistrations(b, users, events)
  {
    if a == [] {
      assert a + b == b;
    } else {
      assert (a + b)[1..] == a[1..] + b;
      AllEventRegistrationsAppend(a[1..], b, users, events);
    }
  }

  /** When exactly one user has the email, the `$lookup` yields that user alone. */
  lemma {:induction false} UsersWithEmailSingle(users: seq<User>, email: string, u: nat)
    requires u < |users| && users[u].email == email
    requires forall j :: 0 <= j < |users| && j != u ==> users[j].email != email
    ensures UsersWithEmail(users, email) == [users[u]]
  {
    FilterKeepsOne((u: User) => u.email == email, users, u);
  }

  /**
   * With unique emails and every row's user and event present, the join has
   * one output per row, in row order.
   */
  lemma {:induction false} OneJoinPerRow(rows: seq<RegistrationRow>, users: seq<User>, events: map<nat, Event>)
    requires forall i, j :: 0 <= i < j < |users| ==> users[i].email != users[j].email
    requires forall i :: 0 <= i < |rows| ==> rows[i].eventId in events && exists u :: 0 <= u < |users| && users[u].email == rows[i].userEmail
    ensures |AllEventRegistrations(rows, users, events)| == |rows|
    ensures forall i :: 0 <= i < |rows| ==> AllEventRegistrations(rows, users, events)[i].row == rows[i]
  {
    if rows != [] {
      OneJoinPerRow(rows[1..], users, events);
      var u :| 0 <= u < |users| && users[u].email == rows[0].userEmail;
      UsersWithEmailSingle(users, rows[0].userEmail, u);
      var r := AllEventRegistrations(rows, users, events);
      var tail := AllEventRegistrations(rows[1..], users, events);
      assert |JoinRow(rows[0], users, events)| == 1;
      assert r == JoinRow(rows[0], users, events) + tail;
      forall i | 0 <= i < |rows| ensures r[i].row == rows[i] {
        if i > 0 {
          assert r[i] == tail[i - 1];
        }
      }
    }
  }

  /** The joined record pairs a row with a user of that email and the row's existing event. */
  ghost predicate Consistent(x: JoinedRegistration, users: seq<User>, events: map<nat, Event>)
  {
    x.user in users && x.user.email == x.row.userEmail && x.row.eventId in events && x.event == events[x.row.eventId]
  }

  lemma JoinRowSound(row: RegistrationRow, users: seq<User>, events: map<nat, Event>)
    ensures forall j :: 0 <= j < |JoinRow(row, users, events)| ==>
      JoinRow(row, users, events)[j].row == row && Consistent(JoinRow(row, users, events)[j], users, events)
  {
  }

  /** Soundness of the join: every output pairs one of the rows with a user of that email and the row's existing event. */
  lemma {:induction false} JoinSound(rows: seq<RegistrationRow>, users: seq<User>, events: map<nat, Event>)
    ensures forall j :: 0 <= j < |AllEventRegistrations(rows, users, events)| ==>
      AllEventRegistrations(rows, users, events)[j].row in rows
      && Consistent(AllEventRegistrations(rows, users, events)[j], users, events)
  {
    if rows != [] {
      JoinSound(rows[1..], users, events);
      JoinRowSound(rows[0], users, events);
      var head := JoinRow(rows[0], users, events);
      var tail := AllEventRegistrations(rows[1..], users, events);
      var r := AllEventRegistrations(rows, users, events);
      assert r == head + tail;
      forall j | 0 <= j < |r|
        ensures r[j].row in rows && Consistent(r[j], users, events)
      {
        if j < |head| {
          assert r[j] == head[j];
        } else {
          var t := j - |head|;
          assert r[j] == tail[t];
          var i :| 0 <= i < |rows[1..]| && rows[1..][i] == tail[t].row;
          assert rows[i + 1] == tail[t].row;
        }
      }
    }
  }

  /**
   * Completeness of the join: a row whose user and event both exist appears in
   * the output, and a row whose event is missing contributes nothing.
   */
  lemma {:induction false} JoinComplete(rows: seq<RegistrationRow>, users: seq<User>, events: map<nat, Event>, i: nat, u: nat)
    requires i < |rows| && u < |users|
    requires users[u].email == rows[i].userEmail && rows[i].eventId in events
    ensures exists j :: (0 <= j < |AllEventRegistrations(rows, users, events)|
      && AllEventRegistrations(rows, users, events)[j] == JoinedRegistration(rows[i], users[u], events[rows[i].eventId]))
  {
    var r := AllEventRegistrations(rows, users, events);
    if i == 0 {
      var matching := UsersWithEmail(users, rows[0].userEmail);
      assert users[u] in matching;
      var m :| 0 <= m < |matching| && matching[m] == users[u];
      assert r[m] == JoinRow(rows[0], users, events)[m];
    } else {
      assert rows[1..][i - 1] == rows[i];
      JoinComplete(rows[1..], users, events, i - 1, u);
      var tail := AllEventRegistrations(rows[1..], users, events);
      var j :| 0 <= j < |tail| && tail[j] == JoinedRegistration(rows[i], users[u], events[rows[i].eventId]);
      var head := JoinRow(rows[0], users, events);
      assert r == head + tail;
      assert r[|head| + j] == tail[j];
    }
  }

  /** A row whose event does not exist is dropped by the join. */
  lemma DanglingRowDropped(row: RegistrationRow, users: seq<User>, events: map<nat, Event>)
    requires row.eventId !in events
    ensures AllEventRegistrations([row], users, events) == []
  {
  }

  // ---------------------------------------------------------------------------
  // Operations, as functions of the snapshot
  // ---------------------------------------------------------------------------

  /** `createEvent`: the inserted id and the new state. */
  function CreateEventSpec(db: Db, info: EventInfo): (nat, Db)
  {
    (db.nextId, db.(events := db.events[db.nextId := Event(info, [])], nextId := db.nextId + 1))
  }

  /** `updateEvent`: the `matchedCount` of the update (as a boolean) and the new state. */
  /** The `$set` of an update on an event's own fields: a given field replaces the stored one. */
  function MergeInfo(info: EventInfo, upd: EventUpdate): EventInfo
  {
    EventInfo(
      if upd.title.Some? then upd.title.value else info.title,
      if upd.description.Some? then upd.description.value else info.description,
      if upd.image.Some? then upd.image.value else info.image,
      if upd.prizePool.Some? then upd.prizePool.value else info.prizePool,
      if upd.venue.Some? then upd.venue.value else info.venue,
      if upd.time.Some? then upd.time.value else info.time,
      if upd.date.Some? then upd.date.value else info.date)
  }

  function UpdateEventSpec(db: Db, id: ParsedId, upd: EventUpdate): (Result<bool>, Db)
  {
    match id
    case Unparsable => (Failure(InvalidObjectId), db)
    case Oid(k) =>
      if k in db.events then
        var ev := db.events[k];
        var info := MergeInfo(ev.info, upd);
        (Success(true), db.(events := db.events[k := ev.(info := info)]))
      else (Success(false), db)
  }

  /** `createUser`: the inserted id and the new state. */
  function CreateUserSpec(db: Db, nu: NewUser): (nat, Db)
  {
    var user := User(db.nextId, nu.googleId, nu.email, nu.name, nu.image, None, None, None, None, []);
    (db.nextId, db.(users := db.users + [user], nextId := db.nextId + 1))
  }

  /** `updateOne({ _id }, { $set })` on `users`: the first user with that id gets the profile fields. */
  function UpdateFirstUser(users: seq<User>, id: nat, upd: ProfileUpdate): (r: (bool, seq<User>))
    ensures |r.1| == |users|
    ensures (forall i :: 0 <= i < |users| ==> users[i].id != id) ==> r == (false, users)
  {
    if users == [] then (false, [])
    else if users[0].id == id then
      (true, [users[0].(name := upd.name, phoneNumber := Some(upd.phoneNumber),
                        collegeName := Some(upd.collegeName), sports := Some(upd.sports))] + users[1..])
    else
      var rest := UpdateFirstUser(users[1..], id, upd);
      assert rest.1 == users[1..] ==> [users[0]] + rest.1 == users;
      (rest.0, [users[0]] + rest.1)
  }

  /** `updateUser`: whether a user matched, and the new state. */
  function UpdateUserSpec(db: Db, id: ParsedId, upd: ProfileUpdate): (Result<bool>, Db)
  {
    match id
    case Unparsable => (Failure(InvalidObjectId), db)
    case Oid(k) =>
      var r := UpdateFirstUser(db.users, k, upd);
      (Success(r.0), db.(users := r.1))
  }

  /** `registerUserForEvent`: the id of the new row, and the new state. */
  function RegisterSpec(db: Db, userEmail: string, eventId: ParsedId): (Result<nat>, Db)
  {
    match eventId
    case Unparsable => (Failure(InvalidObjectId), db)
    case Oid(e) =>
      if FindRow(db.rows, userEmail, e) >= 0 then (Failure(AlreadyRegistered), db)
      else
        var id := db.nextId;
        var events := if e in db.events
          then db.events[e := db.events[e].(registrations := db.events[e].registrations + [id])]
          else db.events;
        (Success(id), db.(rows := db.rows + [RegistrationRow(id, userEmail, e)], events := events,
                          nextId := Max(id, e) + 1))
  }

  /** `unregisterUserFromEvent`: delete the first matching row and pull its id from the event. */
  function UnregisterSpec(db: Db, userEmail: string, eventId: ParsedId): (Result<bool>, Db)
  {
    match eventId
    case Unparsable => (Failure(InvalidObjectId), db)
    case Oid(e) =>
      var k := FindRow(db.rows, userEmail, e);
      if k < 0 then (Failure(RegistrationNotFound), db)
      else
        var rid := db.rows[k].id;
        var events := if e in db.events
          then db.events[e := db.events[e].(registrations := RemoveAll(db.events[e].registrations, rid))]
          else db.events;
        (Success(true), db.(rows := db.rows[..k] + db.rows[k + 1..], events := events))
  }

  /** `createMerchOrder`: the id of the new order, and the new state. */
  function CreateMerchOrderSpec(db: Db, userEmail: string, merchId: ParsedId, size: string): (Result<nat>, Db)
  {
    match merchId
    case Unparsable => (Failure(InvalidObjectId), db)
    case Oid(m) =>
      if m !in db.merch then (Failure(MerchNotFound), db)
      else
        var order := Order(db.nextId, userEmail, m, db.merch[m].title, size, db.merch[m].price, "pending");
        (Success(db.nextId), db.(orders := db.orders + [order], nextId := db.nextId + 1))
  }

  // ---------------------------------------------------------------------------
  // Properties of the operations
  // ---------------------------------------------------------------------------

  /** A new event gets a fresh id and an empty `registrations` list; the invariants are kept. */
  lemma CreateEventProperties(db: Db, info: EventInfo)
    requires WellFormed(db) && InStep(db)
    ensures var (id, db') := CreateEventSpec(db, info);
      id !in db.events && db'.events[id] == Event(info, [])
      && (forall k :: k in db.events ==> k in db'.events && db'.events[k] == db.events[k])
      && db'.rows == db.rows && db'.users == db.users && db'.orders == db.orders
      && WellFormed(db') && InStep(db')
  {
    RowIdsForUnused(db.rows, db.nextId);
  }

  /** A new user has an empty `registeredEvents` list and no profile yet; the invariants are kept. */
  lemma CreateUserProperties(db: Db, nu: NewUser)
    requires WellFormed(db) && InStep(db)
    ensures var (id, db') := CreateUserSpec(db, nu);
      (forall i :: 0 <= i < |db.users| ==> db.users[i].id != id)
      && |db'.users| == |db.users| + 1 && db'.users[..|db.users|] == db.users
      && db'.users[|db.users|].registeredEvents == []
      && db'.users[|db.users|].email == nu.email
      && db'.users[|db.users|].phoneNumber.None? && db'.users[|db.users|].collegeName.None?
      && WellFormed(db') && InStep(db')
  {
    var (id, db') := CreateUserSpec(db, nu);
    assert db'.users[..|db.users|] == db.users;
  }

  /** An event update touches only the descriptive fields of that one event. */
  lemma UpdateEventProperties(db: Db, id: ParsedId, upd: EventUpdate)
    requires WellFormed(db) && InStep(db)
    ensures var (res, db') := UpdateEventSpec(db, id, upd);
      (id.Unparsable? ==> res.Failure? && db' == db)
      && (id.Oid? ==> res == Success(id.id in db.events))
      && db'.events.Keys == db.events.Keys
      && (forall k :: k in db.events ==> db'.events[k].registrations == db.events[k].registrations)
      && (id.Oid? && id.id in db.events ==> db'.events[id.id].info == MergeInfo(db.events[id.id].info, upd))
      && (forall k :: k in db.events && (id.Unparsable? || k != id.id) ==> db'.events[k] == db.events[k])
      && db'.rows == db.rows && WellFormed(db') && InStep(db')
  {
  }

  /** A duplicate registration raises an error and changes nothing. */
  lemma RegisterDuplicateRejected(db: Db, userEmail: string, e: nat, i: nat)
    requires i < |db.rows| && SameRegistration(db.rows[i], userEmail, e)
    ensures RegisterSpec(db, userEmail, Oid(e)) == (Failure(AlreadyRegistered), db)
  {
  }

  /**
   * A successful registration inserts exactly one row, appends its id to that
   * event's list (when the event exists) and touches no other event.
   */
  lemma RegisterInsertsOneRow(db: Db, userEmail: string, e: nat)
    requires WellFormed(db)
    requires RegisterSpec(db, userEmail, Oid(e)).0.Success?
    ensures var (res, db') := RegisterSpec(db, userEmail, Oid(e));
      (forall i :: 0 <= i < |db.rows| ==> !SameRegistration(db.rows[i], userEmail, e))
      && db'.rows == db.rows + [RegistrationRow(res.value, userEmail, e)]
      && (forall i :: 0 <= i < |db.rows| ==> db.rows[i].id != res.value)
      && db'.events.Keys == db.events.Keys
      && (e in db.events ==> db'.events[e].registrations == db.events[e].registrations + [res.value]
                             && db'.events[e].info == db.events[e].info)
      && (forall k :: k in db.events && k != e ==> db'.events[k] == db.events[k])
      && db'.users == db.users && db'.orders == db.orders && db'.merch == db.merch
  {
  }

  /** Registration keeps the store well formed and the events' lists in step with the rows. */
  lemma RegisterKeepsInvariants(db: Db, userEmail: string, eventId: ParsedId)
    requires WellFormed(db) && InStep(db)
    ensures WellFormed(RegisterSpec(db, userEmail, eventId).1) && InStep(RegisterSpec(db, userEmail, eventId).1)
  {
    var (res, db') := RegisterSpec(db, userEmail, eventId);
    if res.Success? {
      var e := eventId.id;
      var row := RegistrationRow(res.value, userEmail, e);
      forall k | k in db'.events ensures db'.events[k].registrations == RowIdsFor(db'.rows, k) {
        RowIdsForAppend(db.rows, [row], k);
        assert RowIdsFor([row], k) == (if e == k then [res.value] else []) + RowIdsFor([], k);
      }
      assert NoDuplicateRegistrations(db'.rows) by {
        forall i, j | 0 <= i < j < |db'.rows| ensures !SameRegistration(db'.rows[j], db'.rows[i].userEmail, db'.rows[i].eventId) {
          if j == |db.rows| {
            assert db'.rows[i] == db.rows[i];
          }
        }
      }
    }
  }

  /** Unregistering without a matching row raises "Registration not found" and changes nothing. */
  lemma UnregisterMissingRejected(db: Db, userEmail: string, e: nat)
    requires forall i :: 0 <= i < |db.rows| ==> !SameRegistration(db.rows[i], userEmail, e)
    ensures UnregisterSpec(db, userEmail, Oid(e)) == (Failure(RegistrationNotFound), db)
  {
  }

  /** The ids listed for `e` around one row. */
  /**
   * A successful unregistration deletes exactly the first matching row, pulls
   * that row's id (and nothing else) from the event's list, and touches no
   * other event, user, item or order. In a well-formed store no row of the
   * pair and no row with the deleted id is left.
   */
  lemma {:induction false} UnregisterDeletesOneRow(db: Db, userEmail: string, e: nat)
    requires UnregisterSpec(db, userEmail, Oid(e)).0.Success?
    ensures var db' := UnregisterSpec(db, userEmail, Oid(e)).1;
      var k := FindRow(db.rows, userEmail, e);
      0 <= k < |db.rows| && SameRegistration(db.rows[k], userEmail, e)
      && (forall j :: 0 <= j < k ==> !SameRegistration(db.rows[j], userEmail, e))
      && db'.rows == db.rows[..k] + db.rows[k + 1..]
      && db'.events.Keys == db.events.Keys
      && (e in db.events ==>
            db'.events[e].info == db.events[e].info
            && db.rows[k].id !in db'.events[e].registrations
            && forall x :: x != db.rows[k].id ==>
                 multiset(db'.events[e].registrations)[x] == multiset(db.events[e].registrations)[x])
      && (forall f :: f in db.events && f != e ==> db'.events[f] == db.events[f])
      && db'.users == db.users && db'.orders == db.orders && db'.merch == db.merch && db'.nextId == db.nextId
    ensures WellFormed(db) ==>
      var db' := UnregisterSpec(db, userEmail, Oid(e)).1;
      var k := FindRow(db.rows, userEmail, e);
      0 <= k < |db.rows|
      && (forall i :: 0 <= i < |db'.rows| ==> !SameRegistration(db'.rows[i], userEmail, e) && db'.rows[i].id != db.rows[k].id)
  {
    var db' := UnregisterSpec(db, userEmail, Oid(e)).1;
    var k := FindRow(db.rows, userEmail, e);
    if e in db.events {
      forall x | x != db.rows[k].id
        ensures multiset(db'.events[e].registrations)[x] == multiset(db.events[e].registrations)[x]
      {
        RemoveAllCounts(db.events[e].registrations, db.rows[k].id, x);
      }
    }
    if WellFormed(db) {
      forall i | 0 <= i < |db'.rows|
        ensures !SameRegistration(db'.rows[i], userEmail, e) && db'.rows[i].id != db.rows[k].id
      {
        if i < k {
          assert db'.rows[i] == db.rows[i];
        } else {
          assert db'.rows[i] == db.rows[i + 1];
        }
      }
    }
  }

  lemma RowIdsAround(a: seq<RegistrationRow>, r: RegistrationRow, b: seq<RegistrationRow>, e: nat)
    ensures RowIdsFor(a + [r] + b, e) == RowIdsFor(a, e) + (if r.eventId == e then [r.id] else []) + RowIdsFor(b, e)
  {
    RowIdsForAppend(a + [r], b, e);
    RowIdsForAppend(a, [r], e);
    assert RowIdsFor([r], e) == (if r.eventId == e then [r.id] else []) + RowIdsFor([], e);
  }

  /** Pulling an id that occurs once, between two lists without it, leaves those two lists. */
  lemma RemoveAllMiddle(la: seq<nat>, x: nat, lb: seq<nat>)
    requires x !in la && x !in lb
    ensures RemoveAll(la + [x] + lb, x) == la + lb
  {
    RemoveAllAppend(la + [x], lb, x);
    RemoveAllAppend(la, [x], x);
    RemoveAllAbsent(la, x);
    RemoveAllAbsent(lb, x);
    assert RemoveAll([x], x) == [];
  }

  /** With unique row ids, no other row lists the id of row `k`. */
  lemma OtherRowsLackId(rows: seq<RegistrationRow>, k: nat, f: nat)
    requires k < |rows| && UniqueRowIds(rows)
    ensures rows[k].id !in RowIdsFor(rows[..k], f)
    ensures rows[k].id !in RowIdsFor(rows[k + 1..], f)
  {
    var rid, a, b := rows[k].id, rows[..k], rows[k + 1..];
    forall x | x in RowIdsFor(a, f) ensures x != rid {
      RowIdsForSource(a, f, x);
      var i :| 0 <= i < |a| && a[i].id == x && a[i].eventId == f;
      assert rows[i].id == x;
    }
    forall x | x in RowIdsFor(b, f) ensures x != rid {
      RowIdsForSource(b, f, x);
      var i :| 0 <= i < |b| && b[i].id == x && b[i].eventId == f;
      assert rows[k + 1 + i].id == x;
    }
  }

  /** The event's list with the row's id pulled equals the ids of the remaining rows. */
  lemma {:induction false} PullMatchesDelete(rows: seq<RegistrationRow>, k: nat, f: nat, list: seq<nat>)
    requires k < |rows| && UniqueRowIds(rows)
    requires list == RowIdsFor(rows, f)
    ensures rows[k].eventId == f ==> RemoveAll(list, rows[k].id) == RowIdsFor(rows[..k] + rows[k + 1..], f)
    ensures rows[k].eventId != f ==> list == RowIdsFor(rows[..k] + rows[k + 1..], f)
  {
    var a, b := rows[..k], rows[k + 1..];
    assert rows == a + [rows[k]] + b;
    RowIdsAround(a, rows[k], b, f);
    RowIdsForAppend(a, b, f);
    if rows[k].eventId == f {
      OtherRowsLackId(rows, k, f);
      RemoveAllMiddle(RowIdsFor(a, f), rows[k].id, RowIdsFor(b, f));
    }
  }

  lemma {:induction false} UnregisterKeepsInStep(db: Db, userEmail: string, e: nat)
    requires WellFormed(db) && InStep(db)
    requires UnregisterSpec(db, userEmail, Oid(e)).0.Success?
    ensures InStep(UnregisterSpec(db, userEmail, Oid(e)).1)
  {
    var db' := UnregisterSpec(db, userEmail, Oid(e)).1;
    var k := FindRow(db.rows, userEmail, e);
    forall f | f in db'.events ensures db'.events[f].registrations == RowIdsFor(db'.rows, f) {
      PullMatchesDelete(db.rows, k, f, db.events[f].registrations);
    }
  }

  /** Deleting one row keeps the row ids unique and the registrations free of duplicates. */
  lemma {:induction false} DeleteRowKeepsUnique(rows: seq<RegistrationRow>, k: nat)
    requires k < |rows| && UniqueRowIds(rows) && NoDuplicateRegistrations(rows)
    ensures UniqueRowIds(rows[..k] + rows[k + 1..]) && NoDuplicateRegistrations(rows[..k] + rows[k + 1..])
    ensures forall x :: x in rows[..k] + rows[k + 1..] ==> x in rows
  {
    var rest := rows[..k] + rows[k + 1..];
    assert forall i :: 0 <= i < |rest| ==> rest[i] == (if i < k then rows[i] else rows[i + 1]);
  }

  lemma {:induction false} UnregisterKeepsWellFormed(db: Db, userEmail: string, e: nat)
    requires WellFormed(db)
    requires UnregisterSpec(db, userEmail, Oid(e)).0.Success?
    ensures WellFormed(UnregisterSpec(db, userEmail, Oid(e)).1)
  {
    var db' := UnregisterSpec(db, userEmail, Oid(e)).1;
    var k := FindRow(db.rows, userEmail, e);
    DeleteRowKeepsUnique(db.rows, k);
    assert db'.rows == db.rows[..k] + db.rows[k + 1..];
    assert forall i :: 0 <= i < |db'.rows| ==> db'.rows[i].id < db'.nextId && db'.rows[i].eventId < db'.nextId by {
      forall i | 0 <= i < |db'.rows| ensures db'.rows[i].id < db'.nextId && db'.rows[i].eventId < db'.nextId {
        assert db'.rows[i] in db.rows;
      }
    }
    assert forall f, j :: f in db'.events && 0 <= j < |db'.events[f].registrations| ==> db'.events[f].registrations[j] < db'.nextId by {
      forall f, j | f in db'.events && 0 <= j < |db'.events[f].registrations|
        ensures db'.events[f].registrations[j] < db'.nextId
      {
        if f == e {
          assert db'.events[f].registrations[j] in db.events[f].registrations;
        }
      }
    }
  }

  /** Unregistration keeps the store well formed and the events' lists in step with the rows. */
  lemma {:induction false} UnregisterKeepsInvariants(db: Db, userEmail: string, eventId: ParsedId)
    requires WellFormed(db) && InStep(db)
    ensures WellFormed(UnregisterSpec(db, userEmail, eventId).1) && InStep(UnregisterSpec(db, userEmail, eventId).1)
  {
    var (res, db') := UnregisterSpec(db, userEmail, eventId);
    if res.Success? {
      UnregisterKeepsInStep(db, userEmail, eventId.id);
      UnregisterKeepsWellFormed(db, userEmail, eventId.id);
    }
  }

  /** Registering and then unregistering the same pair restores every collection. */
  lemma RegisterUnregisterRoundTrip(db: Db, userEmail: string, e: nat)
    requires WellFormed(db)
    requires RegisterSpec(db, userEmail, Oid(e)).0.Success?
    ensures var db1 := RegisterSpec(db, userEmail, Oid(e)).1;
      UnregisterSpec(db1, userEmail, Oid(e)) == (Success(true), db.(nextId := db1.nextId))
  {
    var (res, db1) := RegisterSpec(db, userEmail, Oid(e));
    var id := res.value;
    var n := |db.rows|;
    assert db1.rows[n] == RegistrationRow(id, userEmail, e);
    var k := FindRow(db1.rows, userEmail, e);
    assert forall j :: 0 <= j < n ==> db1.rows[j] == db.rows[j];
    assert k == n;
    assert db1.rows[..k] + db1.rows[k + 1..] == db.rows;
    if e in db.events {
      var list := db.events[e].registrations;
      assert forall j :: 0 <= j < |list| ==> list[j] < id;
      assert id !in list;
      RemoveAllAppend(list, [id], id);
      RemoveAllAbsent(list, id);
      assert RemoveAll([id], id) == [];
      assert RemoveAll(db1.events[e].registrations, id) == list;
      assert db1.events[e].(registrations := list) == db.events[e];
      assert db1.events[e := db.events[e]] == db.events;
    }
  }

  /** After a registration, the user's list of event ids gains exactly that event, at the end; other users' lists are unchanged. */
  lemma RegisterExtendsUserList(db: Db, userEmail: string, e: nat, other: string)
    requires RegisterSpec(db, userEmail, Oid(e)).0.Success?
    requires other != userEmail
    ensures var db' := RegisterSpec(db, userEmail, Oid(e)).1;
      UserEventRegistrations(db'.rows, userEmail) == UserEventRegistrations(db.rows, userEmail) + [e]
      && UserEventRegistrations(db'.rows, other) == UserEventRegistrations(db.rows, other)
  {
    var (res, db') := RegisterSpec(db, userEmail, Oid(e));
    var row := RegistrationRow(res.value, userEmail, e);
    UserEventRegistrationsAppend(db.rows, [row], userEmail);
    UserEventRegistrationsAppend(db.rows, [row], other);
  }

  /** An order for a known item copies its title and price, keeps the size, and starts "pending"; an unknown id changes nothing. */
  lemma MerchOrderProperties(db: Db, userEmail: string, merchId: ParsedId, size: string)
    requires WellFormed(db)
    ensures var (res, db') := CreateMerchOrderSpec(db, userEmail, merchId, size);
      (merchId.Unparsable? || merchId.id !in db.merch ==> res.Failure? && db' == db)
      && (merchId.Oid? && merchId.id in db.merch ==>
            res.Success? && |db'.orders| == |db.orders| + 1 && db'.orders[..|db.orders|] == db.orders
            && db'.orders[|db.orders|] == Order(res.value, userEmail, merchId.id, db.merch[merchId.id].title, size,
                                                 db.merch[merchId.id].price, "pending")
            && (forall i :: 0 <= i < |db.orders| ==> db.orders[i].id != res.value)
            && db'.rows == db.rows && db'.events == db.events && WellFormed(db'))
  {
    var (res, db') := CreateMerchOrderSpec(db, userEmail, merchId, size);
    if res.Success? {
      assert db'.orders[..|db.orders|] == db.orders;
    }
  }

  /** A profile update of an existing user writes exactly the four profile fields of that user. */
  lemma {:induction false} UpdateFirstUserProperties(users: seq<User>, i: nat, upd: ProfileUpdate)
    requires i < |users| && forall j :: 0 <= j < i ==> users[j].id != users[i].id
    ensures var (matched, users') := UpdateFirstUser(users, users[i].id, upd);
      matched && |users'| == |users|
      && users'[i] == users[i].(name := upd.name, phoneNumber := Some(upd.phoneNumber),
                                collegeName := Some(upd.collegeName), sports := Some(upd.sports))
      && forall j :: 0 <= j < |users| && j != i ==> users'[j] == users[j]
  {
    if i > 0 {
      assert users[1..][i - 1] == users[i];
      UpdateFirstUserProperties(users[1..], i - 1, upd);
      var rest := UpdateFirstUser(users[1..], users[i].id, upd);
      assert UpdateFirstUser(users, users[i].id, upd) == (rest.0, [users[0]] + rest.1);
      assert forall j :: 1 <= j < |users| ==> users[j] == users[1..][j - 1];
    }
  }

  /** `matchedCount` is 1 exactly when some user has the id. */
  lemma {:induction false} UpdateFirstUserMatched(users: seq<User>, id: nat, upd: ProfileUpdate)
    ensures UpdateFirstUser(users, id, upd).0 <==> exists i :: 0 <= i < |users| && users[i].id == id
  {
    if users != [] && users[0].id != id {
      UpdateFirstUserMatched(users[1..], id, upd);
      if UpdateFirstUser(users, id, upd).0 {
        var i :| 0 <= i < |users[1..]| && users[1..][i].id == id;
        assert users[i + 1].id == id;
      } else {
        forall i | 0 <= i < |users| ensures users[i].id != id {
          if i > 0 {
            assert users[i] == users[1..][i - 1];
          }
        }
      }
    }
  }

  // ---------------------------------------------------------------------------
  // The store
  // ---------------------------------------------------------------------------

  class Store {
    var events: map<nat, Event>
    var users: seq<User>
    var merch: map<nat, Merch>
    var registrations: seq<RegistrationRow>
    var orders: seq<Order>
    var nextId: nat

    function State(): Db
      reads this
    {
      Db(events, users, merch, registrations, orders, nextId)
    }

    ghost predicate Valid()
      reads this
    {
      WellFormed(State()) && InStep(State())
    }

    /** A store holding the given merchandise catalogue and nothing else. */
    constructor (catalogue: map<nat, Merch>, firstFreeId: nat)
      requires forall k :: k in catalogue ==> k < firstFreeId
      ensures Valid()
      ensures State() == Db(map[], [], catalogue, [], [], firstFreeId)
    {
      events, users, merch, registrations, orders := map[], [], catalogue, [], [];
      nextId := firstFreeId;
    }

    method CreateEvent(info: EventInfo) returns (insertedId: nat)
      requires Valid()
      modifies this
      ensures Valid()
      ensures (insertedId, State()) == CreateEventSpec(old(State()), info)
    {
      CreateEventProperties(State(), info);
      insertedId := nextId;
      events := events[insertedId := Event(info, [])];
      nextId := nextId + 1;
    }

    method UpdateEvent(id: ParsedId, upd: EventUpdate) returns (res: Result<bool>)
      requires Valid()
      modifies this
      ensures Valid()
      ensures (res, State()) == UpdateEventSpec(old(State()), id, upd)
    {
      UpdateEventProperties(State(), id, upd);
      match id
      case Unparsable =>
        res := Failure(InvalidObjectId);
      case Oid(k) =>
        if k in events {
          var ev := events[k];
          events := events[k := ev.(info := MergeInfo(ev.info, upd))];
          res := Success(true);
        } else {
          res := Success(false);
        }
    }

    method CreateUser(nu: NewUser) returns (insertedId: nat)
      requires Valid()
      modifies this
      ensures Valid()
      ensures (insertedId, State()) == CreateUserSpec(old(State()), nu)
    {
      CreateUserProperties(State(), nu);
      insertedId := nextId;
      users := users + [User(insertedId, nu.googleId, nu.email, nu.name, nu.image, None, None, None, None, [])];
      nextId := nextId + 1;
    }

    method UpdateUser(id: ParsedId, upd: ProfileUpdate) returns (res: Result<bool>)
      requires Valid()
      modifies this
      ensures Valid()
      ensures (res, State()) == UpdateUserSpec(old(State()), id, upd)
    {
      if id.Unparsable? {
        return Failure(InvalidObjectId);
      }
      var r := UpdateFirstUser(users, id.id, upd);
      UpdateFirstUserKeepsIds(users, id.id, upd);
      users := r.1;
      res := Success(r.0);
    }

    /** `registerUserForEvent`: the `findOne`, the `insertOne`, then the `$push`. */
    method RegisterUserForEvent(userEmail: string, eventId: ParsedId) returns (res: Result<nat>)
      requires Valid()
      modifies this
      ensures Valid()
      ensures (res, State()) == RegisterSpec(old(State()), userEmail, eventId)
    {
      RegisterKeepsInvariants(State(), userEmail, eventId);
      if eventId.Unparsable? {
        return Failure(InvalidObjectId);
      }
      var e := eventId.id;
      if FindRow(registrations, userEmail, e) >= 0 {
        return Failure(AlreadyRegistered);
      }
      var id := nextId;
      registrations := registrations + [RegistrationRow(id, userEmail, e)];
      nextId := Max(id, e) + 1;
      if e in events {
        events := events[e := events[e].(registrations := events[e].registrations + [id])];
      }
      res := Success(id);
    }

    /** `unregisterUserFromEvent`: the `findOne`, the `deleteOne`, then the `$pull`. */
    method UnregisterUserFromEvent(userEmail: string, eventId: ParsedId) returns (res: Result<bool>)
      requires Valid()
      modifies this
      ensures Valid()
      ensures (res, State()) == UnregisterSpec(old(State()), userEmail, eventId)
    {
      UnregisterKeepsInvariants(State(), userEmail, eventId);
      if eventId.Unparsable? {
        return Failure(InvalidObjectId);
      }
      var e := eventId.id;
      var k := FindRow(registrations, userEmail, e);
      if k < 0 {
        return Failure(RegistrationNotFound);
      }
      var rid := registrations[k].id;
      registrations := registrations[..k] + registrations[k + 1..];
      if e in events {
        events := events[e := events[e].(registrations := RemoveAll(events[e].registrations, rid))];
      }
      res := Success(true);
    }

    method CreateMerchOrder(userEmail: string, merchId: ParsedId, size: string) returns (res: Result<nat>)
      requires Valid()
      modifies this
      ensures Valid()
      ensures (res, State()) == CreateMerchOrderSpec(old(State()), userEmail, merchId, size)
    {
      MerchOrderProperties(State(), userEmail, merchId, size);
      if merchId.Unparsable? {
        return Failure(InvalidObjectId);
      }
      if merchId.id !in merch {
        return Failure(MerchNotFound);
      }
      var m := merch[merchId.id];
      orders := orders + [Order(nextId, userEmail, merchId.id, m.title, size, m.price, "pending")];
      res := Success(nextId);
      nextId := nextId + 1;
    }
  }

  /** A profile update never changes a user's id. */
  lemma {:induction false} UpdateFirstUserKeepsIds(users: seq<User>, id: nat, upd: ProfileUpdate)
    ensures forall i :: 0 <= i < |users| ==> UpdateFirstUser(users, id, upd).1[i].id == users[i].id
  {
    if users != [] && users[0].id != id {
      UpdateFirstUserKeepsIds(users[1..], id, upd);
    }
  }
}
