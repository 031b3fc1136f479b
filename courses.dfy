/** The mutating side of the course endpoint: `POST`, `PUT` and `DELETE
    /api/courses` over the Courses collection and the Units, Questions and
    UserProgress collections that refer to a course by `courseId`. Each handler
    authenticates the session token, checks that its user is an administrator,
    and only then reads its request. */
module Courses {
  import opened Wrappers
  import opened JsText
  import opened Js
  import opened Validation
  import Identity
  import AuthUnified
  import ValidationProps
  import ValidationRoundTrip

  type Response = Identity.Response

  /** `NextResponse.json({ success: false, message }, { status })` */
  function Fail(status: nat, message: string): Response {
    Identity.Response(status, map["success" := Bool(false), "message" := Str(message)], None)
  }

  /** `NextResponse.json({ success: true, message, ... })` with the default status 200 */
  function Done(status: nat, message: string, data: Option<Record>): Response {
    var body := map["success" := Bool(true), "message" := Str(message)];
    Identity.Response(status, if data.Some? then body["data" := Obj(data.value)] else body, None)
  }

  /** The catch blocks' answer to a ValidationError: 400 with its message and
      its field, null unless the error names one. */
  function Invalid(e: ValidationError): (r: Response)
    ensures r.status == 400 && Get(r.body, "message") == Str(e.message)
  {
    var field := if e.field.Some? then Str(e.field.value) else Null;
    Identity.Response(400, map["success" := Bool(false), "message" := Str(e.message), "field" := field], None)
  }

  // ---------------------------------------------------------------------------
  // Authentication and the administrator check

  /** The outcome of the checks every mutating handler starts with. */
  datatype Access = Denied(response: Response) | Granted(user: Record)

  /** `verifyAuth(request)`: `token` is the `auth-token` cookie, `jwtSecret` the
      JWT_SECRET setting ("" when unset, which makes `jwt.verify` throw) and
      `verify` is `jwt.verify`. */
  function Authenticate(token: Option<string>, jwtSecret: string, verify: (string, string) -> Option<Record>): (a: Access)
    ensures a.Granted? <==> token.Some? && token.value != "" && jwtSecret != "" && verify(token.value, jwtSecret).Some?
    ensures a.Granted? ==> a.user == verify(token.value, jwtSecret).value
    ensures token.None? || token.value == "" ==> a == Denied(Fail(401, "Authentication required"))
    ensures token.Some? && token.value != "" && a.Denied? ==> a == Denied(Fail(401, "Invalid token"))
  {
    if token.None? || token.value == "" then Denied(Fail(401, "Authentication required"))
    else if jwtSecret == "" || verify(token.value, jwtSecret).None? then Denied(Fail(401, "Invalid token"))
    else Granted(verify(token.value, jwtSecret).value)
  }

  /** `checkAdminPermissions(userId)` over the Users collection by `_id`. A
      missing id makes `new ObjectId` generate a fresh id that matches nobody; a
      malformed one throws, which the catch turns into false. */
  predicate IsAdmin(users: map<Value, Record>, userId: Value, isValid: Value -> bool) {
    && userId != Undefined && userId != Null && isValid(userId)
    && AsObjectId(userId) in users
    && var u := users[AsObjectId(userId)];
       Get(u, "role") == Str("admin") || Get(u, "isAdmin") == Bool(true)
  }

  /** Authentication, then the administrator check on the token's `userId`. */
  function Authorize(users: map<Value, Record>, token: Option<string>, jwtSecret: string,
                     verify: (string, string) -> Option<Record>, isValid: Value -> bool): (a: Access)
    ensures a.Denied? ==> a.response.status == 401 || a.response == Fail(403, "Admin access required")
  {
    match Authenticate(token, jwtSecret, verify)
    case Denied(r) => Denied(r)
    case Granted(user) =>
      if IsAdmin(users, Get(user, "userId"), isValid) then Granted(user)
      else Denied(Fail(403, "Admin access required"))
  }

  /** Authentication is decided before the administrator check: a missing or
      unverifiable token gets 401 whatever the users are; a verified one gets
      403 exactly when its user is not an administrator. */
  lemma AuthorizeOrder(users: map<Value, Record>, token: Option<string>, jwtSecret: string,
                       verify: (string, string) -> Option<Record>, isValid: Value -> bool)
    ensures Authenticate(token, jwtSecret, verify).Denied? ==>
              Authorize(users, token, jwtSecret, verify, isValid) == Authenticate(token, jwtSecret, verify)
    ensures Authenticate(token, jwtSecret, verify).Granted? ==>
              var user := Authenticate(token, jwtSecret, verify).user;
              && (Authorize(users, token, jwtSecret, verify, isValid).Granted? <==> IsAdmin(users, Get(user, "userId"), isValid))
              && (Authorize(users, token, jwtSecret, verify, isValid).Denied? ==>
                    Authorize(users, token, jwtSecret, verify, isValid).response == Fail(403, "Admin access required"))
  {
  }

  /** The tokens the unified sign-in issues name their user in `id`, not in
      `userId`, so the holder of such a token is never an administrator here. */
  lemma SignInTokensAreNotAdmin(users: map<Value, Record>, token: Option<string>, jwtSecret: string,
                                verify: (string, string) -> Option<Record>, isValid: Value -> bool,
                                id: nat, email: Value, isGoogle: bool, name: Value)
    requires Authenticate(token, jwtSecret, verify) == Granted(AuthUnified.Claims(id, email, isGoogle, name))
    ensures Authorize(users, token, jwtSecret, verify, isValid) == Denied(Fail(403, "Admin access required"))
  {
    assert "userId" !in AuthUnified.Claims(id, email, isGoogle, name);
  }

  // ---------------------------------------------------------------------------
  // The store

  /** The collections that refer to a course. */
  datatype Related = Questions | Units | UserProgress

  /** One database call of a handler. */
  datatype StoreOp =
    | InsertCourse(id: Value, doc: Record)
    | UpdateCourse(id: Value, changes: Record)
    | DeleteRelated(collection: Related, courseId: Value)
    | DeleteCourse(id: Value)

  /** The collections: courses by `_id`, the others as lists of documents. */
  datatype Db = Db(courses: map<Value, Record>, questions: seq<Record>, units: seq<Record>, progress: seq<Record>)

  /** `deleteMany({ courseId })` on a list of documents. */
  function Without(docs: seq<Record>, courseId: Value): (r: seq<Record>)
    ensures |r| <= |docs|
  {
    if docs == [] then []
    else (if Get(docs[0], "courseId") == courseId then [] else [docs[0]]) + Without(docs[1..], courseId)
  }

  /** Exactly the documents of the course go: every other document keeps its
      number of occurrences. */
  lemma {:induction false} WithoutSpec(docs: seq<Record>, courseId: Value)
    ensures forall d :: multiset(Without(docs, courseId))[d] == if Get(d, "courseId") == courseId then 0 else multiset(docs)[d]
  {
    if docs != [] {
      WithoutSpec(docs[1..], courseId);
      assert docs == [docs[0]] + docs[1..];
    }
  }

  /** The effect of one call. An insert under an id already stored fails with a
      duplicate-key error and changes nothing; an update matches at most the
      course with that id. */
  function Apply(db: Db, op: StoreOp): Db {
    match op
    case InsertCourse(id, doc) =>
      if id in db.courses then db else db.(courses := db.courses[id := doc])
    case UpdateCourse(id, changes) =>
      if id in db.courses then db.(courses := db.courses[id := db.courses[id] + changes]) else db
    case DeleteRelated(Questions, c) => db.(questions := Without(db.questions, c))
    case DeleteRelated(Units, c) => db.(units := Without(db.units, c))
    case DeleteRelated(UserProgress, c) => db.(progress := Without(db.progress, c))
    case DeleteCourse(id) => db.(courses := db.courses - {id})
  }

  /** The calls one after another. */
  function Replay(db: Db, ops: seq<StoreOp>): Db
    decreases |ops|
  {
    if ops == [] then db else Replay(Apply(db, ops[0]), ops[1..])
  }

  /** What a handler does: its answer and the database calls it made. */
  datatype Effect = Effect(response: Response, ops: seq<StoreOp>)

  /** The course database, with the log of the calls made to it. The Users
      collection is only read here, by the administrator check. */
  class CourseStore {
    var courses: map<Value, Record>
    var questions: seq<Record>
    var units: seq<Record>
    var progress: seq<Record>
    var log: seq<StoreOp>
    const users: map<Value, Record>

    constructor(db: Db, users: map<Value, Record>)
      ensures Snapshot() == db && log == [] && this.users == users
    {
      courses, questions, units, progress := db.courses, db.questions, db.units, db.progress;
      log := [];
      this.users := users;
    }

    function Snapshot(): Db
      reads this
    {
      Db(courses, questions, units, progress)
    }

    /** `insertOne(doc)` with `doc._id == id`; `inserted` is false when the
        call throws the duplicate-key error. */
    method InsertOne(id: Value, doc: Record) returns (inserted: bool)
      modifies this
      ensures inserted <==> id !in old(courses)
      ensures Snapshot() == Apply(old(Snapshot()), InsertCourse(id, doc))
      ensures log == old(log) + [InsertCourse(id, doc)]
    {
      inserted := id !in courses;
      if inserted {
        courses := courses[id := doc];
      }
      log := log + [InsertCourse(id, doc)];
    }

    /** `findOneAndUpdate({ _id: id }, { $set: changes }, { returnDocument: "after" })` */
    method FindOneAndUpdate(id: Value, changes: Record) returns (after: Option<Record>)
      modifies this
      ensures Snapshot() == Apply(old(Snapshot()), UpdateCourse(id, changes))
      ensures log == old(log) + [UpdateCourse(id, changes)]
      ensures after.Some? <==> id in old(courses)
      ensures after.Some? ==> after.value == courses[id]
    {
      if id in courses {
        courses := courses[id := courses[id] + changes];
        after := Some(courses[id]);
      } else {
        after := None;
      }
      log := log + [UpdateCourse(id, changes)];
    }

    /** `deleteMany({ courseId })` on one of the related collections. */
    method DeleteMany(collection: Related, courseId: Value)
      modifies this
      ensures Snapshot() == Apply(old(Snapshot()), DeleteRelated(collection, courseId))
      ensures log == old(log) + [DeleteRelated(collection, courseId)]
    {
      match collection {
        case Questions => questions := Without(questions, courseId);
        case Units => units := Without(units, courseId);
        case UserProgress => progress := Without(progress, courseId);
      }
      log := log + [DeleteRelated(collection, courseId)];
    }

    /** `deleteOne({ _id: id })` */
    method DeleteOne(id: Value)
      modifies this
      ensures Snapshot() == Apply(old(Snapshot()), DeleteCourse(id))
      ensures log == old(log) + [DeleteCourse(id)]
    {
      courses := courses - {id};
      log := log + [DeleteCourse(id)];
    }
  }

  // ---------------------------------------------------------------------------
  // POST

  /** The instructor defaults taken from the token before validation: its
      `userId` for a falsy `instructorId`, its name, else its email, for a falsy
      `instructor`. */
  function WithInstructor(data: Record, user: Record): Record {
    var d := if !Truthy(Get(data, "instructorId")) then data["instructorId" := Get(user, "userId")] else data;
    if !Truthy(Get(d, "instructor")) then
      d["instructor" := if Truthy(Get(user, "name")) then Get(user, "name") else Get(user, "email")]
    else d
  }

  /** `x ?? fallback` on a property. */
  function Nullish(r: Record, k: string, fallback: Value): Record {
    if Get(r, k) == Undefined || Get(r, k) == Null then r[k := fallback] else r
  }

  /** The defaults set after validation. */
  function WithFlags(validated: Record): Record {
    Nullish(Nullish(validated, "isActive", Bool(true)), "isPublished", Bool(false))
  }

  /** The token's identity fills the instructor fields only when the body
      leaves them falsy; nothing else changes. */
  lemma InstructorDefaults(data: Record, user: Record)
    ensures Get(WithInstructor(data, user), "instructorId")
         == if Truthy(Get(data, "instructorId")) then Get(data, "instructorId") else Get(user, "userId")
    ensures Get(WithInstructor(data, user), "instructor")
         == if Truthy(Get(data, "instructor")) then Get(data, "instructor")
            else if Truthy(Get(user, "name")) then Get(user, "name") else Get(user, "email")
    ensures forall k :: k != "instructorId" && k != "instructor" ==> Get(WithInstructor(data, user), k) == Get(data, k)
  {
  }

  /** The flags are defaulted only when absent or null; nothing else changes. */
  lemma FlagDefaults(validated: Record)
    ensures Get(WithFlags(validated), "isActive")
         == if Get(validated, "isActive") in {Undefined, Null} then Bool(true) else Get(validated, "isActive")
    ensures Get(WithFlags(validated), "isPublished")
         == if Get(validated, "isPublished") in {Undefined, Null} then Bool(false) else Get(validated, "isPublished")
    ensures forall k :: k != "isActive" && k != "isPublished" ==> Get(WithFlags(validated), k) == Get(validated, k)
  {
  }

  /** The id `insertOne` stores a document under: its own `_id` unless that
      is undefined or null, else the one the driver generates. */
  function InsertedId(doc: Record, freshId: Value): Value {
    if Get(doc, "_id") == Undefined || Get(doc, "_id") == Null then freshId else Get(doc, "_id")
  }

  /** The catch-all answer of `POST`: 500 with the error's own message. */
  function CreateFailed(error: string): Response {
    Identity.Response(500, map["success" := Bool(false), "message" := Str("Failed to create course"), "error" := Str(error)], None)
  }

  /** What an administrator's `POST` does with the body `data`: validate it
      with the instructor defaults, set the flag defaults, then insert it.
      `freshId` is the id the driver would generate and `duplicateError` the
      message of the duplicate-key error an existing `_id` raises. */
  function CreateAs(db: Db, user: Record, data: Record, now: int, freshId: Value, duplicateError: string,
                    isValid: Value -> bool): Effect {
    match Validated(Course, WithInstructor(data, user), false, now, isValid)
    case Failure(e) => Effect(Invalid(e), [])
    case Success(v) => InsertAs(db, WithFlags(v), freshId, duplicateError)
  }

  /** `insertOne(doc)` and the answer to it. */
  function InsertAs(db: Db, doc: Record, freshId: Value, duplicateError: string): Effect {
    var id := InsertedId(doc, freshId);
    var stored := doc["_id" := id];
    if id in db.courses then Effect(CreateFailed(duplicateError), [InsertCourse(id, stored)])
    else Effect(Done(201, "Course created successfully", Some(stored)), [InsertCourse(id, stored)])
  }

  /** An insert stores the document under its id unless that id is taken, in
      which case it answers 500 and changes nothing. */
  lemma InsertSpec(db: Db, doc: Record, freshId: Value, duplicateError: string)
    ensures var e := InsertAs(db, doc, freshId, duplicateError);
      var id := InsertedId(doc, freshId);
      && |e.ops| == 1 && e.ops[0].InsertCourse? && e.ops[0].id == id
      && e.ops[0].doc == doc["_id" := id]
      && (id in db.courses ==> e.response == CreateFailed(duplicateError) && Replay(db, e.ops) == db)
      && (id !in db.courses ==>
            && e.response.status == 201
            && Get(e.response.body, "data") == Obj(doc["_id" := id])
            && Replay(db, e.ops).courses == db.courses[id := doc["_id" := id]])
  {
    var e := InsertAs(db, doc, freshId, duplicateError);
    assert e.ops[1..] == [];
  }

  /** `POST /api/courses` */
  function Create(db: Db, users: map<Value, Record>, token: Option<string>, jwtSecret: string,
                  verify: (string, string) -> Option<Record>, isValid: Value -> bool,
                  data: Record, now: int, freshId: Value, duplicateError: string): Effect {
    match Authorize(users, token, jwtSecret, verify, isValid)
    case Denied(r) => Effect(r, [])
    case Granted(user) => CreateAs(db, user, data, now, freshId, duplicateError, isValid)
  }

  /** The part of `POST` after the administrator check. */
  method CreateAsAdmin(store: CourseStore, user: Record, data: Record, now: int, freshId: Value, duplicateError: string,
                       isValid: Value -> bool) returns (res: Response)
    modifies store
    ensures var e := CreateAs(old(store.Snapshot()), user, data, now, freshId, duplicateError, isValid);
      && res == e.response
      && store.Snapshot() == Replay(old(store.Snapshot()), e.ops)
      && store.log == old(store.log) + e.ops
  {
    var courseData := WithInstructor(data, user);
    var validated := Validate(Course, courseData, false, now, isValid);
    if validated.Failure? {
      return Invalid(validated.error);
    }
    var flagged := WithFlags(validated.value);
    var id := InsertedId(flagged, freshId);
    var doc := flagged["_id" := id];
    InsertSpec(old(store.Snapshot()), flagged, freshId, duplicateError);
    var inserted := store.InsertOne(id, doc);
    if !inserted {
      return CreateFailed(duplicateError);
    }
    res := Done(201, "Course created successfully", Some(doc));
  }

  method HandleCreate(store: CourseStore, token: Option<string>, jwtSecret: string,
                      verify: (string, string) -> Option<Record>, isValid: Value -> bool,
                      data: Record, now: int, freshId: Value, duplicateError: string) returns (res: Response)
    modifies store
    ensures var e := Create(old(store.Snapshot()), store.users, token, jwtSecret, verify, isValid, data, now, freshId, duplicateError);
      && res == e.response
      && store.Snapshot() == Replay(old(store.Snapshot()), e.ops)
      && store.log == old(store.log) + e.ops
  {
    var access := Authorize(store.users, token, jwtSecret, verify, isValid);
    if access.Denied? {
      return access.response;
    }
    res := CreateAsAdmin(store, access.user, data, now, freshId, duplicateError, isValid);
  }

  /** A validated course holds `Boolean(x)` in a flag field the body gives. */
  lemma ValidatedFlag(input: Record, now: int, isValid: Value -> bool, i: nat)
    requires Validated(Course, input, false, now, isValid).Success?
    requires i < |Rules(Course)| && Rules(Course)[i].rule == Flag
    ensures var f := Rules(Course)[i].field;
      Get(Validated(Course, input, false, now, isValid).value, f)
        == if Get(input, f) == Undefined then Undefined else Bool(Truthy(Get(input, f)))
  {
    var v := Validated(Course, input, false, now, isValid).value;
    ValidationRoundTrip.PassedField(Course, input, false, now, isValid, v, i);
    ValidationProps.FlagBlock(Get(input, Rules(Course)[i].field), Get(input, "type"), isValid);
  }

  /** A validated course holds `Boolean(x)` for each flag the body gives,
      keeps the body's `_id`, and is stamped with `now`. */
  lemma ValidatedCourse(input: Record, now: int, isValid: Value -> bool)
    requires Validated(Course, input, false, now, isValid).Success?
    ensures var v := Validated(Course, input, false, now, isValid).value;
      && Get(v, "isActive") == (if Get(input, "isActive") == Undefined then Undefined else Bool(Truthy(Get(input, "isActive"))))
      && Get(v, "isPublished") == (if Get(input, "isPublished") == Undefined then Undefined else Bool(Truthy(Get(input, "isPublished"))))
      && Get(v, "_id") == Get(input, "_id")
      && Get(v, "createdAt") == Date(now) && Get(v, "updatedAt") == Date(now)
  {
    ValidationProps.TimestampsAndPassThrough(Course, input, false, now, isValid);
    ValidatedFlag(input, now, isValid, 9);
    ValidatedFlag(input, now, isValid, 10);
  }

  /** The insert of a validated course whose flags, `_id` and stamps are as
      `ValidatedCourse` gives them. */
  lemma InsertValidated(db: Db, data: Record, v: Record, now: int, freshId: Value, duplicateError: string)
    requires Get(v, "isActive") == (if Get(data, "isActive") == Undefined then Undefined else Bool(Truthy(Get(data, "isActive"))))
    requires Get(v, "isPublished") == (if Get(data, "isPublished") == Undefined then Undefined else Bool(Truthy(Get(data, "isPublished"))))
    requires Get(v, "_id") == Get(data, "_id")
    requires Get(v, "createdAt") == Date(now) && Get(v, "updatedAt") == Date(now)
    ensures var e := InsertAs(db, WithFlags(v), freshId, duplicateError);
      var id := InsertedId(data, freshId);
      && |e.ops| == 1 && e.ops[0].InsertCourse? && e.ops[0].id == id
      && (id in db.courses ==> e.response == CreateFailed(duplicateError) && Replay(db, e.ops) == db)
      && (id !in db.courses ==>
            var doc := e.ops[0].doc;
            && e.response.status == 201
            && Get(e.response.body, "data") == Obj(doc)
            && Replay(db, e.ops).courses == db.courses[id := doc]
            && Get(doc, "_id") == id
            && Get(doc, "isActive") == (if Get(data, "isActive") == Undefined then Bool(true) else Bool(Truthy(Get(data, "isActive"))))
            && Get(doc, "isPublished") == (if Get(data, "isPublished") == Undefined then Bool(false) else Bool(Truthy(Get(data, "isPublished"))))
            && Get(doc, "createdAt") == Date(now) && Get(doc, "updatedAt") == Date(now))
  {
    FlagDefaults(v);
    InsertSpec(db, WithFlags(v), freshId, duplicateError);
  }

  /** A valid course is inserted once, under the body's own `_id` when it has
      one and under `freshId` otherwise. An id already stored is answered with
      500 and changes nothing. A new one is stored and echoed back with 201,
      active unless the body says otherwise, unpublished unless it says
      otherwise, and stamped with `now`. */
  lemma CreateDefaults(db: Db, user: Record, data: Record, now: int, freshId: Value, duplicateError: string,
                       isValid: Value -> bool)
    requires Validated(Course, WithInstructor(data, user), false, now, isValid).Success?
    ensures var e := CreateAs(db, user, data, now, freshId, duplicateError, isValid);
      var id := InsertedId(data, freshId);
      && |e.ops| == 1 && e.ops[0].InsertCourse? && e.ops[0].id == id
      && (id in db.courses ==> e.response == CreateFailed(duplicateError) && Replay(db, e.ops) == db)
      && (id !in db.courses ==>
            var doc := e.ops[0].doc;
            && e.response.status == 201
            && Get(e.response.body, "data") == Obj(doc)
            && Replay(db, e.ops).courses == db.courses[id := doc]
            && Get(doc, "_id") == id
            && Get(doc, "isActive") == (if Get(data, "isActive") == Undefined then Bool(true) else Bool(Truthy(Get(data, "isActive"))))
            && Get(doc, "isPublished") == (if Get(data, "isPublished") == Undefined then Bool(false) else Bool(Truthy(Get(data, "isPublished"))))
            && Get(doc, "createdAt") == Date(now) && Get(doc, "updatedAt") == Date(now))
  {
    var input := WithInstructor(data, user);
    assert Get(input, "_id") == Get(data, "_id");
    assert Get(input, "isActive") == Get(data, "isActive") && Get(input, "isPublished") == Get(data, "isPublished");
    ValidatedCourse(input, now, isValid);
    var v := Validated(Course, input, false, now, isValid).value;
    InsertValidated(db, data, v, now, freshId, duplicateError);
  }

  /** A body that fails validation is answered with 400 and the
      ValidationError's message and a null field, and nothing is written. */
  lemma ValidationErrorsAre400(db: Db, user: Record, data: Record, now: int, freshId: Value, duplicateError: string,
                               isValid: Value -> bool)
    requires Validated(Course, WithInstructor(data, user), false, now, isValid).Failure?
    ensures var e := CreateAs(db, user, data, now, freshId, duplicateError, isValid);
      var err := Validated(Course, WithInstructor(data, user), false, now, isValid).error;
      && e.ops == [] && e.response.status == 400
      && Get(e.response.body, "message") == Str(err.message)
      && Get(e.response.body, "field") == Null
  {
    ValidationProps.ValidatedExhaustive(Course, WithInstructor(data, user), false, now, isValid);
  }

  // ---------------------------------------------------------------------------
  // PUT

  /** What an administrator's `PUT` does with the body: `courseId` names the
      course and the rest of the body, validated as an update, is set on it. */
  function UpdateAs(db: Db, body: Record, now: int, isValid: Value -> bool): Effect {
    var courseId := Get(body, "courseId");
    if !Truthy(courseId) then Effect(Fail(400, "Course ID is required"), [])
    else if !isValid(courseId) then Effect(Fail(400, "Invalid course ID format"), [])
    else
      match Validated(Course, body - {"courseId"}, true, now, isValid)
      case Failure(e) => Effect(Invalid(e), [])
      case Success(changes) =>
        var id := AsObjectId(courseId);
        if id in db.courses then
          Effect(Done(200, "Course updated successfully", Some(db.courses[id] + changes)), [UpdateCourse(id, changes)])
        else Effect(Fail(404, "Course not found"), [UpdateCourse(id, changes)])
  }

  /** `PUT /api/courses` */
  function Update(db: Db, users: map<Value, Record>, token: Option<string>, jwtSecret: string,
                  verify: (string, string) -> Option<Record>, isValid: Value -> bool,
                  body: Record, now: int): Effect {
    match Authorize(users, token, jwtSecret, verify, isValid)
    case Denied(r) => Effect(r, [])
    case Granted(_) => UpdateAs(db, body, now, isValid)
  }

  /** The part of `PUT` after the administrator check. */
  method UpdateAsAdmin(store: CourseStore, body: Record, now: int, isValid: Value -> bool) returns (res: Response)
    modifies store
    ensures var e := UpdateAs(old(store.Snapshot()), body, now, isValid);
      && res == e.response
      && store.Snapshot() == Replay(old(store.Snapshot()), e.ops)
      && store.log == old(store.log) + e.ops
  {
    var courseId := Get(body, "courseId");
    var updateData := body - {"courseId"};
    if !Truthy(courseId) {
      return Fail(400, "Course ID is required");
    }
    if !isValid(courseId) {
      return Fail(400, "Invalid course ID format");
    }
    var validated := Validate(Course, updateData, true, now, isValid);
    if validated.Failure? {
      return Invalid(validated.error);
    }
    var after := store.FindOneAndUpdate(AsObjectId(courseId), validated.value);
    if after.None? {
      return Fail(404, "Course not found");
    }
    res := Done(200, "Course updated successfully", Some(after.value));
  }

  method HandleUpdate(store: CourseStore, token: Option<string>, jwtSecret: string,
                      verify: (string, string) -> Option<Record>, isValid: Value -> bool,
                      body: Record, now: int) returns (res: Response)
    modifies store
    ensures var e := Update(old(store.Snapshot()), store.users, token, jwtSecret, verify, isValid, body, now);
      && res == e.response
      && store.Snapshot() == Replay(old(store.Snapshot()), e.ops)
      && store.log == old(store.log) + e.ops
  {
    var access := Authorize(store.users, token, jwtSecret, verify, isValid);
    if access.Denied? {
      return access.response;
    }
    res := UpdateAsAdmin(store, body, now, isValid);
  }

  /** The checks of an update in order: the id is required, then well formed,
      then the update valid; only a valid update reaches the database, it never
      sets `courseId`, and it answers 200 exactly when the course exists. */
  lemma UpdateOrder(db: Db, body: Record, now: int, isValid: Value -> bool)
    ensures var e := UpdateAs(db, body, now, isValid);
      var courseId := Get(body, "courseId");
      var v := Validated(Course, body - {"courseId"}, true, now, isValid);
      && (!Truthy(courseId) ==> e == Effect(Fail(400, "Course ID is required"), []))
      && (Truthy(courseId) && !isValid(courseId) ==> e == Effect(Fail(400, "Invalid course ID format"), []))
      && (Truthy(courseId) && isValid(courseId) && v.Failure? ==> e.response.status == 400 && e.ops == [])
      && (Truthy(courseId) && isValid(courseId) && v.Success? ==>
            && e.ops == [UpdateCourse(AsObjectId(courseId), v.value)]
            && "courseId" !in v.value
            && (e.response.status == 200 <==> AsObjectId(courseId) in db.courses)
            && (e.response.status != 200 ==> e.response == Fail(404, "Course not found")))
  {
    var v := Validated(Course, body - {"courseId"}, true, now, isValid);
    if v.Success? {
      ValidationProps.TimestampsAndPassThrough(Course, body - {"courseId"}, true, now, isValid);
    }
  }

  /** A successful update keeps every field of the stored course that the
      update does not set, and the stored course and the answer agree. */
  lemma UpdateMerges(db: Db, body: Record, now: int, isValid: Value -> bool)
    requires Truthy(Get(body, "courseId")) && isValid(Get(body, "courseId"))
    requires AsObjectId(Get(body, "courseId")) in db.courses
    requires Validated(Course, body - {"courseId"}, true, now, isValid).Success?
    ensures var id := AsObjectId(Get(body, "courseId"));
      var changes := Validated(Course, body - {"courseId"}, true, now, isValid).value;
      var e := UpdateAs(db, body, now, isValid);
      var after := Replay(db, e.ops).courses;
      && after.Keys == db.courses.Keys
      && Get(e.response.body, "data") == Obj(after[id])
      && (forall k :: k !in changes ==> Get(after[id], k) == Get(db.courses[id], k))
      && (forall k :: k in changes ==> Get(after[id], k) == changes[k])
      && Get(after[id], "updatedAt") == Date(now)
      && forall other :: other in db.courses && other != id ==> after[other] == db.courses[other]
  {
    var e := UpdateAs(db, body, now, isValid);
    assert e.ops[1..] == [];
    ValidationProps.TimestampsAndPassThrough(Course, body - {"courseId"}, true, now, isValid);
  }

  // ---------------------------------------------------------------------------
  // DELETE

  /** The cascade, in the handler's order: questions, units, progress, course. */
  function Cascade(id: Value): seq<StoreOp> {
    [DeleteRelated(Questions, id), DeleteRelated(Units, id), DeleteRelated(UserProgress, id), DeleteCourse(id)]
  }

  /** The state after the cascade, collection by collection. */
  lemma ReplayCascade(db: Db, id: Value)
    ensures Replay(db, Cascade(id))
         == Db(db.courses - {id}, Without(db.questions, id), Without(db.units, id), Without(db.progress, id))
  {
    var ops := Cascade(id);
    var d1 := Apply(db, ops[0]);
    var d2 := Apply(d1, ops[1]);
    var d3 := Apply(d2, ops[2]);
    var d4 := Apply(d3, ops[3]);
    assert Replay(d4, []) == d4;
    assert Replay(d3, [ops[3]]) == d4;
    assert ops[2..] == [ops[2], ops[3]] && [ops[2], ops[3]][1..] == [ops[3]];
    assert Replay(d2, ops[2..]) == d4;
    assert ops[1..] == [ops[1]] + ops[2..];
    assert Replay(d1, ops[1..]) == d4;
  }

  /** What an administrator's `DELETE` does with the `id` parameter `courseId`. */
  function DeleteAs(db: Db, courseId: Option<string>, isValid: Value -> bool): Effect {
    if courseId.None? || courseId.value == "" || !isValid(Str(courseId.value)) then
      Effect(Fail(400, "Valid course ID is required"), [])
    else
      var id := AsObjectId(Str(courseId.value));
      if id !in db.courses then Effect(Fail(404, "Course not found"), [])
      else Effect(Done(200, "Course and all related data deleted successfully", None), Cascade(id))
  }

  /** `DELETE /api/courses?id=...` */
  function Delete(db: Db, users: map<Value, Record>, token: Option<string>, jwtSecret: string,
                  verify: (string, string) -> Option<Record>, isValid: Value -> bool,
                  courseId: Option<string>): Effect {
    match Authorize(users, token, jwtSecret, verify, isValid)
    case Denied(r) => Effect(r, [])
    case Granted(_) => DeleteAs(db, courseId, isValid)
  }

  /** The part of `DELETE` after the administrator check. */
  method DeleteAsAdmin(store: CourseStore, courseId: Option<string>, isValid: Value -> bool) returns (res: Response)
    modifies store
    ensures var e := DeleteAs(old(store.Snapshot()), courseId, isValid);
      && res == e.response
      && store.Snapshot() == Replay(old(store.Snapshot()), e.ops)
      && store.log == old(store.log) + e.ops
  {
    if courseId.None? || courseId.value == "" || !isValid(Str(courseId.value)) {
      return Fail(400, "Valid course ID is required");
    }
    var id := AsObjectId(Str(courseId.value));
    if id !in store.courses {
      return Fail(404, "Course not found");
    }
    ghost var db0 := store.Snapshot();
    store.DeleteMany(Questions, id);
    store.DeleteMany(Units, id);
    store.DeleteMany(UserProgress, id);
    store.DeleteOne(id);
    ReplayCascade(db0, id);
    assert store.log == old(store.log) + Cascade(id);
    res := Done(200, "Course and all related data deleted successfully", None);
  }

  method HandleDelete(store: CourseStore, token: Option<string>, jwtSecret: string,
                      verify: (string, string) -> Option<Record>, isValid: Value -> bool,
                      courseId: Option<string>) returns (res: Response)
    modifies store
    ensures var e := Delete(old(store.Snapshot()), store.users, token, jwtSecret, verify, isValid, courseId);
      && res == e.response
      && store.Snapshot() == Replay(old(store.Snapshot()), e.ops)
      && store.log == old(store.log) + e.ops
  {
    var access := Authorize(store.users, token, jwtSecret, verify, isValid);
    if access.Denied? {
      return access.response;
    }
    res := DeleteAsAdmin(store, courseId, isValid);
  }

  /** The checks of a delete in order: a missing or malformed id is 400 and an
      unknown course 404, both without a write; a known course is cascaded. */
  lemma DeleteOrder(db: Db, courseId: Option<string>, isValid: Value -> bool)
    ensures var e := DeleteAs(db, courseId, isValid);
      && (courseId.None? || courseId.value == "" || !isValid(Str(courseId.value)) ==>
            e == Effect(Fail(400, "Valid course ID is required"), []))
      && (courseId.Some? && courseId.value != "" && isValid(Str(courseId.value)) ==>
            && (Oid(Str(courseId.value)) !in db.courses ==> e == Effect(Fail(404, "Course not found"), []))
            && (Oid(Str(courseId.value)) in db.courses ==>
                  e.response.status == 200 && e.ops == Cascade(Oid(Str(courseId.value)))))
  {
  }

  /** After the cascade nothing of the course remains, and nothing of any other
      course was removed: every other document keeps its number of occurrences
      and every other course is as it was. */
  lemma CascadeRemovesExactlyTheCourse(db: Db, id: Value)
    ensures var after := Replay(db, Cascade(id));
      && after.courses.Keys == db.courses.Keys - {id}
      && (forall k :: k in after.courses ==> after.courses[k] == db.courses[k])
      && (forall d :: multiset(after.questions)[d] == if Get(d, "courseId") == id then 0 else multiset(db.questions)[d])
      && (forall d :: multiset(after.units)[d] == if Get(d, "courseId") == id then 0 else multiset(db.units)[d])
      && (forall d :: multiset(after.progress)[d] == if Get(d, "courseId") == id then 0 else multiset(db.progress)[d])
  {
    ReplayCascade(db, id);
    WithoutSpec(db.questions, id);
    WithoutSpec(db.units, id);
    WithoutSpec(db.progress, id);
  }

  /** No document that refers to the deleted course survives the cascade. */
  lemma CascadeLeavesNoOrphans(db: Db, id: Value)
    ensures var after := Replay(db, Cascade(id));
      && (forall d :: d in after.questions ==> Get(d, "courseId") != id)
      && (forall d :: d in after.units ==> Get(d, "courseId") != id)
      && (forall d :: d in after.progress ==> Get(d, "courseId") != id)
  {
    CascadeRemovesExactlyTheCourse(db, id);
    var after := Replay(db, Cascade(id));
    forall d | d in after.questions ensures Get(d, "courseId") != id {
      assert multiset(after.questions)[d] > 0;
    }
    forall d | d in after.units ensures Get(d, "courseId") != id {
      assert multiset(after.units)[d] > 0;
    }
    forall d | d in after.progress ensures Get(d, "courseId") != id {
      assert multiset(after.progress)[d] > 0;
    }
  }

  // ---------------------------------------------------------------------------
  // Across the handlers

  /** A request that is not an administrator's writes nothing, whichever
      handler receives it, and is answered with 401 or 403. */
  lemma DeniedChangesNothing(db: Db, users: map<Value, Record>, token: Option<string>, jwtSecret: string,
                             verify: (string, string) -> Option<Record>, isValid: Value -> bool,
                             data: Record, now: int, freshId: Value, duplicateError: string, courseId: Option<string>)
    requires Authorize(users, token, jwtSecret, verify, isValid).Denied?
    ensures var c := Create(db, users, token, jwtSecret, verify, isValid, data, now, freshId, duplicateError);
      var u := Update(db, users, token, jwtSecret, verify, isValid, data, now);
      var d := Delete(db, users, token, jwtSecret, verify, isValid, courseId);
      && c.ops == [] && u.ops == [] && d.ops == []
      && c.response == u.response == d.response
      && c.response.status in {401, 403}
  {
  }
}
