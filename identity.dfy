/** What the sign-in and registration handlers share: the submitted form, the
    JSON responses with their `auth-token` cookie, token issuing, password
    hashing, and a MongoDB collection whose documents are found by email.
    bcrypt and jsonwebtoken are the function-valued fields of `Crypto`; their
    cryptography is not modelled. */
module Identity {
  import opened Wrappers
  import opened JsText
  import opened Js

  /** A JSON object as built by the handlers (a response body, a token payload). */
  type Json = map<string, Value>

  /** `request.formData()`: the submitted text fields by name. */
  type Form = map<string, string>

  /** `data.get(k)`: the field's text, or null when it was not submitted. */
  function Field(form: Form, k: string): Value {
    if k in form then Str(form[k]) else Null
  }

  /** An exception as the catch blocks see it. */
  datatype Thrown = Thrown(name: string, message: string)

  /** The process environment the handlers read. */
  datatype Env = Env(authSecret: string, production: bool)

  /** bcrypt's `hash` and `compare`, jsonwebtoken's `sign` (payload, secret,
      lifetime in seconds), and the error bcrypt throws when an argument is
      missing. */
  datatype Crypto = Crypto(
    hash: string -> string,
    compare: (string, string) -> bool,
    sign: (Json, string, nat) -> string,
    missingArgument: Thrown)

  /** Hashing is sound: a password matches its own hash. */
  ghost predicate HashSound(crypto: Crypto) {
    forall p :: crypto.compare(p, crypto.hash(p))
  }

  /** The token lifetime `expiresIn: "4h"`, in seconds. */
  const TokenLifetime: nat := 4 * 60 * 60

  /** `encodeJWT(payload)`: refuses to sign without a secret. */
  function EncodeJwt(payload: Json, env: Env, crypto: Crypto): (r: Result<string, Thrown>)
    ensures r.Success? <==> env.authSecret != ""
    ensures r.Success? ==> r.value == crypto.sign(payload, env.authSecret, TokenLifetime)
  {
    if env.authSecret == "" then Failure(Thrown("Error", "AUTH_SECRET environment variable is not set"))
    else Success(crypto.sign(payload, env.authSecret, TokenLifetime))
  }

  /** The attributes of a Set-Cookie header (section 4.1 of RFC 6265). */
  datatype Cookie = Cookie(
    name: string, value: string, httpOnly: bool, secure: bool,
    sameSite: string, path: string, maxAge: nat)

  /** The session cookie every successful sign-in sets. */
  function AuthCookie(token: string, env: Env): (c: Cookie)
    ensures c.name == "auth-token" && c.value == token
    ensures c.httpOnly && c.secure == env.production && c.sameSite == "strict" && c.path == "/"
    ensures c.maxAge == TokenLifetime
  {
    Cookie("auth-token", token, true, env.production, "strict", "/", 4 * 60 * 60)
  }

  /** `NextResponse.json(body, { status })`, with the cookie it may carry. */
  datatype Response = Response(status: nat, body: Json, cookie: Option<Cookie>)

  function Reply(status: nat, message: string): Response {
    Response(status, map["message" := Str(message)], None)
  }

  function Message(r: Response): Value {
    Get(r.body, "message")
  }

  /** A document of the Users collection. `password` is the bcrypt hash, absent
      for accounts that sign in with Google. */
  datatype User = User(
    email: Value, isGoogle: bool, imageUrl: Value, name: Value,
    createdAt: int, updatedAt: int, lastLogin: int,
    isActive: bool, isVerified: bool, password: Option<string>)

  /** A new account as both registration handlers insert it: active, stamped
      with the same time three times, and verified exactly when it is a Google
      account. */
  function NewUser(email: Value, isGoogle: bool, imageUrl: Value, name: Value, now: int, password: Option<string>): (u: User)
    ensures u.email == email && u.isGoogle == isGoogle && u.imageUrl == imageUrl && u.name == name
    ensures u.isActive && u.isVerified == isGoogle && u.password == password
    ensures u.createdAt == now && u.updatedAt == now && u.lastLogin == now
  {
    User(email, isGoogle, imageUrl, name, now, now, now, true, isGoogle, password)
  }

  /** A stored document with the `_id` the driver gave it. */
  datatype Stored<D> = Stored(id: nat, doc: D)

  /** The ObjectId the driver assigned, identified by its sequence number. */
  function IdValue(id: nat): Value {
    Oid(Num(id as real))
  }

  /** One write to a collection, keyed by the email the handlers query by. */
  datatype Write<D> = Inserted(key: Value, stored: Stored<D>) | Updated(key: Value, doc: D)

  /** The collection after `w`: an update replaces the document and keeps its id. */
  function Apply<D>(docs: map<Value, Stored<D>>, w: Option<Write<D>>): map<Value, Stored<D>> {
    match w
    case None => docs
    case Some(Inserted(key, stored)) => docs[key := stored]
    case Some(Updated(key, doc)) =>
      if key in docs then docs[key := Stored(docs[key].id, doc)] else docs
  }

  function Writes<D>(w: Option<Write<D>>): seq<Write<D>> {
    if w.Some? then [w.value] else []
  }

  /** The id the next insert receives after `w`. */
  function NextId<D>(nextId: nat, w: Option<Write<D>>): nat {
    if w.Some? && w.value.Inserted? then nextId + 1 else nextId
  }

  /** What a handler does: the response it returns and the one write, if any,
      it makes before returning. */
  datatype Outcome<D> = Outcome(response: Response, write: Option<Write<D>>)

  /** A MongoDB collection queried by `{ email }`, with the log of the writes
      made to it. `acknowledges` is the write concern's answer to an insert. */
  class Collection<D> {
    var docs: map<Value, Stored<D>>
    var log: seq<Write<D>>
    var nextId: nat
    const acknowledges: bool

    constructor(docs: map<Value, Stored<D>>, nextId: nat, acknowledges: bool)
      ensures this.docs == docs && log == [] && this.nextId == nextId
      ensures this.acknowledges == acknowledges
    {
      this.docs := docs;
      log := [];
      this.nextId := nextId;
      this.acknowledges := acknowledges;
    }

    /** `findOne({ email: key })` */
    function FindOne(key: Value): (r: Option<Stored<D>>)
      reads this
      ensures r.Some? <==> key in docs
      ensures r.Some? ==> r.value == docs[key]
    {
      if key in docs then Some(docs[key]) else None
    }

    /** `insertOne(doc)`: the driver assigns the next id. */
    method InsertOne(key: Value, doc: D) returns (id: nat, acknowledged: bool)
      modifies this
      ensures id == old(nextId) && acknowledged == acknowledges
      ensures docs == Apply(old(docs), Some(Inserted(key, Stored(id, doc))))
      ensures log == old(log) + [Inserted(key, Stored(id, doc))]
      ensures nextId == old(nextId) + 1
    {
      id := nextId;
      acknowledged := acknowledges;
      docs := docs[key := Stored(id, doc)];
      log := log + [Inserted(key, Stored(id, doc))];
      nextId := nextId + 1;
    }

    /** `updateOne({ email: key }, { $set: ... })`, given the updated document;
        nothing matches when the key is absent. */
    method UpdateOne(key: Value, doc: D)
      modifies this
      ensures docs == Apply(old(docs), Some(Updated(key, doc)))
      ensures log == old(log) + [Updated(key, doc)]
      ensures nextId == old(nextId)
    {
      if key in docs {
        docs := docs[key := Stored(docs[key].id, doc)];
      }
      log := log + [Updated(key, doc)];
    }
  }

  /** An update keeps the set of stored emails and every id; an insert adds one
      email and leaves the other documents alone. */
  lemma ApplyKeeps<D>(docs: map<Value, Stored<D>>, w: Option<Write<D>>, k: Value)
    requires k in docs && !(w.Some? && w.value.Inserted? && w.value.key == k)
    ensures k in Apply(docs, w) && Apply(docs, w)[k].id == docs[k].id
    ensures (w.None? || w.value.key != k) ==> Apply(docs, w)[k] == docs[k]
  {
  }
}
