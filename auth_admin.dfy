/** The administrator endpoint: an email and a password either sign an existing
    administrator in or register a new one. */
module AdminAuth {
  import opened Wrappers
  import opened Js
  import opened Identity

  /** A document of the Admin collection. */
  datatype Admin = Admin(email: Value, password: Option<string>, name: Value, createdAt: int)

  /** The token payload: id, email and name, with no sign-in method and no role. */
  function AdminClaims(id: nat, email: Value, name: Value): (c: Json)
    ensures c.Keys == {"id", "email", "name"}
  {
    map["id" := IdValue(id), "email" := email, "name" := name]
  }

  /** The catch block answers every failure the same way. */
  const InternalError: Response := Reply(500, "Internal server error")

  /** Sign the claims and answer `status` with the cookie. */
  function Session(status: nat, message: string, claims: Json, env: Env, crypto: Crypto): (r: Response)
    ensures r.cookie.Some? <==> env.authSecret != ""
    ensures r.cookie.Some? ==> r.status == status && r.cookie.value.maxAge == TokenLifetime
    ensures r.cookie.None? ==> r == InternalError
  {
    match EncodeJwt(claims, env, crypto)
    case Failure(_) => InternalError
    case Success(token) => Response(status, map["message" := Str(message)], Some(AuthCookie(token, env)))
  }

  /** What `POST /api/auth/admin` answers and writes, given the Admin collection
      `docs`, whose next insert gets `nextId` and is acknowledged or not. */
  function Respond(docs: map<Value, Stored<Admin>>, nextId: nat, acknowledges: bool, form: Form, env: Env, crypto: Crypto, now: int): Outcome<Admin> {
    var email := Field(form, "email");
    var password := Field(form, "password");
    var name := Field(form, "name");
    if !Truthy(email) || !Truthy(password) then Outcome(Reply(400, "Email, password, are required"), None)
    else if email in docs then
      var a := docs[email];
      if a.doc.password.None? then Outcome(InternalError, None)
      else if crypto.compare(password.s, a.doc.password.value) then
        Outcome(Session(200, "Login successful", AdminClaims(a.id, a.doc.email, a.doc.name), env, crypto), None)
      else Outcome(Reply(400, "Admin with this email already exists"), None)
    else
      var w := Some(Inserted(email, Stored(nextId, Admin(email, Some(crypto.hash(password.s)), name, now))));
      if acknowledges then Outcome(Session(201, "Admin registered successfully", AdminClaims(nextId, email, name), env, crypto), w)
      else Outcome(Reply(500, "Failed to register admin"), w)
  }

  /** `handelRegistrationAdmin`: check the form, look the email up, then sign in
      or insert the new administrator. */
  method HandleAdmin(admins: Collection<Admin>, form: Form, env: Env, crypto: Crypto, now: int) returns (res: Response)
    modifies admins
    ensures var o := Respond(old(admins.docs), old(admins.nextId), admins.acknowledges, form, env, crypto, now);
      && res == o.response
      && admins.docs == Apply(old(admins.docs), o.write)
      && admins.log == old(admins.log) + Writes(o.write)
      && admins.nextId == NextId(old(admins.nextId), o.write)
  {
    var email := Field(form, "email");
    var password := Field(form, "password");
    var name := Field(form, "name");
    if !Truthy(email) || !Truthy(password) {
      return Reply(400, "Email, password, are required");
    }
    var existing := admins.FindOne(email);
    if existing.Some? {
      var a := existing.value;
      if a.doc.password.None? {
        return InternalError;
      }
      if crypto.compare(password.s, a.doc.password.value) {
        return Session(200, "Login successful", AdminClaims(a.id, a.doc.email, a.doc.name), env, crypto);
      }
      return Reply(400, "Admin with this email already exists");
    }
    var hashed := crypto.hash(password.s);
    var id, acknowledged := admins.InsertOne(email, Admin(email, Some(hashed), name, now));
    if acknowledged {
      res := Session(201, "Admin registered successfully", AdminClaims(id, email, name), env, crypto);
    } else {
      res := Reply(500, "Failed to register admin");
    }
  }

  // ---------------------------------------------------------------------------
  // Properties of the endpoint

  /** Email and password are required; the name never is. */
  lemma CredentialsRequired(docs: map<Value, Stored<Admin>>, nextId: nat, acknowledges: bool, form: Form, env: Env, crypto: Crypto, now: int)
    ensures !Truthy(Field(form, "email")) || !Truthy(Field(form, "password")) <==>
              Respond(docs, nextId, acknowledges, form, env, crypto, now) == Outcome(Reply(400, "Email, password, are required"), None)
  {
    var o := Respond(docs, nextId, acknowledges, form, env, crypto, now);
    if Message(o.response) == Str("Admin with this email already exists") {
      assert "Admin with this email already exists"[0] != "Email, password, are required"[0];
    }
  }

  /** A stored administrator is never modified: the only write there is is the
      insert of an email that was not stored. */
  lemma ExistingAdminsKept(docs: map<Value, Stored<Admin>>, nextId: nat, acknowledges: bool, form: Form, env: Env, crypto: Crypto, now: int)
    ensures var o := Respond(docs, nextId, acknowledges, form, env, crypto, now);
      && |Writes(o.write)| <= 1
      && (o.write.Some? ==> o.write.value.Inserted? && o.write.value.key !in docs)
      && forall k :: k in docs ==> k in Apply(docs, o.write) && Apply(docs, o.write)[k] == docs[k]
  {
  }

  /** A stored administrator with the right password signs in with 200 and a
      cookie whose token carries the stored id, email and name; a wrong password
      is refused with 400, without a cookie and without a write. */
  lemma ExistingAdminSignsIn(docs: map<Value, Stored<Admin>>, nextId: nat, acknowledges: bool, form: Form, env: Env, crypto: Crypto, now: int)
    requires Truthy(Field(form, "email")) && Truthy(Field(form, "password")) && Field(form, "email") in docs
    requires docs[Field(form, "email")].doc.password.Some? && env.authSecret != ""
    ensures var a := docs[Field(form, "email")];
      var o := Respond(docs, nextId, acknowledges, form, env, crypto, now);
      if crypto.compare(form["password"], a.doc.password.value) then
        && o.response.status == 200 && Message(o.response) == Str("Login successful")
        && o.response.cookie == Some(AuthCookie(crypto.sign(AdminClaims(a.id, a.doc.email, a.doc.name), env.authSecret, TokenLifetime), env))
        && o.write.None?
      else
        o == Outcome(Reply(400, "Admin with this email already exists"), None)
  {
  }

  /** An unknown email is inserted with the password's hash; the answer is 201
      with the cookie when the insert is acknowledged, else 500. */
  lemma NewAdminRegistered(docs: map<Value, Stored<Admin>>, nextId: nat, acknowledges: bool, form: Form, env: Env, crypto: Crypto, now: int)
    requires Truthy(Field(form, "email")) && Truthy(Field(form, "password")) && Field(form, "email") !in docs
    requires env.authSecret != ""
    ensures var o := Respond(docs, nextId, acknowledges, form, env, crypto, now);
      && o.write == Some(Inserted(Field(form, "email"), Stored(nextId, Admin(Field(form, "email"), Some(crypto.hash(form["password"])), Field(form, "name"), now))))
      && (acknowledges ==> o.response.status == 201 && o.response.cookie.Some?)
      && (!acknowledges ==> o.response == Reply(500, "Failed to register admin"))
  {
  }

  /** Registering an administrator and then presenting the same email and
      password signs in, given that a password matches its own hash. */
  lemma AdminRegisterThenLogin(docs: map<Value, Stored<Admin>>, nextId: nat, acknowledges: bool, form: Form, env: Env, crypto: Crypto, now: int, later: int)
    requires HashSound(crypto) && env.authSecret != ""
    requires Truthy(Field(form, "email")) && Truthy(Field(form, "password")) && Field(form, "email") !in docs
    ensures var o := Respond(docs, nextId, acknowledges, form, env, crypto, now);
      Respond(Apply(docs, o.write), NextId(nextId, o.write), acknowledges, form, env, crypto, later).response.status == 200
  {
    NewAdminRegistered(docs, nextId, acknowledges, form, env, crypto, now);
    var o := Respond(docs, nextId, acknowledges, form, env, crypto, now);
    var after := Apply(docs, o.write);
    assert crypto.compare(form["password"], crypto.hash(form["password"]));
    ExistingAdminSignsIn(after, NextId(nextId, o.write), acknowledges, form, env, crypto, later);
  }
}
