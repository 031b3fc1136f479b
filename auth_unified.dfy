/** The unified sign-in endpoint: an email that is already stored signs in, with
    Google or with a password, whichever the account was created with; an
    unknown email registers a new account. Either way the caller receives the
    `auth-token` session cookie. */
module AuthUnified {
  import opened Wrappers
  import opened JsText
  import opened Js
  import opened Identity

  /** `isGoogleStr === "true" || isGoogleStr === true` */
  predicate IsGoogleRequest(form: Form) {
    Field(form, "isGoogle") == Str("true") || Field(form, "isGoogle") == Bool(true)
  }

  /** `data.get("imageUrl") || ""` */
  function ImageUrl(form: Form): Value {
    var v := Field(form, "imageUrl");
    if Truthy(v) then v else Str("")
  }

  /** Only the exact text "true" selects Google; the image defaults to the empty
      string whenever it is missing or empty. */
  lemma FormFlags(form: Form)
    ensures IsGoogleRequest(form) <==> "isGoogle" in form && form["isGoogle"] == "true"
    ensures ImageUrl(form) == if "imageUrl" in form && form["imageUrl"] != "" then Str(form["imageUrl"]) else Str("")
  {
  }

  const PasswordAccountMessage: string := "Email exists with password login. Please use password instead."
  const GoogleAccountMessage: string := "Email exists with Google login. Please use Google sign-in instead."

  /** The catch block: a missing secret, a database failure, anything else. */
  function ServerError(e: Thrown): (r: Response)
    ensures r.status == 500 && r.cookie.None?
  {
    if Contains(e.message, "AUTH_SECRET") then Reply(500, "Server configuration error")
    else if e.name == "MongoError" || e.name == "MongoServerError" then Reply(500, "Database error")
    else Response(500, map["message" := Str("Authentication error"), "error" := Str(e.message)], None)
  }

  /** The token payload: the stored id, the email, the sign-in method and the name. */
  function Claims(id: nat, email: Value, isGoogle: bool, name: Value): Json {
    map["id" := IdValue(id), "email" := email, "isGoogle" := Bool(isGoogle), "name" := name]
  }

  /** The `user` object of a successful response. */
  function Profile(email: Value, name: Value, isGoogle: bool, imageUrl: Value): Json {
    map["email" := email, "name" := name, "isGoogle" := Bool(isGoogle), "imageUrl" := imageUrl]
  }

  /** Sign the claims and answer 200 with the cookie; a signing failure is caught. */
  function SignedIn(message: string, claims: Json, user: Json, env: Env, crypto: Crypto): Response {
    match EncodeJwt(claims, env, crypto)
    case Failure(e) => ServerError(e)
    case Success(token) =>
      Response(200, map["message" := Str(message), "user" := Obj(user)], Some(AuthCookie(token, env)))
  }

  /** The sign-in flow for the stored account `existing` under `email`. */
  function LoginOutcome(form: Form, email: Value, existing: Stored<User>, env: Env, crypto: Crypto, now: int): Outcome<User> {
    var u := existing.doc;
    var google := IsGoogleRequest(form);
    var password := Field(form, "password");
    if google && !u.isGoogle then Outcome(Reply(400, PasswordAccountMessage), None)
    else if !google && u.isGoogle then Outcome(Reply(400, GoogleAccountMessage), None)
    else if !google && !Truthy(password) then Outcome(Reply(400, "Password is required"), None)
    else if !google && u.password.None? then Outcome(ServerError(crypto.missingArgument), None)
    else if !google && !crypto.compare(password.s, u.password.value) then Outcome(Reply(400, "Invalid password"), None)
    else
      Outcome(
        SignedIn("Login successful", Claims(existing.id, u.email, google, u.name),
                 Profile(email, u.name, google, u.imageUrl), env, crypto),
        Some(Updated(email, u.(lastLogin := now))))
  }

  /** The registration flow for an unknown `email`; the new account gets `id`. */
  function RegisterOutcome(form: Form, email: Value, id: nat, env: Env, crypto: Crypto, now: int): Outcome<User> {
    var google := IsGoogleRequest(form);
    var name := Field(form, "name");
    var password := Field(form, "password");
    var image := ImageUrl(form);
    if google && !Truthy(name) then Outcome(Reply(400, "Name is required for registration"), None)
    else if !google && !Truthy(password) then Outcome(Reply(400, "Password is required for registration"), None)
    else if !google && !Truthy(name) then Outcome(Reply(400, "Name is required for registration"), None)
    else
      var stored := if google then None else Some(crypto.hash(password.s));
      Outcome(
        SignedIn("Registration successful", Claims(id, email, google, name),
                 Profile(email, name, google, image), env, crypto),
        Some(Inserted(email, Stored(id, NewUser(email, google, image, name, now, stored)))))
  }

  /** What `POST /api/auth-unified` answers and writes, given the Users
      collection `docs` whose next insert gets `nextId`. */
  function Auth(docs: map<Value, Stored<User>>, nextId: nat, form: Form, env: Env, crypto: Crypto, now: int): Outcome<User> {
    var email := Field(form, "email");
    if !Truthy(email) then Outcome(Reply(400, "Email is required"), None)
    else if email in docs then LoginOutcome(form, email, docs[email], env, crypto, now)
    else RegisterOutcome(form, email, nextId, env, crypto, now)
  }

  /** `handleAuth`: read the form, look the email up, then update or insert at
      most once and answer with the cookie. */
  method HandleAuth(users: Collection<User>, form: Form, env: Env, crypto: Crypto, now: int) returns (res: Response)
    modifies users
    ensures var o := Auth(old(users.docs), old(users.nextId), form, env, crypto, now);
      && res == o.response
      && users.docs == Apply(old(users.docs), o.write)
      && users.log == old(users.log) + Writes(o.write)
      && users.nextId == NextId(old(users.nextId), o.write)
  {
    var email := Field(form, "email");
    var google := IsGoogleRequest(form);
    var password := Field(form, "password");
    var name := Field(form, "name");
    var image := ImageUrl(form);
    if !Truthy(email) {
      return Reply(400, "Email is required");
    }
    var existing := users.FindOne(email);
    if existing.Some? {
      var u := existing.value.doc;
      if google && !u.isGoogle {
        return Reply(400, PasswordAccountMessage);
      }
      if !google && u.isGoogle {
        return Reply(400, GoogleAccountMessage);
      }
      if !google {
        if !Truthy(password) {
          return Reply(400, "Password is required");
        }
        if u.password.None? {
          return ServerError(crypto.missingArgument);
        }
        if !crypto.compare(password.s, u.password.value) {
          return Reply(400, "Invalid password");
        }
      }
      users.UpdateOne(email, u.(lastLogin := now));
      res := SignedIn("Login successful", Claims(existing.value.id, u.email, google, u.name),
                      Profile(email, u.name, google, u.imageUrl), env, crypto);
    } else {
      if google && !Truthy(name) {
        return Reply(400, "Name is required for registration");
      }
      if !google && !Truthy(password) {
        return Reply(400, "Password is required for registration");
      }
      if !google && !Truthy(name) {
        return Reply(400, "Name is required for registration");
      }
      var hashed := if google then None else Some(crypto.hash(password.s));
      var id, _ := users.InsertOne(email, NewUser(email, google, image, name, now, hashed));
      res := SignedIn("Registration successful", Claims(id, email, google, name),
                      Profile(email, name, google, image), env, crypto);
    }
  }

  // ---------------------------------------------------------------------------
  // Properties of the endpoint

  /** Without an email the answer is 400 before the collection is consulted:
      the outcome is the same whatever is stored. */
  lemma EmailRequired(docs: map<Value, Stored<User>>, nextId: nat, form: Form, env: Env, crypto: Crypto, now: int)
    requires !Truthy(Field(form, "email"))
    ensures Auth(docs, nextId, form, env, crypto, now) == Outcome(Reply(400, "Email is required"), None)
  {
  }

  /** Signing in with the other method than the account's is refused with a
      message naming the account's method, and nothing is written. */
  lemma MethodMismatch(docs: map<Value, Stored<User>>, nextId: nat, form: Form, env: Env, crypto: Crypto, now: int)
    requires Truthy(Field(form, "email")) && Field(form, "email") in docs
    requires docs[Field(form, "email")].doc.isGoogle != IsGoogleRequest(form)
    ensures Auth(docs, nextId, form, env, crypto, now)
         == Outcome(Reply(400, if IsGoogleRequest(form) then PasswordAccountMessage else GoogleAccountMessage), None)
  {
  }

  /** A password account: a missing password and a wrong password are refused
      without a write. */
  lemma PasswordChecks(docs: map<Value, Stored<User>>, nextId: nat, form: Form, env: Env, crypto: Crypto, now: int)
    requires Truthy(Field(form, "email")) && Field(form, "email") in docs
    requires !IsGoogleRequest(form) && !docs[Field(form, "email")].doc.isGoogle
    ensures !Truthy(Field(form, "password")) ==>
              Auth(docs, nextId, form, env, crypto, now) == Outcome(Reply(400, "Password is required"), None)
    ensures Truthy(Field(form, "password")) && docs[Field(form, "email")].doc.password.Some?
            && !crypto.compare(form["password"], docs[Field(form, "email")].doc.password.value) ==>
              Auth(docs, nextId, form, env, crypto, now) == Outcome(Reply(400, "Invalid password"), None)
  {
  }

  /** The sign-in the account's method allows: the one write is the new
      `lastLogin`, and the cookie carries the signed stored identity. */
  lemma LoginSucceeds(docs: map<Value, Stored<User>>, nextId: nat, form: Form, env: Env, crypto: Crypto, now: int)
    requires Truthy(Field(form, "email")) && Field(form, "email") in docs
    requires var u := docs[Field(form, "email")].doc;
      && u.isGoogle == IsGoogleRequest(form)
      && (!u.isGoogle ==> Truthy(Field(form, "password")) && u.password.Some? && crypto.compare(form["password"], u.password.value))
    requires env.authSecret != ""
    ensures var s := docs[Field(form, "email")];
      var o := Auth(docs, nextId, form, env, crypto, now);
      && o.response.status == 200 && Message(o.response) == Str("Login successful")
      && o.response.cookie == Some(AuthCookie(crypto.sign(Claims(s.id, s.doc.email, s.doc.isGoogle, s.doc.name), env.authSecret, TokenLifetime), env))
      && o.write == Some(Updated(Field(form, "email"), s.doc.(lastLogin := now)))
  {
  }

  /** A successful registration inserts one active account under the next id,
      verified exactly when it is a Google account, holding the password's hash
      exactly when it is not. */
  lemma RegistrationStores(docs: map<Value, Stored<User>>, nextId: nat, form: Form, env: Env, crypto: Crypto, now: int)
    requires Truthy(Field(form, "email")) && Field(form, "email") !in docs
    requires Truthy(Field(form, "name")) && (IsGoogleRequest(form) || Truthy(Field(form, "password")))
    ensures var o := Auth(docs, nextId, form, env, crypto, now);
      && o.write.Some? && o.write.value.Inserted?
      && o.write.value.key == Field(form, "email") && o.write.value.stored.id == nextId
      && var u := o.write.value.stored.doc;
      && u.isActive && u.isVerified == IsGoogleRequest(form) && u.isGoogle == IsGoogleRequest(form)
      && u.password == (if IsGoogleRequest(form) then None else Some(crypto.hash(form["password"])))
      && u.imageUrl == ImageUrl(form)
      && (env.authSecret != "" ==> o.response.status == 200 && Message(o.response) == Str("Registration successful"))
  {
  }

  /** Registration wants a name either way; with a password it asks for the
      password first. */
  lemma RegistrationRequires(docs: map<Value, Stored<User>>, nextId: nat, form: Form, env: Env, crypto: Crypto, now: int)
    requires Truthy(Field(form, "email")) && Field(form, "email") !in docs
    ensures !IsGoogleRequest(form) && !Truthy(Field(form, "password")) ==>
              Auth(docs, nextId, form, env, crypto, now) == Outcome(Reply(400, "Password is required for registration"), None)
    ensures (IsGoogleRequest(form) || Truthy(Field(form, "password"))) && !Truthy(Field(form, "name")) ==>
              Auth(docs, nextId, form, env, crypto, now) == Outcome(Reply(400, "Name is required for registration"), None)
  {
  }

  /** Every request writes at most once: a 400 writes nothing, a write is an
      insert exactly when the email was unknown, and the cookie is set exactly
      on a 200, which always follows a write. */
  lemma OneWriteAtMost(docs: map<Value, Stored<User>>, nextId: nat, form: Form, env: Env, crypto: Crypto, now: int)
    ensures var o := Auth(docs, nextId, form, env, crypto, now);
      && |Writes(o.write)| <= 1
      && (o.response.status == 400 ==> o.write.None?)
      && (o.write.Some? ==> o.write.value.key == Field(form, "email") && (o.write.value.Inserted? <==> Field(form, "email") !in docs))
      && (o.response.cookie.Some? <==> o.response.status == 200)
      && (o.response.status == 200 ==> o.write.Some?)
      && o.response.status in {200, 400, 500}
  {
  }

  /** Without a secret no sign-in succeeds, yet the account is still written:
      the caller sees the configuration error after the update or insert. */
  lemma MissingSecretAfterWrite(docs: map<Value, Stored<User>>, nextId: nat, form: Form, env: Env, crypto: Crypto, now: int)
    requires env.authSecret == ""
    ensures var o := Auth(docs, nextId, form, env, crypto, now);
      && o.response.status != 200
      && (o.write.Some? ==> o.response == Reply(500, "Server configuration error"))
  {
    assert Contains("AUTH_SECRET environment variable is not set", "AUTH_SECRET") by {
      assert StartsWith("AUTH_SECRET environment variable is not set", "AUTH_SECRET");
    }
  }

  /** The catch block classifies errors by message first, then by name. */
  lemma ErrorClasses(e: Thrown)
    ensures IsInfix("AUTH_SECRET", e.message) ==> ServerError(e) == Reply(500, "Server configuration error")
    ensures !IsInfix("AUTH_SECRET", e.message) && e.name in {"MongoError", "MongoServerError"} ==>
              ServerError(e) == Reply(500, "Database error")
    ensures !IsInfix("AUTH_SECRET", e.message) && e.name !in {"MongoError", "MongoServerError"} ==>
              Message(ServerError(e)) == Str("Authentication error") && Get(ServerError(e).body, "error") == Str(e.message)
  {
  }

  /** Registering with a password and then signing in with the same email and
      password succeeds, given that a password matches its own hash. */
  lemma RegisterThenLogin(docs: map<Value, Stored<User>>, nextId: nat, form: Form, login: Form, env: Env, crypto: Crypto, now: int, later: int)
    requires HashSound(crypto) && env.authSecret != ""
    requires Truthy(Field(form, "email")) && Field(form, "email") !in docs
    requires !IsGoogleRequest(form) && Truthy(Field(form, "password")) && Truthy(Field(form, "name"))
    requires Field(login, "email") == Field(form, "email") && Field(login, "password") == Field(form, "password")
    requires !IsGoogleRequest(login)
    ensures var o := Auth(docs, nextId, form, env, crypto, now);
      var after := Apply(docs, o.write);
      && o.response.status == 200
      && Auth(after, NextId(nextId, o.write), login, env, crypto, later).response.status == 200
  {
    RegistrationStores(docs, nextId, form, env, crypto, now);
    var o := Auth(docs, nextId, form, env, crypto, now);
    var after := Apply(docs, o.write);
    var email := Field(form, "email");
    assert after[email].doc.password == Some(crypto.hash(form["password"]));
    assert crypto.compare(login["password"], crypto.hash(form["password"]));
    LoginSucceeds(after, NextId(nextId, o.write), login, env, crypto, later);
  }

  /** A Google registration followed by a Google sign-in with the same email:
      both answer 200, and the sign-in's cookie signs the same identity as the
      registration's. */
  lemma GoogleRegisterThenLogin(docs: map<Value, Stored<User>>, nextId: nat, form: Form, login: Form, env: Env, crypto: Crypto, now: int, later: int)
    requires env.authSecret != ""
    requires Truthy(Field(form, "email")) && Field(form, "email") !in docs
    requires IsGoogleRequest(form) && Truthy(Field(form, "name"))
    requires Field(login, "email") == Field(form, "email") && IsGoogleRequest(login)
    ensures var o := Auth(docs, nextId, form, env, crypto, now);
      var again := Auth(Apply(docs, o.write), NextId(nextId, o.write), login, env, crypto, later);
      && o.response.status == 200
      && again.response.status == 200 && Message(again.response) == Str("Login successful")
      && again.response.cookie == o.response.cookie
  {
    RegistrationStores(docs, nextId, form, env, crypto, now);
    var o := Auth(docs, nextId, form, env, crypto, now);
    var after := Apply(docs, o.write);
    LoginSucceeds(after, NextId(nextId, o.write), login, env, crypto, later);
  }
}
