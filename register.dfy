/** The registration endpoint: inserts a new account unless the email is
    already stored. It sets no cookie. */
module Register {
  import opened Wrappers
  import opened Js
  import opened Identity
  import AuthUnified

  /** The catch block: the error's message is passed back. */
  function CreationError(e: Thrown): (r: Response)
    ensures r.status == 500 && r.cookie.None? && Get(r.body, "error") == Str(e.message)
  {
    Response(500, map["message" := Str("Error creating user"), "error" := Str(e.message)], None)
  }

  /** What `POST /api/register` answers and writes, given the Users collection
      `docs` whose next insert gets `nextId`. The email is not checked, so a
      missing one is looked up, and stored, as null. */
  function Registration(docs: map<Value, Stored<User>>, nextId: nat, form: Form, crypto: Crypto, now: int): Outcome<User> {
    var email := Field(form, "email");
    var google := Truthy(Field(form, "isGoogle"));
    var password := Field(form, "password");
    if email in docs then Outcome(Reply(400, "Email already exists"), None)
    else if google then
      Outcome(Reply(200, "User created successfully"),
              Some(Inserted(email, Stored(nextId, NewUser(email, true, Field(form, "imageUrl"), Field(form, "name"), now, None)))))
    else if !password.Str? then Outcome(CreationError(crypto.missingArgument), None)
    else
      Outcome(Response(200, map["message" := Str("User created successfully"), "userId" := IdValue(nextId)], None),
              Some(Inserted(email, Stored(nextId, NewUser(email, false, Field(form, "imageUrl"), Field(form, "name"), now, Some(crypto.hash(password.s)))))))
  }

  /** `handleRegister` */
  method HandleRegister(users: Collection<User>, form: Form, crypto: Crypto, now: int) returns (res: Response)
    modifies users
    ensures var o := Registration(old(users.docs), old(users.nextId), form, crypto, now);
      && res == o.response
      && users.docs == Apply(old(users.docs), o.write)
      && users.log == old(users.log) + Writes(o.write)
      && users.nextId == NextId(old(users.nextId), o.write)
  {
    var email := Field(form, "email");
    var isGoogle := Field(form, "isGoogle");
    var existing := users.FindOne(email);
    if existing.Some? {
      return Reply(400, "Email already exists");
    }
    if Truthy(isGoogle) {
      var _, _ := users.InsertOne(email, NewUser(email, true, Field(form, "imageUrl"), Field(form, "name"), now, None));
      return Reply(200, "User created successfully");
    }
    var password := Field(form, "password");
    if !password.Str? {
      return CreationError(crypto.missingArgument);
    }
    var hashed := crypto.hash(password.s);
    var id, _ := users.InsertOne(email, NewUser(email, false, Field(form, "imageUrl"), Field(form, "name"), now, Some(hashed)));
    res := Response(200, map["message" := Str("User created successfully"), "userId" := IdValue(id)], None);
  }

  // ---------------------------------------------------------------------------
  // Properties of the endpoint

  /** A stored email is refused and nothing is inserted; otherwise exactly one
      account is inserted unless the password is missing on the password path. */
  lemma InsertIfAbsent(docs: map<Value, Stored<User>>, nextId: nat, form: Form, crypto: Crypto, now: int)
    ensures var o := Registration(docs, nextId, form, crypto, now);
      && (Field(form, "email") in docs <==> o == Outcome(Reply(400, "Email already exists"), None))
      && (o.write.Some? <==> Field(form, "email") !in docs && (Truthy(Field(form, "isGoogle")) || "password" in form))
      && (o.write.Some? ==> o.write == Some(Inserted(Field(form, "email"), o.write.value.stored)) && o.write.value.stored.id == nextId)
      && o.response.cookie.None?
  {
  }

  /** The Google flag is the raw form text: any non-empty text, "false"
      included, takes the Google path. */
  lemma RawGoogleFlag(docs: map<Value, Stored<User>>, nextId: nat, form: Form, crypto: Crypto, now: int)
    requires Field(form, "email") !in docs
    requires "isGoogle" in form && form["isGoogle"] == "false"
    ensures var o := Registration(docs, nextId, form, crypto, now);
      o.write.Some? && o.write.value.stored.doc.isGoogle && o.write.value.stored.doc.password.None?
  {
  }

  /** What each path stores and answers: the Google path stores a verified
      account without a password and answers without the id; the password path
      stores an unverified account with the password's hash and answers with the
      new id. Both store an active account stamped with `now`. */
  lemma StoredAccount(docs: map<Value, Stored<User>>, nextId: nat, form: Form, crypto: Crypto, now: int)
    requires Field(form, "email") !in docs
    requires Truthy(Field(form, "isGoogle")) || "password" in form
    ensures var o := Registration(docs, nextId, form, crypto, now);
      var u := o.write.value.stored.doc;
      && o.response.status == 200 && Message(o.response) == Str("User created successfully")
      && u.isActive && u.createdAt == now && u.updatedAt == now && u.lastLogin == now
      && u.email == Field(form, "email") && u.name == Field(form, "name") && u.imageUrl == Field(form, "imageUrl")
      && if Truthy(Field(form, "isGoogle")) then
           u.isGoogle && u.isVerified && u.password.None? && "userId" !in o.response.body
         else
           !u.isGoogle && !u.isVerified && u.password == Some(crypto.hash(form["password"]))
           && Get(o.response.body, "userId") == IdValue(nextId)
  {
  }

  /** An account registered here with `isGoogle` set to "false" is stored as a
      Google account, so the unified endpoint then refuses its password
      sign-in and asks for Google instead. */
  lemma FalseFlagLocksOutPassword(docs: map<Value, Stored<User>>, nextId: nat, form: Form, login: Form, crypto: Crypto, env: Env, now: int, later: int)
    requires Truthy(Field(form, "email")) && Field(form, "email") !in docs
    requires "isGoogle" in form && form["isGoogle"] == "false"
    requires Field(login, "email") == Field(form, "email") && !AuthUnified.IsGoogleRequest(login)
    ensures var o := Registration(docs, nextId, form, crypto, now);
      AuthUnified.Auth(Apply(docs, o.write), NextId(nextId, o.write), login, env, crypto, later)
      == Outcome(Reply(400, AuthUnified.GoogleAccountMessage), None)
  {
    RawGoogleFlag(docs, nextId, form, crypto, now);
    var o := Registration(docs, nextId, form, crypto, now);
    var after := Apply(docs, o.write);
    assert after[Field(form, "email")].doc.isGoogle;
    AuthUnified.MethodMismatch(after, NextId(nextId, o.write), login, env, crypto, later);
  }

  /** An account registered here with a password signs in with that password at
      the unified endpoint, given that a password matches its own hash. */
  lemma RegisteredPasswordSignsIn(docs: map<Value, Stored<User>>, nextId: nat, form: Form, login: Form, crypto: Crypto, env: Env, now: int, later: int)
    requires HashSound(crypto) && env.authSecret != ""
    requires Truthy(Field(form, "email")) && Field(form, "email") !in docs
    requires !Truthy(Field(form, "isGoogle")) && Truthy(Field(form, "password"))
    requires Field(login, "email") == Field(form, "email") && Field(login, "password") == Field(form, "password")
    requires !AuthUnified.IsGoogleRequest(login)
    ensures var o := Registration(docs, nextId, form, crypto, now);
      AuthUnified.Auth(Apply(docs, o.write), NextId(nextId, o.write), login, env, crypto, later).response.status == 200
  {
    StoredAccount(docs, nextId, form, crypto, now);
    var o := Registration(docs, nextId, form, crypto, now);
    var after := Apply(docs, o.write);
    assert after[Field(form, "email")].doc.password == Some(crypto.hash(form["password"]));
    assert crypto.compare(login["password"], crypto.hash(form["password"]));
    AuthUnified.LoginSucceeds(after, NextId(nextId, o.write), login, env, crypto, later);
  }
}
