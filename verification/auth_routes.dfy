/**
 * The account routes of BackEnd/routes/auth.js: register, login, update the
 * settings of the signed-in account, and read its profile. The database is
 * the in-memory UserStore; token signing and password comparison are
 * parameters.
 */
module AuthRoutes {
  import opened Wrappers
  import Text
  import opened Schema
  import opened UserModel
  import opened AuthMiddleware

  /** The account as the routes send it back: no password. */
  datatype UserView = UserView(id: Id, name: string, email: string, spreadsheetId: string)

  /** The JSON bodies the routes send. */
  datatype Body =
    | ErrorJson(error: string)                     // { error }
    | FailedJson(error: string)                    // { success: false, error }
    | SessionJson(token: string, user: UserView)   // { token, user }
    | SettingsJson(user: UserView)                 // { success: true, user }
    | ProfileJson(user: UserView)                  // the account without its password

  datatype Reply = Reply(status: int, body: Body)

  /** `jwt.sign({ id }, secret, { expiresIn: "1d" })`: the token, or the message of the error it throws (an unset secret, say). */
  type Signer = Id -> Result<string, string>

  /** `bcrypt.compare(password, hash)`: whether they match, or the message of the error it throws. */
  type Comparer = (string, string) -> Result<bool, string>

  const MissingFields := Reply(400, ErrorJson("Please enter all fields"))
  const AlreadyExists := Reply(400, ErrorJson("User already exists"))
  const InvalidCredentials := Reply(400, ErrorJson("Invalid Credentials"))
  const RegistrationFailed := Reply(500, ErrorJson("Registration failed on server"))
  const LoginFailed := Reply(500, ErrorJson("Internal Server Error during Login"))

  function View(id: Id, u: User): UserView {
    UserView(id, u.name, u.email, u.spreadsheetId)
  }

  /** The e-mail as the register and login routes normalise it: `email.toLowerCase().trim()`. */
  function RouteEmail(email: string): (r: string)
    ensures r == Text.NormalizeEmail(email) && Text.IsNormalizedEmail(r)
  {
    Text.NormalizeEmailIsNormal(email);
    Text.LowerTrimCommute(email);
    Text.Trim(Text.ToLower(email))
  }

  /**
   * The save in the register route succeeds: the trimmed name, the
   * normalised e-mail and the password are non-empty, hashing succeeds and
   * no account holds the e-mail yet.
   */
  predicate AccountSaves(users: seq<User>, name: string, email: string, password: string, hash: Hasher) {
    && Text.Trim(name) != "" && Text.NormalizeEmail(email) != "" && password != ""
    && hash(password).Success?
    && FindByEmail(users, Text.NormalizeEmail(email)).None?
  }

  /** The schema's save of the new document succeeds exactly under `AccountSaves`. */
  lemma SaveSucceedsIffAccountSaves(users: seq<User>, name: string, email: string, password: string, hash: Hasher)
    ensures
      && UserErrors(Text.Trim(name), Text.NormalizeEmail(email), password) == []
      && hash(password).Success?
      && !IndexClash(users, Text.NormalizeEmail(email), None)
      <==> AccountSaves(users, name, email, password, hash)
  {
    assert IndexClash(users, Text.NormalizeEmail(email), None) <==> FindByEmail(users, Text.NormalizeEmail(email)).Some?;
  }

  /** The account the register route stores. */
  function NewAccount(name: string, email: string, password: string, hash: Hasher): User
    requires hash(password).Success?
  {
    User(Text.Trim(name), Text.NormalizeEmail(email), hash(password).value, "")
  }

  /**
   * POST /register. Missing or empty fields answer 400 before anything is
   * looked up; an account with the same normalised e-mail answers 400;
   * otherwise the account is saved with a trimmed name and a hashed
   * password and the route answers 201 with a token and an empty
   * spreadsheet ID. A save that fails (a name or e-mail that is only
   * blanks, a hashing failure) answers 500 and stores nothing; a token that
   * cannot be signed answers 500 too, after the account was stored.
   */
  method Register(store: UserStore, name: Option<string>, email: Option<string>, password: Option<string>, hash: Hasher, sign: Signer)
    returns (reply: Reply)
    requires store.Valid()
    modifies store
    ensures store.Valid()
    ensures !Text.Truthy(name) || !Text.Truthy(email) || !Text.Truthy(password) ==> reply == MissingFields && store.users == old(store.users)
    ensures Text.Truthy(name) && Text.Truthy(email) && Text.Truthy(password) && FindByEmail(old(store.users), Text.NormalizeEmail(email.value)).Some? ==>
      reply == AlreadyExists && store.users == old(store.users)
    ensures Text.Truthy(name) && Text.Truthy(email) && Text.Truthy(password) ==>
      && (AccountSaves(old(store.users), name.value, email.value, password.value, hash) ==>
            store.users == old(store.users) + [NewAccount(name.value, email.value, password.value, hash)])
      && (!AccountSaves(old(store.users), name.value, email.value, password.value, hash) ==> store.users == old(store.users))
    ensures reply.status == 201 <==>
      && Text.Truthy(name) && Text.Truthy(email) && Text.Truthy(password)
      && AccountSaves(old(store.users), name.value, email.value, password.value, hash)
      && sign(|old(store.users)|).Success?
    ensures reply.status == 201 ==>
      reply.body == SessionJson(sign(|old(store.users)|).value, UserView(|old(store.users)|, Text.Trim(name.value), Text.NormalizeEmail(email.value), ""))
    ensures Text.Truthy(name) && Text.Truthy(email) && Text.Truthy(password) && FindByEmail(old(store.users), Text.NormalizeEmail(email.value)).None? ==>
      reply.status == 201 || reply == RegistrationFailed
    ensures reply.status in {201, 400, 500}
  {
    if !Text.Truthy(name) || !Text.Truthy(email) || !Text.Truthy(password) {
      return MissingFields;
    }
    var normalizedEmail := RouteEmail(email.value);
    var existing := FindByEmail(store.users, normalizedEmail);
    if existing.Some? {
      return AlreadyExists;
    }
    // The schema's setters normalise the e-mail again, which changes nothing.
    reply := CreateAccount(store, name.value, email.value, password.value, hash, sign);
  }

  /**
   * The register route's save of a new account with the trimmed name, then
   * the token and the 201 reply. A failed save gives 500 and stores nothing;
   * a signing failure after the save also gives 500, with the account
   * already stored.
   */
  method CreateAccount(store: UserStore, name: string, email: string, password: string, hash: Hasher, sign: Signer)
    returns (reply: Reply)
    requires store.Valid()
    modifies store
    ensures store.Valid()
    ensures AccountSaves(old(store.users), name, email, password, hash) ==>
      store.users == old(store.users) + [NewAccount(name, email, password, hash)]
    ensures !AccountSaves(old(store.users), name, email, password, hash) ==> store.users == old(store.users)
    ensures reply.status == 201 <==> AccountSaves(old(store.users), name, email, password, hash) && sign(|old(store.users)|).Success?
    ensures reply.status == 201 ==>
      reply.body == SessionJson(sign(|old(store.users)|).value, UserView(|old(store.users)|, Text.Trim(name), Text.NormalizeEmail(email), ""))
    ensures reply.status != 201 ==> reply == RegistrationFailed
  {
    ghost var before := store.users;
    var trimmed, normal := Text.Trim(name), Text.NormalizeEmail(email);
    Text.TrimIdempotent(name);
    var doc := new UserDocument.New(trimmed, email, password);
    assert doc.name == trimmed && doc.email == normal && doc.password == password;
    assert doc.id.None? && doc.passwordModified && doc.spreadsheetId == "";
    SaveSucceedsIffAccountSaves(before, name, email, password, hash);
    var saved := store.Save(doc, hash);
    if saved.Failure? {
      return RegistrationFailed;
    }
    assert hash(password).Success? && doc.password == hash(password).value;
    assert saved.value == |before|;
    assert store.users == before + [User(trimmed, normal, hash(password).value, "")];
    var token := sign(saved.value);
    if token.Failure? {
      return RegistrationFailed;
    }
    reply := Reply(201, SessionJson(token.value, UserView(saved.value, trimmed, normal, "")));
  }

  /**
   * POST /login. Missing or empty fields answer 400 "Please enter all
   * fields"; an unknown e-mail and a wrong password answer the same 400
   * "Invalid Credentials"; otherwise a token and the account.
   */
  method Login(store: UserStore, email: Option<string>, password: Option<string>, compare: Comparer, sign: Signer)
    returns (reply: Reply)
    ensures !Text.Truthy(email) || !Text.Truthy(password) ==> reply == MissingFields
    ensures Text.Truthy(email) && Text.Truthy(password) ==>
      var found := FindByEmail(store.users, Text.NormalizeEmail(email.value));
      && (found.None? ==> reply == InvalidCredentials)
      && (found.Some? ==>
            var matched := compare(password.value, store.users[found.value].password);
            && (matched.Failure? ==> reply == LoginFailed)
            && (matched.Success? && !matched.value ==> reply == InvalidCredentials)
            && (matched.Success? && matched.value && sign(found.value).Failure? ==> reply == LoginFailed)
            && (matched.Success? && matched.value && sign(found.value).Success? ==>
                  reply == Reply(200, SessionJson(sign(found.value).value, View(found.value, store.users[found.value])))))
  {
    if !Text.Truthy(email) || !Text.Truthy(password) {
      return MissingFields;
    }
    var user := FindByEmail(store.users, RouteEmail(email.value));
    if user.None? {
      return InvalidCredentials;
    }
    var id := user.value;
    var matched := compare(password.value, store.users[id].password);
    if matched.Failure? {
      return LoginFailed;
    }
    if !matched.value {
      return InvalidCredentials;
    }
    var token := sign(id);
    if token.Failure? {
      return LoginFailed;
    }
    reply := Reply(200, SessionJson(token.value, View(id, store.users[id])));
  }

  /** The account after the settings update: each given value trimmed, everything else as it was. */
  function Updated(u: User, name: Option<string>, spreadsheetId: Option<string>): User {
    u.(name := if name.Some? then Text.Trim(name.value) else u.name,
       spreadsheetId := if spreadsheetId.Some? then Text.Trim(spreadsheetId.value) else u.spreadsheetId)
  }

  /**
   * POST /update-settings. No owner in the token answers 401, an unknown
   * owner 404, both before any change. Otherwise only the given name and
   * spreadsheet ID change (trimmed); the e-mail and the password hash stay
   * as they were. A name that trims to nothing fails validation: 500.
   */
  method UpdateSettings(store: UserStore, user: Option<Payload>, name: Option<string>, spreadsheetId: Option<string>, hash: Hasher)
    returns (reply: Reply)
    requires store.Valid()
    modifies store
    ensures store.Valid()
    ensures UserIdOf(user).None? ==> reply == Reply(401, ErrorJson("Authentication data corrupted")) && store.users == old(store.users)
    ensures UserIdOf(user).Some? && UserIdOf(user).value >= |old(store.users)| ==>
      reply == Reply(404, FailedJson("User not found")) && store.users == old(store.users)
    ensures UserIdOf(user).Some? && UserIdOf(user).value < |old(store.users)| ==>
      var id := UserIdOf(user).value;
      var u := Updated(old(store.users)[id], name, spreadsheetId);
      && (u.name != "" && u.password != "" ==> reply == Reply(200, SettingsJson(View(id, u))) && store.users == old(store.users)[id := u])
      && (u.name == "" || u.password == "" ==> reply == Reply(500, FailedJson("Server failed to save settings")) && store.users == old(store.users))
  {
    var userId := UserIdOf(user);
    if userId.None? {
      return Reply(401, ErrorJson("Authentication data corrupted"));
    }
    var id := userId.value;
    if id >= |store.users| {
      return Reply(404, FailedJson("User not found"));
    }
    OwnEmailNotTaken(store.users, id);
    var doc := new UserDocument.Load(id, store.users[id]);
    if name.Some? {
      doc.SetName(Text.Trim(name.value));
      Text.TrimIdempotent(name.value);
    }
    if spreadsheetId.Some? {
      doc.SetSpreadsheetId(Text.Trim(spreadsheetId.value));
    }
    var saved := store.Save(doc, hash);
    if saved.Failure? {
      return Reply(500, FailedJson("Server failed to save settings"));
    }
    reply := Reply(200, SettingsJson(UserView(id, doc.name, doc.email, doc.spreadsheetId)));
  }

  /** GET /profile: 401 without an owner, 404 for an unknown one, else the account without its password. */
  method Profile(store: UserStore, user: Option<Payload>) returns (reply: Reply)
    ensures UserIdOf(user).None? ==> reply == Reply(401, ErrorJson("Invalid token payload"))
    ensures UserIdOf(user).Some? && UserIdOf(user).value >= |store.users| ==>
      reply == Reply(404, ErrorJson("User no longer exists"))
    ensures UserIdOf(user).Some? && UserIdOf(user).value < |store.users| ==>
      reply == Reply(200, ProfileJson(View(UserIdOf(user).value, store.users[UserIdOf(user).value])))
  {
    var userId := UserIdOf(user);
    if userId.None? {
      return Reply(401, ErrorJson("Invalid token payload"));
    }
    if userId.value >= |store.users| {
      return Reply(404, ErrorJson("User no longer exists"));
    }
    reply := Reply(200, ProfileJson(View(userId.value, store.users[userId.value])));
  }

  /** Registration keeps the unique index: two accounts never share a normalised e-mail. */
  lemma RegisteredEmailsStayUnique(users: seq<User>, u: User)
    requires UniqueEmails(users)
    requires FindByEmail(users, u.email).None?
    ensures UniqueEmails(users + [u])
  {
    AppendKeepsEmailsUnique(users, u);
  }

  /** A settings update never touches the e-mail or the password hash. */
  lemma UpdateKeepsCredentials(u: User, name: Option<string>, spreadsheetId: Option<string>)
    ensures Updated(u, name, spreadsheetId).email == u.email
    ensures Updated(u, name, spreadsheetId).password == u.password
    ensures name.None? ==> Updated(u, name, spreadsheetId).name == u.name
    ensures spreadsheetId.None? ==> Updated(u, name, spreadsheetId).spreadsheetId == u.spreadsheetId
  {
  }
}
