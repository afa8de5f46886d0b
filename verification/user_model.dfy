/**
 * The account schema of BackEnd/models/User.js: a required trimmed name, a
 * required unique e-mail stored lower-cased and trimmed, a required password
 * that a pre-save hook replaces by its hash whenever it was changed, and a
 * spreadsheet ID that defaults to the empty string.
 */
module UserModel {
  import opened Wrappers
  import Text
  import opened Schema

  /** A stored account; its identifier is its index in the collection. */
  datatype User = User(name: string, email: string, password: string, spreadsheetId: string)

  /** bcrypt's salt-and-hash: the hash, or the message of the exception it throws. */
  type Hasher = string -> Result<string, string>

  /** What every stored account satisfies: a name and an e-mail, the e-mail in its normal form. */
  predicate WellFormed(u: User) {
    && u.name != ""
    && u.email != "" && Text.IsNormalizedEmail(u.email)
  }

  /** The unique index on `email`. */
  ghost predicate UniqueEmails(users: seq<User>) {
    forall i, j :: 0 <= i < j < |users| ==> users[i].email != users[j].email
  }

  /** The `required` checks, in the schema's path order. */
  function UserErrors(name: string, email: string, password: string): (errs: seq<FieldError>)
    ensures errs == [] <==> name != "" && email != "" && password != ""
  {
    RequireString(Some(name), "name") + RequireString(Some(email), "email") + RequireString(Some(password), "password")
  }

  /**
   * `User.findOne({ email })` for an e-mail the caller has already
   * normalised, on which the path's setters change nothing.
   */
  function FindByEmail(users: seq<User>, email: string): (r: Option<Id>)
    ensures r.Some? ==> r.value < |users| && users[r.value].email == email
    ensures r.Some? ==> forall j :: 0 <= j < r.value ==> users[j].email != email
    ensures r.None? ==> forall j :: 0 <= j < |users| ==> users[j].email != email
  {
    FindFrom(users, email, 0)
  }

  function FindFrom(users: seq<User>, email: string, from: nat): (r: Option<Id>)
    requires from <= |users|
    ensures r.Some? ==> from <= r.value < |users| && users[r.value].email == email
    ensures r.Some? ==> forall j :: from <= j < r.value ==> users[j].email != email
    ensures r.None? ==> forall j :: from <= j < |users| ==> users[j].email != email
    decreases |users| - from
  {
    if from == |users| then None
    else if users[from].email == email then Some(from)
    else FindFrom(users, email, from + 1)
  }

  /** Another account than `except` already holds `email`. */
  ghost predicate EmailTaken(users: seq<User>, email: string, except: Option<Id>) {
    exists j | 0 <= j < |users| :: users[j].email == email && Some(j) != except
  }

  /** The index check as the database makes it: the first holder of `email` is not `except`. */
  predicate IndexClash(users: seq<User>, email: string, except: Option<Id>) {
    var found := FindFrom(users, email, 0);
    found.Some? && Some(found.value) != except
  }

  /** Under the unique index, the first holder of `email` is the only one. */
  lemma TakenIffFound(users: seq<User>, email: string, except: Option<Id>)
    requires UniqueEmails(users)
    ensures EmailTaken(users, email, except) <==> IndexClash(users, email, except)
    ensures !EmailTaken(users, email, except) ==>
      forall j :: 0 <= j < |users| && Some(j) != except ==> users[j].email != email
  {
    var found := FindFrom(users, email, 0);
    if found.Some? && Some(found.value) != except {
      assert users[found.value].email == email;
    }
    if EmailTaken(users, email, except) {
      var j :| 0 <= j < |users| && users[j].email == email && Some(j) != except;
      forall i | 0 <= i < |users| && i != j
        ensures users[i].email != users[j].email
      {
        if i > j {
          assert users[j].email != users[i].email;
        }
      }
    }
  }

  /** Under the unique index, an account's own e-mail is held by no other account. */
  lemma OwnEmailNotTaken(users: seq<User>, k: nat)
    requires UniqueEmails(users) && k < |users|
    ensures !EmailTaken(users, users[k].email, Some(k))
    ensures !IndexClash(users, users[k].email, Some(k))
  {
    forall j | 0 <= j < |users| && j != k
      ensures users[j].email != users[k].email
    {
      if j > k {
        assert users[k].email != users[j].email;
      }
    }
    TakenIffFound(users, users[k].email, Some(k));
  }

  lemma AppendKeepsEmailsUnique(users: seq<User>, u: User)
    requires UniqueEmails(users)
    requires forall j :: 0 <= j < |users| ==> users[j].email != u.email
    ensures UniqueEmails(users + [u])
  {
    var users' := users + [u];
    forall i, j | 0 <= i < j < |users'|
      ensures users'[i].email != users'[j].email
    {
      assert users'[i] == users[i];
    }
  }

  lemma ReplaceKeepsEmailsUnique(users: seq<User>, k: nat, u: User)
    requires UniqueEmails(users) && k < |users|
    requires forall j :: 0 <= j < |users| && j != k ==> users[j].email != u.email
    ensures UniqueEmails(users[k := u])
  {
    var users' := users[k := u];
    forall i, j | 0 <= i < j < |users'|
      ensures users'[i].email != users'[j].email
    {
      if i != k && j != k {
        assert users'[i] == users[i] && users'[j] == users[j];
      }
    }
  }

  /** A `User` document in memory, with Mongoose's record of whether `password` was changed. */
  class UserDocument {
    var id: Option<Id>
    var name: string
    var email: string
    var password: string
    var spreadsheetId: string
    var passwordModified: bool

    /** `new User({ name, email, password })`: the setters run, the default fills `spreadsheetId`. */
    constructor New(name: string, email: string, password: string)
      ensures this.id.None?
      ensures this.name == Text.Trim(name) && this.email == Text.NormalizeEmail(email)
      ensures Text.IsNormalizedEmail(this.email)
      ensures this.password == password && this.spreadsheetId == ""
      ensures passwordModified
    {
      Text.NormalizeEmailIsNormal(email);
      this.id := None;
      this.name := Text.Trim(name);
      this.email := Text.NormalizeEmail(email);
      this.password := password;
      this.spreadsheetId := "";
      this.passwordModified := true;
    }

    /** `User.findById(id)`: a stored account, with nothing modified yet. */
    constructor Load(id: Id, u: User)
      ensures this.id == Some(id)
      ensures name == u.name && email == u.email && password == u.password && spreadsheetId == u.spreadsheetId
      ensures !passwordModified
    {
      this.id := Some(id);
      this.name := u.name;
      this.email := u.email;
      this.password := u.password;
      this.spreadsheetId := u.spreadsheetId;
      this.passwordModified := false;
    }

    function Record(): User
      reads this
    {
      User(name, email, password, spreadsheetId)
    }

    /** `doc.name = v`: the `trim` setter runs. */
    method SetName(v: string)
      modifies this
      ensures name == Text.Trim(v)
      ensures id == old(id) && email == old(email) && password == old(password)
      ensures spreadsheetId == old(spreadsheetId) && passwordModified == old(passwordModified)
    {
      name := Text.Trim(v);
    }

    /** `doc.spreadsheetId = v`: the path has no setter. */
    method SetSpreadsheetId(v: string)
      modifies this
      ensures spreadsheetId == v
      ensures id == old(id) && name == old(name) && email == old(email) && password == old(password)
      ensures passwordModified == old(passwordModified)
    {
      spreadsheetId := v;
    }

    /**
     * The pre-save hook: a password that was not modified is left alone;
     * otherwise it is replaced by its hash, and a hashing failure is
     * rethrown, which aborts the save.
     */
    method PreSave(hash: Hasher) returns (err: Option<SaveError>)
      modifies this
      ensures !old(passwordModified) ==> err.None? && password == old(password)
      ensures old(passwordModified) && hash(old(password)).Failure? ==>
        err == Some(HookFailed(hash(old(password)).error)) && password == old(password)
      ensures old(passwordModified) && hash(old(password)).Success? ==>
        err.None? && password == hash(old(password)).value
      ensures id == old(id) && name == old(name) && email == old(email)
      ensures spreadsheetId == old(spreadsheetId) && passwordModified == old(passwordModified)
    {
      if !passwordModified {
        return None;
      }
      var hashed := hash(password);
      if hashed.Failure? {
        return Some(HookFailed(hashed.error));
      }
      password := hashed.value;
      err := None;
    }
  }

  /** The account collection. */
  class UserStore {
    var users: seq<User>

    ghost predicate Valid()
      reads this
    {
      (forall i :: 0 <= i < |users| ==> WellFormed(users[i])) && UniqueEmails(users)
    }

    constructor ()
      ensures Valid() && users == []
    {
      users := [];
    }

    /** The unique index check and the write of a validated account: overwrite `id`, or append. */
    method Write(id: Option<Id>, u: User) returns (r: Result<Id, SaveError>)
      requires Valid() && WellFormed(u)
      requires id.Some? ==> id.value < |users|
      modifies this
      ensures Valid()
      ensures r.Failure? ==> r.error == DuplicateKey(["email"]) && users == old(users)
      ensures r.Success? && id.Some? ==> r.value == id.value && users == old(users)[r.value := u]
      ensures r.Success? && id.None? ==> r.value == |old(users)| && users == old(users) + [u]
      ensures r.Failure? <==> IndexClash(old(users), u.email, id)
    {
      var clash := FindFrom(users, u.email, 0);
      TakenIffFound(users, u.email, id);
      if clash.Some? && Some(clash.value) != id {
        return Failure(DuplicateKey(["email"]));
      }
      if id.Some? {
        Overwrite(id.value, u);
        r := Success(id.value);
      } else {
        Append(u);
        r := Success(|users| - 1);
      }
    }

    /** Replace the account at `k`; nobody else holds its e-mail. */
    method Overwrite(k: nat, u: User)
      requires Valid() && WellFormed(u) && k < |users|
      requires forall j :: 0 <= j < |users| && j != k ==> users[j].email != u.email
      modifies this
      ensures Valid() && users == old(users)[k := u]
    {
      ReplaceKeepsEmailsUnique(users, k, u);
      ghost var before := users;
      users := users[k := u];
      forall i | 0 <= i < |users|
        ensures WellFormed(users[i])
      {
        if i != k {
          assert users[i] == before[i];
        }
      }
    }

    /** Add an account whose e-mail nobody holds. */
    method Append(u: User)
      requires Valid() && WellFormed(u)
      requires forall j :: 0 <= j < |users| ==> users[j].email != u.email
      modifies this
      ensures Valid() && users == old(users) + [u]
    {
      AppendKeepsEmailsUnique(users, u);
      ghost var before := users;
      users := users + [u];
      forall i | 0 <= i < |users|
        ensures WellFormed(users[i])
      {
        if i < |before| {
          assert users[i] == before[i];
        }
      }
    }

    /**
     * `doc.save()`: validate, run the pre-save hook, check the unique
     * e-mail index, then insert or overwrite. It succeeds exactly when
     * the required paths are set, the hook did not throw and no other
     * account holds the e-mail; any failure leaves the collection as it was.
     */
    method Save(doc: UserDocument, hash: Hasher) returns (r: Result<Id, SaveError>)
      requires Valid()
      requires doc.id.Some? ==> doc.id.value < |users|
      requires Text.IsNormalizedEmail(doc.email)
      modifies this, doc
      ensures Valid()
      ensures UserErrors(old(doc.name), old(doc.email), old(doc.password)) != [] ==>
        r == Failure(Invalid(ValidationError("User", UserErrors(old(doc.name), old(doc.email), old(doc.password)))))
      ensures r.Success? <==>
        && UserErrors(old(doc.name), old(doc.email), old(doc.password)) == []
        && (old(doc.passwordModified) ==> hash(old(doc.password)).Success?)
        && !IndexClash(old(users), old(doc.email), old(doc.id))
      ensures doc.name == old(doc.name) && doc.email == old(doc.email) && doc.spreadsheetId == old(doc.spreadsheetId)
      ensures r.Success? ==> doc.password == if old(doc.passwordModified) then hash(old(doc.password)).value else old(doc.password)
      ensures r.Success? && old(doc.id).Some? ==>
        r.value == old(doc.id).value && users == old(users)[r.value := User(doc.name, doc.email, doc.password, doc.spreadsheetId)]
      ensures r.Success? && old(doc.id).None? ==>
        r.value == |old(users)| && users == old(users) + [User(doc.name, doc.email, doc.password, doc.spreadsheetId)]
      ensures r.Failure? ==> users == old(users)
    {
      var errs := UserErrors(doc.name, doc.email, doc.password);
      if errs != [] {
        return Failure(Invalid(ValidationError("User", errs)));
      }
      var hookError := doc.PreSave(hash);
      if hookError.Some? {
        return Failure(hookError.value);
      }
      r := Write(doc.id, doc.Record());
      if r.Success? {
        doc.id := Some(r.value);
        doc.passwordModified := false;
      }
    }
  }
}
