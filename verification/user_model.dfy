/** The ES-module backend's User document: the schema's setters, defaults and
    validators, the unique indexes, and the pre-save hook that hashes the
    password. */
module UserModel {
  import opened Web
  import opened Text

  /** The fields a new user is created from; `None` is a field left undefined. */
  datatype UserInput = UserInput(
    username: Option<string>,
    email: Option<string>,
    password: Option<string>,
    role: Option<string>,
    name: Option<string>,
    bio: Option<string>,
    avatar: Option<string>)

  /** A user that passed validation. */
  datatype UserRecord = UserRecord(
    username: string,
    email: string,
    password: string,
    role: Role,
    name: Option<string>,
    bio: Option<string>,
    avatar: string)

  /** The schema paths whose validators can fail. */
  datatype UserPath = UsernamePath | EmailPath | PasswordPath | RolePath | BioPath

  const DEFAULT_AVATAR := "default-avatar.png"
  const MAX_USERNAME := 30
  const MIN_PASSWORD := 6
  const MAX_BIO := 500

  /** The `role` enum: the three role names, and nothing else. */
  function ParseRole(s: string): (r: Option<Role>)
    ensures r == Some(UserRole) <==> s == "user"
    ensures r == Some(AuthorRole) <==> s == "author"
    ensures r == Some(AdminRole) <==> s == "admin"
  {
    if s == "user" then Some(UserRole)
    else if s == "author" then Some(AuthorRole)
    else if s == "admin" then Some(AdminRole)
    else None
  }

  /** The username as stored: the `trim` setter applies before validation. */
  function StoredUsername(input: UserInput): Option<string> {
    if input.username.Some? then Some(Trim(input.username.value)) else None
  }

  /** The role as stored: "user" when none was given. */
  function StoredRole(input: UserInput): string {
    input.role.GetOr("user")
  }

  /** A required string path fails when undefined or empty. */
  predicate Missing(v: Option<string>) {
    v.None? || v.value == ""
  }

  /** Whether the validator of `path` rejects the input. `emailOk` stands for
      the schema's e-mail pattern, which is only tried on a non-empty address. */
  predicate Rejects(input: UserInput, emailOk: string -> bool, path: UserPath) {
    match path
    case UsernamePath =>
      var username := StoredUsername(input);
      Missing(username) || |username.value| > MAX_USERNAME
    case EmailPath => Missing(input.email) || !emailOk(input.email.value)
    case PasswordPath => Missing(input.password) || |input.password.value| < MIN_PASSWORD
    case RolePath => ParseRole(StoredRole(input)).None?
    case BioPath => input.bio.Some? && |input.bio.value| > MAX_BIO
  }

  /** The paths whose validators reject the input: the username after
      trimming is required and at most 30 long, e-mail and password are
      required, the password at least 6 long, the role one of the enum, the
      bio at most 500 long. */
  function UserErrors(input: UserInput, emailOk: string -> bool): (r: set<UserPath>)
    ensures UsernamePath in r <==>
      input.username.None? || Trim(input.username.value) == "" || |Trim(input.username.value)| > MAX_USERNAME
    ensures EmailPath in r <==> Missing(input.email) || !emailOk(input.email.value)
    ensures PasswordPath in r <==> Missing(input.password) || |input.password.value| < MIN_PASSWORD
    ensures RolePath in r <==> ParseRole(StoredRole(input)).None?
    ensures BioPath in r <==> input.bio.Some? && |input.bio.value| > MAX_BIO
  {
    set path: UserPath | path in {UsernamePath, EmailPath, PasswordPath, RolePath, BioPath} && Rejects(input, emailOk, path)
  }

  datatype Validated = Valid(user: UserRecord) | Invalid(paths: set<UserPath>)

  /** Building a user document and validating it: setters and defaults
      first, then every validator; the document is valid when none fails. */
  function ValidateUser(input: UserInput, emailOk: string -> bool): (r: Validated)
    ensures r.Invalid? <==> UserErrors(input, emailOk) != {}
    ensures r.Invalid? ==> r.paths == UserErrors(input, emailOk)
    ensures r.Valid? ==>
      && r.user.username == Trim(input.username.value)
      && r.user.username != "" && |r.user.username| <= MAX_USERNAME
      && r.user.email == input.email.value && emailOk(r.user.email)
      && r.user.password == input.password.value && |r.user.password| >= MIN_PASSWORD
      && (input.role.None? ==> r.user.role == UserRole)
      && (input.role.Some? ==> Some(r.user.role) == ParseRole(input.role.value))
      && r.user.bio == input.bio
      && (r.user.bio.Some? ==> |r.user.bio.value| <= MAX_BIO)
      && r.user.name == (if input.name.Some? then Some(Trim(input.name.value)) else None)
      && r.user.avatar == input.avatar.GetOr(DEFAULT_AVATAR)
  {
    var errors := UserErrors(input, emailOk);
    if errors != {} then Invalid(errors)
    else
      var name := if input.name.Some? then Some(Trim(input.name.value)) else None;
      Valid(UserRecord(Trim(input.username.value), input.email.value, input.password.value,
        ParseRole(StoredRole(input)).value, name, input.bio, input.avatar.GetOr(DEFAULT_AVATAR)))
  }

  /** The length check is "at least 6": a password of exactly six characters
      passes, one of five does not, whatever the message says. */
  lemma PasswordBoundary(input: UserInput, emailOk: string -> bool)
    requires input.password.Some?
    ensures |input.password.value| == MIN_PASSWORD ==> PasswordPath !in UserErrors(input, emailOk)
    ensures |input.password.value| == MIN_PASSWORD - 1 ==> PasswordPath in UserErrors(input, emailOk)
  {
  }

  /** Surrounding white space does not count against the username limit, and
      a white-space-only username is missing. */
  lemma UsernameTrimmedFirst(input: UserInput, pad: string, emailOk: string -> bool)
    requires Blank(pad) && input.username.Some?
    ensures var padded := input.(username := Some(pad + input.username.value + pad));
      (UsernamePath in UserErrors(padded, emailOk)) == (UsernamePath in UserErrors(input, emailOk))
  {
    TrimPadded(pad, input.username.value);
  }

  /** No two stored users share a username or an e-mail address. */
  predicate UniqueUsers(users: seq<UserRecord>) {
    forall i, j :: 0 <= i < j < |users| ==>
      users[i].username != users[j].username && users[i].email != users[j].email
  }

  /** Neither of the new user's keys is taken. */
  predicate KeysFree(users: seq<UserRecord>, u: UserRecord) {
    forall i :: 0 <= i < |users| ==> users[i].username != u.username && users[i].email != u.email
  }

  /** An insert keeps the unique indexes satisfied exactly when both keys are free. */
  lemma InsertKeepsUnique(users: seq<UserRecord>, u: UserRecord)
    requires UniqueUsers(users)
    ensures UniqueUsers(users + [u]) <==> KeysFree(users, u)
  {
    var after := users + [u];
    if KeysFree(users, u) {
      forall i, j | 0 <= i < j < |after|
        ensures after[i].username != after[j].username && after[i].email != after[j].email
      {
        if j == |users| {
          assert after[j] == u && after[i] == users[i];
        }
      }
    } else {
      var i :| 0 <= i < |users| && (users[i].username == u.username || users[i].email == u.email);
      assert after[i] == users[i] && after[|users|] == u;
    }
  }

  /** A User document in memory, with Mongoose's record of whether the
      password was modified since the last save. */
  class UserDocument {
    var user: UserRecord
    var passwordModified: bool

    /** A new document: every field it was built with counts as modified. */
    constructor (user: UserRecord)
      ensures this.user == user && passwordModified
    {
      this.user := user;
      this.passwordModified := true;
    }

    /** A document loaded from the database: nothing is modified. */
    constructor Loaded(user: UserRecord)
      ensures this.user == user && !passwordModified
    {
      this.user := user;
      this.passwordModified := false;
    }

    /** Assigning the password marks it modified only when the value changes. */
    method SetPassword(password: string)
      modifies this
      ensures user == old(user).(password := password)
      ensures passwordModified == (old(passwordModified) || password != old(user.password))
    {
      if password != user.password {
        passwordModified := true;
      }
      user := user.(password := password);
    }

    /** The pre-save hook: a modified password is replaced by its hash under
        the given salt; an unmodified one is left as it is. Nothing else changes. */
    method PreSave(hash: (string, string) -> string, salt: string)
      modifies this
      ensures passwordModified == old(passwordModified)
      ensures old(passwordModified) ==> user == old(user).(password := hash(old(user.password), salt))
      ensures !old(passwordModified) ==> user == old(user)
    {
      if !passwordModified {
        return;
      }
      user := user.(password := hash(user.password, salt));
    }

    /** A save: the hook, then the stored document counts as unmodified. */
    method Save(hash: (string, string) -> string, salt: string)
      modifies this
      ensures !passwordModified
      ensures old(passwordModified) ==> user == old(user).(password := hash(old(user.password), salt))
      ensures !old(passwordModified) ==> user == old(user)
    {
      PreSave(hash, salt);
      passwordModified := false;
    }
  }

  /** Saving twice hashes once: the second save finds the password unmodified. */
  method SaveTwice(d: UserDocument, hash: (string, string) -> string, salt1: string, salt2: string)
    modifies d
    ensures old(d.passwordModified) ==> d.user == old(d.user).(password := hash(old(d.user.password), salt1))
    ensures !old(d.passwordModified) ==> d.user == old(d.user)
  {
    d.Save(hash, salt1);
    d.Save(hash, salt2);
  }
}
