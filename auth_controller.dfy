/**
 * Registration, login and role change of users
 * (server/controllers/auth.controller.js). Registration takes one entry or
 * a list of them and handles them in order; the first entry that fails a
 * check ends the request, and the users created for the entries before it
 * stay stored. Password hashing, password comparison and token signing are
 * functions passed in.
 */
module AuthController {
  import opened Common
  import opened Records

  /** The role a registration falls back to when it names none. */
  const DefaultRoleName: string := "cashier"

  /** One registration entry; an absent or null field is None. */
  datatype RegisterInput = RegisterInput(
    fullName: Option<string>,
    email: Option<string>,
    password: Option<string>,
    role: Option<Id>,
    roleName: Option<string>)

  /** The request body: one entry, or a list of them. */
  datatype RegisterBody = One(entry: RegisterInput) | Many(entries: seq<RegisterInput>)

  /** `Array.isArray(body) ? body : [body]`. */
  function Entries(body: RegisterBody): (r: seq<RegisterInput>)
    ensures body.One? ==> r == [body.entry]
  {
    match body
    case One(e) => [e]
    case Many(es) => es
  }

  /** `User.findOne({$or: [{fullName}, {email}]})` finds something; the query values go through the setters. */
  predicate UserTaken(users: seq<User>, fullName: string, email: string) {
    exists i :: 0 <= i < |users| && (users[i].fullName == UserFullName(fullName) || users[i].email == UserEmail(email))
  }

  /** No two stored users share a full name, and no two share an email. */
  predicate UniqueUsers(users: seq<User>) {
    forall i, j :: 0 <= i < j < |users| ==> users[i].fullName != users[j].fullName && users[i].email != users[j].email
  }

  /**
   * The role of an entry: by identifier when one is given, else by the
   * given name (trimmed, as the role schema's setter does to the query),
   * else the "cashier" role. None when that role is not stored.
   */
  function ResolveRole(roles: seq<Role>, entry: RegisterInput): (r: Option<Id>)
    ensures r.Some? ==> r.value < |roles|
    ensures entry.role.Some? ==> r == (if entry.role.value < |roles| then entry.role else None)
    ensures entry.role.None? && Truthy(entry.roleName) ==>
              && (r.Some? <==> RoleExists(roles, Trim(entry.roleName.value)))
              && (r.Some? ==> roles[r.value].name == Trim(entry.roleName.value))
    ensures entry.role.None? && !Truthy(entry.roleName) ==>
              && (r.Some? <==> RoleExists(roles, DefaultRoleName))
              && (r.Some? ==> roles[r.value].name == DefaultRoleName)
  {
    if entry.role.Some? then
      if entry.role.value < |roles| then entry.role else None
    else
      var name := if Truthy(entry.roleName) then Trim(entry.roleName.value) else DefaultRoleName;
      FirstWhere(roles, (x: Role) => x.name == name)
  }

  /**
   * `User.create` for an entry that passed the checks: the setters trim
   * the full name and trim and lower-case the email; None when a required
   * field ends up empty.
   */
  function NewUser(entry: RegisterInput, hash: string -> string, role: Id): (r: Option<User>)
    requires Truthy(entry.fullName) && Truthy(entry.email) && Truthy(entry.password)
    ensures r.Some? <==> UserFullName(entry.fullName.value) != "" && UserEmail(entry.email.value) != ""
                         && hash(entry.password.value) != ""
    ensures r.Some? ==> && r.value.fullName == UserFullName(entry.fullName.value)
                        && r.value.email == UserEmail(entry.email.value)
                        && r.value.role == role && r.value.status == Active
  {
    var u := User(UserFullName(entry.fullName.value), UserEmail(entry.email.value), hash(entry.password.value), Active, role);
    if u.fullName == "" || u.email == "" || u.passwordHash == "" then None else Some(u)
  }

  /** An entry of the reply: the created user with the name of its role. */
  datatype CreatedUser = CreatedUser(id: Id, fullName: string, email: string, role: string)

  /** Where the registration loop stands: still running, or ended with an error reply. */
  datatype Registration =
    | Running(users: seq<User>, created: seq<CreatedUser>)
    | Stopped(users: seq<User>, code: int, message: string)

  const MissingFields: string := "fullName, email, and password are required"
  const InvalidRole: string := "Invalid role provided"

  /** One pass of the loop body on `entry`. */
  function RegisterStep(st: Registration, roles: seq<Role>, hash: string -> string, entry: RegisterInput): (r: Registration)
    ensures st.users <= r.users && |r.users| <= |st.users| + 1
    ensures st.Stopped? ==> r == st
    ensures st.Running? && r.Running? ==> |r.users| == |st.users| + 1 && |r.created| == |st.created| + 1
  {
    match st
    case Stopped(_, _, _) => st
    case Running(users, created) =>
      if !Truthy(entry.fullName) || !Truthy(entry.email) || !Truthy(entry.password) then
        Stopped(users, 400, MissingFields)
      else if UserTaken(users, entry.fullName.value, entry.email.value) then
        Stopped(users, 400, "User with name or email already exists: " + entry.email.value)
      else
        match ResolveRole(roles, entry)
        case None => Stopped(users, 400, InvalidRole)
        case Some(role) =>
          match NewUser(entry, hash, role)
          case None => Stopped(users, 500, "Server error")
          case Some(u) =>
            Running(users + [u], created + [CreatedUser(|users|, u.fullName, u.email, roles[role].name)])
  }

  /** Appending the user of an untaken entry keeps full names and emails unique. */
  lemma AppendKeepsUniqueUsers(users: seq<User>, entry: RegisterInput, u: User)
    requires Truthy(entry.fullName) && Truthy(entry.email)
    requires !UserTaken(users, entry.fullName.value, entry.email.value)
    requires u.fullName == UserFullName(entry.fullName.value) && u.email == UserEmail(entry.email.value)
    ensures UniqueUsers(users) ==> UniqueUsers(users + [u])
  {
    if UniqueUsers(users) {
      var t := users + [u];
      forall i, j | 0 <= i < j < |t| ensures t[i].fullName != t[j].fullName && t[i].email != t[j].email {
        assert t[i] == users[i];
        if j < |users| {
          assert t[j] == users[j];
        }
      }
    }
  }

  /** The loop over `entries` in order, starting from the stored `users`. */
  function RegisterAll(users: seq<User>, roles: seq<Role>, hash: string -> string, entries: seq<RegisterInput>): (r: Registration)
    ensures users <= r.users && |r.users| <= |users| + |entries|
    ensures r.Running? ==> |r.users| == |users| + |entries| && |r.created| == |entries|
  {
    if entries == [] then Running(users, [])
    else RegisterStep(RegisterAll(users, roles, hash, entries[..|entries| - 1]), roles, hash, entries[|entries| - 1])
  }

  /** One pass of the loop body keeps full names and emails unique. */
  lemma StepKeepsUnique(st: Registration, roles: seq<Role>, hash: string -> string, entry: RegisterInput)
    requires UniqueUsers(st.users)
    ensures UniqueUsers(RegisterStep(st, roles, hash, entry).users)
  {
    if st.Running? && Truthy(entry.fullName) && Truthy(entry.email) && Truthy(entry.password)
       && !UserTaken(st.users, entry.fullName.value, entry.email.value) && ResolveRole(roles, entry).Some?
       && NewUser(entry, hash, ResolveRole(roles, entry).value).Some? {
      AppendKeepsUniqueUsers(st.users, entry, NewUser(entry, hash, ResolveRole(roles, entry).value).value);
    }
  }

  /** A registration never stores two users with the same full name or the same email. */
  lemma {:induction false} RegisterKeepsUnique(users: seq<User>, roles: seq<Role>, hash: string -> string, entries: seq<RegisterInput>)
    requires UniqueUsers(users)
    ensures UniqueUsers(RegisterAll(users, roles, hash, entries).users)
  {
    if entries != [] {
      RegisterKeepsUnique(users, roles, hash, entries[..|entries| - 1]);
      StepKeepsUnique(RegisterAll(users, roles, hash, entries[..|entries| - 1]), roles, hash, entries[|entries| - 1]);
    }
  }

  /** One more entry is one more pass of the loop body. */
  lemma RegisterPrefixStep(users: seq<User>, roles: seq<Role>, hash: string -> string, entries: seq<RegisterInput>, i: nat)
    requires i < |entries|
    ensures RegisterAll(users, roles, hash, entries[..i + 1]) ==
            RegisterStep(RegisterAll(users, roles, hash, entries[..i]), roles, hash, entries[i])
  {
    assert entries[..i + 1][..i] == entries[..i];
  }

  /** The 201 reply. */
  datatype Registered = Registered(message: string, users: seq<CreatedUser>)

  /**
   * `register`: the entries in order; the reply lists the created users,
   * or is the error of the first entry that failed. `users'` is the
   * collection afterwards.
   */
  method Register(users: seq<User>, roles: seq<Role>, hash: string -> string, body: RegisterBody)
    returns (resp: Response<Registered>, users': seq<User>)
    ensures match RegisterAll(users, roles, hash, Entries(body))
            case Running(st, created) =>
              resp == Ok(201, Registered("User(s) registered successfully", created)) && users' == st
            case Stopped(st, code, message) =>
              resp == Fail(code, message) && users' == st
  {
    var entries := Entries(body);
    var created: seq<CreatedUser> := [];
    users' := users;
    var i := 0;
    while i < |entries|
      invariant 0 <= i <= |entries|
      invariant RegisterAll(users, roles, hash, entries[..i]) == Running(users', created)
    {
      var entry := entries[i];
      RegisterPrefixStep(users, roles, hash, entries, i);
      if !Truthy(entry.fullName) || !Truthy(entry.email) || !Truthy(entry.password) {
        StepRejectsMissing(users', created, roles, hash, entry);
        RegisterStaysStopped(users, roles, hash, entries, i + 1);
        return Fail(400, MissingFields), users';
      }
      if UserTaken(users', entry.fullName.value, entry.email.value) {
        StepRejectsTaken(users', created, roles, hash, entry);
        RegisterStaysStopped(users, roles, hash, entries, i + 1);
        return Fail(400, "User with name or email already exists: " + entry.email.value), users';
      }
      var role := ResolveRole(roles, entry);
      if role.None? {
        StepRejectsRole(users', created, roles, hash, entry);
        RegisterStaysStopped(users, roles, hash, entries, i + 1);
        return Fail(400, InvalidRole), users';
      }
      var user := NewUser(entry, hash, role.value);
      if user.None? {
        StepRejectsInvalid(users', created, roles, hash, entry);
        RegisterStaysStopped(users, roles, hash, entries, i + 1);
        return Fail(500, "Server error"), users';
      }
      StepCreates(users', created, roles, hash, entry);
      created := created + [CreatedUser(|users'|, user.value.fullName, user.value.email, roles[role.value].name)];
      users' := users' + [user.value];
      assert RegisterAll(users, roles, hash, entries[..i + 1]) == Running(users', created);
      i := i + 1;
    }
    assert entries[..i] == entries;
    resp := Ok(201, Registered("User(s) registered successfully", created));
  }

  /** Once an entry has failed, the later entries change nothing. */
  lemma {:induction false} RegisterStaysStopped(users: seq<User>, roles: seq<Role>, hash: string -> string,
                                                 entries: seq<RegisterInput>, n: nat)
    requires n <= |entries| && RegisterAll(users, roles, hash, entries[..n]).Stopped?
    ensures RegisterAll(users, roles, hash, entries) == RegisterAll(users, roles, hash, entries[..n])
    decreases |entries| - n
  {
    if n < |entries| {
      RegisterPrefixStep(users, roles, hash, entries, n);
      RegisterStaysStopped(users, roles, hash, entries, n + 1);
    } else {
      assert entries[..n] == entries;
    }
  }

  lemma StepRejectsMissing(users: seq<User>, created: seq<CreatedUser>, roles: seq<Role>, hash: string -> string, entry: RegisterInput)
    requires !Truthy(entry.fullName) || !Truthy(entry.email) || !Truthy(entry.password)
    ensures RegisterStep(Running(users, created), roles, hash, entry) == Stopped(users, 400, MissingFields)
  {
  }

  lemma StepRejectsTaken(users: seq<User>, created: seq<CreatedUser>, roles: seq<Role>, hash: string -> string, entry: RegisterInput)
    requires Truthy(entry.fullName) && Truthy(entry.email) && Truthy(entry.password)
    requires UserTaken(users, entry.fullName.value, entry.email.value)
    ensures RegisterStep(Running(users, created), roles, hash, entry) ==
            Stopped(users, 400, "User with name or email already exists: " + entry.email.value)
  {
  }

  lemma StepRejectsRole(users: seq<User>, created: seq<CreatedUser>, roles: seq<Role>, hash: string -> string, entry: RegisterInput)
    requires Truthy(entry.fullName) && Truthy(entry.email) && Truthy(entry.password)
    requires !UserTaken(users, entry.fullName.value, entry.email.value) && ResolveRole(roles, entry).None?
    ensures RegisterStep(Running(users, created), roles, hash, entry) == Stopped(users, 400, InvalidRole)
  {
  }

  lemma StepRejectsInvalid(users: seq<User>, created: seq<CreatedUser>, roles: seq<Role>, hash: string -> string, entry: RegisterInput)
    requires Truthy(entry.fullName) && Truthy(entry.email) && Truthy(entry.password)
    requires !UserTaken(users, entry.fullName.value, entry.email.value) && ResolveRole(roles, entry).Some?
    requires NewUser(entry, hash, ResolveRole(roles, entry).value).None?
    ensures RegisterStep(Running(users, created), roles, hash, entry) == Stopped(users, 500, "Server error")
  {
  }

  lemma StepCreates(users: seq<User>, created: seq<CreatedUser>, roles: seq<Role>, hash: string -> string, entry: RegisterInput)
    requires Truthy(entry.fullName) && Truthy(entry.email) && Truthy(entry.password)
    requires !UserTaken(users, entry.fullName.value, entry.email.value) && ResolveRole(roles, entry).Some?
    requires NewUser(entry, hash, ResolveRole(roles, entry).value).Some?
    ensures var role := ResolveRole(roles, entry).value;
            var u := NewUser(entry, hash, role).value;
            RegisterStep(Running(users, created), roles, hash, entry) ==
            Running(users + [u], created + [CreatedUser(|users|, u.fullName, u.email, roles[role].name)])
  {
  }

  /**
   * The reply of a completed registration lists one user per entry, in
   * input order: the k-th has the k-th new identifier, the stored full
   * name and email of the k-th new user, and the name of that user's role.
   */
  predicate Listed(base: nat, users: seq<User>, roles: seq<Role>, created: seq<CreatedUser>) {
    && |users| == base + |created|
    && forall k :: 0 <= k < |created| ==>
         && created[k].id == base + k
         && created[k].fullName == users[base + k].fullName
         && created[k].email == users[base + k].email
         && users[base + k].role < |roles|
         && created[k].role == roles[users[base + k].role].name
  }

  lemma {:induction false} RegisterListsCreated(users: seq<User>, roles: seq<Role>, hash: string -> string, entries: seq<RegisterInput>)
    requires RegisterAll(users, roles, hash, entries).Running?
    ensures Listed(|users|, RegisterAll(users, roles, hash, entries).users, roles, RegisterAll(users, roles, hash, entries).created)
  {
    if entries != [] {
      var before := RegisterAll(users, roles, hash, entries[..|entries| - 1]);
      RegisterListsCreated(users, roles, hash, entries[..|entries| - 1]);
      var entry := entries[|entries| - 1];
      StepCreates(before.users, before.created, roles, hash, entry);
      var role := ResolveRole(roles, entry).value;
      var u := NewUser(entry, hash, role).value;
      ListedAppend(|users|, before.users, roles, before.created, u, CreatedUser(|before.users|, u.fullName, u.email, roles[role].name));
    }
  }

  /** A created user appended with its matching reply entry keeps the reply in step with the collection. */
  lemma ListedAppend(base: nat, users: seq<User>, roles: seq<Role>, created: seq<CreatedUser>, u: User, c: CreatedUser)
    requires Listed(base, users, roles, created)
    requires c == CreatedUser(|users|, u.fullName, u.email, c.role) && u.role < |roles| && c.role == roles[u.role].name
    ensures Listed(base, users + [u], roles, created + [c])
  {
    var us, cs := users + [u], created + [c];
    forall k | 0 <= k < |cs|
      ensures && cs[k].id == base + k
              && cs[k].fullName == us[base + k].fullName
              && cs[k].email == us[base + k].email
              && us[base + k].role < |roles|
              && cs[k].role == roles[us[base + k].role].name
    {
      if k < |created| {
        assert cs[k] == created[k] && us[base + k] == users[base + k];
      }
    }
  }

  /**
   * An entry lacking a full name, email or password ends the request with
   * 400: the users created for the entries before it stay, and no entry
   * after it is looked at.
   */
  lemma RegisterStopsAtMissingFields(users: seq<User>, roles: seq<Role>, hash: string -> string,
                                     entries: seq<RegisterInput>, k: nat)
    requires k < |entries| && RegisterAll(users, roles, hash, entries[..k]).Running?
    requires !Truthy(entries[k].fullName) || !Truthy(entries[k].email) || !Truthy(entries[k].password)
    ensures RegisterAll(users, roles, hash, entries) ==
            Stopped(RegisterAll(users, roles, hash, entries[..k]).users, 400, MissingFields)
  {
    var before := RegisterAll(users, roles, hash, entries[..k]);
    RegisterPrefixStep(users, roles, hash, entries, k);
    StepRejectsMissing(before.users, before.created, roles, hash, entries[k]);
    RegisterStaysStopped(users, roles, hash, entries, k + 1);
  }

  /**
   * Two entries of one request whose emails agree after trimming and
   * lower-casing never both become users: when the first is created, the
   * second is a duplicate and the request ends with 400.
   */
  lemma RegisterSameEmailTwice(users: seq<User>, roles: seq<Role>, hash: string -> string, a: RegisterInput, b: RegisterInput)
    requires Truthy(a.fullName) && Truthy(a.email) && Truthy(a.password)
    requires Truthy(b.fullName) && Truthy(b.email) && Truthy(b.password)
    requires UserEmail(a.email.value) == UserEmail(b.email.value)
    ensures RegisterAll(users, roles, hash, [a, b]).Stopped?
    ensures |RegisterAll(users, roles, hash, [a, b]).users| <= |users| + 1
  {
    RegisterTwo(users, roles, hash, a, b);
    StepSameEmailTwice(users, roles, hash, a, b);
  }

  /** A request of two entries is two passes of the loop body. */
  lemma RegisterTwo(users: seq<User>, roles: seq<Role>, hash: string -> string, a: RegisterInput, b: RegisterInput)
    ensures RegisterAll(users, roles, hash, [a, b]) ==
            RegisterStep(RegisterStep(Running(users, []), roles, hash, a), roles, hash, b)
  {
    var entries := [a, b];
    RegisterPrefixStep(users, roles, hash, entries, 0);
    RegisterPrefixStep(users, roles, hash, entries, 1);
    assert entries[..0] == [] && entries[..1] == [a] && entries[..2] == entries;
  }

  lemma StepSameEmailTwice(users: seq<User>, roles: seq<Role>, hash: string -> string, a: RegisterInput, b: RegisterInput)
    requires Truthy(a.fullName) && Truthy(a.email) && Truthy(a.password)
    requires Truthy(b.fullName) && Truthy(b.email) && Truthy(b.password)
    requires UserEmail(a.email.value) == UserEmail(b.email.value)
    ensures RegisterStep(RegisterStep(Running(users, []), roles, hash, a), roles, hash, b).Stopped?
    ensures |RegisterStep(RegisterStep(Running(users, []), roles, hash, a), roles, hash, b).users| <= |users| + 1
  {
    var first := RegisterStep(Running(users, []), roles, hash, a);
    if first.Running? {
      StepCreates(users, [], roles, hash, a);
      assert first.users[|users|].email == UserEmail(b.email.value);
      assert UserTaken(first.users, b.fullName.value, b.email.value);
      StepRejectsTaken(first.users, first.created, roles, hash, b);
    }
  }

  // ------------------------------------------------------------ login

  /** The user part of the login reply. */
  datatype Session = Session(id: Id, fullName: string, email: string, role: string)

  datatype LoggedIn = LoggedIn(message: string, token: string, user: Session)

  const BadCredentials: string := "Invalid email or password"

  /** The stored user `User.findOne({email})` finds; the query email goes through the setter. */
  function UserWithEmail(users: seq<User>, email: string): (r: Option<Id>)
    ensures r.Some? ==> r.value < |users| && users[r.value].email == UserEmail(email)
    ensures r.None? <==> forall i :: 0 <= i < |users| ==> users[i].email != UserEmail(email)
  {
    var key := UserEmail(email);
    FirstWhere(users, (u: User) => u.email == key)
  }

  /**
   * `login`: 400 without an email or a password; the same 400 for an
   * unknown email and for a wrong password; a user whose role is no longer
   * stored makes `user.role.name` throw (500); otherwise 200 with a token
   * signed over the user's identifier and role name. `matches` is the
   * password comparison, `sign` the token signing.
   */
  function Login(users: seq<User>, roles: seq<Role>, email: Option<string>, password: Option<string>,
                 matches: (string, string) -> bool, sign: (Id, string) -> string): (r: Response<LoggedIn>)
    ensures !Truthy(email) || !Truthy(password) ==> r == Fail(400, "Email and password required")
    ensures r.Ok? ==> && Truthy(email) && Truthy(password) && r.code == 200
                      && r.body.user.id < |users|
                      && r.body.user.email == UserEmail(email.value) == users[r.body.user.id].email
                      && users[r.body.user.id].role < |roles|
                      && r.body.user.role == roles[users[r.body.user.id].role].name
                      && r.body.token == sign(r.body.user.id, r.body.user.role)
  {
    if !Truthy(email) || !Truthy(password) then Fail(400, "Email and password required")
    else match UserWithEmail(users, email.value)
      case None => Fail(400, BadCredentials)
      case Some(id) =>
        var u := users[id];
        if !matches(password.value, u.passwordHash) then Fail(400, BadCredentials)
        else if u.role >= |roles| then Fail(500, "Server error")
        else
          var role := roles[u.role].name;
          Ok(200, LoggedIn("Login successful", sign(id, role), Session(id, u.fullName, u.email, role)))
  }

  /** Login succeeds exactly for a stored email whose user's password matches and whose role is stored. */
  lemma LoginOkIff(users: seq<User>, roles: seq<Role>, email: string, password: string,
                   matches: (string, string) -> bool, sign: (Id, string) -> string)
    requires email != "" && password != ""
    ensures Login(users, roles, Some(email), Some(password), matches, sign).Ok? <==>
              && UserWithEmail(users, email).Some?
              && matches(password, users[UserWithEmail(users, email).value].passwordHash)
              && users[UserWithEmail(users, email).value].role < |roles|
  {
  }

  /**
   * The reply does not tell an unknown email from a wrong password: both
   * get the same 400.
   */
  lemma LoginFailsAlike(users: seq<User>, roles: seq<Role>, unknown: string, known: string, password: string,
                        matches: (string, string) -> bool, sign: (Id, string) -> string)
    requires unknown != "" && known != "" && password != ""
    requires forall i :: 0 <= i < |users| ==> users[i].email != UserEmail(unknown)
    requires forall i :: 0 <= i < |users| && users[i].email == UserEmail(known) ==> !matches(password, users[i].passwordHash)
    ensures Login(users, roles, Some(unknown), Some(password), matches, sign) == Fail(400, BadCredentials)
    ensures Login(users, roles, Some(known), Some(password), matches, sign) == Fail(400, BadCredentials)
  {
  }

  // ------------------------------------------------------------ role change

  datatype UserRoleUpdated = UserRoleUpdated(message: string, user: User)

  datatype UsersHandled = UsersHandled(resp: Response<UserRoleUpdated>, users: seq<User>)

  /**
   * `updateUserRole`: 400 without a role identifier, 404 for an unknown
   * role, then 404 for an unknown user; otherwise the user's role is
   * replaced and nothing else changes.
   */
  function UpdateUserRole(users: seq<User>, roles: seq<Role>, id: Id, roleId: Option<Id>): (r: UsersHandled)
    ensures roleId.None? ==> r == UsersHandled(Fail(400, "Role ID is required"), users)
    ensures roleId.Some? && roleId.value >= |roles| ==> r == UsersHandled(Fail(404, "Role not found"), users)
    ensures roleId.Some? && roleId.value < |roles| && id >= |users| ==> r == UsersHandled(Fail(404, "User not found"), users)
    ensures r.resp.Ok? <==> roleId.Some? && roleId.value < |roles| && id < |users|
    ensures r.resp.Ok? ==> && |r.users| == |users|
                           && r.users[id] == users[id].(role := roleId.value)
                           && (forall j :: 0 <= j < |users| && j != id ==> r.users[j] == users[j])
                           && r.resp == Ok(200, UserRoleUpdated("User role updated successfully", r.users[id]))
  {
    if roleId.None? then UsersHandled(Fail(400, "Role ID is required"), users)
    else if roleId.value >= |roles| then UsersHandled(Fail(404, "Role not found"), users)
    else if id >= |users| then UsersHandled(Fail(404, "User not found"), users)
    else
      var u := users[id].(role := roleId.value);
      UsersHandled(Ok(200, UserRoleUpdated("User role updated successfully", u)), users[id := u])
  }

  /** Changing a user's role keeps full names and emails unique and leaves every role reference valid. */
  lemma UpdateUserRoleKeepsUsersValid(users: seq<User>, roles: seq<Role>, id: Id, roleId: Option<Id>)
    requires UniqueUsers(users) && forall i :: 0 <= i < |users| ==> users[i].role < |roles|
    ensures UniqueUsers(UpdateUserRole(users, roles, id, roleId).users)
    ensures forall i :: 0 <= i < |UpdateUserRole(users, roles, id, roleId).users| ==>
              UpdateUserRole(users, roles, id, roleId).users[i].role < |roles|
  {
    var r := UpdateUserRole(users, roles, id, roleId);
    if r.resp.Ok? {
      forall i, j | 0 <= i < j < |r.users| ensures r.users[i].fullName != r.users[j].fullName && r.users[i].email != r.users[j].email {
        assert r.users[i].fullName == users[i].fullName && r.users[i].email == users[i].email;
        assert r.users[j].fullName == users[j].fullName && r.users[j].email == users[j].email;
      }
    }
  }

  /** Setting the same role twice is the same as setting it once. */
  lemma UpdateUserRoleIdempotent(users: seq<User>, roles: seq<Role>, id: Id, roleId: Option<Id>)
    ensures var once := UpdateUserRole(users, roles, id, roleId);
            UpdateUserRole(once.users, roles, id, roleId) == once
  {
  }
}
