/** The `users` table (app/auth/model.py) and the request and view shapes that
    travel in and out of the account endpoints (app/auth/schema.py). */
module UserModel {
  import opened Outcomes

  /** The UUID primary key of a user. */
  datatype UserId = UserId(uuid: nat)

  /** `UserRoles`: a user has exactly one of two roles. */
  datatype Role = AdminRole | UserRole

  /** The enum member's value, as stored and as shown. */
  function RoleValue(r: Role): string {
    match r
    case AdminRole => "admin"
    case UserRole => "user"
  }

  /** `UserRoles(value)`: the enum member with the given value, if any. */
  function RoleOf(value: string): Option<Role> {
    if value == "admin" then Some(AdminRole)
    else if value == "user" then Some(UserRole)
    else None
  }

  /** The two values are the only ones the enum accepts, and each names its own member. */
  lemma RoleValueRoundTrip(r: Role, value: string)
    ensures RoleOf(RoleValue(r)) == Some(r)
    ensures RoleOf(value).Some? <==> value == "admin" || value == "user"
    ensures RoleOf(value).Some? ==> RoleValue(RoleOf(value).value) == value
  {
  }

  /** A row of `users`. The password is the stored bcrypt hash; timestamps are not modelled. */
  datatype User = User(
    id: UserId,
    email: string,
    password: string,
    username: string,
    fullname: Option<string>,
    isActive: bool,
    isSuperuser: bool,
    role: Role)

  // Column widths declared on the table.
  const EmailColumnWidth: nat := 100
  const UsernameColumnWidth: nat := 20
  const FullnameColumnWidth: nat := 200

  /** The row's strings fit the declared column widths. */
  predicate FitsColumns(u: User) {
    && |u.email| <= EmailColumnWidth
    && |u.username| <= UsernameColumnWidth
    && (u.fullname.Some? ==> |u.fullname.value| <= FullnameColumnWidth)
  }

  /** Table-level uniqueness of usernames (active and inactive users alike). */
  predicate UniqueUsernames(users: map<UserId, User>) {
    forall a, b :: a in users && b in users && a != b ==> users[a].username != users[b].username
  }

  /** Table-level uniqueness of emails. */
  predicate UniqueEmails(users: map<UserId, User>) {
    forall a, b :: a in users && b in users && a != b ==> users[a].email != users[b].email
  }

  /** Each row sits under its own primary key. */
  predicate KeyedById(users: map<UserId, User>) {
    forall k :: k in users ==> users[k].id == k
  }

  /** `select(User).where(User.username == name)`: the one user with that name, if any. */
  function FindByUsername(users: map<UserId, User>, name: string): (r: Option<User>)
    requires UniqueUsernames(users)
    ensures r.Some? ==> r.value in users.Values && r.value.username == name
    ensures forall k :: k in users && users[k].username == name ==> r == Some(users[k])
    ensures r.None? ==> forall k :: k in users ==> users[k].username != name
  {
    if exists k :: k in users && users[k].username == name then
      var k :| k in users && users[k].username == name;
      Some(users[k])
    else
      None
  }

  /** `select(User).filter_by(id=...)`: the user stored under the key, if any. */
  function UserById(users: map<UserId, User>, id: UserId): Option<User> {
    if id in users then Some(users[id]) else None
  }

  // ---- request shapes and their validation bounds ----

  /** The sign-up request: optional fullname, username, email and raw password. */
  datatype CreateUserRequest = CreateUserRequest(
    fullname: Option<string>,
    username: string,
    email: string,
    rawPassword: string)

  /** The field bounds the request validator enforces before the core runs. */
  predicate ValidCreateUser(r: CreateUserRequest) {
    && (r.fullname.Some? ==> 1 <= |r.fullname.value| <= 300)
    && 4 <= |r.username| <= 32
    && |r.email| <= 300
    && 8 <= |r.rawPassword| <= 32
  }

  /** An account patch: only fullname and username can be supplied. */
  datatype UpdateUserPatch = UpdateUserPatch(fullname: Option<string>, username: Option<string>)

  predicate ValidUpdateUser(p: UpdateUserPatch) {
    && (p.fullname.Some? ==> 1 <= |p.fullname.value| <= 300)
    && (p.username.Some? ==> 4 <= |p.username.value| <= 50)
  }

  /** The user view returned by the account endpoints: no password field exists in it. */
  datatype UserView = UserView(
    fullname: Option<string>,
    username: string,
    email: string,
    id: UserId,
    role: string,
    isActive: bool)

  function UserViewOf(u: User): UserView {
    UserView(u.fullname, u.username, u.email, u.id, RoleValue(u.role), u.isActive)
  }

  /** The view is blind to the password: two users that differ only in it look the same. */
  lemma ViewHidesPassword(u: User, otherHash: string)
    ensures UserViewOf(u.(password := otherHash)) == UserViewOf(u)
  {
  }

  /** The row a sign-up inserts, with the table's defaults for the other columns. */
  function NewUser(id: UserId, r: CreateUserRequest, passwordHash: string): User {
    User(id, r.email, passwordHash, r.username, r.fullname, true, false, UserRole)
  }

  /** A new account shows the request's own data, the role `user`, active; it is not a superuser. */
  lemma NewUserDefaults(id: UserId, r: CreateUserRequest, passwordHash: string)
    ensures UserViewOf(NewUser(id, r, passwordHash)) == UserView(r.fullname, r.username, r.email, id, "user", true)
    ensures !NewUser(id, r, passwordHash).isSuperuser
    ensures NewUser(id, r, passwordHash).password == passwordHash
  {
  }

  /** Within the schema's bounds, a request fits the columns exactly when its
      username has at most 20 characters, its email at most 100 and its fullname at most 200. */
  lemma NewUserFitsColumnsIff(id: UserId, r: CreateUserRequest, passwordHash: string)
    requires ValidCreateUser(r)
    ensures FitsColumns(NewUser(id, r, passwordHash)) <==>
      |r.username| <= 20 && |r.email| <= 100 && (r.fullname.Some? ==> |r.fullname.value| <= 200)
  {
  }

  /** The request schema is wider than the table: a valid sign-up can carry a
      username too long for its column. */
  lemma SchemaAdmitsOverwideUsername()
    ensures var r := CreateUserRequest(None, "abcdefghijklmnopqrstu", "a@b.io", "password");
      ValidCreateUser(r) && !FitsColumns(NewUser(UserId(0), r, "hash"))
  {
  }

  // ---- the in-place patch of update_user ----

  /** One `(key, value)` item of the dumped patch, in the patch's field order. */
  datatype UserField = FullnameField(fullname: Option<string>) | UsernameField(username: Option<string>)

  function UserPatchItems(p: UpdateUserPatch): seq<UserField> {
    [FullnameField(p.fullname), UsernameField(p.username)]
  }

  /** `if value: if getattr(user, key) != value: setattr(user, key, value)`. */
  function SetUserField(u: User, item: UserField): User {
    match item
    case FullnameField(v) => if NonEmpty(v) && u.fullname != v then u.(fullname := v) else u
    case UsernameField(v) => if NonEmpty(v) && Some(u.username) != v then u.(username := v.value) else u
  }

  /** The user after the loop has visited the given items, left to right. */
  function ApplyUserItems(u: User, items: seq<UserField>): User
    decreases |items|
  {
    if items == [] then u else SetUserField(ApplyUserItems(u, items[..|items| - 1]), items[|items| - 1])
  }

  /** Reference definition of a patched user: each field takes the patch value
      when that value is truthy, and keeps its stored value otherwise. */
  function PatchedUser(u: User, p: UpdateUserPatch): User {
    u.(fullname := if NonEmpty(p.fullname) then p.fullname else u.fullname,
       username := if NonEmpty(p.username) then p.username.value else u.username)
  }

  /** The field-by-field loop computes the reference patch. */
  lemma {:induction false} UserItemsArePatch(u: User, p: UpdateUserPatch)
    ensures ApplyUserItems(u, UserPatchItems(p)) == PatchedUser(u, p)
  {
    var items := UserPatchItems(p);
    assert items[..1][..0] == [];
    assert items[..|items| - 1] == items[..1];
    assert ApplyUserItems(u, items[..1]) == SetUserField(u, items[0]);
  }

  /** A patch changes at most fullname and username, each only when supplied
      non-empty; applying it twice is the same as once. */
  lemma PatchTouchesOnlyNamedFields(u: User, p: UpdateUserPatch)
    ensures var v := PatchedUser(u, p);
      && v.id == u.id && v.email == u.email && v.password == u.password
      && v.isActive == u.isActive && v.isSuperuser == u.isSuperuser && v.role == u.role
      && (v.fullname != u.fullname ==> NonEmpty(p.fullname) && v.fullname == p.fullname)
      && (v.username != u.username ==> NonEmpty(p.username) && v.username == p.username.value)
      && PatchedUser(v, p) == v
  {
  }

  /** The patch schema is wider than the table as well: starting from a row
      that fits, a schema-valid patch keeps it fitting exactly when a supplied
      username has at most 20 characters and a supplied fullname at most 200. */
  lemma PatchFitsColumnsIff(u: User, p: UpdateUserPatch)
    requires ValidUpdateUser(p) && FitsColumns(u)
    ensures FitsColumns(PatchedUser(u, p)) <==>
      (p.username.Some? ==> |p.username.value| <= UsernameColumnWidth)
      && (p.fullname.Some? ==> |p.fullname.value| <= FullnameColumnWidth)
  {
  }
}
