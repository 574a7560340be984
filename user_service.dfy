/** `UserManager` of app/auth/service.py: account sign-up, lookup, rename and
    soft delete over the users table. Every operation runs its guards first
    and writes only once they all pass, so a refused request changes nothing. */
module UserService {
  import opened Outcomes
  import opened UserModel
  import opened Tokens
  import opened UserChecks
  import opened Database

  /** The `id_or_username` path parameter, already classified as a UUID or a plain string. */
  datatype UserRef = ById(id: UserId) | ByUsername(username: string)

  /** The user is the one the reference designates. */
  predicate Designates(ref: UserRef, u: User) {
    match ref
    case ById(id) => u.id == id
    case ByUsername(name) => u.username == name
  }

  /** `_get_user_or_none`: a UUID is looked up by primary key, a string by
      username; no match gives None. */
  function GetUserOrNone(users: map<UserId, User>, ref: UserRef): (r: Option<User>)
    requires KeyedById(users) && UniqueUsernames(users)
    ensures r.Some? ==> r.value in users.Values && Designates(ref, r.value)
    ensures forall k :: k in users && Designates(ref, users[k]) ==> r == Some(users[k])
    ensures r.None? ==> forall k :: k in users ==> !Designates(ref, users[k])
  {
    match ref
    case ById(id) => UserById(users, id)
    case ByUsername(name) => FindByUsername(users, name)
  }

  /** `show_user`: the designated user's view, or 404. */
  function ShowUser(users: map<UserId, User>, ref: UserRef): (r: Result<UserView>)
    requires KeyedById(users) && UniqueUsernames(users)
    ensures r.Ok? <==> exists k :: k in users && Designates(ref, users[k])
    ensures forall k :: k in users && Designates(ref, users[k]) ==> r == Ok(UserViewOf(users[k]))
    ensures r.Err? ==> r.denial == UserNotFound
  {
    var user := GetUserOrNone(users, ref);
    match ShowUserExceptions(user)
    case Fail(d) => Err(d)
    case Pass => Ok(UserViewOf(user.value))
  }

  /** Inserting a user that passed the sign-up guards keeps every username and
      every email unique. */
  lemma CreateUserKeepsConsistent(users: map<UserId, User>, folders: map<FolderModel.FolderId, FolderModel.Folder>,
                                  request: CreateUserRequest, passwordHash: string, newId: UserId)
    requires Consistent(users, folders)
    requires newId !in users
    requires CreateUserExceptions(users, request) == Pass
    ensures Consistent(users[newId := NewUser(newId, request, passwordHash)], folders)
  {
  }

  /** Renaming a user that passed the update guards keeps every username
      unique; no other column that must stay unique is touched. */
  lemma UpdateUserKeepsConsistent(users: map<UserId, User>, folders: map<FolderModel.FolderId, FolderModel.Folder>,
                                  userId: UserId, actor: CurrentUser, patch: UpdateUserPatch)
    requires Consistent(users, folders)
    requires userId in users
    requires UpdateUserExceptions(users, Some(users[userId]), actor, patch) == Pass
    ensures Consistent(users[userId := PatchedUser(users[userId], patch)], folders)
  {
    var before := users[userId];
    var patched := PatchedUser(before, patch);
    var after := users[userId := patched];
    forall a, b | a in after && b in after && a != b
      ensures after[a].username != after[b].username
    {
      if a == userId || b == userId {
        var other := if a == userId then b else a;
        assert after[other] == users[other];
        if patched.username != before.username {
          assert Renames(before, patch);
          assert !IsUsernameTaken(users, patch.username.value);
        }
      }
    }
  }

  /** `create_user`: the sign-up guards, then the insert. The id and the
      password hash are produced outside the core and passed in. */
  method CreateUser(db: Store, request: CreateUserRequest, passwordHash: string, newId: UserId)
    returns (r: Result<UserView>)
    requires db.Valid()
    requires newId !in db.users
    modifies db
    ensures db.Valid() && db.folders == old(db.folders)
    ensures r.Ok? <==> CreateUserExceptions(old(db.users), request) == Pass
    ensures r.Err? ==> r.denial == CreateUserExceptions(old(db.users), request).denial && db.users == old(db.users)
    ensures r.Ok? ==>
      && db.users == old(db.users)[newId := NewUser(newId, request, passwordHash)]
      && r.value == UserViewOf(NewUser(newId, request, passwordHash))
  {
    var checks := CreateUserExceptions(db.users, request);
    if checks.Fail? {
      return Err(checks.denial);
    }
    var user := NewUser(newId, request, passwordHash);
    CreateUserKeepsConsistent(db.users, db.folders, request, passwordHash, newId);
    db.users := db.users[newId := user];
    r := Ok(UserViewOf(user));
  }

  /** `update_user`: the update guards, then the field-by-field patch loop. */
  method UpdateUser(db: Store, userId: UserId, actor: CurrentUser, patch: UpdateUserPatch)
    returns (r: Result<UserView>)
    requires db.Valid()
    modifies db
    ensures db.Valid() && db.folders == old(db.folders)
    ensures var checks := UpdateUserExceptions(old(db.users), UserById(old(db.users), userId), actor, patch);
      && (r.Ok? <==> checks == Pass)
      && (r.Err? ==> r.denial == checks.denial && db.users == old(db.users))
      && (r.Ok? ==>
            && db.users == old(db.users)[userId := PatchedUser(old(db.users)[userId], patch)]
            && r.value == UserViewOf(PatchedUser(old(db.users)[userId], patch)))
    ensures forall k :: k in old(db.users) && !old(db.users)[k].isActive ==> k in db.users && !db.users[k].isActive
  {
    var target := UserById(db.users, userId);
    var checks := UpdateUserExceptions(db.users, target, actor, patch);
    if checks.Fail? {
      return Err(checks.denial);
    }
    var user := target.value;
    var items := UserPatchItems(patch);
    var i := 0;
    while i < |items|
      invariant 0 <= i <= |items|
      invariant user == ApplyUserItems(target.value, items[..i])
    {
      match items[i] {
        case FullnameField(value) =>
          if NonEmpty(value) && user.fullname != value {
            user := user.(fullname := value);
          }
        case UsernameField(value) =>
          if NonEmpty(value) && Some(user.username) != value {
            user := user.(username := value.value);
          }
      }
      assert items[..i + 1][..i] == items[..i];
      i := i + 1;
    }
    assert items[..i] == items;
    UserItemsArePatch(target.value, patch);
    UpdateUserKeepsConsistent(db.users, db.folders, userId, actor, patch);
    db.users := db.users[userId := user];
    r := Ok(UserViewOf(user));
  }

  /** `delete_user`: the delete guards, then `is_active := False` and nothing else. */
  method DeleteUser(db: Store, userId: UserId, actor: CurrentUser) returns (r: Outcome)
    requires db.Valid()
    modifies db
    ensures db.Valid() && db.folders == old(db.folders)
    ensures r == DeleteUserExceptions(UserById(old(db.users), userId), actor)
    ensures r.Fail? ==> db.users == old(db.users)
    ensures r == Pass ==> db.users == old(db.users)[userId := old(db.users)[userId].(isActive := false)]
    ensures forall k :: k in old(db.users) && !old(db.users)[k].isActive ==> k in db.users && !db.users[k].isActive
  {
    var target := UserById(db.users, userId);
    r := DeleteUserExceptions(target, actor);
    if r.Fail? {
      return;
    }
    db.users := db.users[userId := target.value.(isActive := false)];
  }

  /** Soft delete is one-way: once an account has been deactivated, every
      further delete request is refused, by the same actor with
      "User already has been deleted". */
  lemma DeactivationIsFinal(users: map<UserId, User>, userId: UserId, actor: CurrentUser, next: CurrentUser)
    requires DeleteUserExceptions(UserById(users, userId), actor) == Pass
    ensures var after := users[userId := users[userId].(isActive := false)];
      && DeleteUserExceptions(UserById(after, userId), next) != Pass
      && DeleteUserExceptions(UserById(after, userId), actor) == Fail(UserAlreadyDeleted)
  {
  }
}
