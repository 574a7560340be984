/** The account guards of app/auth/exceptions.py. Each one only reads the
    users table and either passes or raises; the composites run their steps in
    order and stop at the first that raises. */
module UserChecks {
  import opened Outcomes
  import opened UserModel
  import opened Tokens

  /** `_is_username_taken`: some user, active or not, holds the username. */
  predicate IsUsernameTaken(users: map<UserId, User>, username: string) {
    exists k :: k in users && users[k].username == username
  }

  /** `_is_email_taken`: some user, active or not, holds the email. */
  predicate IsEmailTaken(users: map<UserId, User>, email: string) {
    exists k :: k in users && users[k].email == email
  }

  function UserNotExist(user: Option<User>): Outcome {
    if user.None? then Fail(UserNotFound) else Pass
  }

  /** Passes for the account's owner and for any superuser. */
  function UserHaveNoAdminPermissions(userId: UserId, actor: CurrentUser): Outcome {
    if userId != actor.id && !IsAdmin(actor) then Fail(NoAdminPermission) else Pass
  }

  /** Nobody but the admin themself may act on an admin's account. */
  function AdminCantEditOtherAdmin(user: User, actor: CurrentUser, action: Action): Outcome {
    if user.id != actor.id && user.isSuperuser then Fail(OtherAdminsData(action)) else Pass
  }

  /** `username_is_taken`: on sign-up (`current` is None) always looked up; on
      update only when the patch carries a non-empty username different from
      the stored one. */
  function UsernameIsTaken(users: map<UserId, User>, requested: Option<string>, current: Option<User>): Outcome {
    if current.None? || (NonEmpty(requested) && current.value.username != requested.value) then
      if requested.Some? && IsUsernameTaken(users, requested.value) then Fail(UsernameTaken) else Pass
    else
      Pass
  }

  function EmailIsTaken(users: map<UserId, User>, email: string): Outcome {
    if IsEmailTaken(users, email) then Fail(EmailTaken) else Pass
  }

  function UserIsAlreadyInactive(user: User): Outcome {
    if !user.isActive then Fail(UserAlreadyDeleted) else Pass
  }

  /** Who may update or deactivate an account: its owner, or a superuser when
      the account is not itself a superuser's. */
  predicate MayManageUser(actor: CurrentUser, target: User) {
    target.id == actor.id || (IsAdmin(actor) && !target.isSuperuser)
  }

  /** The patch asks to rename the user to a different, non-empty username. */
  predicate Renames(target: User, patch: UpdateUserPatch) {
    NonEmpty(patch.username) && patch.username.value != target.username
  }

  /** `create_user_exceptions`: username first, then email. */
  function CreateUserExceptions(users: map<UserId, User>, data: CreateUserRequest): (r: Outcome)
    ensures r == Pass <==> !IsUsernameTaken(users, data.username) && !IsEmailTaken(users, data.email)
    ensures IsUsernameTaken(users, data.username) ==> r == Fail(UsernameTaken)
    ensures !IsUsernameTaken(users, data.username) && IsEmailTaken(users, data.email) ==> r == Fail(EmailTaken)
  {
    (:- UsernameIsTaken(users, Some(data.username), None);
     EmailIsTaken(users, data.email))
  }

  function ShowUserExceptions(user: Option<User>): (r: Outcome)
    ensures r == Pass <==> user.Some?
    ensures r.Fail? ==> r.denial == UserNotFound
  {
    UserNotExist(user)
  }

  /** `update_user_exceptions`: existence, permission, admin peers, then the new username. */
  function UpdateUserExceptions(users: map<UserId, User>, user: Option<User>, actor: CurrentUser,
                                patch: UpdateUserPatch): (r: Outcome)
    ensures r == Pass <==>
      user.Some? && MayManageUser(actor, user.value)
      && !(Renames(user.value, patch) && IsUsernameTaken(users, patch.username.value))
    ensures user.None? ==> r == Fail(UserNotFound)
    ensures user.Some? && user.value.id != actor.id ==>
      && (!IsAdmin(actor) ==> r == Fail(NoAdminPermission))
      && (IsAdmin(actor) && user.value.isSuperuser ==> r == Fail(OtherAdminsData(Update)))
    ensures (user.Some? && MayManageUser(actor, user.value) && Renames(user.value, patch)
             && IsUsernameTaken(users, patch.username.value)) ==> r == Fail(UsernameTaken)
  {
    (:- UserNotExist(user);
     :- UserHaveNoAdminPermissions(user.value.id, actor);
     :- AdminCantEditOtherAdmin(user.value, actor, Update);
     UsernameIsTaken(users, patch.username, user))
  }

  /** `delete_user_exceptions`: existence, permission, admin peers, and last
      the account must still be active. */
  function DeleteUserExceptions(user: Option<User>, actor: CurrentUser): (r: Outcome)
    ensures r == Pass <==> user.Some? && MayManageUser(actor, user.value) && user.value.isActive
    ensures user.None? ==> r == Fail(UserNotFound)
    ensures user.Some? && user.value.id != actor.id ==>
      && (!IsAdmin(actor) ==> r == Fail(NoAdminPermission))
      && (IsAdmin(actor) && user.value.isSuperuser ==> r == Fail(OtherAdminsData(Delete)))
    ensures user.Some? && MayManageUser(actor, user.value) && !user.value.isActive ==> r == Fail(UserAlreadyDeleted)
  {
    (:- UserNotExist(user);
     :- UserHaveNoAdminPermissions(user.value.id, actor);
     :- AdminCantEditOtherAdmin(user.value, actor, Delete);
     UserIsAlreadyInactive(user.value))
  }

  /** Acting on one's own account never trips the permission or admin-peer
      guards: a user may always rename and deactivate themself, subject only
      to the username and activity checks. */
  lemma SelfServiceIsPermitted(users: map<UserId, User>, target: User, actor: CurrentUser, patch: UpdateUserPatch)
    requires target.id == actor.id
    ensures UpdateUserExceptions(users, Some(target), actor, patch) == UsernameIsTaken(users, patch.username, Some(target))
    ensures DeleteUserExceptions(Some(target), actor) == UserIsAlreadyInactive(target)
  {
  }

  /** A superuser may manage an ordinary account, and never another superuser's. */
  lemma AdminPeerRule(target: User, actor: CurrentUser)
    requires IsAdmin(actor) && target.id != actor.id
    ensures DeleteUserExceptions(Some(target), actor) ==
      if target.isSuperuser then Fail(OtherAdminsData(Delete))
      else if target.isActive then Pass
      else Fail(UserAlreadyDeleted)
  {
  }
}
