/** The folder guards of app/todo/folder/exceptions.py. They only read the
    folders table and either pass or raise. The name and parent guards compare
    against the ACTING user's id, never against the folder's owner. */
module FolderChecks {
  import opened Outcomes
  import opened UserModel
  import opened Tokens
  import opened FolderModel
  import UserChecks

  /** `_is_name_taken_by_user_id`: the user already owns a folder of that name. */
  predicate IsNameTakenByUserId(folders: map<FolderId, Folder>, userId: UserId, name: string) {
    exists k :: k in folders && folders[k].name == name && folders[k].userId == userId
  }

  /** `_is_users_parent_folder`: raises when the parent is absent, otherwise
      tells whether the user owns it. */
  function IsUsersParentFolder(folders: map<FolderId, Folder>, userId: UserId, parentId: FolderId): Result<bool> {
    match FolderById(folders, parentId)
    case None => Err(ParentFolderNotFound)
    case Some(parent) => Ok(parent.userId == userId)
  }

  function FolderNotExist(folder: Option<Folder>): Outcome {
    if folder.None? then Fail(FolderNotFound) else Pass
  }

  function NameIsTakenByUser(folders: map<FolderId, Folder>, name: string, actor: CurrentUser, action: Action): Outcome {
    if IsNameTakenByUserId(folders, actor.id, name) then Fail(FolderNameTaken(action)) else Pass
  }

  /** `other_user_parent_folder`: skipped when no parent is given. */
  function OtherUserParentFolder(folders: map<FolderId, Folder>, actor: CurrentUser, parentId: Option<FolderId>,
                                 action: Action): Outcome {
    match parentId
    case None => Pass
    case Some(p) =>
      match IsUsersParentFolder(folders, actor.id, p)
      case Err(d) => Fail(d)
      case Ok(isUsers) => if isUsers then Pass else Fail(OtherUsersParentFolder(action))
  }

  function PrivateFolder(folder: Folder, actor: CurrentUser): Outcome {
    if !IsAdmin(actor) && folder.isPrivate && folder.userId != actor.id then Fail(PrivateFolderOfOtherUser) else Pass
  }

  /** A parent reference the actor may nest under: none, or a folder the actor owns. */
  predicate ParentAcceptable(folders: map<FolderId, Folder>, actor: CurrentUser, parentId: Option<FolderId>) {
    parentId.Some? ==> parentId.value in folders && folders[parentId.value].userId == actor.id
  }

  /** Who may see a folder: a superuser, its owner, or anyone when it is public. */
  predicate MaySeeFolder(actor: CurrentUser, folder: Folder) {
    IsAdmin(actor) || !folder.isPrivate || folder.userId == actor.id
  }

  /** Who may update or delete a folder: its owner or any superuser. */
  predicate MayManageFolder(actor: CurrentUser, folder: Folder) {
    folder.userId == actor.id || IsAdmin(actor)
  }

  /** The patch asks to rename the folder to a different, non-empty name. */
  predicate RenamesFolder(folder: Folder, patch: UpdateFolderPatch) {
    NonEmpty(patch.name) && patch.name.value != folder.name
  }

  /** `create_folder_exceptions`: the name first, then the parent. */
  function CreateFolderExceptions(folders: map<FolderId, Folder>, actor: CurrentUser, data: CreateFolderRequest): (r: Outcome)
    ensures r == Pass <==> !IsNameTakenByUserId(folders, actor.id, data.name) && ParentAcceptable(folders, actor, data.parentId)
    ensures IsNameTakenByUserId(folders, actor.id, data.name) ==> r == Fail(FolderNameTaken(Create))
    ensures !IsNameTakenByUserId(folders, actor.id, data.name) && data.parentId.Some? ==>
      && (data.parentId.value !in folders ==> r == Fail(ParentFolderNotFound))
      && ((data.parentId.value in folders && folders[data.parentId.value].userId != actor.id)
          ==> r == Fail(OtherUsersParentFolder(Create)))
  {
    (:- NameIsTakenByUser(folders, data.name, actor, Create);
     OtherUserParentFolder(folders, actor, data.parentId, Create))
  }

  /** `show_folder_exceptions`: existence, then privacy. */
  function ShowFolderExceptions(folder: Option<Folder>, actor: CurrentUser): (r: Outcome)
    ensures r == Pass <==> folder.Some? && MaySeeFolder(actor, folder.value)
    ensures folder.None? ==> r == Fail(FolderNotFound)
    ensures folder.Some? && !MaySeeFolder(actor, folder.value) ==> r == Fail(PrivateFolderOfOtherUser)
  {
    (:- FolderNotExist(folder);
     PrivateFolder(folder.value, actor))
  }

  /** `update_folder_exceptions`: existence, permission (no admin-peer guard),
      the new name when it differs, and the parent whenever one is supplied. */
  function UpdateFolderExceptions(folders: map<FolderId, Folder>, folder: Option<Folder>, actor: CurrentUser,
                                  patch: UpdateFolderPatch): (r: Outcome)
    ensures r == Pass <==>
      && folder.Some? && MayManageFolder(actor, folder.value)
      && !(RenamesFolder(folder.value, patch) && IsNameTakenByUserId(folders, actor.id, patch.name.value))
      && ParentAcceptable(folders, actor, patch.parentId)
    ensures folder.None? ==> r == Fail(FolderNotFound)
    ensures folder.Some? && !MayManageFolder(actor, folder.value) ==> r == Fail(NoAdminPermission)
    ensures (folder.Some? && MayManageFolder(actor, folder.value) && RenamesFolder(folder.value, patch)
             && IsNameTakenByUserId(folders, actor.id, patch.name.value)) ==> r == Fail(FolderNameTaken(Update))
    ensures (folder.Some? && MayManageFolder(actor, folder.value) && patch.parentId.Some?
             && !(RenamesFolder(folder.value, patch) && IsNameTakenByUserId(folders, actor.id, patch.name.value))) ==>
      && (patch.parentId.value !in folders ==> r == Fail(ParentFolderNotFound))
      && ((patch.parentId.value in folders && folders[patch.parentId.value].userId != actor.id)
          ==> r == Fail(OtherUsersParentFolder(Update)))
  {
    (:- FolderNotExist(folder);
     :- UserChecks.UserHaveNoAdminPermissions(folder.value.userId, actor);
     :- if RenamesFolder(folder.value, patch) then NameIsTakenByUser(folders, patch.name.value, actor, Update) else Pass;
     OtherUserParentFolder(folders, actor, patch.parentId, Update))
  }

  /** `delete_folder_exceptions`: existence, then permission (no admin-peer guard). */
  function DeleteFolderExceptions(folder: Option<Folder>, actor: CurrentUser): (r: Outcome)
    ensures r == Pass <==> folder.Some? && MayManageFolder(actor, folder.value)
    ensures folder.None? ==> r == Fail(FolderNotFound)
    ensures folder.Some? && !MayManageFolder(actor, folder.value) ==> r == Fail(NoAdminPermission)
  {
    (:- FolderNotExist(folder);
     UserChecks.UserHaveNoAdminPermissions(folder.value.userId, actor))
  }

  /** Unlike accounts, folders have no admin-peer guard: a superuser may update
      or delete any folder, a superuser's included, and may see any folder. */
  lemma AdminMayManageAnyFolder(folders: map<FolderId, Folder>, folder: Folder, actor: CurrentUser)
    requires IsAdmin(actor)
    ensures DeleteFolderExceptions(Some(folder), actor) == Pass
    ensures ShowFolderExceptions(Some(folder), actor) == Pass
    ensures UpdateFolderExceptions(folders, Some(folder), actor, UpdateFolderPatch(None, None, None, None)) == Pass
  {
  }

  /** The name guard is scoped by owner: a name taken only by other users never blocks creation. */
  lemma NameScopedByOwner(folders: map<FolderId, Folder>, actor: CurrentUser, data: CreateFolderRequest)
    requires data.parentId.None?
    requires forall k :: k in folders && folders[k].name == data.name ==> folders[k].userId != actor.id
    ensures CreateFolderExceptions(folders, actor, data) == Pass
  {
  }

  /** The parent guard runs whenever the patch carries a parent, even the one
      the folder already has: a superuser re-sending the current parent of
      another user's nested folder is refused. */
  lemma UnchangedParentIsStillChecked(folders: map<FolderId, Folder>, folder: Folder, actor: CurrentUser)
    requires IsAdmin(actor)
    requires folder.parentId.Some? && folder.parentId.value in folders
    requires folders[folder.parentId.value].userId != actor.id
    ensures UpdateFolderExceptions(folders, Some(folder), actor, UpdateFolderPatch(None, None, folder.parentId, None))
            == Fail(OtherUsersParentFolder(Update))
  {
  }
}
