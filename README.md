# Accounts and folders of a to-do backend, in Dafny

This project models the decision core of a small to-do web service. It has
user accounts (sign-up, lookup by id or username, rename, soft delete) and
per-user folders that nest through a `parent_id` reference (create, show,
list, update, hard delete with the subtree). Every operation runs a chain of
guards first. Each guard either passes or raises an HTTP error with a fixed
status code and detail string. Only when every guard passes does the manager
write to the store.

The model is organised like the program:

- `outcomes.dfy`: the errors the guards raise (status and exact detail text), and the `Outcome`/`Result` shapes that stand in for "return normally or raise".
- `user_model.dfy`, `folder_model.dfy`: the `users` and `folders` rows, the request schemas and their bounds, the views returned to clients, and the field-by-field patch loop written as a fold. Each fold has a reference definition and a lemma proving the two equal.
- `tokens.dfy`: the access-token claims, login, and the validation of a decoded token.
- `user_checks.dfy`, `folder_checks.dfy`: the guards and the per-operation guard chains. Each chain is specified by when it passes (an if-and-only-if) and by which error it raises first.
- `folder_tree.dfy`: the `parent_id` closure that a folder delete removes, as a least fixpoint.
- `database.dfy`: the store as a class holding both tables as maps, with the table constraints as its invariant.
- `user_service.dfy`, `folder_service.dfy`: the two managers. Operations that write are methods that modify the store. Each method's postcondition states the whole new state, or that nothing changed on refusal. The read-only operations are functions, except the folder listing, which keeps the source's loop.

The model follows the code wherever the code and the written design differ:

- A folder update runs the parent guard whenever the patch carries a `parent_id`, even when it is the folder's current parent. It does not skip that check when the value is unchanged (`FolderChecks.UnchangedParentIsStillChecked`).
- The folder name and parent guards compare against the acting user's id, not the folder owner's. A superuser acting on another user's folder is therefore checked against the superuser's own folders. The model reproduces this and shows what it lets through: `FolderService.AdminRenameCanDuplicateNames` and `FolderService.AdminReparentCanCrossOwners`.
- An expired token is mostly refused with 401, not 403. The token library checks expiry by default before the service sees the payload, and the service turns that rejection into 401 "Could not validate user". The library checks in whole seconds, while the service's own check compares full-precision times. So the service's 403 "Token expired!" answers only during the one second after `exp` (`Tokens.ExpiryWindows`, `Tokens.ExpiredBranchReachable`).
- An update can never deactivate a folder: `is_active = False` is falsy, so the patch loop skips it.

Storage assumptions:

- Primary keys of new rows and the password hash are inputs, and new keys are fresh.
- A manager's writes and commit are one atomic update of the maps. `delete_folder` issues no commit of its own (app/todo/folder/service.py:137 is its last line). The model assumes that the session dependency wrapping each request commits the delete; that dependency is not part of this model.
- Deleting a folder removes it and every folder reachable from it through `parent_id`. The table declares no on-delete rule for that column, but the service's delete tests rely on this behaviour. Nothing prevents `parent_id` cycles, so the removed set is computed as a fixpoint.

## Model

| member | source | states |
|---|---|---|
| UserModel.RoleValueRoundTrip | app/auth/model.py:10-12 | the role enum has exactly the values "admin" and "user", and value and member convert into each other |
| UserModel.FindByUsername | app/auth/service.py:80-82 | under unique usernames, the lookup returns the one stored user with that username, and None exactly when no user has it |
| UserModel.ViewHidesPassword | app/auth/schema.py:20-23 | the account view does not depend on the stored password hash |
| UserModel.NewUserDefaults | app/auth/model.py:14-23 | a new row is active, not a superuser, has role "user", keeps the given hash, and its view echoes the request's fullname, username and email |
| UserModel.NewUserFitsColumnsIff | app/auth/model.py:17-20 | a schema-valid sign-up fits the table exactly when username ≤ 20, email ≤ 100 and fullname ≤ 200 characters |
| UserModel.SchemaAdmitsOverwideUsername | app/auth/schema.py:6-9 | a request the schema accepts (21-character username) does not fit the 20-character column |
| UserModel.UserItemsArePatch | app/auth/service.py:161-164 | the setattr loop over (fullname, username) yields the reference patch: each field takes a supplied non-empty value, else keeps its own |
| UserModel.PatchFitsColumnsIff | app/auth/schema.py:25-27 | from a row that fits its columns, a schema-valid patch keeps it fitting exactly when a supplied username has at most 20 characters and a supplied fullname at most 200 |
| UserModel.PatchTouchesOnlyNamedFields | app/auth/schema.py:25-27 | an account patch changes at most fullname and username, only to supplied non-empty values, and applying it twice equals applying it once |
| Tokens.GetCurrentUser | app/auth/auth_router.py:43-75 | a decoded payload yields the current user exactly when it has `sub`, `id` and an `exp` the current instant has not passed; otherwise 401 "Could not validate user", 400 "No access token supplied" or 403 "Token expired!", in that order |
| Tokens.AuthenticateUser | app/auth/auth_router.py:27-35 | login credentials pass exactly when a stored user has the username, the password verifies against its hash, and it is active; otherwise 401 "Invalid authentication credentials" |
| Tokens.LoginIssuesBearerToken | app/auth/auth_router.py:77-96 | a login succeeds exactly when authentication does, and returns a "bearer" token naming the user, its id and superuser flag, expiring 1200 seconds after the second it was issued in |
| Tokens.LoginTokenRoundTrip | app/auth/auth_router.py:20-24 | a token issued at login validates to its user at every instant up to its `exp`, is refused with 403 "Token expired!" during the following second, and with 401 "Could not validate user" from then on |
| Tokens.ExpiryWindows | app/auth/auth_router.py:60-64 | for a token the service signed: accepted exactly up to `exp`; 403 exactly in the second after `exp`; 401 exactly from the end of that second |
| Tokens.ExpiredBranchReachable | app/auth/auth_router.py:60-64 | a token with `exp` at 100 s presented at 100.5 s is refused with 403 "Token expired!" |
| UserChecks.CreateUserExceptions | app/auth/exceptions.py:115-121 | sign-up passes exactly when neither username nor email is taken; a taken username is reported before a taken email |
| UserChecks.ShowUserExceptions | app/auth/exceptions.py:124-126 | lookup passes exactly when the user exists, otherwise 404 |
| UserChecks.UpdateUserExceptions | app/auth/exceptions.py:129-143 | update passes exactly when the user exists, the actor is the user or a superuser acting on a non-superuser, and no other user holds a requested new username; errors in that order |
| UserChecks.DeleteUserExceptions | app/auth/exceptions.py:146-157 | delete passes exactly when the user exists, the actor may manage it, and it is still active; errors in that order |
| UserChecks.SelfServiceIsPermitted | app/auth/exceptions.py:53-69 | acting on one's own account never trips the permission or admin-peer guards |
| UserChecks.AdminPeerRule | app/auth/exceptions.py:62-69 | a superuser may delete an ordinary active account, and never another superuser's |
| FolderModel.NewFolderDefaults | app/todo/folder/model.py:12-24 | a new folder is active and private, and its view echoes the request with the new id and owner |
| FolderModel.ValidNameFitsColumn | app/todo/folder/schema.py:7-10 | a schema-valid folder name fits the 100-character column |
| FolderModel.FolderItemsArePatch | app/todo/folder/service.py:110-113 | the setattr loop over (name, description, parent_id, is_active) yields the reference patch |
| FolderModel.ValidPatchKeepsNameInColumn | app/todo/folder/schema.py:24-26 | a schema-valid patch keeps a folder's name within the 100-character column |
| FolderModel.FolderPatchTouchesOnlyNamedFields | app/todo/folder/schema.py:24-26 | a folder patch never changes id, owner or privacy, changes fields only to supplied truthy values, never deactivates, and is idempotent |
| FolderChecks.CreateFolderExceptions | app/todo/folder/exceptions.py:102-113 | create passes exactly when the actor has no folder of that name and any parent exists and is the actor's; errors in that order |
| FolderChecks.ShowFolderExceptions | app/todo/folder/exceptions.py:116-121 | show passes exactly when the folder exists and the actor is a superuser, its owner, or it is public |
| FolderChecks.UpdateFolderExceptions | app/todo/folder/exceptions.py:124-141 | update passes exactly when the folder exists, the actor owns it or is a superuser, a new name is not among the actor's folder names, and any supplied parent exists and is the actor's; errors in that order |
| FolderChecks.DeleteFolderExceptions | app/todo/folder/exceptions.py:144-151 | delete passes exactly when the folder exists and the actor owns it or is a superuser |
| FolderChecks.AdminMayManageAnyFolder | app/todo/folder/exceptions.py:132-134 | folders have no admin-peer guard: a superuser may see, update and delete any folder |
| FolderChecks.NameScopedByOwner | app/todo/folder/exceptions.py:13-27 | a name held only by other users' folders never blocks creation |
| FolderChecks.UnchangedParentIsStillChecked | app/todo/folder/exceptions.py:139-141 | the parent guard also runs when the patch re-sends the folder's current parent |
| FolderTree.Cascade | app/todo/folder/model.py:22-24 | the cascade contains the start set, stays inside the table, and is closed under taking children |
| FolderTree.CascadeIsLeast | app/todo/folder/model.py:22-24 | every children-closed set containing the start set contains the cascade |
| FolderTree.Subtree | tests/integration_tests/todo/folder/test_delete_folder.py:102-124 | the set a delete removes holds the target and every folder whose parent it holds |
| FolderTree.DeleteKeepsParentsExisting | app/todo/folder/service.py:133-137 | after a delete no surviving folder names a removed parent, the target is gone, and every folder outside the subtree is unchanged |
| FolderTree.DeleteRemovesOnlyDescendants | tests/integration_tests/todo/folder/test_delete_folder.py:102-124 | a delete removes nothing that does not descend from the target |
| UserService.GetUserOrNone | app/auth/service.py:61-83 | a UUID finds the user under that key and a string the user with that username; None exactly when there is none |
| UserService.ShowUser | app/auth/service.py:123-135 | the designated user's view, or 404 exactly when no user matches |
| UserService.CreateUserKeepsConsistent | app/auth/service.py:111-116 | inserting a user that passed the sign-up guards keeps usernames and emails unique |
| UserService.UpdateUserKeepsConsistent | app/auth/service.py:157-164 | a patch that passed the update guards keeps usernames unique |
| UserService.CreateUser | app/auth/service.py:94-120 | succeeds exactly when the sign-up guards pass, then inserts exactly the new row and returns its view; on refusal nothing changes |
| UserService.UpdateUser | app/auth/service.py:138-168 | succeeds exactly when the update guards pass, then replaces exactly the target row by its patched form; on refusal nothing changes; inactive accounts stay inactive |
| UserService.DeleteUser | app/auth/service.py:171-196 | returns the delete guards' verdict; on success only the target's `is_active` becomes false; on refusal nothing changes |
| UserService.DeactivationIsFinal | tests/integration_tests/user/test_delete_user.py:88-144 | after a successful soft delete every further delete of that account is refused, by the same actor with "User already has been deleted" |
| FolderService.CreateFolderKeepsConsistent | app/todo/folder/service.py:38-45 | inserting a folder that passed the create guards keeps every parent reference resolvable |
| FolderService.CreateFolder | app/todo/folder/service.py:25-49 | succeeds exactly when the create guards pass, then inserts exactly the new folder owned by the actor; on refusal nothing changes |
| FolderService.CreateFolderKeepsOwnership | app/todo/folder/exceptions.py:102-113 | a create that passed the guards keeps names unique per owner and keeps every folder under a folder of its own owner |
| FolderService.ShowFolder | app/todo/folder/service.py:52-62 | the folder's view exactly when it exists and the actor may see it; 404 or 403 otherwise |
| FolderService.ListFolders | app/todo/folder/service.py:65-84 | one view per folder the actor owns, each equal to that folder's view, none repeated, none missing |
| FolderService.UpdateFolderKeepsConsistent | app/todo/folder/service.py:106-113 | a patch that passed the update guards keeps every parent reference resolvable |
| FolderService.UpdateFolder | app/todo/folder/service.py:87-117 | succeeds exactly when the update guards pass, then replaces exactly the target by its patched form; on refusal nothing changes |
| FolderService.OwnerUpdateKeepsOwnership | app/todo/folder/exceptions.py:124-141 | an update by the folder's owner that passed the guards keeps names unique per owner and parents with the same owner |
| FolderService.AdminRenameCanDuplicateNames | app/todo/folder/exceptions.py:135-138 | a superuser's rename of another user's folder passes the guards and can leave that user with two folders of one name |
| FolderService.AdminReparentCanCrossOwners | app/todo/folder/exceptions.py:139-141 | a superuser can move another user's folder under the superuser's own folder |
| FolderService.DeleteFolder | app/todo/folder/service.py:120-137 | returns the delete guards' verdict; on success removes exactly the target and its descendants; on refusal nothing changes |
| FolderService.DeleteStaysWithinOwner | tests/integration_tests/todo/folder/test_delete_folder.py:102-124 | when parents share their children's owner, a delete removes only folders of the target's owner |
| FolderService.ListAfterDelete | tests/integration_tests/todo/folder/test_delete_folder.py:102-124 | when every parent shares its children's owner, a delete leaves the owner's listing as the former one minus the removed subtree, and leaves other owners' listings unchanged |
| FolderService.AdminDeleteAfterReparentCrossesOwners | app/todo/folder/service.py:120-137 | without that condition a delete reaches across owners: after a superuser moves another user's folder under their own, deleting their folder also removes the other user's |
| FolderService.DeleteKeepsOwnership | app/todo/folder/service.py:120-137 | a delete keeps names unique per owner and parents with the same owner, and frees the deleted folder's name for its owner |

## Left out

- HTTP routing, request parsing and response wrapping are not modelled. The managers take parsed requests, and the `id_or_username` path parameter arrives as a UUID or a string (`UserService.UserRef`).
- Request validation runs before the core. Its length bounds are predicates (`ValidCreateUser`, `ValidUpdateUser`, `ValidCreateFolder`, `ValidUpdateFolder`), and the managers do not require them. E-mail syntax checks are not modelled.
- Password hashing and token signing are foreign libraries. The hash and the password verifier are parameters, and a decoded token is an optional payload. For tokens the service signed, `DecodeIssued` models the library's default expiry check (rejection once the current whole second is past `exp`). Signature and format rejections appear only as a missing payload.
- `create_user` does not run as written. app/auth/service.py:14 imports `CreateUserRaw`, which app/auth/schema.py does not define. app/auth/service.py:107-111 builds the row from `CreateUser`, which declares `raw_password` and no `password` field (app/auth/schema.py:17-18). `UserModel.NewUser` stores the computed hash in the row's password column, which is the evident intent.
- The clock is an integer count of milliseconds. The service's microsecond precision is not modelled; it moves the start of the 403 window by less than a millisecond.
- The model reads the clock as UTC, which is the server's local time only at UTC offset 0. The token code mixes local and UTC times. `exp` is built from the naive local time and encoded as if it were UTC. Both expiry checks compare it with the true UTC time. So a token really lives 1200 seconds plus the server's UTC offset: longer east of UTC, and zero or less at offsets of −20 minutes or more westward. The server's offset is not modelled.
- Column widths are predicates (`FitsColumns`). What the database engine does with an over-wide value is not modelled.
- Commit failures and storage errors are not modelled. Neither are the "Something got wrong" branches after a commit (new row without id, account still active after delete), which the store never reaches when commits are atomic.
- The second inactive-user check in `login` is unreachable after `authenticate_user` and is not modelled separately.
- The folder owner's foreign key to `users` is not part of the store's invariant. Accounts are only ever soft-deleted, so that cascade never fires.
- Cycle prevention for `parent_id` does not exist in the source and is not added. The delete closure is defined for cycles as well.
- Folder names are not unique per owner after a superuser's update. The store's invariant therefore omits `NamesUniquePerOwner` and `ParentsShareOwner`, and the lemmas state when they are kept.
- The `children` field of the folder view is always null in the source and is not modelled.
- `UserModel.UserViewOf`: the role is shown through its enum value ("admin"/"user"). How the view schema converts the enum member to a string is not modelled.
- `FolderService.ListFolders`: the store returns rows in no defined order. The postcondition fixes the multiset of views, not their order.
- `_get_user_data_or_none`, the raw-SQL helpers, configuration, database setup and the UUID path helpers are not part of this model.
