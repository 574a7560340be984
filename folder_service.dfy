/** `FolderManager` of app/todo/folder/service.py: create, show, list, update
    and hard delete over the folders table. As with accounts, each operation
    runs its guards first and writes only once they all pass. */
module FolderService {
  import opened Outcomes
  import opened UserModel
  import opened Tokens
  import opened FolderModel
  import opened FolderChecks
  import opened FolderTree
  import opened Database

  // ---- create ----

  /** Inserting a folder that passed the create guards keeps the parent
      references resolvable. */
  lemma CreateFolderKeepsConsistent(users: map<UserId, User>, folders: map<FolderId, Folder>, actor: CurrentUser,
                                    request: CreateFolderRequest, newId: FolderId)
    requires Consistent(users, folders)
    requires newId !in folders
    requires CreateFolderExceptions(folders, actor, request) == Pass
    ensures Consistent(users, folders[newId := NewFolder(newId, request, actor.id)])
  {
    var after := folders[newId := NewFolder(newId, request, actor.id)];
    forall k | k in after && after[k].parentId.Some?
      ensures after[k].parentId.value in after
    {
      if k != newId {
        assert after[k] == folders[k];
      }
    }
  }

  /** `create_folder`: the create guards, then the insert of a row owned by
      the acting user. The new primary key is produced by the store and
      passed in. */
  method CreateFolder(db: Store, actor: CurrentUser, request: CreateFolderRequest, newId: FolderId)
    returns (r: Result<FolderView>)
    requires db.Valid()
    requires newId !in db.folders
    modifies db
    ensures db.Valid() && db.users == old(db.users)
    ensures r.Ok? <==> CreateFolderExceptions(old(db.folders), actor, request) == Pass
    ensures r.Err? ==> r.denial == CreateFolderExceptions(old(db.folders), actor, request).denial && db.folders == old(db.folders)
    ensures r.Ok? ==>
      && db.folders == old(db.folders)[newId := NewFolder(newId, request, actor.id)]
      && r.value == FolderViewOf(NewFolder(newId, request, actor.id))
  {
    var checks := CreateFolderExceptions(db.folders, actor, request);
    if checks.Fail? {
      return Err(checks.denial);
    }
    var folder := NewFolder(newId, request, actor.id);
    CreateFolderKeepsConsistent(db.users, db.folders, actor, request, newId);
    db.folders := db.folders[newId := folder];
    r := Ok(FolderViewOf(folder));
  }

  /** A create that passed the guards keeps every owner's names distinct and
      every folder under a folder of its own owner: the guards look at the
      acting user, and the acting user is the new folder's owner. */
  lemma {:induction false} CreateFolderKeepsOwnership(folders: map<FolderId, Folder>, actor: CurrentUser,
                                                      request: CreateFolderRequest, newId: FolderId)
    requires newId !in folders && ParentsExist(folders)
    requires NamesUniquePerOwner(folders) && ParentsShareOwner(folders)
    requires CreateFolderExceptions(folders, actor, request) == Pass
    ensures NamesUniquePerOwner(folders[newId := NewFolder(newId, request, actor.id)])
    ensures ParentsShareOwner(folders[newId := NewFolder(newId, request, actor.id)])
  {
    var created := NewFolder(newId, request, actor.id);
    var after := folders[newId := created];
    forall a, b | a in after && b in after && a != b && after[a].userId == after[b].userId
      ensures after[a].name != after[b].name
    {
      if a == newId {
        assert after[b] == folders[b];
      } else if b == newId {
        assert after[a] == folders[a];
      } else {
        assert after[a] == folders[a] && after[b] == folders[b];
      }
    }
    forall k | k in after && after[k].parentId.Some? && after[k].parentId.value in after
      ensures after[after[k].parentId.value].userId == after[k].userId
    {
      var p := after[k].parentId.value;
      if k == newId {
        assert p in folders && p != newId;
      } else {
        assert after[k] == folders[k];
        assert p != newId;
      }
    }
  }

  // ---- show and list ----

  /** `show_folder`: the folder's view when it exists and the actor may see it. */
  function ShowFolder(folders: map<FolderId, Folder>, actor: CurrentUser, folderId: FolderId): (r: Result<FolderView>)
    ensures r.Ok? <==> folderId in folders && MaySeeFolder(actor, folders[folderId])
    ensures r.Ok? ==> r.value == FolderViewOf(folders[folderId])
    ensures folderId !in folders ==> r == Err(FolderNotFound)
    ensures folderId in folders && !MaySeeFolder(actor, folders[folderId]) ==> r == Err(PrivateFolderOfOtherUser)
  {
    var folder := FolderById(folders, folderId);
    match ShowFolderExceptions(folder, actor)
    case Fail(d) => Err(d)
    case Pass => Ok(FolderViewOf(folder.value))
  }

  /** `list_folders`: one view per folder the actor owns, nested folders
      included, public and private alike. The store returns the rows in no
      particular order, so the order here is left open. */
  method ListFolders(db: Store, actor: CurrentUser) returns (r: seq<FolderView>)
    requires FoldersKeyedById(db.folders)
    ensures |r| == |OwnedBy(db.folders, actor.id)|
    ensures forall j :: 0 <= j < |r| ==>
      && r[j].id in db.folders && db.folders[r[j].id].userId == actor.id
      && r[j] == FolderViewOf(db.folders[r[j].id])
    ensures forall k :: k in db.folders && db.folders[k].userId == actor.id ==> exists j :: 0 <= j < |r| && r[j].id == k
    ensures forall i, j :: 0 <= i < j < |r| ==> r[i].id != r[j].id
  {
    var folders := db.folders;
    var owned := OwnedBy(folders, actor.id);
    var rows := owned;
    ghost var listed: seq<FolderId> := [];
    r := [];
    while rows != {}
      invariant rows <= owned
      invariant forall k :: k in owned ==> k in rows || k in listed
      invariant |r| == |listed|
      invariant |listed| + |rows| == |owned|
      invariant forall j :: 0 <= j < |r| ==> listed[j] in owned && listed[j] !in rows && r[j] == FolderViewOf(folders[listed[j]])
      invariant forall i, j :: 0 <= i < j < |r| ==> listed[i] != listed[j]
      decreases |rows|
    {
      var k :| k in rows;
      r := r + [FolderViewOf(folders[k])];
      listed := listed + [k];
      rows := rows - {k};
    }
    forall j | 0 <= j < |r|
      ensures r[j].id == listed[j]
    {
    }
    forall k | k in folders && folders[k].userId == actor.id
      ensures exists j :: 0 <= j < |r| && r[j].id == k
    {
      assert k in owned;
      var j :| 0 <= j < |listed| && listed[j] == k;
      assert r[j].id == k;
    }
  }

  // ---- update ----

  /** Applying a patch that passed the update guards keeps the primary key and
      keeps every parent reference resolvable. */
  lemma UpdateFolderKeepsConsistent(users: map<UserId, User>, folders: map<FolderId, Folder>, folderId: FolderId,
                                    actor: CurrentUser, patch: UpdateFolderPatch)
    requires Consistent(users, folders)
    requires folderId in folders
    requires UpdateFolderExceptions(folders, Some(folders[folderId]), actor, patch) == Pass
    ensures Consistent(users, folders[folderId := PatchedFolder(folders[folderId], patch)])
  {
    var after := folders[folderId := PatchedFolder(folders[folderId], patch)];
    forall k | k in after && after[k].parentId.Some?
      ensures after[k].parentId.value in after
    {
      if k != folderId {
        assert after[k] == folders[k];
      }
    }
  }

  /** `update_folder`: the update guards, then the field-by-field patch loop. */
  method UpdateFolder(db: Store, folderId: FolderId, actor: CurrentUser, patch: UpdateFolderPatch)
    returns (r: Result<FolderView>)
    requires db.Valid()
    modifies db
    ensures db.Valid() && db.users == old(db.users)
    ensures var checks := UpdateFolderExceptions(old(db.folders), FolderById(old(db.folders), folderId), actor, patch);
      && (r.Ok? <==> checks == Pass)
      && (r.Err? ==> r.denial == checks.denial && db.folders == old(db.folders))
      && (r.Ok? ==>
            && db.folders == old(db.folders)[folderId := PatchedFolder(old(db.folders)[folderId], patch)]
            && r.value == FolderViewOf(PatchedFolder(old(db.folders)[folderId], patch)))
  {
    var target := FolderById(db.folders, folderId);
    var checks := UpdateFolderExceptions(db.folders, target, actor, patch);
    if checks.Fail? {
      return Err(checks.denial);
    }
    var folder := target.value;
    var items := FolderPatchItems(patch);
    var i := 0;
    while i < |items|
      invariant 0 <= i <= |items|
      invariant folder == ApplyFolderItems(target.value, items[..i])
    {
      match items[i] {
        case NameField(value) =>
          if NonEmpty(value) && Some(folder.name) != value {
            folder := folder.(name := value.value);
          }
        case DescriptionField(value) =>
          if NonEmpty(value) && folder.description != value {
            folder := folder.(description := value);
          }
        case ParentField(value) =>
          if value.Some? && folder.parentId != value {
            folder := folder.(parentId := value);
          }
        case ActiveField(value) =>
          if value == Some(true) && folder.isActive != true {
            folder := folder.(isActive := true);
          }
      }
      assert items[..i + 1][..i] == items[..i];
      i := i + 1;
    }
    assert items[..i] == items;
    FolderItemsArePatch(target.value, patch);
    UpdateFolderKeepsConsistent(db.users, db.folders, folderId, actor, patch);
    db.folders := db.folders[folderId := folder];
    r := Ok(FolderViewOf(folder));
  }

  /** When the owner updates a folder, the guards look at the right user: names
      stay distinct per owner and parents stay with the same owner. */
  lemma {:induction false} OwnerUpdateKeepsOwnership(folders: map<FolderId, Folder>, folderId: FolderId,
                                                     actor: CurrentUser, patch: UpdateFolderPatch)
    requires folderId in folders && folders[folderId].userId == actor.id
    requires NamesUniquePerOwner(folders) && ParentsShareOwner(folders)
    requires UpdateFolderExceptions(folders, Some(folders[folderId]), actor, patch) == Pass
    ensures NamesUniquePerOwner(folders[folderId := PatchedFolder(folders[folderId], patch)])
    ensures ParentsShareOwner(folders[folderId := PatchedFolder(folders[folderId], patch)])
  {
    var f := folders[folderId];
    var g := PatchedFolder(f, patch);
    FolderPatchTouchesOnlyNamedFields(f, patch);
    var after := folders[folderId := g];
    forall a, b | a in after && b in after && a != b && after[a].userId == after[b].userId
      ensures after[a].name != after[b].name
    {
      if a == folderId || b == folderId {
        var other := if a == folderId then b else a;
        assert after[other] == folders[other];
        if g.name != f.name {
          assert RenamesFolder(f, patch);
          assert !IsNameTakenByUserId(folders, actor.id, patch.name.value);
        }
      } else {
        assert after[a] == folders[a] && after[b] == folders[b];
      }
    }
    forall k | k in after && after[k].parentId.Some? && after[k].parentId.value in after
      ensures after[after[k].parentId.value].userId == after[k].userId
    {
      var p := after[k].parentId.value;
      assert after[p].userId == folders[p].userId;
      if k == folderId && g.parentId != f.parentId {
        assert ParentAcceptable(folders, actor, patch.parentId);
      } else if k != folderId {
        assert after[k] == folders[k];
      }
    }
  }

  /** Two folders of one owner, named "a" and "b", and a superuser with a
      folder of their own. */
  function TwoOwnerFolders(): map<FolderId, Folder> {
    map[FolderId(1) := Folder(FolderId(1), "a", None, true, true, UserId(1), None),
        FolderId(2) := Folder(FolderId(2), "b", None, true, true, UserId(1), None),
        FolderId(3) := Folder(FolderId(3), "c", None, true, true, UserId(9), None)]
  }

  function Superuser(): CurrentUser {
    CurrentUser("root", UserId(9), Some(true))
  }

  /** Because the name guard looks at the superuser's own folders, a superuser
      can rename another user's folder "b" to "a" while that user already owns
      "a": the guards pass and the owner ends up with two folders named "a". */
  lemma AdminRenameCanDuplicateNames()
    ensures NamesUniquePerOwner(TwoOwnerFolders())
    ensures var patch := UpdateFolderPatch(Some("a"), None, None, None);
      && UpdateFolderExceptions(TwoOwnerFolders(), Some(TwoOwnerFolders()[FolderId(2)]), Superuser(), patch) == Pass
      && !NamesUniquePerOwner(TwoOwnerFolders()[FolderId(2) := PatchedFolder(TwoOwnerFolders()[FolderId(2)], patch)])
  {
    var folders := TwoOwnerFolders();
    var patch := UpdateFolderPatch(Some("a"), None, None, None);
    assert !IsNameTakenByUserId(folders, UserId(9), "a") by {
      forall k | k in folders
        ensures !(folders[k].name == "a" && folders[k].userId == UserId(9))
      {
      }
    }
    var after := folders[FolderId(2) := PatchedFolder(folders[FolderId(2)], patch)];
    assert after[FolderId(1)].name == after[FolderId(2)].name;
  }

  /** Likewise the parent guard accepts the superuser's own folder as the new
      parent of another user's folder, so a folder can end up under a folder
      of a different owner. */
  lemma AdminReparentCanCrossOwners()
    ensures ParentsShareOwner(TwoOwnerFolders())
    ensures var patch := UpdateFolderPatch(None, None, Some(FolderId(3)), None);
      && UpdateFolderExceptions(TwoOwnerFolders(), Some(TwoOwnerFolders()[FolderId(2)]), Superuser(), patch) == Pass
      && !ParentsShareOwner(TwoOwnerFolders()[FolderId(2) := PatchedFolder(TwoOwnerFolders()[FolderId(2)], patch)])
  {
    var folders := TwoOwnerFolders();
    var patch := UpdateFolderPatch(None, None, Some(FolderId(3)), None);
    var after := folders[FolderId(2) := PatchedFolder(folders[FolderId(2)], patch)];
    assert after[FolderId(2)].parentId == Some(FolderId(3));
  }

  // ---- delete ----

  /** `delete_folder`: the delete guards, then removal of the folder together
      with every folder below it. */
  method DeleteFolder(db: Store, actor: CurrentUser, folderId: FolderId) returns (r: Outcome)
    requires db.Valid()
    modifies db
    ensures db.Valid() && db.users == old(db.users)
    ensures r == DeleteFolderExceptions(FolderById(old(db.folders), folderId), actor)
    ensures r.Fail? ==> db.folders == old(db.folders)
    ensures r == Pass ==> folderId in old(db.folders) && db.folders == AfterDelete(old(db.folders), folderId)
  {
    var target := FolderById(db.folders, folderId);
    r := DeleteFolderExceptions(target, actor);
    if r.Fail? {
      return;
    }
    DeleteKeepsParentsExisting(db.folders, folderId);
    db.folders := AfterDelete(db.folders, folderId);
  }

  /** When parents share their children's owner, a delete never reaches beyond
      the target's owner: everything it removes belonged to that owner. */
  lemma {:induction false} DeleteStaysWithinOwner(folders: map<FolderId, Folder>, root: FolderId)
    requires root in folders
    requires ParentsShareOwner(folders)
    ensures Subtree(folders, root) <= OwnedBy(folders, folders[root].userId)
  {
    var owned := OwnedBy(folders, folders[root].userId);
    forall c | c in ChildrenOf(folders, owned)
      ensures c in owned
    {
      var p := folders[c].parentId.value;
      assert p in owned;
    }
    DeleteRemovesOnlyDescendants(folders, root, owned);
  }

  /** Listing after a delete: the owner's folders are those they had before,
      less the deleted subtree; every other owner keeps all of theirs when
      parents share their children's owner. */
  lemma {:induction false} ListAfterDelete(folders: map<FolderId, Folder>, root: FolderId, owner: UserId)
    requires root in folders
    requires ParentsShareOwner(folders)
    ensures OwnedBy(AfterDelete(folders, root), owner) == OwnedBy(folders, owner) - Subtree(folders, root)
    ensures owner != folders[root].userId ==> OwnedBy(AfterDelete(folders, root), owner) == OwnedBy(folders, owner)
  {
    DeleteStaysWithinOwner(folders, root);
    var gone := Subtree(folders, root);
    if owner != folders[root].userId {
      assert OwnedBy(folders, owner) * gone == {} by {
        forall k | k in OwnedBy(folders, owner)
          ensures k !in gone
        {
          assert k !in OwnedBy(folders, folders[root].userId);
        }
      }
    }
  }

  /** A delete keeps the remaining folders under folders of their own owners,
      and frees the deleted names: the owner may create a folder of a deleted
      folder's name again, provided no other folder of theirs has it. */
  lemma {:induction false} DeleteKeepsOwnership(folders: map<FolderId, Folder>, root: FolderId)
    requires root in folders
    requires NamesUniquePerOwner(folders) && ParentsShareOwner(folders)
    ensures NamesUniquePerOwner(AfterDelete(folders, root)) && ParentsShareOwner(AfterDelete(folders, root))
    ensures !IsNameTakenByUserId(AfterDelete(folders, root), folders[root].userId, folders[root].name)
  {
    var rest := AfterDelete(folders, root);
    forall k | k in rest
      ensures !(rest[k].name == folders[root].name && rest[k].userId == folders[root].userId)
    {
      assert k != root && rest[k] == folders[k];
    }
  }

  /** Without the shared-owner condition a delete does reach across owners:
      once a superuser has moved user 1's folder "b" under the superuser's
      folder "c", the superuser's delete of "c" passes its guards and removes
      user 1's folder as well. */
  lemma AdminDeleteAfterReparentCrossesOwners()
    ensures var moved := TwoOwnerFolders()[FolderId(2) := TwoOwnerFolders()[FolderId(2)].(parentId := Some(FolderId(3)))];
      && ParentsExist(moved)
      && DeleteFolderExceptions(FolderById(moved, FolderId(3)), Superuser()) == Pass
      && FolderId(2) in OwnedBy(moved, UserId(1))
      && FolderId(2) !in OwnedBy(AfterDelete(moved, FolderId(3)), UserId(1))
  {
    var moved := TwoOwnerFolders()[FolderId(2) := TwoOwnerFolders()[FolderId(2)].(parentId := Some(FolderId(3)))];
    var gone := Subtree(moved, FolderId(3));
    assert moved[FolderId(2)].parentId == Some(FolderId(3));
    assert FolderId(2) in gone;
  }
}
