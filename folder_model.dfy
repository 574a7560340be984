/** The `folders` table (app/todo/folder/model.py) and the folder request and
    view shapes (app/todo/folder/schema.py). */
module FolderModel {
  import opened Outcomes
  import opened UserModel

  /** The UUID primary key of a folder. */
  datatype FolderId = FolderId(uuid: nat)

  /** A row of `folders`. `userId` is the owner; `parentId` optionally names
      another folder. Timestamps are not modelled. */
  datatype Folder = Folder(
    id: FolderId,
    name: string,
    description: Option<string>,
    isActive: bool,
    isPrivate: bool,
    userId: UserId,
    parentId: Option<FolderId>)

  const NameColumnWidth: nat := 100

  /** Each row sits under its own primary key. */
  predicate FoldersKeyedById(folders: map<FolderId, Folder>) {
    forall k :: k in folders ==> folders[k].id == k
  }

  /** Referential integrity of the self-reference: a parent, when set, is a stored folder. */
  predicate ParentsExist(folders: map<FolderId, Folder>) {
    forall k :: k in folders && folders[k].parentId.Some? ==> folders[k].parentId.value in folders
  }

  /** No owner has two folders of the same name. The table declares no such
      constraint; the guards aim at it. */
  predicate NamesUniquePerOwner(folders: map<FolderId, Folder>) {
    forall a, b :: a in folders && b in folders && a != b && folders[a].userId == folders[b].userId
      ==> folders[a].name != folders[b].name
  }

  /** Every folder sits under a folder of its own owner. The guards aim at
      this too; the table does not enforce it. */
  predicate ParentsShareOwner(folders: map<FolderId, Folder>) {
    forall k :: k in folders && folders[k].parentId.Some? && folders[k].parentId.value in folders
      ==> folders[folders[k].parentId.value].userId == folders[k].userId
  }

  /** `select(Folder).filter_by(id=...)`: the folder stored under the key, if any. */
  function FolderById(folders: map<FolderId, Folder>, id: FolderId): Option<Folder> {
    if id in folders then Some(folders[id]) else None
  }

  /** The ids of the folders the given user owns, nested ones included. */
  function OwnedBy(folders: map<FolderId, Folder>, owner: UserId): set<FolderId> {
    set k | k in folders && folders[k].userId == owner
  }

  // ---- request shapes and their validation bounds ----

  datatype CreateFolderRequest = CreateFolderRequest(name: string, description: Option<string>, parentId: Option<FolderId>)

  predicate ValidCreateFolder(r: CreateFolderRequest) {
    && 1 <= |r.name| <= 100
    && (r.description.Some? ==> |r.description.value| <= 1000)
  }

  /** A folder patch: every field optional, `is_active` included, `is_private` absent. */
  datatype UpdateFolderPatch = UpdateFolderPatch(
    name: Option<string>,
    description: Option<string>,
    parentId: Option<FolderId>,
    isActive: Option<bool>)

  predicate ValidUpdateFolder(p: UpdateFolderPatch) {
    && (p.name.Some? ==> 1 <= |p.name.value| <= 100)
    && (p.description.Some? ==> |p.description.value| <= 1000)
  }

  /** The folder view: no `is_private`; its `children` field is always left null. */
  datatype FolderView = FolderView(
    name: string,
    description: Option<string>,
    parentId: Option<FolderId>,
    id: FolderId,
    isActive: bool,
    userId: UserId)

  function FolderViewOf(f: Folder): FolderView {
    FolderView(f.name, f.description, f.parentId, f.id, f.isActive, f.userId)
  }

  /** The row `create_folder` inserts: the request's fields, owned by the given
      user, with the table's defaults (active and private). */
  function NewFolder(id: FolderId, r: CreateFolderRequest, owner: UserId): Folder {
    Folder(id, r.name, r.description, true, true, owner, r.parentId)
  }

  /** A created folder is active and private, and its view echoes the request. */
  lemma NewFolderDefaults(id: FolderId, r: CreateFolderRequest, owner: UserId)
    ensures NewFolder(id, r, owner).isActive && NewFolder(id, r, owner).isPrivate
    ensures FolderViewOf(NewFolder(id, r, owner)) == FolderView(r.name, r.description, r.parentId, id, true, owner)
  {
  }

  /** A schema-valid name always fits its column. */
  lemma ValidNameFitsColumn(id: FolderId, r: CreateFolderRequest, owner: UserId)
    requires ValidCreateFolder(r)
    ensures |NewFolder(id, r, owner).name| <= NameColumnWidth
  {
  }

  // ---- the in-place patch of update_folder ----

  /** One `(key, value)` item of the dumped patch, in the patch's field order. */
  datatype FolderField =
    | NameField(name: Option<string>)
    | DescriptionField(description: Option<string>)
    | ParentField(parentId: Option<FolderId>)
    | ActiveField(isActive: Option<bool>)

  function FolderPatchItems(p: UpdateFolderPatch): seq<FolderField> {
    [NameField(p.name), DescriptionField(p.description), ParentField(p.parentId), ActiveField(p.isActive)]
  }

  /** `if value: if getattr(folder, key) != value: setattr(folder, key, value)`.
      A UUID is always truthy; `False` is not. */
  function SetFolderField(f: Folder, item: FolderField): Folder {
    match item
    case NameField(v) => if NonEmpty(v) && Some(f.name) != v then f.(name := v.value) else f
    case DescriptionField(v) => if NonEmpty(v) && f.description != v then f.(description := v) else f
    case ParentField(v) => if v.Some? && f.parentId != v then f.(parentId := v) else f
    case ActiveField(v) => if v == Some(true) && f.isActive != true then f.(isActive := true) else f
  }

  /** The folder after the loop has visited the given items, left to right. */
  function ApplyFolderItems(f: Folder, items: seq<FolderField>): Folder
    decreases |items|
  {
    if items == [] then f else SetFolderField(ApplyFolderItems(f, items[..|items| - 1]), items[|items| - 1])
  }

  /** Reference definition of a patched folder: each field takes the patch
      value when that value is truthy, and keeps its stored value otherwise. */
  function PatchedFolder(f: Folder, p: UpdateFolderPatch): Folder {
    f.(name := if NonEmpty(p.name) then p.name.value else f.name,
       description := if NonEmpty(p.description) then p.description else f.description,
       parentId := if p.parentId.Some? then p.parentId else f.parentId,
       isActive := f.isActive || p.isActive == Some(true))
  }

  /** The field-by-field loop computes the reference patch. */
  lemma {:induction false} FolderItemsArePatch(f: Folder, p: UpdateFolderPatch)
    ensures ApplyFolderItems(f, FolderPatchItems(p)) == PatchedFolder(f, p)
  {
    var items := FolderPatchItems(p);
    assert items[..1][..0] == [];
    assert items[..2][..1] == items[..1];
    assert items[..3][..2] == items[..2];
    assert items[..|items| - 1] == items[..3];
    var f1 := SetFolderField(f, items[0]);
    assert ApplyFolderItems(f, items[..1]) == f1;
    var f2 := SetFolderField(f1, items[1]);
    assert ApplyFolderItems(f, items[..2]) == f2;
    var f3 := SetFolderField(f2, items[2]);
    assert ApplyFolderItems(f, items[..3]) == f3;
    assert ApplyFolderItems(f, items) == SetFolderField(f3, items[3]);
  }

  /** A patch never changes the id, owner or privacy, changes a field only to a
      truthy value it supplies, cannot deactivate a folder, and applying it
      twice is the same as once. */
  lemma FolderPatchTouchesOnlyNamedFields(f: Folder, p: UpdateFolderPatch)
    ensures var g := PatchedFolder(f, p);
      && g.id == f.id && g.userId == f.userId && g.isPrivate == f.isPrivate
      && (g.name != f.name ==> NonEmpty(p.name) && g.name == p.name.value)
      && (g.description != f.description ==> NonEmpty(p.description) && g.description == p.description)
      && (g.parentId != f.parentId ==> g.parentId == p.parentId)
      && (f.isActive ==> g.isActive)
      && (g.isActive != f.isActive ==> p.isActive == Some(true))
      && PatchedFolder(g, p) == g
  {
  }

  /** A schema-valid patch keeps a folder's name within its column. */
  lemma ValidPatchKeepsNameInColumn(f: Folder, p: UpdateFolderPatch)
    requires ValidUpdateFolder(p) && |f.name| <= NameColumnWidth
    ensures |PatchedFolder(f, p).name| <= NameColumnWidth
  {
  }
}
