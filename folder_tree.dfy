/** The folder hierarchy formed by `parent_id`, and the cascade that deleting
    a folder sets off. The table declares no on-delete rule for `parent_id`;
    the behaviour modelled here, where a delete takes every descendant with
    it, is the storage behaviour the delete tests rely on. Nothing prevents
    `parent_id` cycles, so the closure is computed as a fixpoint, not by
    walking a tree. */
module FolderTree {
  import opened FolderModel

  /** The folders whose `parent_id` names a member of `s`. */
  function ChildrenOf(folders: map<FolderId, Folder>, s: set<FolderId>): set<FolderId> {
    set k | k in folders && folders[k].parentId.Some? && folders[k].parentId.value in s
  }

  /** `s` already contains every child of its members. */
  predicate ClosedUnderChildren(folders: map<FolderId, Folder>, s: set<FolderId>) {
    ChildrenOf(folders, s) <= s
  }

  /** The least children-closed set containing `s`: `s` and all of its descendants. */
  function Cascade(folders: map<FolderId, Folder>, s: set<FolderId>): (r: set<FolderId>)
    requires s <= folders.Keys
    ensures s <= r <= folders.Keys
    ensures ClosedUnderChildren(folders, r)
    decreases folders.Keys - s
  {
    var grown := s + ChildrenOf(folders, s);
    if grown == s then s else Cascade(folders, grown)
  }

  /** Growing a set grows its children. */
  lemma ChildrenOfMonotone(folders: map<FolderId, Folder>, s: set<FolderId>, t: set<FolderId>)
    requires s <= t
    ensures ChildrenOf(folders, s) <= ChildrenOf(folders, t)
  {
  }

  /** Minimality: every children-closed set that contains `s` contains the
      whole cascade, so the cascade holds nothing but `s` and its descendants. */
  lemma {:induction false} CascadeIsLeast(folders: map<FolderId, Folder>, s: set<FolderId>, t: set<FolderId>)
    requires s <= folders.Keys
    requires s <= t && ClosedUnderChildren(folders, t)
    ensures Cascade(folders, s) <= t
    decreases folders.Keys - s
  {
    var grown := s + ChildrenOf(folders, s);
    if grown != s {
      ChildrenOfMonotone(folders, s, t);
      CascadeIsLeast(folders, grown, t);
    }
  }

  /** The folders a delete of `root` removes. */
  function Subtree(folders: map<FolderId, Folder>, root: FolderId): (r: set<FolderId>)
    requires root in folders
    ensures root in r && r <= folders.Keys
    ensures forall k :: k in folders && folders[k].parentId.Some? && folders[k].parentId.value in r ==> k in r
  {
    var r := Cascade(folders, {root});
    assert ChildrenOf(folders, r) <= r;
    r
  }

  /** What survives a delete of `root`. */
  function AfterDelete(folders: map<FolderId, Folder>, root: FolderId): map<FolderId, Folder>
    requires root in folders
  {
    folders - Subtree(folders, root)
  }

  /** Deleting a folder keeps referential integrity: no surviving folder names a
      removed one as its parent. It removes the target, keeps every folder
      outside the subtree unchanged, and removes nothing that does not descend
      from the target. */
  lemma {:induction false} DeleteKeepsParentsExisting(folders: map<FolderId, Folder>, root: FolderId)
    requires root in folders
    requires ParentsExist(folders)
    ensures ParentsExist(AfterDelete(folders, root))
    ensures root !in AfterDelete(folders, root)
    ensures forall k :: k in folders && k !in Subtree(folders, root) ==> k in AfterDelete(folders, root) && AfterDelete(folders, root)[k] == folders[k]
  {
    var gone := Subtree(folders, root);
    var rest := AfterDelete(folders, root);
    forall k | k in rest && rest[k].parentId.Some?
      ensures rest[k].parentId.value in rest
    {
      var p := rest[k].parentId.value;
      assert p in folders;
      assert p !in gone by {
        assert k in folders && k !in gone;
      }
    }
  }

  /** Every removed folder descends from the target: any set that holds the
      target and is closed under children holds everything a delete removes. */
  lemma DeleteRemovesOnlyDescendants(folders: map<FolderId, Folder>, root: FolderId, t: set<FolderId>)
    requires root in folders
    requires root in t && ClosedUnderChildren(folders, t)
    ensures Subtree(folders, root) <= t
  {
    CascadeIsLeast(folders, {root}, t);
  }
}
