/** The relational store behind the managers: the `users` and `folders`
    tables, each a map from primary key to row. A manager's writes followed by
    its commit are one atomic update of these maps. */
module Database {
  import opened UserModel
  import opened FolderModel

  /** The constraints the table definitions give the stored rows. */
  predicate Consistent(users: map<UserId, User>, folders: map<FolderId, Folder>) {
    && KeyedById(users)
    && UniqueUsernames(users)
    && UniqueEmails(users)
    && FoldersKeyedById(folders)
    && ParentsExist(folders)
  }

  class Store {
    var users: map<UserId, User>
    var folders: map<FolderId, Folder>

    ghost predicate Valid()
      reads this
    {
      Consistent(users, folders)
    }

    /** Empty tables. */
    constructor ()
      ensures Valid()
      ensures users == map[] && folders == map[]
    {
      users := map[];
      folders := map[];
    }
  }
}
