/** Shared result shapes: every guard of the backend either passes or raises an
    HTTP error carrying a status code and a literal detail string. */
module Outcomes {

  datatype Option<+T> = None | Some(value: T)

  /** The verb a guard interpolates into its detail string. */
  datatype Action = Create | Update | Delete {
    function Name(): string {
      match this
      case Create => "create"
      case Update => "update"
      case Delete => "delete"
    }
  }

  /** Every HTTP error the modelled core raises. */
  datatype Denial =
    | UserNotFound
    | NoAdminPermission
    | OtherAdminsData(action: Action)
    | UsernameTaken
    | EmailTaken
    | UserAlreadyDeleted
    | FolderNotFound
    | ParentFolderNotFound
    | FolderNameTaken(action: Action)
    | OtherUsersParentFolder(action: Action)
    | PrivateFolderOfOtherUser
    | CouldNotValidateUser
    | NoAccessTokenSupplied
    | TokenExpired
    | InvalidCredentials
  {
    /** The HTTP status code of the raised exception. */
    function Status(): nat {
      match this
      case UserNotFound => 404
      case FolderNotFound => 404
      case ParentFolderNotFound => 404
      case CouldNotValidateUser => 401
      case InvalidCredentials => 401
      case NoAccessTokenSupplied => 400
      case _ => 403
    }

    /** The literal `detail` string of the raised exception. */
    function Detail(): string {
      match this
      case UserNotFound => "An user with given id doesn't exist"
      case NoAdminPermission => "You don't have admin permission"
      case OtherAdminsData(a) => "You can't " + a.Name() + " other admin's data"
      case UsernameTaken => "This username is already taken"
      case EmailTaken => "This email is already taken"
      case UserAlreadyDeleted => "User already has been deleted"
      case FolderNotFound => "A folder with given id doesn't exist"
      case ParentFolderNotFound => "Given parent_id folder doesn't exist"
      case FolderNameTaken(a) => "You can't " + a.Name() + " a folder with the same name which you already have"
      case OtherUsersParentFolder(a) => "You can't " + a.Name() + " a nested folder with the other user's folder"
      case PrivateFolderOfOtherUser => "You can't see a private folder of other user"
      case CouldNotValidateUser => "Could not validate user"
      case NoAccessTokenSupplied => "No access token supplied"
      case TokenExpired => "Token expired!"
      case InvalidCredentials => "Invalid authentication credentials"
    }
  }

  /** A guard that either returns normally or raises. Failure-compatible, so a
      composite guard can chain its steps with `:-`. */
  datatype Outcome = Pass | Fail(denial: Denial) {
    predicate IsFailure() {
      Fail?
    }

    function PropagateFailure(): Outcome
      requires Fail?
    {
      this
    }
  }

  /** A manager operation's result: a value, or the error it raised. */
  datatype Result<+T> = Ok(value: T) | Err(denial: Denial) {
    predicate IsFailure() {
      Err?
    }

    function PropagateFailure<U>(): Result<U>
      requires Err?
    {
      Err(denial)
    }

    function Extract(): T
      requires Ok?
    {
      value
    }
  }

  /** Python truthiness of an optional string: present and non-empty. */
  predicate NonEmpty(s: Option<string>) {
    s.Some? && s.value != ""
  }
}
