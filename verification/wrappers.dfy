/**
 * Shared value wrappers: an optional value, the exceptions the modelled Python
 * code can raise, and a result that is either a value or one of those exceptions.
 */
module Wrappers {

  datatype Option<T> = None | Some(value: T)
  {
    function GetOr(default: T): T
    {
      match this
      case None => default
      case Some(v) => v
    }
  }

  /** The database constraint an IntegrityError reports. */
  datatype Constraint =
    | NotNull(column: string)
    | Unique(columns: string)
    | ForeignKey(column: string)

  /** The exceptions raised by the modelled code paths. */
  datatype Exception =
    | IntegrityError(constraint: Constraint)
    | NoResultFound
    | AttributeError(attribute: string)
    | KeyError(key: string)
    | ValueError
    | UnmappedInstance
    | FileExistsError(path: string)

  datatype Result<T> = Ok(value: T) | Err(error: Exception)

  /** The unit value returned by operations that only succeed or fail. */
  datatype Unit = Unit
}
