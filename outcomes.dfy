/** Success and failure values shared by every handler of the shop.
    Each handler either returns a value or the error the web layer would
    turn into an error response; nothing is raised. */
module Outcomes {

  datatype Option<+T> = None | Some(value: T) {
    /** The value, or `default` when absent (Python's `dict.get(key, default)`). */
    function GetOr(default: T): T {
      match this
      case Some(v) => v
      case None => default
    }
  }

  /** The error cases the handlers can end in. Ids are plain naturals here. */
  datatype Error =
    | MissingField(name: string)
    | EmptyList(name: string)
    | ItemNotFound(itemId: Option<nat>)
    | InsufficientInventory(item: nat, requested: int, available: int)
    | CartInvalid(ownerHasCart: bool, totalOutOfRange: bool)
    | CartNotFound
    | WishlistNotFound
    | OrderNotFound
    | StatusRequired
    | Forbidden
    | RowNotUnique(parent: nat, item: nat, found: nat)

  datatype Result<+T> = Ok(value: T) | Err(error: Error)
}
