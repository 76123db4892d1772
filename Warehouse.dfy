/** The slow warehouse stock system, seen from the cache: a read that may fail
    and a write whose outcome the caller learns only after the call. The
    network itself is not modelled; a component that writes keeps a log of the
    UpdateStock calls the warehouse accepted. */
module Warehouse {

  /** One UpdateStock(productId, amount) call that completed. */
  datatype Write = Write(productId: int, amount: int)

  /** The outcome of a GetStock call: None when the call throws. */
  datatype Option<+T> = None | Some(value: T)
}
