/** An optional value: the `None` a query's `.first()` or a dictionary's `.get()` may return. */
module Wrappers {

  datatype Option<+T> = None | Some(value: T)
}
