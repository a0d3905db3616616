/** The Option type: a value that may be absent. It stands for SQL NULL in a
    stored column, for a Python `None` argument, and for a lookup that found
    no row. */
module Wrappers {

  datatype Option<+T> = None | Some(value: T)
}
