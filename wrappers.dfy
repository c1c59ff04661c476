/** Option, standing for a C# search that may find nothing and for a `TryParse` that may fail. */
module Wrappers {

  datatype Option<+T> = None | Some(value: T)
}
