/** Nullable references of the C# code are modelled as `Option`. */
module Wrappers {

  datatype Option<+T> = None | Some(value: T)

}
