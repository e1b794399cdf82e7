/** An optional value: `None` stands for Java's `null`. */
module Wrappers {

  datatype Option<+T> = None | Some(value: T)
}
