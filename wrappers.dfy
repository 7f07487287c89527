/** The optional value used throughout the model: `None` stands for Python's
    `None` or for an operation whose exception the caller catches. */
module Wrappers {

  datatype Option<+T> = None | Some(value: T)
}
