/** What the modules of the project share. */
module Wrappers {
  /** The name of a volume, chosen by its creator. */
  type Handle = string

  datatype Option<+T> = None | Some(value: T)
}
