/** The two result shapes shared by the models: a value that may be absent, and a call that may throw. */
module Options {

  datatype Option<+T> = None | Some(value: T)

  /** The outcome of a call: a returned value, or an exception that left no value. */
  datatype Outcome<+T> = Returned(value: T) | Threw
}
