/** Optional values: the model's stand-in for a C# reference or array that may be null. */
module Wrappers {

  datatype Option<+T> = None | Some(value: T)

  /**
   * What a C# call leaves behind and whether it threw on the way: a call that
   * throws keeps every assignment it made before the throw.
   */
  datatype Outcome<+T> = Outcome(state: T, threw: bool)
}
