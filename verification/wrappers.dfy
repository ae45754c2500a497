/** Optional values, used for the parse result handed to the metrics engine and
    for the commit that the log parser currently has open. */
module Wrappers {

  datatype Option<+T> = None | Some(value: T)

}
