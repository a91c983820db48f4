/** The optional value used wherever the pages read something that may be
    missing (an account, a contract read that throws, the `loadingId` state). */
module Wrappers {
  datatype Option<+T> = None | Some(value: T)
}
