/** The optional value used wherever PHP code tests `isset`, reads `?? ''`,
    or keeps a session key that may be unset. */
module Wrappers {

  datatype Option<+T> = None | Some(value: T)
}
