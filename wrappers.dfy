/** The optional value used wherever the harness may or may not have a result:
    a regex match, a launched process's output, a readable reference file. */
module Wrappers {

  datatype Option<+T> = None | Some(value: T)
}
