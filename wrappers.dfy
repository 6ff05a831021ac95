/** An optional value: what a browser storage lookup or a numeric parse
    gives back when there may be nothing to give. */
module Wrappers {

  datatype Option<+T> = None | Some(value: T)
}
