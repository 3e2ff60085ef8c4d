/** Small helpers shared by the models. */
module Wrappers {
  datatype Option<+T> = None | Some(value: T)

  ghost function Pick<T>(s: set<T>): (x: T)
    requires s != {}
    ensures x in s
  {
    var x :| x in s; x
  }
}
