/** Small things every module may use. */
module Options {
  datatype Option<+T> = None | Some(value: T)

  /** Any element: stands for the next one of an iteration whose order does not matter. */
  method PickAny<T(==)>(s: set<T>) returns (x: T)
    requires s != {}
    ensures x in s
  {
    x :| x in s;
  }
}
