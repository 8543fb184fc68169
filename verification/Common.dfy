/** Datatypes shared by the other modules. */
module Common {
  datatype Option<+T> = None | Some(value: T) {
    function Or(other: Option<T>): Option<T> {
      if Some? then this else other
    }
  }
}
