/** An optional value. */
module Options {
  datatype Option<+T> = None | Some(value: T) {
    function UnwrapOr(default: T): T { if None? then default else value }
  }
}
