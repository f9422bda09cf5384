/** Optional values: Python's `None` or a value, Rust's `Option`. */
module Options {
  datatype Option<+T> = None | Some(value: T) {
    function GetOr(default: T): T { if Some? then value else default }
  }
}
