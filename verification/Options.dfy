/** The usual optional value, and two accessors for non-empty histories. */
module Options {
  datatype Option<+T> = None | Some(value: T)

  /** A history without its last entry. */
  function Front<T>(s: seq<T>): seq<T>
    requires s != []
  {
    s[..|s| - 1]
  }

  /** The most recent entry of a history. */
  function Last<T>(s: seq<T>): T
    requires s != []
  {
    s[|s| - 1]
  }
}
