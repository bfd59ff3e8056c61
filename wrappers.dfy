/** The optional-value datatype used wherever the modelled code returns `null`,
    `undefined` or a missing array entry. */
module Wrappers {

  datatype Option<+T> = None | Some(value: T) {

    /** The wrapped value, or `default` when there is none: PHP `x ?? d`, or a
        lookup of a possibly missing value. Unlike JavaScript `x || d` it
        keeps a present `""`, `0` or `false`. */
    function GetOr(default: T): T {
      match this
      case Some(v) => v
      case None => default
    }
  }
}
