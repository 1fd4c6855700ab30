/** Optional values: Python's `None` against a present value. */
module Wrappers {

  datatype Option<+T> = None | Some(value: T) {

    /** The value when present, otherwise `default`. */
    function GetOr(default: T): T {
      match this
      case Some(v) => v
      case None => default
    }
  }
}

/** Timestamps are integers counting microseconds on one timeline, the
    resolution of Python's `datetime`. */
module Clock {

  const MicrosPerSecond: int := 1_000_000

  /** `timedelta(days=1)`, which is also `timedelta(hours=24)`. */
  const MicrosPerDay: int := 86_400 * MicrosPerSecond
}
