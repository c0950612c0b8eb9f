/** Small shared vocabulary: an optional value, the cleaning modes and the byte type. */
module Basics {

  /** Either nothing (PHP's `false`/`null` from a store read) or a value. */
  datatype Option<+T> = None | Some(value: T) {

    /** The value, or `default` when there is none. */
    function GetOr(default: T): T {
      match this
      case Some(v) => v
      case None => default
    }
  }

  /** The `$mode` strings every variant's `clean` dispatches on. */
  const CleaningModeAll: string := "all"
  const CleaningModeClear: string := "clear"
  const CleaningModeMatchingTag: string := "matchingTag"
  const CleaningModeMatchingAnyTag: string := "matchingAnyTag"

  /** The two modes that invalidate only the listed tags. */
  predicate IsMatchingMode(mode: string) {
    mode == CleaningModeMatchingTag || mode == CleaningModeMatchingAnyTag
  }

  /** An octet, as produced by a raw (binary) digest. */
  type byte = x: int | 0 <= x < 256
}
