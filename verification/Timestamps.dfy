/** How times are kept in tables. */
module Timestamps {
  /** Formatting a time for a table cuts its fraction of a second. */
  function Stamp(t: real): int {
    t.Floor
  }
}
