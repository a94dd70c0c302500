/** What an interrupted `sah_write` leaves in a file. */
module SyncAccess {

  /** The contents after `written` bytes of `incoming` went over `old` at offset
      0 and before the truncation: a new prefix, then whatever was there. */
  function Torn<T>(incoming: seq<T>, prior: seq<T>, written: nat): seq<T> {
    var n := if written <= |incoming| then written else |incoming|;
    incoming[..n] + (if n <= |prior| then prior[n..] else [])
  }
}
