/** The API server as a handler sees it: calls that fail, and writes under optimistic concurrency. */
module ApiServer {

  /** How a call ends: done, not done, or done while the caller is told it failed. */
  datatype Api = Accepted | Refused | Lost

  /** A write carries the version it was computed from and is rejected if that version is no
      longer the latest. A write that changes nothing stores no new version. */
  function Store<T(==)>(versions: seq<T>, at: nat, next: T): (stored: seq<T>)
    requires at < |versions|
    ensures versions <= stored
  {
    if at + 1 == |versions| && versions[at] != next then versions + [next] else versions
  }
}
