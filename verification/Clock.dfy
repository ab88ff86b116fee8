/** Runs under a clock that never goes back. */
module Clock {
  /** The times of the calls, read off by `at`, start no earlier than `start` and do not decrease. */
  ghost predicate Clocked<T>(at: T -> int, start: int, calls: seq<T>) {
    (forall i :: 0 <= i < |calls| ==> start <= at(calls[i])) &&
    forall i, j :: 0 <= i < j < |calls| ==> at(calls[i]) <= at(calls[j])
  }
}
