/**
 * The elapsed-time helper of the client: the difference of two
 * `struct timeval`s in microseconds. The C function also writes through
 * both of its pointer arguments; the model returns the rewritten values.
 */
module TimeDiff {
  const MicrosPerSecond := 1000000

  /** A `struct timeval`: whole seconds and microseconds. */
  datatype TimeVal = TimeVal(sec: int, usec: int)

  predicate Normalized(t: TimeVal) {
    0 <= t.usec < MicrosPerSecond
  }

  /** The instant `t` stands for, in microseconds. */
  function Micros(t: TimeVal): int {
    t.sec * MicrosPerSecond + t.usec
  }

  /** What `difftime(end, start)` returns, and what it leaves in `*end` and `*start`. */
  datatype Difference = Difference(micros: int, end: TimeVal, start: TimeVal)

  /**
   * `difftime`: clears the microseconds of `start`, subtracts the old ones
   * from `end` (borrowing a second when they do not fit) and combines the
   * two. Whichever branch is taken, the result is the exact difference of
   * the two instants, and the rewritten `end` still stands for the instant
   * `end` moved back by `start`'s microseconds.
   */
  function DiffTime(end: TimeVal, start: TimeVal): (r: Difference)
    ensures r.micros == Micros(end) - Micros(start)
    ensures r.micros == (end.sec - start.sec) * MicrosPerSecond + (end.usec - start.usec)
    ensures r.start == start.(usec := 0)
    ensures Micros(r.end) == Micros(end) - start.usec
    ensures Normalized(end) && Normalized(start) ==> Normalized(r.end)
  {
    var startUsec := start.usec;
    var endUsec := end.usec;
    var start' := start.(usec := 0);
    var end' :=
      if endUsec < startUsec then TimeVal(end.sec - 1, MicrosPerSecond - startUsec + endUsec)
      else end.(usec := endUsec - startUsec);
    Difference((end'.sec - start'.sec) * MicrosPerSecond + end'.usec, end', start')
  }
}
