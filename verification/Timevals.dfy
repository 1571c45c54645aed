/**
 The `struct timeval` pairs the interface manager computes with, and the
 `timeradd`/`timersub` macros of the C library it applies to them.
 */
module Timevals {

  const MICROS_PER_SECOND := 1_000_000

  datatype Pair = Pair(sec: int, usec: int) {
    predicate Normal() {
      0 <= usec < MICROS_PER_SECOND
    }

    /** The instant meant by the pair, as a number of microseconds. */
    function Micros(): int {
      sec * MICROS_PER_SECOND + usec
    }
  }

  /** The normal form in which time stamps arrive and which the macros are meant for. */
  type Timeval = t: Pair | t.Normal() witness Pair(0, 0)

  const ZERO: Timeval := Pair(0, 0)

  /** The normal pair of an instant. */
  function FromMicros(m: int): (t: Timeval)
    ensures t.Micros() == m
  {
    Pair(m / MICROS_PER_SECOND, m % MICROS_PER_SECOND)
  }

  /** `timeradd`: carries a microsecond sum of a second or more. */
  function TimerAdd(a: Timeval, b: Timeval): (r: Timeval)
    ensures r.Micros() == a.Micros() + b.Micros()
  {
    var usec := a.usec + b.usec;
    if usec >= MICROS_PER_SECOND then
      Pair(a.sec + b.sec + 1, usec - MICROS_PER_SECOND)
    else
      Pair(a.sec + b.sec, usec)
  }

  /** `timersub`: borrows a second when the microsecond difference is negative. */
  function TimerSub(a: Timeval, b: Timeval): (r: Timeval)
    ensures r.Micros() == a.Micros() - b.Micros()
  {
    var usec := a.usec - b.usec;
    if usec < 0 then
      Pair(a.sec - b.sec - 1, usec + MICROS_PER_SECOND)
    else
      Pair(a.sec - b.sec, usec)
  }

  /** A normal pair has less than a second of microseconds and is determined by its instant, so equalities proved on
      microseconds are equalities of pairs. */
  lemma {:induction false} NormalIsCanonical(a: Timeval, b: Timeval)
    ensures a == b <==> a.Micros() == b.Micros()
    ensures a.Micros() == 1_000_000 * a.sec + a.usec && 0 <= a.usec < 1_000_000
  {
    if a.Micros() == b.Micros() {
      assert (a.sec - b.sec) * MICROS_PER_SECOND == b.usec - a.usec;
    }
  }
}
