/** Times as the source keeps them, seconds and nanoseconds, and the nanosecond count they stand for. */
module Timespecs {
  const BILLION: int := 1_000_000_000
  const MILLION: int := 1_000_000

  datatype Timespec = Timespec(sec: int, nsec: int)

  const ZERO := Timespec(0, 0)

  predicate Normal(t: Timespec) {
    t.sec >= 0 && 0 <= t.nsec < BILLION
  }

  function Ns(t: Timespec): int {
    t.sec * BILLION + t.nsec
  }

  /** a += b, with one carry. */
  function Inc(a: Timespec, b: Timespec): (r: Timespec)
    ensures Normal(a) && Normal(b) ==> Normal(r) && Ns(r) == Ns(a) + Ns(b)
  {
    var nsec := a.nsec + b.nsec;
    var sec := a.sec + b.sec;
    if nsec >= BILLION then Timespec(sec + 1, nsec - BILLION) else Timespec(sec, nsec)
  }

  predicate Gt(a: Timespec, b: Timespec)
    ensures Normal(a) && Normal(b) ==> (Gt(a, b) <==> Ns(a) > Ns(b))
  {
    a.sec > b.sec || (a.sec == b.sec && a.nsec > b.nsec)
  }

  predicate IsZero(a: Timespec)
    ensures Normal(a) ==> (IsZero(a) <==> Ns(a) == 0) && Ns(a) >= 0
  {
    a.sec == 0 && a.nsec == 0
  }

  // ---- The timeout of the main loop ----

  const COALESCE := Timespec(0, MILLION)

  /** C's division: towards zero. */
  function Quotient(a: int, b: int): int
    requires b > 0
  {
    if a >= 0 then a / b else -((-a) / b)
  }

  const INT_MAX: int := 0x7fff_ffff
  const INT_MIN: int := -0x8000_0000

  /** A long assigned to an int, on the two's-complement machines the source is for. */
  function ToInt(x: int): int {
    (x + 0x8000_0000) % 0x1_0000_0000 - 0x8000_0000
  }

  /** The difference next - now in milliseconds, before it is stored in an int. */
  function Milliseconds(next: Timespec, now: Timespec): int {
    (next.sec - now.sec) * 1000 + Quotient(next.nsec - now.nsec, MILLION)
  }

  /** The timeout dmm_main_loop gives epoll_wait when the earliest timer is due at `next`. */
  function TimeoutMs(next: Timespec, now: Timespec): int {
    var ms := ToInt(Milliseconds(next, now));
    if ms < 0 then 0 else ms
  }

  /** Truncation loses, or gains, less than a millisecond: just what the coalesce interval covers. */
  lemma TruncationBound(next: Timespec, now: Timespec)
    requires Normal(next) && Normal(now)
    ensures -MILLION < Milliseconds(next, now) * MILLION - (Ns(next) - Ns(now)) < MILLION
  {
    var d := next.nsec - now.nsec;
    assert (next.sec - now.sec) * 1000 * MILLION == (next.sec - now.sec) * BILLION;
    if d >= 0 {
      assert d == d / MILLION * MILLION + d % MILLION;
    } else {
      assert -d == (-d) / MILLION * MILLION + (-d) % MILLION;
    }
  }

  /** The pass of the main loop after a full wait finds the earliest timer due without being forced. */
  ghost predicate DueAfterWait(next: Timespec, now: Timespec) {
    forall later: Timespec :: Normal(later) && Ns(later) >= Ns(now) + TimeoutMs(next, now) * MILLION ==>
      !Gt(next, Inc(later, COALESCE))
  }

  /** A full wait is enough exactly when the distance in milliseconds is at most INT_MAX: beyond that it wraps, the
      wait is too short, and the forced pass fires the timer early. */
  lemma WaitIsEnough(next: Timespec, now: Timespec)
    requires Normal(next) && Normal(now)
    ensures DueAfterWait(next, now) <==> Milliseconds(next, now) <= INT_MAX
  {
    var ms := Milliseconds(next, now);
    var timeout := TimeoutMs(next, now);
    TruncationBound(next, now);
    if ms <= INT_MAX {
      assert timeout >= ms;
      forall later: Timespec | Normal(later) && Ns(later) >= Ns(now) + timeout * MILLION
        ensures !Gt(next, Inc(later, COALESCE))
      {
      }
    } else {
      assert timeout <= ms - 0x8000_0000;
      var later := Inc(now, Timespec(timeout / 1000, timeout % 1000 * MILLION));
      assert timeout == timeout / 1000 * 1000 + timeout % 1000;
      assert Ns(later) == Ns(now) + timeout * MILLION;
      assert Gt(next, Inc(later, COALESCE));
    }
  }

  /** How far off a timer is: not at all, when its time has passed. */
  function Distance(next: Timespec, now: Timespec): nat {
    if Ns(next) > Ns(now) then Ns(next) - Ns(now) else 0
  }

  /** The other side: a wait is too long, by a millisecond or more, exactly for a time so far back that the distance is
      below INT_MIN and wraps to a positive timeout. */
  lemma WaitIsNotTooLong(next: Timespec, now: Timespec)
    requires Normal(next) && Normal(now)
    ensures TimeoutMs(next, now) * MILLION - Distance(next, now) < MILLION <==>
            Milliseconds(next, now) >= INT_MIN || ToInt(Milliseconds(next, now)) <= 0
  {
    var ms := Milliseconds(next, now);
    TruncationBound(next, now);
    hide Milliseconds, Ns;
    if ms > INT_MAX {
      assert ToInt(ms) <= ms - 0x1_0000_0000;
    } else if ms >= INT_MIN {
      assert ToInt(ms) == ms;
    }
  }

  /** Both sides: the loop sleeps to within a millisecond until the first timer is due, or not at all when it is
      overdue, exactly when the distance fits an int, or does not reach a positive timeout from below. */
  lemma WaitIsRight(next: Timespec, now: Timespec)
    requires Normal(next) && Normal(now)
    ensures -MILLION < TimeoutMs(next, now) * MILLION - Distance(next, now) < MILLION <==>
            && Milliseconds(next, now) <= INT_MAX
            && (Milliseconds(next, now) >= INT_MIN || ToInt(Milliseconds(next, now)) <= 0)
  {
    var ms := Milliseconds(next, now);
    TruncationBound(next, now);
    WaitIsNotTooLong(next, now);
    hide Milliseconds, Ns;
    if ms > INT_MAX {
      assert ToInt(ms) <= ms - 0x1_0000_0000;
    } else if ms >= INT_MIN {
      assert ToInt(ms) == ms;
    }
  }

  /** 2^31 milliseconds ahead, just under 25 days: the timeout is 0 and the timer is far from due. */
  lemma FarTimerIsEarly()
    ensures TimeoutMs(Timespec(2147483, 648 * MILLION), ZERO) == 0
    ensures !DueAfterWait(Timespec(2147483, 648 * MILLION), ZERO)
  {
    hide DueAfterWait;
    assert Milliseconds(Timespec(2147483, 648 * MILLION), ZERO) == 0x8000_0000;
    WaitIsEnough(Timespec(2147483, 648 * MILLION), ZERO);
  }

  /** An absolute time in the past is not refused. Set to the second after the epoch in November 2023, a timer is due at
      once, and the loop sleeps for nine days. */
  lemma PastTimerWaits()
    ensures TimeoutMs(Timespec(1, 0), Timespec(1700000000, 0)) == 807050216
    ensures Distance(Timespec(1, 0), Timespec(1700000000, 0)) == 0
  {
    assert Milliseconds(Timespec(1, 0), Timespec(1700000000, 0)) == -1699999999000;
    assert ToInt(-1699999999000) == 807050216;
  }
}
