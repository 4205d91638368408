/**
 * clock.c: the days, hours, minutes and seconds that displayClock prints, and the clock id made from a
 * file descriptor. C's division rounds towards zero and its int has 32 bits.
 */
module Clock {

  const SECS_IN_DAY: int := 86400
  const INT_SIZE: int := 0x1_0000_0000

  function Quot(a: int, b: int): int
    requires b > 0
  {
    if a >= 0 then a / b else -((-a) / b)
  }

  function Rem(a: int, b: int): int
    requires b > 0
  {
    a - b * Quot(a, b)
  }

  /** (int) of a wider value. */
  function AsInt(v: int): int { (v + INT_SIZE / 2) % INT_SIZE - INT_SIZE / 2 }

  function Days(t: int): int { Quot(t, SECS_IN_DAY) }
  function Hours(t: int): int { Quot(AsInt(Rem(t, SECS_IN_DAY)), 3600) }
  function Minutes(t: int): int { Quot(AsInt(Rem(t, 3600)), 60) }
  /** The cast binds tighter than %, so it is tv_sec itself that is cut to an int. */
  function Seconds(t: int): int { Rem(AsInt(t), 60) }

  predicate Recombines(t: int) {
    ((Days(t) * 24 + Hours(t)) * 60 + Minutes(t)) * 60 + Seconds(t) == t
  }

  /** The parts other than the seconds always add up to the whole minutes. */
  lemma WholeMinutes(t: int)
    requires t >= 0
    ensures ((Days(t) * 24 + Hours(t)) * 60 + Minutes(t)) * 60 == t - t % 60
    ensures 0 <= Days(t) && 0 <= Hours(t) < 24 && 0 <= Minutes(t) < 60
  {
    var d, inDay, inHour := t / SECS_IN_DAY, t % SECS_IN_DAY, t % 3600;
    SmallIsUncut(inDay);
    SmallIsUncut(inHour);
    HoursInDay(t);
    MinutesInHour(t);
    assert Days(t) == d && Hours(t) == inDay / 3600 && Minutes(t) == inHour / 60;
  }

  lemma HoursInDay(t: int)
    ensures (t / SECS_IN_DAY * 24 + t % SECS_IN_DAY / 3600) * 3600 == t - t % 3600
    ensures 0 <= t % SECS_IN_DAY / 3600 < 24
  {
    var d, r := t / SECS_IN_DAY, t % SECS_IN_DAY;
    assert t == 3600 * (24 * d) + r;
    assert t % 3600 == r % 3600;
  }

  lemma {:induction false} MinutesInHour(t: int)
    ensures t % 3600 / 60 * 60 == t % 3600 - t % 60
  {
    var h, r := t / 3600, t % 3600;
    assert t == 60 * (60 * h) + r;
    assert t % 60 == r % 60;
  }

  lemma SmallIsUncut(v: int)
    requires 0 <= v <= SECS_IN_DAY
    ensures AsInt(v) == v
  {}

  /**
   * For every time not before the epoch, in terms of t == high * 2^32 + low with low in the range of
   * int: the printed parts add up to t if and only if high is a multiple of 15 and low is not negative
   * or is a multiple of 60.
   */
  lemma {:induction false} RecombinesExactly(t: int, high: int, low: int)
    requires t >= 0 && t == high * 0x1_0000_0000 + low && -0x8000_0000 <= low < 0x8000_0000
    ensures Seconds(t) == if low >= 0 then low % 60 else -(-low % 60)
    ensures Recombines(t) <==> high % 15 == 0 && (low >= 0 || low % 60 == 0)
  {
    WholeMinutes(t);
    CutToLow(t, high, low);
    assert Recombines(t) <==> Rem(low, 60) == t % 60;
    SecondsOfSum(high, low);
    if low >= 0 {
      assert Rem(low, 60) == low % 60;
      RemainderShift(high, low);
    } else {
      assert -60 < Rem(low, 60) <= 0;
      assert Rem(low, 60) == 0 <==> low % 60 == 0;
      RemainderShift(high, low);
    }
  }

  lemma CutToLow(t: int, high: int, low: int)
    requires t == high * INT_SIZE + low && -INT_SIZE / 2 <= low < INT_SIZE / 2
    ensures AsInt(t) == low
  {
    var v := low + INT_SIZE / 2;
    assert t + INT_SIZE / 2 == high * INT_SIZE + v;
    assert (high * INT_SIZE + v) % INT_SIZE == v;
  }

  /** 2^32 leaves 16 on division by 60. */
  lemma SecondsOfSum(high: int, low: int)
    ensures (high * INT_SIZE + low) % 60 == (16 * high + low) % 60
  {
    assert high * INT_SIZE + low == 60 * (71582788 * high) + (16 * high + low);
  }

  lemma RemainderShift(high: int, low: int)
    ensures (16 * high + low) % 60 == low % 60 <==> high % 15 == 0
  {
    var q, r := high / 15, high % 15;
    assert 16 * high == 60 * (4 * q) + 16 * r;
    assert (16 * high + low) % 60 == (16 * r + low) % 60;
  }

  /** Up to the end of the 32-bit range the printed parts are right; at 2^31 they are not. */
  lemma {:induction false} RecombinesUntil2038(t: int)
    requires 0 <= t
    ensures t < 0x8000_0000 ==> Recombines(t) && 0 <= Seconds(t) < 60
    ensures !Recombines(0x8000_0000)
  {
    if t < 0x8000_0000 { RecombinesExactly(t, 0, t); }
    RecombinesExactly(0x8000_0000, 1, -0x8000_0000);
  }

  // ----- clock ids

  /** FD_TO_CLOCKID: the complement is -1 - fd, the shift leaves three zero bits, and or-ing in 3 adds 3. */
  function FdToClockId(fd: int): int { AsInt((-1 - fd) * 8) + 3 }

  /** The descriptor in a clock id: the complement of an arithmetic shift right by three. */
  function ClockIdToFd(id: int): int { -1 - id / 8 }

  /** The low three bits are always 3, and the descriptor comes back if and only if the shift does not overflow. */
  lemma ClockIdExactly(fd: int)
    requires -0x8000_0000 <= fd < 0x8000_0000
    ensures FdToClockId(fd) % 8 == 3
    ensures -0x1000_0000 <= fd < 0x1000_0000 ==> FdToClockId(fd) == -8 * fd - 5
    ensures ClockIdToFd(FdToClockId(fd)) == fd <==> -0x1000_0000 <= fd < 0x1000_0000
  {
    var v := (-1 - fd) * 8;
    CutIsMultiple(-1 - fd);
    if -0x1000_0000 <= fd < 0x1000_0000 {
      assert AsInt(v) == v;
    }
  }

  lemma CutIsMultiple(k: int)
    ensures AsInt(k * 8) % 8 == 0
    ensures -INT_SIZE / 2 <= AsInt(k * 8) < INT_SIZE / 2
  {
    var q := (k * 8 + INT_SIZE / 2) / INT_SIZE;
    assert AsInt(k * 8) == 8 * (k - q * (INT_SIZE / 8));
  }

  /** Different usable descriptors have different ids, all negative, so none is a static clock's; a failed open gives id 3. */
  lemma ClockIdsDiffer(fd: nat, other: nat)
    requires fd < 0x1000_0000 && other < 0x1000_0000
    ensures FdToClockId(fd) == FdToClockId(other) <==> fd == other
    ensures FdToClockId(fd) < 0 && FdToClockId(-1) == 3
  {
    ClockIdExactly(fd);
    ClockIdExactly(other);
  }
}
