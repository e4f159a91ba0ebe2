/** The millisecond arithmetic of `Utility::DateTime` in
    `include/date_time.hpp` (`add` and `diff` over Unix milliseconds) and
    the naming and restarting of that header's `ProcessTimer`. The wall
    clock is a reading in `system_clock` ticks (nanoseconds) passed in by
    the caller. */
module EpochTime {
  import opened Text
  import Ints

  /** `DateTime::Unit`. */
  datatype Unit = Hour | Minute | Second | MilliSecond

  /** How many milliseconds one `unit` holds. */
  function UnitMillis(unit: Unit): (m: nat)
    ensures m >= 1
  {
    match unit
    case Hour => 3_600_000
    case Minute => 60_000
    case Second => 1_000
    case MilliSecond => 1
  }

  /** `add(elapsed_millisecond, add_value, unit)`: `add_value` units are
      converted to milliseconds by `duration_cast`, which is exact. */
  function Add(elapsedMillis: int, value: int, unit: Unit): (r: int)
    ensures r - elapsedMillis == value * UnitMillis(unit)
    ensures unit == MilliSecond ==> r == elapsedMillis + value
  {
    match unit
    case MilliSecond => elapsedMillis + value
    case Second => elapsedMillis + value * 1_000
    case Minute => elapsedMillis + value * 60_000
    case Hour => elapsedMillis + value * 3_600_000
  }

  /** `diff(lhs, rhs, unit)`: `lhs - rhs` milliseconds, `duration_cast` to
      `unit`, which truncates toward zero. */
  function Diff(lhs: int, rhs: int, unit: Unit): (r: int)
    ensures unit == MilliSecond ==> r == lhs - rhs
    ensures Ints.Abs(r) * UnitMillis(unit) <= Ints.Abs(lhs - rhs) < Ints.Abs(r) * UnitMillis(unit) + UnitMillis(unit)
    ensures lhs >= rhs ==> r >= 0
    ensures lhs <= rhs ==> r <= 0
  {
    match unit
    case MilliSecond => lhs - rhs
    case Second => Ints.Quot(lhs - rhs, 1_000)
    case Minute => Ints.Quot(lhs - rhs, 60_000)
    case Hour => Ints.Quot(lhs - rhs, 3_600_000)
  }

  /** Adding `value` units and measuring the difference in the same unit
      gives `value` back, whatever the signs. */
  lemma DiffOfAdd(elapsedMillis: int, value: int, unit: Unit)
    ensures Diff(Add(elapsedMillis, value, unit), elapsedMillis, unit) == value
  {
    var m := UnitMillis(unit);
    assert Add(elapsedMillis, value, unit) - elapsedMillis == value * m;
    Ints.QuotOfMultiple(value, m);
  }

  /** `diff` is antisymmetric: it truncates toward zero, not toward minus
      infinity, so `diff(-1999, 0, SECOND)` is -1 and not -2. */
  lemma DiffAntisymmetric(lhs: int, rhs: int, unit: Unit)
    ensures Diff(rhs, lhs, unit) == -Diff(lhs, rhs, unit)
  {
    assert rhs - lhs == -(lhs - rhs);
    Ints.QuotNegate(lhs - rhs, UnitMillis(unit));
  }

  /** A later `lhs` never gives a smaller difference. */
  lemma DiffMonotone(lhs: int, later: int, rhs: int, unit: Unit)
    requires lhs <= later
    ensures Diff(lhs, rhs, unit) <= Diff(later, rhs, unit)
  {
    Ints.QuotMonotone(lhs - rhs, later - rhs, UnitMillis(unit));
  }

  /** `system_clock` ticks in one `unit` (ticks are nanoseconds). */
  function UnitTicks(unit: Unit): (t: nat)
    ensures t == UnitMillis(unit) * 1_000_000
  {
    UnitMillis(unit) * 1_000_000
  }

  /** The name a `ProcessTimer` gets: its own when it is not empty, and
      otherwise `"Timer_"` and the number of unnamed timers made before,
      whose digits spell that number back (so unnamed timers get distinct
      names). */
  function TimerName(name: string, unnamedId: nat): (r: string)
    ensures |name| > 0 ==> r == name
    ensures |name| == 0 ==> |r| > 6 && r[..6] == "Timer_" && AllDigits(r[6..]) && DigitsValue(r[6..]) == unnamedId
  {
    if |name| > 0 then name
    else
      var r := "Timer_" + NatToString(unnamedId);
      assert r[6..] == NatToString(unnamedId);
      NatToStringValue(unnamedId);
      r
  }

  /** The `static int unnamed_timer_id` of the `ProcessTimer` constructor:
      one counter shared by every timer. */
  class UnnamedTimerIds {
    var next: nat

    constructor ()
      ensures next == 0
    {
      next := 0;
    }
  }

  /** `ProcessTimer` of `include/date_time.hpp`. */
  class ProcessTimer {
    var name: string
    var baseTime: int
    var consoleOut: bool

    /** `ProcessTimer(console_out, name)` at clock reading `now`: an empty
        name takes the next unnamed id and advances the shared counter. */
    constructor (consoleOut: bool, name: string, ids: UnnamedTimerIds, now: int)
      modifies ids
      ensures this.name == TimerName(name, old(ids.next))
      ensures ids.next == if |name| > 0 then old(ids.next) else old(ids.next) + 1
      ensures baseTime == now && this.consoleOut == consoleOut
    {
      this.consoleOut := consoleOut;
      baseTime := now;
      if |name| > 0 {
        this.name := name;
      } else {
        this.name := "Timer_" + NatToString(ids.next);
        ids.next := ids.next + 1;
      }
    }

    /** `restart()`: only the base time moves, to `now`. */
    method Restart(now: int)
      modifies this
      ensures baseTime == now
      ensures name == old(name) && consoleOut == old(consoleOut)
    {
      baseTime := now;
    }

    /** `measure(unit)` at clock reading `now`: the time since the base,
        `duration_cast` to `unit`, so truncated toward zero. */
    function Measure(now: int, unit: Unit): (r: int)
      reads this
      ensures Ints.Abs(r) * UnitTicks(unit) <= Ints.Abs(now - baseTime) < Ints.Abs(r) * UnitTicks(unit) + UnitTicks(unit)
      ensures now >= baseTime ==> r >= 0
    {
      Ints.Quot(now - baseTime, UnitTicks(unit))
    }

    /** Readings of one timer never decrease as the clock advances. */
    lemma MeasureMonotone(now: int, later: int, unit: Unit)
      requires now <= later
      ensures Measure(now, unit) <= Measure(later, unit)
    {
      Ints.QuotMonotone(now - baseTime, later - baseTime, UnitTicks(unit));
    }
  }
}
