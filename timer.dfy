/** `Utility::ProcessTimer` of `include/utility/process_timer.hpp` and
    `src/utility/process_timer.cpp`: a named stopwatch, or an interval
    pacer whose destructor sleeps out the rest of its interval. Clock
    readings are `system_clock` ticks (nanoseconds) supplied by the caller;
    the destructor's sleep and console report become a returned value. */
module Timers {
  import opened Wrappers
  import opened Text
  import Ints

  const TicksPerMilli: int := 1_000_000
  const TicksPerSecond: int := 1_000_000_000
  const TicksPerMinute: int := 60_000_000_000
  const TicksPerHour: int := 3_600_000_000_000

  /** The four fields `measure` prints. */
  datatype Elapsed = Elapsed(hours: int, minutes: int, seconds: int, millis: int)

  /** For non-negative `t`, the count of whole `unit`s left over once the
      whole `unit * k`s are taken out lies in `[0, k)`. */
  lemma WithinLarger(t: nat, unit: int, k: int)
    requires unit > 0 && k > 0
    ensures 0 <= t / unit - t / (unit * k) * k < k
  {
    Ints.DivDiv(t, unit, k);
    Ints.DivBounds(t / unit, k);
  }

  /** `pass_hour`, `pass_min - pass_hour * 60`, `pass_sec - pass_min * 60`
      and `pass_msec - pass_sec * 1000`, each `pass_*` a `duration_cast`
      (truncating toward zero) of the elapsed ticks. Whatever the sign, the
      fields add back up to the elapsed milliseconds; for a non-negative
      elapsed time each field lies within its unit. */
  function Decompose(ticks: int): (e: Elapsed)
    ensures e.hours * 3_600_000 + e.minutes * 60_000 + e.seconds * 1_000 + e.millis
            == Ints.Quot(ticks, TicksPerMilli)
    ensures ticks >= 0 ==> e.hours >= 0 && 0 <= e.minutes < 60 && 0 <= e.seconds < 60 && 0 <= e.millis < 1_000
  {
    var passHour := Ints.Quot(ticks, TicksPerHour);
    var passMin := Ints.Quot(ticks, TicksPerMinute);
    var passSec := Ints.Quot(ticks, TicksPerSecond);
    var passMsec := Ints.Quot(ticks, TicksPerMilli);
    if ticks >= 0 then
      Ints.QuotOfNat(ticks, TicksPerHour);
      Ints.QuotOfNat(ticks, TicksPerMinute);
      Ints.QuotOfNat(ticks, TicksPerSecond);
      Ints.QuotOfNat(ticks, TicksPerMilli);
      WithinLarger(ticks, TicksPerMinute, 60);
      WithinLarger(ticks, TicksPerSecond, 60);
      WithinLarger(ticks, TicksPerMilli, 1_000);
      Elapsed(passHour, passMin - passHour * 60, passSec - passMin * 60, passMsec - passSec * 1_000)
    else
      Elapsed(passHour, passMin - passHour * 60, passSec - passMin * 60, passMsec - passSec * 1_000)
  }

  /** `std::string(n, '0')` throws `length_error` when the unsigned
      `3 - length` wraps around. */
  datatype MeasureError = LengthError

  /** `H:M:S.mmm`: the four fields in decimal, the millisecond field
      preceded by `3 - |to_string(ms)|` zeros. */
  function FieldsText(e: Elapsed): (r: string)
    requires |IntToString(e.millis)| <= 3
    ensures e.hours >= 0 && e.minutes >= 0 && e.seconds >= 0 && e.millis >= 0 ==>
      r == NatToString(e.hours) + ":" + NatToString(e.minutes) + ":" + NatToString(e.seconds) + "."
           + ZeroPad(NatToString(e.millis), 3)
  {
    var msText := IntToString(e.millis);
    IntToString(e.hours) + ":" + IntToString(e.minutes) + ":" + IntToString(e.seconds) + "."
      + (Repeat('0', 3 - |msText|) + msText)
  }

  /** `measure()` for an elapsed time of `ticks`. */
  function MeasureText(ticks: int): (r: Result<string, MeasureError>)
    ensures ticks >= 0 ==> r.Ok?
  {
    var e := Decompose(ticks);
    if ticks >= 0 then NatToStringLength(e.millis, 3); Ok(FieldsText(e))
    else if |IntToString(e.millis)| > 3 then Err(LengthError)
    else Ok(FieldsText(e))
  }

  /** For a non-negative elapsed time the text is the four fields in
      decimal, the last exactly three digits long and reading back as the
      milliseconds within the second. */
  lemma MeasureTextFields(ticks: nat)
    ensures var e := Decompose(ticks);
      var ms := ZeroPad(NatToString(e.millis), 3);
      && |ms| == 3 && LeadingInt(ms) == Some(e.millis)
      && MeasureText(ticks) == Ok(NatToString(e.hours) + ":" + NatToString(e.minutes) + ":"
                                  + NatToString(e.seconds) + "." + ms)
  {
    var e := Decompose(ticks);
    NatToStringLength(e.millis, 3);
    ZeroPadReadsBack(e.millis, 3, []);
    assert ZeroPad(NatToString(e.millis), 3) + [] == ZeroPad(NatToString(e.millis), 3);
  }

  /** What the destructor does: sleep for the rest of the interval (a
      negative duration returns at once), or print `measure()`. */
  datatype Farewell = Sleep(millis: int) | Report(name: string, text: Result<string, MeasureError>)

  class ProcessTimer {
    var interval: int
    var name: string
    var baseTime: int

    /** `ProcessTimer(interval)` at clock reading `now`: no name. */
    constructor WithInterval(interval: int, now: int)
      ensures this.interval == interval && name == "" && baseTime == now
    {
      this.interval, name, baseTime := interval, "", now;
    }

    /** `ProcessTimer(name)` at clock reading `now`: no interval. */
    constructor Named(name: string, now: int)
      ensures interval == 0 && this.name == name && baseTime == now
    {
      this.interval, this.name, baseTime := 0, name, now;
    }

    /** `restart()`: only the base time moves, to `now`. */
    method Restart(now: int)
      modifies this
      ensures baseTime == now
      ensures interval == old(interval) && name == old(name)
    {
      baseTime := now;
    }

    /** `measure()` at clock reading `now`. */
    function Measure(now: int): (r: Result<string, MeasureError>)
      reads this
      ensures now >= baseTime ==> r.Ok?
    {
      MeasureText(now - baseTime)
    }

    /** `~ProcessTimer()` at clock reading `now`: a positive interval
        sleeps for what the elapsed whole milliseconds leave of it; any
        other interval reports the name and the measured time. */
    function Destroy(now: int): (r: Farewell)
      reads this
      ensures r.Sleep? <==> interval > 0
      ensures r.Sleep? ==> r.millis + Ints.Quot(now - baseTime, TicksPerMilli) == interval
      ensures r.Report? ==> r.name == name && r.text == Measure(now)
    {
      if interval > 0 then Sleep(interval - Ints.Quot(now - baseTime, TicksPerMilli))
      else Report(name, Measure(now))
    }
  }
}
