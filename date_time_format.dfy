/** `Utility::DateTime` of include/utility/date_time.hpp and
    src/utility/date_time.cpp (the two copies of the class have the same
    bodies): eight integer fields, formatting by token substitution and
    parsing by token position. */
module DateTimes {
  import opened Wrappers
  import opened Text
  import Ints
  import Core

  /** The eight fields. The field constructor stores them as given, with no
      validation, and copying or assigning a `DateTime` copies all eight;
      the accessors `year()` ... `microsecond()` read them back. */
  datatype DateTime = DateTime(year: int, mon: int, day: int, hour: int, min: int,
                               sec: int, msec: int, usec: int)

  // -------------------------------------------------------------- calendar

  /** The leap-year test `from_str` applies to the parsed year. */
  predicate IsLeap(year: int) {
    year % 4 == 0 && !(year % 100 == 0 && year % 400 != 0)
  }

  /** `days_of_month[mon - 1]` once February has been lengthened for a leap
      year. */
  function MonthLength(year: int, mon: int): (n: int)
    requires 1 <= mon <= 12
    ensures n == 29 <==> mon == 2 && IsLeap(year)
    ensures n == 28 <==> mon == 2 && !IsLeap(year)
    ensures n == 30 <==> mon in {4, 6, 9, 11}
    ensures n == 31 <==> mon in {1, 3, 5, 7, 8, 10, 12}
  {
    [31, 28, 31, 30, 31, 30, 31, 31, 30, 31, 30, 31][mon - 1]
      + (if mon == 2 && IsLeap(year) then 1 else 0)
  }

  /** Every field inside the range `from_str` accepts for its token. */
  predicate Valid(d: DateTime) {
    && 1970 <= d.year <= 2300 && 1 <= d.mon <= 12
    && 1 <= d.day <= MonthLength(d.year, d.mon)
    && 0 <= d.hour <= 23 && 0 <= d.min <= 59 && 0 <= d.sec <= 59
    && 0 <= d.msec <= 999 && 0 <= d.usec <= 999
  }

  // ------------------------------------------------------------ formatting

  /** `zero_fill`: prepends '0' one at a time until `str` is `digit` long. */
  method ZeroFill(str: string, digit: nat) returns (result: string)
    ensures result == ZeroPad(str, digit)
  {
    result := str;
    var remain := if digit > |str| then digit - |str| else 0;
    ghost var total := remain;
    while remain > 0
      invariant 0 <= remain <= total
      invariant result == Repeat('0', total - remain) + str
    {
      RepeatPrepend('0', total - remain);
      AppendAssoc(['0'], Repeat('0', total - remain), str);
      result := ['0'] + result;
      remain := remain - 1;
    }
  }

  /** What `dump` leaves: every occurrence of `fmt`, found left to right and
      never inside text already inserted, replaced by `rep`. */
  function ReplaceAll(s: string, fmt: string, rep: string): string
    requires |fmt| > 0
    decreases |s|
  {
    match FindFrom(s, fmt, 0)
    case None => s
    case Some(p) => s[..p] + (rep + ReplaceAll(s[p + |fmt|..], fmt, rep))
  }

  /** `ReplaceAll` when `fmt` is found at `p`: the text before it, `rep`,
      then the replacement of the text after it. */
  lemma ReplaceAllUnfold(s: string, fmt: string, rep: string, p: nat, head: string, rest: string)
    requires |fmt| > 0 && FindFrom(s, fmt, 0) == Some(p)
    requires head == s[..p] && rest == s[p + |fmt|..]
    ensures ReplaceAll(s, fmt, rep) == head + (rep + ReplaceAll(rest, fmt, rep))
  {
  }

  /** The replacement in a suffix in which the search `dump` makes in the
      whole string finds nothing: the suffix itself. */
  lemma ReplaceAllNotFound(s: string, fmt: string, rep: string, from: nat)
    requires |fmt| > 0 && from <= |s| && FindFrom(s, fmt, from).None?
    ensures ReplaceAll(s[from..], fmt, rep) == s[from..]
  {
    FindFromSuffix(s, fmt, from);
    assert FindFrom(s[from..], fmt, 0).None?;
  }

  /** The replacement in a suffix in which that search finds `fmt` at `p`. */
  lemma ReplaceAllAt(s: string, fmt: string, rep: string, from: nat, p: nat)
    requires |fmt| > 0 && from <= |s| && FindFrom(s, fmt, from) == Some(p)
    ensures ReplaceAll(s[from..], fmt, rep) == s[from..p] + (rep + ReplaceAll(s[p + |fmt|..], fmt, rep))
  {
    FindFromSuffix(s, fmt, from);
    var t := s[from..];
    assert FindFrom(t, fmt, 0) == Some(p - from);
    assert t[..p - from] == s[from..p];
    assert t[p - from + |fmt|..] == s[p + |fmt|..];
    ReplaceAllUnfold(t, fmt, rep, p - from, s[from..p], s[p + |fmt|..]);
  }

  /** `dump(str, fmt, rep)`: find `fmt` from `pos`, splice `rep` in its
      place and resume the search just after `rep`. */
  method Dump(str: string, fmt: string, rep: string) returns (result: string)
    requires |fmt| > 0
    ensures result == ReplaceAll(str, fmt, rep)
  {
    result := str;
    var pos: nat := 0;
    assert result[pos..] == str;
    while true
      invariant pos <= |result|
      invariant result[..pos] + ReplaceAll(result[pos..], fmt, rep) == ReplaceAll(str, fmt, rep)
      decreases |result| - pos
    {
      var found := FindFrom(result, fmt, pos);
      if found.None? {
        DumpDone(result, fmt, rep, pos, ReplaceAll(str, fmt, rep));
        return;
      }
      var p := found.value;
      DumpStep(result, fmt, rep, pos, p, ReplaceAll(str, fmt, rep));
      var l := result[..p];
      var r := result[p + |fmt|..];
      result := l + rep + r;
      pos := p + |rep|;
    }
  }

  /** The loop of `dump` ends with the whole replacement once no
      occurrence is left after `pos`. */
  lemma DumpDone(s: string, fmt: string, rep: string, pos: nat, goal: string)
    requires |fmt| > 0 && pos <= |s| && FindFrom(s, fmt, pos).None?
    requires s[..pos] + ReplaceAll(s[pos..], fmt, rep) == goal
    ensures s == goal
  {
    ReplaceAllNotFound(s, fmt, rep, pos);
    assert s[..pos] + s[pos..] == s;
  }

  /** One splice of `dump` keeps what is already replaced plus the
      replacement of the rest equal to the replacement of the input. */
  lemma DumpStep(s: string, fmt: string, rep: string, pos: nat, p: nat, goal: string)
    requires |fmt| > 0 && pos <= |s| && FindFrom(s, fmt, pos) == Some(p)
    requires s[..pos] + ReplaceAll(s[pos..], fmt, rep) == goal
    ensures pos <= p && p + |fmt| <= |s|
    ensures var t := s[..p] + rep + s[p + |fmt|..];
      t[..p + |rep|] + ReplaceAll(t[p + |rep|..], fmt, rep) == goal
  {
    ReplaceAllAt(s, fmt, rep, pos, p);
    var rest := s[p + |fmt|..];
    Splice(s, rep, pos, p, |fmt|, ReplaceAll(s[pos..], fmt, rep), ReplaceAll(rest, fmt, rep));
  }

  /** The sequence arithmetic of one splice, apart from what is spliced. */
  lemma Splice(s: string, rep: string, pos: nat, p: nat, width: nat, head: string, tail: string)
    requires pos <= p && p + width <= |s|
    requires head == s[pos..p] + (rep + tail)
    ensures var t := s[..p] + rep + s[p + width..];
      t[..p + |rep|] + tail == s[..pos] + head && t[p + |rep|..] == s[p + width..]
  {
    var t := s[..p] + rep + s[p + width..];
    assert t[..p + |rep|] == s[..pos] + s[pos..p] + rep;
  }

  /** `dump` is the `Join` of `split`'s pieces: cutting at each token and
      gluing the pieces back with `rep`. */
  lemma {:induction false} ReplaceAllIsJoin(s: string, fmt: string, rep: string)
    requires |fmt| > 0
    ensures ReplaceAll(s, fmt, rep) == Join(Core.Pieces(s, fmt), rep)
    decreases |s|
  {
    match FindFrom(s, fmt, 0)
    case None =>
    case Some(p) =>
      var rest := s[p + |fmt|..];
      ReplaceAllIsJoin(rest, fmt, rep);
      ReplaceAllUnfold(s, fmt, rep, p, s[..p], rest);
      Core.PiecesUnfold(s, fmt, p, s[..p], rest);
      JoinCons(s[..p], Core.Pieces(rest, fmt), rep);
  }

  /** Replacing a token by itself leaves the text unchanged. */
  lemma ReplaceAllSame(s: string, fmt: string)
    requires |fmt| > 0
    ensures ReplaceAll(s, fmt, fmt) == s
  {
    ReplaceAllIsJoin(s, fmt, fmt);
    Core.JoinPieces(s, fmt);
  }

  /** The text each token of `to_str` stands for, in the order the tokens
      are replaced (yyyy, mm, dd, hh, nn, ss, zzzzzz, zzz): the year as it
      is, month, day, hour, minute and second on two digits, the
      microseconds of the second on six and the milliseconds on three. */
  function Texts(d: DateTime): (r: seq<string>)
    ensures |r| == 8
  {
    [IntToString(d.year),
     ZeroPad(IntToString(d.mon), 2),
     ZeroPad(IntToString(d.day), 2),
     ZeroPad(IntToString(d.hour), 2),
     ZeroPad(IntToString(d.min), 2),
     ZeroPad(IntToString(d.sec), 2),
     ZeroPad(IntToString(1000 * d.msec + d.usec), 6),
     ZeroPad(IntToString(d.msec), 3)]
  }

  /** The eight tokens replaced in turn by the eight texts. */
  function ReplaceTokens(format: string, texts: seq<string>): string
    requires |texts| == 8
  {
    var s1 := ReplaceAll(format, "yyyy", texts[0]);
    var s2 := ReplaceAll(s1, "mm", texts[1]);
    var s3 := ReplaceAll(s2, "dd", texts[2]);
    var s4 := ReplaceAll(s3, "hh", texts[3]);
    var s5 := ReplaceAll(s4, "nn", texts[4]);
    var s6 := ReplaceAll(s5, "ss", texts[5]);
    var s7 := ReplaceAll(s6, "zzzzzz", texts[6]);
    ReplaceAll(s7, "zzz", texts[7])
  }

  /** The text `to_str(format)` returns. */
  function ToStrSpec(d: DateTime, format: string): string {
    ReplaceTokens(format, Texts(d))
  }

  /** The texts `to_str` writes: `to_string` of each field, padded by
      `zeroFill`. */
  method TokenTexts(d: DateTime) returns (texts: seq<string>)
    ensures texts == Texts(d)
  {
    var mon := ZeroFill(IntToString(d.mon), 2);
    var day := ZeroFill(IntToString(d.day), 2);
    var hour := ZeroFill(IntToString(d.hour), 2);
    var min := ZeroFill(IntToString(d.min), 2);
    var sec := ZeroFill(IntToString(d.sec), 2);
    var usec := ZeroFill(IntToString(1000 * d.msec + d.usec), 6);
    var msec := ZeroFill(IntToString(d.msec), 3);
    texts := [IntToString(d.year), mon, day, hour, min, sec, usec, msec];
  }

  /** The `dump` calls of `to_str`, one per token. */
  method DumpTokens(format: string, texts: seq<string>) returns (result: string)
    requires |texts| == 8
    ensures result == ReplaceTokens(format, texts)
  {
    result := Dump(format, "yyyy", texts[0]);
    result := Dump(result, "mm", texts[1]);
    result := Dump(result, "dd", texts[2]);
    result := Dump(result, "hh", texts[3]);
    result := Dump(result, "nn", texts[4]);
    result := Dump(result, "ss", texts[5]);
    result := Dump(result, "zzzzzz", texts[6]);
    result := Dump(result, "zzz", texts[7]);
  }

  /** `to_str(format)`. */
  method ToStr(d: DateTime, format: string) returns (result: string)
    ensures result == ToStrSpec(d, format)
  {
    var texts := TokenTexts(d);
    result := DumpTokens(format, texts);
  }

  // --------------------------------------------------------------- parsing

  /** `substr(pos, n)` for `pos <= |s|`: at most `n` characters. */
  function Substr(s: string, pos: nat, n: nat): string
    requires pos <= |s|
  {
    s[pos..if pos + n < |s| then pos + n else |s|]
  }

  /** `replace(pos, n, n, '*')`: the (at most `n`) characters from `pos` give
      way to `n` '*', so the string grows when it had fewer left. */
  function Mask(s: string, pos: nat, n: nat): (r: string)
    requires pos <= |s|
    ensures |r| == if pos + n > |s| then pos + n else |s|
  {
    s[..pos] + Repeat('*', n) + s[if pos + n < |s| then pos + n else |s|..]
  }

  /** Inside the masked window every character is '*'; outside it, the
      characters are those of `s`. */
  lemma MaskAt(s: string, pos: nat, n: nat)
    requires pos <= |s|
    ensures var r := Mask(s, pos, n);
      forall i :: 0 <= i < |r| ==> r[i] == if pos <= i < pos + n then '*' else s[i]
  {
  }

  /** Input and format as `parse` leaves them, and the value it wrote. */
  datatype Scan = Scan(dt: string, fmt: string, val: int)

  /** `SliceOutOfRange` is the `std::out_of_range` that `substr` throws for
      a token lying past the end of the input; the other two are the
      `std::runtime_error`s `parse` throws itself. */
  datatype ParseError = SliceOutOfRange | Unconvertible | OutOfRange

  /** How one turn of `parse`'s loop ends: `parse` returns or throws, or it
      goes on with masked strings, a new value and a later position. */
  datatype Turn =
    | Stop(result: Result<Scan, ParseError>)
    | Go(dt: string, fmt: string, val: int, pos: nat)

  /** One turn of `parse`'s loop: find the token in the format from `pos`,
      read the slice of the input below it, mask both with '*', then check
      the value against `[low, high]`. */
  function TurnAt(dt: string, fmt: string, token: string, val: int, low: int, high: int, pos: nat)
    : (t: Turn)
    requires |token| > 0
    ensures t == Stop(Ok(Scan(dt, fmt, val))) <==> FindFrom(fmt, token, pos).None?
    ensures t.Stop? ==> t.result.Err? || t.result == Ok(Scan(dt, fmt, val))
    ensures t.Go? ==> low <= t.val <= high && |t.fmt| == |fmt| && pos < t.pos <= |t.fmt|
  {
    match FindFrom(fmt, token, pos)
    case None => Stop(Ok(Scan(dt, fmt, val)))
    case Some(p) =>
      if p > |dt| then Stop(Err(SliceOutOfRange))
      else match LeadingInt(Substr(dt, p, |token|))
        case None => Stop(Err(Unconvertible))
        case Some(v) =>
          if v < low || v > high then Stop(Err(OutOfRange))
          else Go(Mask(dt, p, |token|), Mask(fmt, p, |token|), v, p + |token|)
  }

  /** `parse` from search position `pos` on: turns until one stops. */
  function ParseFrom(dt: string, fmtStr: string, token: string, val: int, low: int, high: int, pos: nat)
    : (r: Result<Scan, ParseError>)
    requires |token| > 0
    decreases |fmtStr| - pos
    ensures r.Ok? ==> r.value.val == val || low <= r.value.val <= high
    ensures r.Ok? ==> |r.value.fmt| == |fmtStr|
  {
    match TurnAt(dt, fmtStr, token, val, low, high, pos)
    case Stop(result) => result
    case Go(d, f, v, q) => ParseFrom(d, f, token, v, low, high, q)
  }

  /** The body of `parse`'s loop. */
  method ParseTurn(dt: string, fmt: string, token: string, val: int, low: int, high: int, pos: nat)
    returns (turn: Turn)
    requires |token| > 0
    ensures turn == TurnAt(dt, fmt, token, val, low, high, pos)
  {
    var found := FindFrom(fmt, token, pos);
    if found.None? {
      return Stop(Ok(Scan(dt, fmt, val)));
    }
    var p := found.value;
    TurnAtFound(dt, fmt, token, val, low, high, pos, p);
    if p > |dt| {
      return Stop(Err(SliceOutOfRange));
    }
    var tmp := LeadingInt(Substr(dt, p, |token|));
    if tmp.None? {
      return Stop(Err(Unconvertible));
    }
    var maskedFmt := Mask(fmt, p, |token|);
    var maskedDt := Mask(dt, p, |token|);
    if tmp.value < low || tmp.value > high {
      return Stop(Err(OutOfRange));
    }
    return Go(maskedDt, maskedFmt, tmp.value, p + |token|);
  }

  /** The turn once the token is found at `p`. */
  lemma TurnAtFound(dt: string, fmt: string, token: string, val: int, low: int, high: int, pos: nat, p: nat)
    requires |token| > 0 && FindFrom(fmt, token, pos) == Some(p)
    ensures p > |dt| ==> TurnAt(dt, fmt, token, val, low, high, pos) == Stop(Err(SliceOutOfRange))
    ensures p <= |dt| ==> (TurnAt(dt, fmt, token, val, low, high, pos) ==
      match LeadingInt(Substr(dt, p, |token|))
      case None => Stop(Err(Unconvertible))
      case Some(v) =>
        if v < low || v > high then Stop(Err(OutOfRange))
        else Go(Mask(dt, p, |token|), Mask(fmt, p, |token|), v, p + |token|))
  {
  }

  /** `parse(dt_str, fmt_str, token, val, low, high)`; the strings and `val`,
      which the source updates through references, come back in a `Scan`. */
  method Parse(dtStr: string, fmtStr: string, token: string, val: int, low: int, high: int)
    returns (r: Result<Scan, ParseError>)
    requires |token| > 0
    ensures r == ParseFrom(dtStr, fmtStr, token, val, low, high, 0)
  {
    var dt, fmt, v := dtStr, fmtStr, val;
    var pos: nat := 0;
    while true
      invariant ParseFrom(dt, fmt, token, v, low, high, pos) == ParseFrom(dtStr, fmtStr, token, val, low, high, 0)
      decreases |fmt| - pos
    {
      var turn := ParseTurn(dt, fmt, token, v, low, high, pos);
      if turn.Stop? {
        return turn.result;
      }
      dt, fmt, v, pos := turn.dt, turn.fmt, turn.val, turn.pos;
    }
  }

  /** Every occurrence of a token without '*' is consumed: once `parse`
      succeeds the masked format holds the token nowhere, so a later,
      shorter token cannot match inside it. */
  lemma {:induction false} ParseFromConsumes(dt: string, fmtStr: string, token: string, val: int,
                                             low: int, high: int, pos: nat)
    requires |token| > 0 && '*' !in token
    requires forall k :: 0 <= k < pos ==> !OccursAt(fmtStr, token, k)
    ensures var r := ParseFrom(dt, fmtStr, token, val, low, high, pos);
      r.Ok? ==> FindFrom(r.value.fmt, token, 0).None?
    decreases |fmtStr| - pos
  {
    var t := TurnAt(dt, fmtStr, token, val, low, high, pos);
    match FindFrom(fmtStr, token, pos)
    case None =>
      forall k: nat
        ensures !OccursAt(fmtStr, token, k)
      {
        if k >= pos {
          assert !OccursAt(fmtStr, token, k);
        }
      }
    case Some(p) =>
      if t.Go? {
        var n := |token|;
        assert t.fmt == Mask(fmtStr, p, n) && t.pos == p + n;
        forall k | 0 <= k < p + n
          ensures !OccursAt(t.fmt, token, k)
        {
          MaskedNoMatch(fmtStr, token, pos, p, k);
        }
        ParseFromConsumes(t.dt, t.fmt, token, t.val, low, high, t.pos);
      }
  }

  lemma MaskedNoMatch(fmtStr: string, token: string, pos: nat, p: nat, k: nat)
    requires |token| > 0 && '*' !in token
    requires FindFrom(fmtStr, token, pos) == Some(p)
    requires forall j :: 0 <= j < pos ==> !OccursAt(fmtStr, token, j)
    requires k < p + |token|
    ensures !OccursAt(Mask(fmtStr, p, |token|), token, k)
  {
    var n := |token|;
    var masked := Mask(fmtStr, p, n);
    MaskAt(fmtStr, p, n);
    if k + n <= |masked| {
      if k + n <= p {
        assert masked[k..k + n] == fmtStr[k..k + n];
        assert !OccursAt(fmtStr, token, k);
      } else {
        var j := if k < p then p else k;
        assert masked[k..k + n][j - k] == '*';
        assert token[j - k] != '*';
      }
    }
  }

  // ------------------------------------------------------------- from_str

  /** What `from_str` throws: a `std::runtime_error` naming input and format
      for any failure of `parse` itself; the `std::out_of_range` of `substr`
      is not caught and passes through unchanged. */
  datatype FromStrError = RuntimeError | OutOfRangeError

  function Rethrown(e: ParseError): FromStrError {
    if e == SliceOutOfRange then OutOfRangeError else RuntimeError
  }

  /** `parse` applied to what an earlier `parse` left. */
  function Next(s: Scan, token: string, val: int, low: int, high: int): Result<Scan, ParseError>
    requires |token| > 0
  {
    ParseFrom(s.dt, s.fmt, token, val, low, high, 0)
  }

  /** `from_str` with the field values it starts from: the eight `parse`
      calls in order, the day bound taken from the parsed year and month,
      and `zzzzzz` split into milliseconds and microseconds before `zzz` is
      read. */
  function FromStrWith(dtStr: string, format: string, init: DateTime): (r: Result<DateTime, FromStrError>)
    requires 1 <= init.mon <= 12
  {
    var year := ParseFrom(dtStr, format, "yyyy", init.year, 1970, 2300, 0);
    if year.Err? then Err(Rethrown(year.error)) else
    var mon := Next(year.value, "mm", init.mon, 1, 12);
    if mon.Err? then Err(Rethrown(mon.error)) else
    var day := Next(mon.value, "dd", init.day, 1, MonthLength(year.value.val, mon.value.val));
    if day.Err? then Err(Rethrown(day.error)) else
    var hour := Next(day.value, "hh", init.hour, 0, 23);
    if hour.Err? then Err(Rethrown(hour.error)) else
    var min := Next(hour.value, "nn", init.min, 0, 59);
    if min.Err? then Err(Rethrown(min.error)) else
    var sec := Next(min.value, "ss", init.sec, 0, 59);
    if sec.Err? then Err(Rethrown(sec.error)) else
    var usec := Next(sec.value, "zzzzzz", init.usec, 0, 999999);
    if usec.Err? then Err(Rethrown(usec.error)) else
    var msec := Next(usec.value, "zzz", Ints.Quot(usec.value.val, 1000), 0, 999);
    if msec.Err? then Err(Rethrown(msec.error)) else
    Ok(DateTime(year.value.val, mon.value.val, day.value.val, hour.value.val, min.value.val,
                sec.value.val, msec.value.val, Ints.Rem(usec.value.val, 1000)))
  }

  /** The starting values as written: `mon = day = 1` is followed by
      `day = hour = ... = 0`, so the day starts at 0. */
  const WrittenDefaults := DateTime(1970, 1, 0, 0, 0, 0, 0, 0)

  /** The starting values evidently intended: 1970-01-01 00:00:00.000000. */
  const Defaults := DateTime(1970, 1, 1, 0, 0, 0, 0, 0)

  /** `from_str` as written. */
  function FromStrAsWritten(dtStr: string, format: string): (r: Result<DateTime, FromStrError>)
    ensures r.Ok? ==> 1 <= r.value.mon <= 12 &&
                      (r.value.day == 0 || 1 <= r.value.day <= MonthLength(r.value.year, r.value.mon))
  {
    FromStrRanges(dtStr, format, WrittenDefaults);
    FromStrWith(dtStr, format, WrittenDefaults)
  }

  /** `from_str(date_time_str, format)`, starting from `Defaults`. */
  method FromStr(dtStr: string, format: string) returns (r: Result<DateTime, FromStrError>)
    ensures r == FromStrWith(dtStr, format, Defaults)
  {
    var s := Parse(dtStr, format, "yyyy", Defaults.year, 1970, 2300);
    if s.Err? { return Err(Rethrown(s.error)); }
    var year := s.value.val;
    s := Parse(s.value.dt, s.value.fmt, "mm", Defaults.mon, 1, 12);
    if s.Err? { return Err(Rethrown(s.error)); }
    var mon := s.value.val;
    s := Parse(s.value.dt, s.value.fmt, "dd", Defaults.day, 1, MonthLength(year, mon));
    if s.Err? { return Err(Rethrown(s.error)); }
    var day := s.value.val;
    s := Parse(s.value.dt, s.value.fmt, "hh", Defaults.hour, 0, 23);
    if s.Err? { return Err(Rethrown(s.error)); }
    var hour := s.value.val;
    s := Parse(s.value.dt, s.value.fmt, "nn", Defaults.min, 0, 59);
    if s.Err? { return Err(Rethrown(s.error)); }
    var min := s.value.val;
    s := Parse(s.value.dt, s.value.fmt, "ss", Defaults.sec, 0, 59);
    if s.Err? { return Err(Rethrown(s.error)); }
    var sec := s.value.val;
    s := Parse(s.value.dt, s.value.fmt, "zzzzzz", Defaults.usec, 0, 999999);
    if s.Err? { return Err(Rethrown(s.error)); }
    var msec := Ints.Quot(s.value.val, 1000);
    var usec := Ints.Rem(s.value.val, 1000);
    s := Parse(s.value.dt, s.value.fmt, "zzz", msec, 0, 999);
    if s.Err? { return Err(Rethrown(s.error)); }
    msec := s.value.val;
    return Ok(DateTime(year, mon, day, hour, min, sec, msec, usec));
  }

  /** Each field of a parsed `DateTime` is its starting value or lies in
      the range its token accepts; the day bound follows the parsed month. */
  lemma FromStrRanges(dtStr: string, format: string, init: DateTime)
    requires 1 <= init.mon <= 12 && 0 <= init.usec <= 999999
    ensures var r := FromStrWith(dtStr, format, init);
      r.Ok? ==>
        var d := r.value;
        && (d.year == init.year || 1970 <= d.year <= 2300)
        && 1 <= d.mon <= 12
        && (d.day == init.day || 1 <= d.day <= MonthLength(d.year, d.mon))
        && (d.hour == init.hour || 0 <= d.hour <= 23)
        && (d.min == init.min || 0 <= d.min <= 59)
        && (d.sec == init.sec || 0 <= d.sec <= 59)
        && 0 <= d.msec <= 999 && 0 <= d.usec <= 999
  {
  }

  /** Starting from `Defaults`, whatever `from_str` returns is a valid date
      and time. */
  lemma FromStrValid(dtStr: string, format: string)
    ensures var r := FromStrWith(dtStr, format, Defaults);
      r.Ok? ==> Valid(r.value)
  {
    FromStrRanges(dtStr, format, Defaults);
  }

  /** As written, a format without a day token yields day 0, which no month
      has: "2020" read with "yyyy" gives 2020-01-00. */
  lemma FromStrAsWrittenDayZero(dtStr: string, format: string)
    requires dtStr == "2020" && format == "yyyy"
    ensures FromStrAsWritten(dtStr, format) == Ok(DateTime(2020, 1, 0, 0, 0, 0, 0, 0))
    ensures !Valid(DateTime(2020, 1, 0, 0, 0, 0, 0, 0))
  {
    var s := ReadYear2020(dtStr, format);
    FromStrYearOnly(dtStr, format, WrittenDefaults, s);
    assert Ints.Quot(0, 1000) == 0 && Ints.Rem(0, 1000) == 0;
  }

  /** When the year token is the only one, every other field keeps its
      starting value. */
  lemma FromStrYearOnly(dtStr: string, format: string, init: DateTime, s: Scan)
    requires 1 <= init.mon <= 12
    requires ParseFrom(dtStr, format, "yyyy", init.year, 1970, 2300, 0) == Ok(s)
    requires forall i :: 0 <= i < |s.fmt| ==> s.fmt[i] == '*'
    ensures FromStrWith(dtStr, format, init) ==
      Ok(init.(year := s.val, msec := Ints.Quot(init.usec, 1000), usec := Ints.Rem(init.usec, 1000)))
  {
    ParseFromAbsent(s, "mm", init.mon, 1, 12);
    ParseFromAbsent(s, "dd", init.day, 1, MonthLength(s.val, init.mon));
    ParseFromAbsent(s, "hh", init.hour, 0, 23);
    ParseFromAbsent(s, "nn", init.min, 0, 59);
    ParseFromAbsent(s, "ss", init.sec, 0, 59);
    ParseFromAbsent(s, "zzzzzz", init.usec, 0, 999999);
    ParseFromAbsent(s, "zzz", Ints.Quot(init.usec, 1000), 0, 999);
  }

  /** `parse` reads the year of "2020" with "yyyy" in two turns. */
  lemma ReadYear2020(dtStr: string, format: string) returns (s: Scan)
    requires dtStr == "2020" && format == "yyyy"
    ensures ParseFrom(dtStr, format, "yyyy", 1970, 1970, 2300, 0) == Ok(s)
    ensures s.val == 2020 && forall i :: 0 <= i < |s.fmt| ==> s.fmt[i] == '*'
  {
    var stars := Repeat('*', 4);
    FirstYearTurn(dtStr, format, stars);
    LastYearTurn(stars);
    s := Scan(stars, stars, 2020);
  }

  /** The first turn reads 2020 and masks both strings. */
  lemma FirstYearTurn(dtStr: string, format: string, stars: string)
    requires dtStr == "2020" && format == "yyyy" && stars == Repeat('*', 4)
    ensures TurnAt(dtStr, format, "yyyy", 1970, 1970, 2300, 0) == Go(stars, stars, 2020, 4)
  {
    assert FindFrom(format, "yyyy", 0) == Some(0);
    assert Substr(dtStr, 0, 4) == dtStr;
    Read2020(dtStr);
    assert Mask(dtStr, 0, 4) == stars && Mask(format, 0, 4) == stars;
  }

  lemma Read2020(dtStr: string)
    requires dtStr == "2020"
    ensures LeadingInt(dtStr) == Some(2020)
  {
    assert NatToString(2020) == dtStr;
    ZeroPadReadsBack(2020, 0, []);
    assert ZeroPad(dtStr, 0) + [] == dtStr;
  }

  /** The second turn finds no token left and stops. */
  lemma LastYearTurn(stars: string)
    requires stars == Repeat('*', 4)
    ensures TurnAt(stars, stars, "yyyy", 2020, 1970, 2300, 4) == Stop(Ok(Scan(stars, stars, 2020)))
  {
    FindFromAbsent(stars, "yyyy", 4);
  }

  /** A token whose first letter the format lacks leaves input, format and
      value as they were. */
  lemma ParseFromAbsent(s: Scan, token: string, val: int, low: int, high: int)
    requires |token| > 0 && forall i :: 0 <= i < |s.fmt| ==> s.fmt[i] != token[0]
    ensures Next(s, token, val, low, high) == Ok(s.(val := val))
  {
    FindFromAbsent(s.fmt, token, 0);
  }
}
