/** `TDateTime` of `include/builder_alternative/System.hpp`: the eight
    fields of a date and time (the same record as `DateTimes.DateTime`),
    `FormatString` with its quote-escaping token substitution, and
    `CompareTime` on the time of day. */
module TDateTimes {
  import opened Text
  import Core
  import DateTimes
  import opened Wrappers

  type TDateTime = DateTimes.DateTime

  /** No quote character a token could be escaped with. */
  predicate NoQuotes(s: string) {
    '\'' !in s && '"' !in s
  }

  /** Where the search resumes after a token written in single quotes: as
      written two characters past the token left in place, as evidently
      intended just past it (which is what the double-quote branch does). */
  datatype QuoteRule = AsWritten | Intended

  /** The text after one step of `convert` and where the search resumes. */
  datatype Resumed = Resumed(text: string, pos: nat)

  /** One step of `convert` at an occurrence `p` of `fmt`: a token between
      two equal quotes (single or double) with at least one character
      after the closing one loses its quotes and is kept; any other is
      replaced by `rep`. The search resumes after what was written, nearer
      the end than before. */
  function ConvertAt(s: string, fmt: string, rep: string, p: nat, rule: QuoteRule): (r: Resumed)
    requires |fmt| > 0 && p + |fmt| <= |s|
    ensures r.pos <= |r.text| + 1 && |r.text| + 1 - r.pos < |s| + 1 - p
  {
    if p > 0 && p + |fmt| + 1 < |s| && s[p - 1] == '\'' && s[p + |fmt|] == '\'' then
      Resumed(s[..p - 1] + fmt + s[p + |fmt| + 1..], if rule == AsWritten then p + |fmt| + 1 else p + |fmt| - 1)
    else if p != 0 && p + |fmt| + 1 < |s| && s[p - 1] == '"' && s[p + |fmt|] == '"' then
      Resumed(s[..p - 1] + fmt + s[p + |fmt| + 1..], p + |fmt| - 1)
    else
      Resumed(s[..p] + rep + s[p + |fmt|..], p + |rep|)
  }

  /** What `convert(str, fmt, rep)` leaves, from the search position `pos`
      on: the steps at each occurrence found left to right. */
  function ConvertFrom(s: string, fmt: string, rep: string, pos: nat, rule: QuoteRule): string
    requires |fmt| > 0 && pos <= |s| + 1
    decreases |s| + 1 - pos
  {
    match FindFrom(s, fmt, pos)
    case None => s
    case Some(p) =>
      var r := ConvertAt(s, fmt, rep, p, rule);
      ConvertFrom(r.text, fmt, rep, r.pos, rule)
  }

  /** Away from quotes, a step replaces the token. */
  lemma ConvertAtUnquoted(s: string, fmt: string, rep: string, p: nat, rule: QuoteRule)
    requires |fmt| > 0 && p + |fmt| <= |s|
    requires p > 0 ==> s[p - 1] != '\'' && s[p - 1] != '"'
    ensures ConvertAt(s, fmt, rep, p, rule) == Resumed(s[..p] + rep + s[p + |fmt|..], p + |rep|)
  {
  }

  /** A token right after an opening quote, closed by the same quote and
      followed by more text, loses its quotes. */
  lemma ConvertAtQuoted(s: string, fmt: string, rep: string, p: nat, rule: QuoteRule)
    requires |fmt| > 0 && 0 < p && p + |fmt| + 1 < |s|
    requires (s[p - 1] == '\'' && s[p + |fmt|] == '\'') || (s[p - 1] == '"' && s[p + |fmt|] == '"')
    ensures ConvertAt(s, fmt, rep, p, rule).text == s[..p - 1] + fmt + s[p + |fmt| + 1..]
    ensures ConvertAt(s, fmt, rep, p, rule).pos
            == if rule == AsWritten && s[p - 1] == '\'' then p + |fmt| + 1 else p + |fmt| - 1
  {
  }

  /** `convert(str, fmt, rep)`: find `fmt` from `pos`; a quoted token loses
      its quotes, any other is replaced by `rep`; the search resumes after
      what was written. */
  method Convert(str: string, fmt: string, rep: string) returns (result: string)
    requires |fmt| > 0
    ensures result == ConvertFrom(str, fmt, rep, 0, Intended)
  {
    result := str;
    var pos: nat := 0;
    ghost var goal := ConvertFrom(str, fmt, rep, 0, Intended);
    while true
      invariant pos <= |result| + 1
      invariant ConvertFrom(result, fmt, rep, pos, Intended) == goal
      decreases |result| + 1 - pos
    {
      var found := FindFrom(result, fmt, pos);
      if found.None? {
        ConvertDone(result, fmt, rep, pos);
        return;
      }
      var p := found.value;
      ghost var before, from := result, pos;
      if p > 0 && p + |fmt| + 1 < |result| && result[p - 1] == '\'' && result[p + |fmt|] == '\'' {
        var l := result[..p - 1];
        var r := result[p + |fmt| + 1..];
        result := l + fmt + r;
        pos := p + |fmt| - 1;
        ConvertAtQuoted(before, fmt, rep, p, Intended);
        assert ConvertAt(before, fmt, rep, p, Intended) == Resumed(result, pos);
      } else if p != 0 && p + |fmt| + 1 < |result| && result[p - 1] == '"' && result[p + |fmt|] == '"' {
        var l := result[..p - 1];
        var r := result[p + |fmt| + 1..];
        result := l + fmt + r;
        pos := p + |fmt| - 1;
        ConvertAtQuoted(before, fmt, rep, p, Intended);
        assert ConvertAt(before, fmt, rep, p, Intended) == Resumed(result, pos);
      } else {
        var l := result[..p];
        var r := result[p + |fmt|..];
        result := l + rep + r;
        pos := p + |rep|;
        ConvertAtPlain(before, fmt, rep, p, Intended);
      }
      ConvertStep(before, fmt, rep, from, p, result, pos);
    }
  }

  /** A step at a token not enclosed in matching quotes replaces it. */
  lemma ConvertAtPlain(s: string, fmt: string, rep: string, p: nat, rule: QuoteRule)
    requires |fmt| > 0 && p + |fmt| <= |s|
    requires !(p > 0 && p + |fmt| + 1 < |s| && s[p - 1] == '\'' && s[p + |fmt|] == '\'')
    requires !(p != 0 && p + |fmt| + 1 < |s| && s[p - 1] == '"' && s[p + |fmt|] == '"')
    ensures ConvertAt(s, fmt, rep, p, rule) == Resumed(s[..p] + rep + s[p + |fmt|..], p + |rep|)
  {
  }

  /** With no further occurrence the conversion leaves the text as it is. */
  lemma ConvertDone(s: string, fmt: string, rep: string, pos: nat)
    requires |fmt| > 0 && pos <= |s| + 1 && FindFrom(s, fmt, pos).None?
    ensures ConvertFrom(s, fmt, rep, pos, Intended) == s
  {
  }

  /** One turn of `convert`'s loop: the step at the occurrence found leaves
      a text whose conversion from the new position is that of the old. */
  lemma ConvertStep(s: string, fmt: string, rep: string, from: nat, p: nat, t: string, pos: nat)
    requires |fmt| > 0 && from <= |s| + 1 && FindFrom(s, fmt, from) == Some(p)
    requires p + |fmt| <= |s| && ConvertAt(s, fmt, rep, p, Intended) == Resumed(t, pos)
    ensures pos <= |t| + 1 && ConvertFrom(t, fmt, rep, pos, Intended) == ConvertFrom(s, fmt, rep, from, Intended)
  {
  }

  /** Without quotes, `convert` is `dump`: every occurrence is replaced.
      The proof walks the loop of `dump` and that of `convert` together. */
  lemma ConvertUnquotedFrom(s: string, fmt: string, rep: string, start: nat, rule: QuoteRule)
    requires |fmt| > 0 && start <= |s| && NoQuotes(s) && NoQuotes(rep)
    ensures ConvertFrom(s, fmt, rep, start, rule) == s[..start] + DateTimes.ReplaceAll(s[start..], fmt, rep)
  {
    var goal := s[..start] + DateTimes.ReplaceAll(s[start..], fmt, rep);
    var t: string, pos: nat := s, start;
    while true
      invariant pos <= |t| && NoQuotes(t)
      invariant t[..pos] + DateTimes.ReplaceAll(t[pos..], fmt, rep) == goal
      invariant ConvertFrom(t, fmt, rep, pos, rule) == ConvertFrom(s, fmt, rep, start, rule)
      decreases |t| + 1 - pos
    {
      match FindFrom(t, fmt, pos)
      case None =>
        DateTimes.DumpDone(t, fmt, rep, pos, goal);
        return;
      case Some(p) =>
        DateTimes.DumpStep(t, fmt, rep, pos, p, goal);
        SpliceFree(t, rep, p, |fmt|);
        if p > 0 {
          assert t[p - 1] in t;
        }
        ConvertAtUnquoted(t, fmt, rep, p, rule);
        ghost var before := t;
        t, pos := t[..p] + rep + t[p + |fmt|..], p + |rep|;
        assert ConvertAt(before, fmt, rep, p, rule) == Resumed(t, pos);
    }
  }

  /** Splicing a quote-free text into a quote-free text. */
  lemma SpliceFree(s: string, rep: string, p: nat, width: nat)
    requires p + width <= |s| && NoQuotes(s) && NoQuotes(rep)
    ensures NoQuotes(s[..p] + rep + s[p + width..])
  {
    var t := s[..p] + rep + s[p + width..];
    forall i | 0 <= i < |t| ensures t[i] != '\'' && t[i] != '"' {
      if i < p {
        assert t[i] == s[i];
      } else if i < p + |rep| {
        assert t[i] == rep[i - p];
      } else {
        assert t[i] == s[i - |rep| + width];
      }
    }
  }

  /** A format without quotes is converted like `dump` converts it. */
  lemma ConvertUnquoted(s: string, fmt: string, rep: string, rule: QuoteRule)
    requires |fmt| > 0 && NoQuotes(s) && NoQuotes(rep)
    ensures ConvertFrom(s, fmt, rep, 0, rule) == DateTimes.ReplaceAll(s, fmt, rep)
  {
    ConvertUnquotedFrom(s, fmt, rep, 0, rule);
    assert s[0..] == s;
  }

  /** The first occurrence of a quote-free token in a text that starts
      with a quote followed by the token. */
  lemma QuotedFirst(q: char, fmt: string, rest: string)
    requires |fmt| > 0 && NoQuotes(fmt) && (q == '\'' || q == '"')
    ensures FindFrom([q] + fmt + [q] + rest, fmt, 0) == Some(1)
  {
    var s := [q] + fmt + [q] + rest;
    assert s[1..1 + |fmt|] == fmt;
    assert !OccursAt(s, fmt, 0) by {
      assert s[0] == q && fmt[0] != q;
    }
  }

  /** The first step on a text that starts with a quoted token: the
      quotes go, and the search resumes past the token, two characters
      further after single quotes as written. */
  lemma QuotedStep(q: char, fmt: string, rep: string, rest: string, rule: QuoteRule)
    requires |fmt| > 0 && NoQuotes(fmt) && rest != [] && (q == '\'' || q == '"')
    ensures var resume := if rule == AsWritten && q == '\'' then |fmt| + 2 else |fmt|;
      resume <= |fmt + rest| + 1 &&
      ConvertFrom([q] + fmt + [q] + rest, fmt, rep, 0, rule) == ConvertFrom(fmt + rest, fmt, rep, resume, rule)
  {
    var s := [q] + fmt + [q] + rest;
    QuotedFirst(q, fmt, rest);
    assert s[0] == q && s[1 + |fmt|] == q;
    assert s[|fmt| + 2..] == rest;
    ConvertAtQuoted(s, fmt, rep, 1, rule);
    var r := ConvertAt(s, fmt, rep, 1, rule);
    assert r.text == fmt + rest;
    assert ConvertFrom(s, fmt, rep, 0, rule) == ConvertFrom(r.text, fmt, rep, r.pos, rule);
  }

  /** As evidently intended, a token in single or double quotes followed
      by more text is written once without its quotes, and the rest is
      converted as usual. */
  lemma QuotedTokenKept(q: char, fmt: string, rep: string, rest: string)
    requires |fmt| > 0 && NoQuotes(fmt) && NoQuotes(rep) && NoQuotes(rest) && rest != []
    requires q == '\'' || q == '"'
    ensures ConvertFrom([q] + fmt + [q] + rest, fmt, rep, 0, Intended) == fmt + DateTimes.ReplaceAll(rest, fmt, rep)
  {
    QuotedStep(q, fmt, rep, rest, Intended);
    var t := fmt + rest;
    assert NoQuotes(t);
    assert t[..|fmt|] == fmt && t[|fmt|..] == rest;
    ConvertUnquotedFrom(t, fmt, rep, |fmt|, Intended);
  }

  /** Double quotes work as written too. */
  lemma DoubleQuotedTokenKept(fmt: string, rep: string, rest: string)
    requires |fmt| > 0 && NoQuotes(fmt) && NoQuotes(rep) && NoQuotes(rest) && rest != []
    ensures ConvertFrom(['"'] + fmt + ['"'] + rest, fmt, rep, 0, AsWritten) == fmt + DateTimes.ReplaceAll(rest, fmt, rep)
  {
    QuotedStep('"', fmt, rep, rest, AsWritten);
    var t := fmt + rest;
    assert NoQuotes(t);
    assert t[..|fmt|] == fmt && t[|fmt|..] == rest;
    ConvertUnquotedFrom(t, fmt, rep, |fmt|, AsWritten);
  }

  /** As written, after a token in single quotes the search resumes two
      characters too far: the two characters after the token are never
      converted. */
  lemma SingleQuoteSkipsTwo(fmt: string, rep: string, rest: string)
    requires |fmt| > 0 && NoQuotes(fmt) && NoQuotes(rep) && NoQuotes(rest) && |rest| >= 2
    ensures ConvertFrom(['\''] + fmt + ['\''] + rest, fmt, rep, 0, AsWritten)
            == fmt + rest[..2] + DateTimes.ReplaceAll(rest[2..], fmt, rep)
  {
    QuotedStep('\'', fmt, rep, rest, AsWritten);
    var t := fmt + rest;
    assert NoQuotes(t);
    AppendSplit(fmt, rest, 2);
    ConvertUnquotedFrom(t, fmt, rep, |fmt| + 2, AsWritten);
  }

  lemma AppendSplit(a: string, b: string, k: nat)
    requires k <= |b|
    ensures (a + b)[..|a| + k] == a + b[..k] && (a + b)[|a| + k..] == b[k..]
  {
  }

  /** A text shorter than the token holds no occurrence of it. */
  lemma ReplaceShort(s: string, fmt: string, rep: string)
    requires |fmt| > 0 && |s| < |fmt|
    ensures DateTimes.ReplaceAll(s, fmt, rep) == s
  {
    assert FindFrom(s, fmt, 0).None?;
  }

  /** The token alone is replaced by the text. */
  lemma ReplaceWholeToken(fmt: string, rep: string)
    requires |fmt| > 0
    ensures DateTimes.ReplaceAll(fmt, fmt, rep) == rep
  {
    assert OccursAt(fmt, fmt, 0);
    assert fmt[|fmt|..] == [];
    ReplaceShort([], fmt, rep);
  }

  /** A token in single quotes followed by the same token (`'mm'mm`): as
      written both are left as the bare token ("mmmm"), the second one
      never converted; as intended the quoted one is kept and the other
      converted. */
  lemma SingleQuotedThenToken(fmt: string, rep: string)
    requires |fmt| >= 2 && NoQuotes(fmt) && NoQuotes(rep)
    ensures ConvertFrom(['\''] + fmt + ['\''] + fmt, fmt, rep, 0, AsWritten) == fmt + fmt
    ensures ConvertFrom(['\''] + fmt + ['\''] + fmt, fmt, rep, 0, Intended) == fmt + rep
  {
    QuotedThenTokenAsWritten(fmt, rep);
    QuotedThenTokenIntended(fmt, rep);
  }

  lemma QuotedThenTokenAsWritten(fmt: string, rep: string)
    requires |fmt| >= 2 && NoQuotes(fmt) && NoQuotes(rep)
    ensures ConvertFrom(['\''] + fmt + ['\''] + fmt, fmt, rep, 0, AsWritten) == fmt + fmt
  {
    SingleQuoteSkipsTwo(fmt, rep, fmt);
    ReplaceShort(fmt[2..], fmt, rep);
    assert fmt[..2] + fmt[2..] == fmt;
    AppendAssoc(fmt, fmt[..2], fmt[2..]);
  }

  lemma QuotedThenTokenIntended(fmt: string, rep: string)
    requires |fmt| >= 2 && NoQuotes(fmt) && NoQuotes(rep)
    ensures ConvertFrom(['\''] + fmt + ['\''] + fmt, fmt, rep, 0, Intended) == fmt + rep
  {
    QuotedTokenKept('\'', fmt, rep, fmt);
    ReplaceWholeToken(fmt, rep);
  }

  // -------------------------------------------------------- FormatString

  /** The eight tokens of `FormatString` (the same as `to_str`'s, in the
      same order) converted in turn by the eight texts. */
  function ConvertTokens(format: string, texts: seq<string>): string
    requires |texts| == 8
  {
    var s1 := ConvertFrom(format, "yyyy", texts[0], 0, Intended);
    var s2 := ConvertFrom(s1, "mm", texts[1], 0, Intended);
    var s3 := ConvertFrom(s2, "dd", texts[2], 0, Intended);
    var s4 := ConvertFrom(s3, "hh", texts[3], 0, Intended);
    var s5 := ConvertFrom(s4, "nn", texts[4], 0, Intended);
    var s6 := ConvertFrom(s5, "ss", texts[5], 0, Intended);
    var s7 := ConvertFrom(s6, "zzzzzz", texts[6], 0, Intended);
    ConvertFrom(s7, "zzz", texts[7], 0, Intended)
  }

  /** The text `FormatString(format)` returns. */
  function FormatSpec(d: TDateTime, format: string): string {
    ConvertTokens(format, DateTimes.Texts(d))
  }

  /** The `convert` calls of `FormatString`, one per token. */
  method ConvertEach(format: string, texts: seq<string>) returns (result: string)
    requires |texts| == 8
    ensures result == ConvertTokens(format, texts)
  {
    result := Convert(format, "yyyy", texts[0]);
    result := Convert(result, "mm", texts[1]);
    result := Convert(result, "dd", texts[2]);
    result := Convert(result, "hh", texts[3]);
    result := Convert(result, "nn", texts[4]);
    result := Convert(result, "ss", texts[5]);
    result := Convert(result, "zzzzzz", texts[6]);
    result := Convert(result, "zzz", texts[7]);
  }

  /** `FormatString(format)`: the texts of `to_str`, converted token by
      token. */
  method FormatString(d: TDateTime, format: string) returns (result: string)
    ensures result == FormatSpec(d, format)
  {
    var texts := DateTimes.TokenTexts(d);
    result := ConvertEach(format, texts);
  }

  /** The number texts hold no quote. */
  lemma NumberFree(i: int)
    ensures NoQuotes(IntToString(i))
  {
    Core.IntToStringChars(i);
  }

  lemma PaddedFree(i: int, width: nat)
    ensures NoQuotes(ZeroPad(IntToString(i), width))
  {
    NumberFree(i);
    var s := ZeroPad(IntToString(i), width);
    forall k | 0 <= k < |s| ensures s[k] != '\'' && s[k] != '"' {
      if k >= |s| - |IntToString(i)| {
        assert s[k] == IntToString(i)[k - (|s| - |IntToString(i)|)];
      }
    }
  }

  predicate AllFree(texts: seq<string>) {
    forall i :: 0 <= i < |texts| ==> NoQuotes(texts[i])
  }

  lemma TextsFree(d: TDateTime)
    ensures AllFree(DateTimes.Texts(d))
  {
    var t := DateTimes.Texts(d);
    NumberFree(d.year);
    PaddedFree(d.mon, 2);
    PaddedFree(d.day, 2);
    PaddedFree(d.hour, 2);
    PaddedFree(d.min, 2);
    PaddedFree(d.sec, 2);
    PaddedFree(1000 * d.msec + d.usec, 6);
    PaddedFree(d.msec, 3);
    assert NoQuotes(t[0]) && NoQuotes(t[1]) && NoQuotes(t[2]) && NoQuotes(t[3]);
    assert NoQuotes(t[4]) && NoQuotes(t[5]) && NoQuotes(t[6]) && NoQuotes(t[7]);
    AllFreeOfEight(t);
  }

  lemma AllFreeOfEight(t: seq<string>)
    requires |t| == 8
    requires NoQuotes(t[0]) && NoQuotes(t[1]) && NoQuotes(t[2]) && NoQuotes(t[3])
    requires NoQuotes(t[4]) && NoQuotes(t[5]) && NoQuotes(t[6]) && NoQuotes(t[7])
    ensures AllFree(t)
  {
    forall i | 0 <= i < 8 ensures NoQuotes(t[i]) {
      if i < 4 {
        assert i == 0 || i == 1 || i == 2 || i == 3;
      } else {
        assert i == 4 || i == 5 || i == 6 || i == 7;
      }
    }
  }

  /** Replacing with a quote-free text adds no quote. */
  lemma {:induction false} ReplaceAllFree(s: string, fmt: string, rep: string)
    requires |fmt| > 0 && NoQuotes(s) && NoQuotes(rep)
    ensures NoQuotes(DateTimes.ReplaceAll(s, fmt, rep))
    decreases |s|
  {
    match FindFrom(s, fmt, 0)
    case None =>
    case Some(p) =>
      var rest := s[p + |fmt|..];
      assert NoQuotes(rest) by {
        assert forall c :: c in rest ==> c in s;
      }
      ReplaceAllFree(rest, fmt, rep);
      assert NoQuotes(s[..p]) by {
        assert forall c :: c in s[..p] ==> c in s;
      }
  }

  /** One token on a quote-free text: `convert` and `dump` agree, and the
      result is quote-free again. */
  lemma TokenStep(s: string, fmt: string, rep: string)
    requires |fmt| > 0 && NoQuotes(s) && NoQuotes(rep)
    ensures ConvertFrom(s, fmt, rep, 0, Intended) == DateTimes.ReplaceAll(s, fmt, rep)
    ensures NoQuotes(DateTimes.ReplaceAll(s, fmt, rep))
  {
    ConvertUnquoted(s, fmt, rep, Intended);
    ReplaceAllFree(s, fmt, rep);
  }

  /** With no quote in the format or the texts, the conversions are the
      replacements of `to_str`. */
  lemma ConvertTokensUnquoted(format: string, texts: seq<string>)
    requires |texts| == 8 && NoQuotes(format) && AllFree(texts)
    ensures ConvertTokens(format, texts) == DateTimes.ReplaceTokens(format, texts)
  {
    TokenStep(format, "yyyy", texts[0]);
    var s1 := DateTimes.ReplaceAll(format, "yyyy", texts[0]);
    TokenStep(s1, "mm", texts[1]);
    var s2 := DateTimes.ReplaceAll(s1, "mm", texts[1]);
    TokenStep(s2, "dd", texts[2]);
    var s3 := DateTimes.ReplaceAll(s2, "dd", texts[2]);
    TokenStep(s3, "hh", texts[3]);
    var s4 := DateTimes.ReplaceAll(s3, "hh", texts[3]);
    TokenStep(s4, "nn", texts[4]);
    var s5 := DateTimes.ReplaceAll(s4, "nn", texts[4]);
    TokenStep(s5, "ss", texts[5]);
    var s6 := DateTimes.ReplaceAll(s5, "ss", texts[5]);
    TokenStep(s6, "zzzzzz", texts[6]);
    var s7 := DateTimes.ReplaceAll(s6, "zzzzzz", texts[6]);
    TokenStep(s7, "zzz", texts[7]);
  }

  /** A format without quotes gives the text `DateTime::to_str` gives. */
  lemma FormatOfUnquoted(d: TDateTime, format: string)
    requires NoQuotes(format)
    ensures FormatSpec(d, format) == DateTimes.ToStrSpec(d, format)
  {
    TextsFree(d);
    ConvertTokensUnquoted(format, DateTimes.Texts(d));
  }

  // --------------------------------------------------------- CompareTime

  /** `TValueRelationship`: -1, 0 and 1. */
  datatype TValueRelationship = LessThanValue | EqualsValue | GreaterThanValue

  /** `MilliSecondOfTheDay()` as written: the microseconds are added where
      the milliseconds belong. */
  function MilliSecondOfTheDayAsWritten(d: TDateTime): (r: int)
    ensures r == MilliSecondOfTheDay(d) - d.msec + d.usec
    ensures d.usec != d.msec ==> r != MilliSecondOfTheDay(d)
  {
    3600000 * d.hour + 60000 * d.min + 1000 * d.sec + d.usec
  }

  /** `MilliSecondOfTheDay()` as evidently intended: the milliseconds since
      midnight. */
  function MilliSecondOfTheDay(d: TDateTime): (r: int)
    ensures ClockValid(d) ==> r >= 0 && r % 1000 == d.msec && r / 1000 == 3600 * d.hour + 60 * d.min + d.sec
  {
    3600000 * d.hour + 60000 * d.min + 1000 * d.sec + d.msec
  }

  /** `CompareTime(lhs, rhs)` on a measure of the time of day. */
  function CompareBy(a: int, b: int): (r: TValueRelationship)
    ensures r == GreaterThanValue <==> a > b
    ensures r == LessThanValue <==> a < b
    ensures r == EqualsValue <==> a == b
  {
    if a > b then GreaterThanValue else if a < b then LessThanValue else EqualsValue
  }

  /** `CompareTime` as written: within one second the microseconds decide,
      whatever the milliseconds. */
  function CompareTimeAsWritten(lhs: TDateTime, rhs: TDateTime): (r: TValueRelationship)
    ensures lhs.hour == rhs.hour && lhs.min == rhs.min && lhs.sec == rhs.sec ==>
              (r == GreaterThanValue <==> lhs.usec > rhs.usec) && (r == EqualsValue <==> lhs.usec == rhs.usec)
  {
    CompareBy(MilliSecondOfTheDayAsWritten(lhs), MilliSecondOfTheDayAsWritten(rhs))
  }

  /** `CompareTime` as evidently intended: equal clocks compare equal, and
      on valid clocks the left time is greater exactly when it is later. */
  function CompareTime(lhs: TDateTime, rhs: TDateTime): (r: TValueRelationship)
    ensures SameClock(lhs, rhs) ==> r == EqualsValue
    ensures ClockValid(lhs) && ClockValid(rhs) ==> (r == GreaterThanValue <==> ClockLater(lhs, rhs))
  {
    CompareBy(MilliSecondOfTheDay(lhs), MilliSecondOfTheDay(rhs))
  }

  /** The clock fields in their ranges. */
  predicate ClockValid(d: TDateTime) {
    0 <= d.hour && 0 <= d.min <= 59 && 0 <= d.sec <= 59 && 0 <= d.msec <= 999
  }

  /** The time of day in lexicographic order of hour, minute, second and
      millisecond. */
  predicate ClockLater(a: TDateTime, b: TDateTime) {
    a.hour > b.hour
    || (a.hour == b.hour && a.min > b.min)
    || (a.hour == b.hour && a.min == b.min && a.sec > b.sec)
    || (a.hour == b.hour && a.min == b.min && a.sec == b.sec && a.msec > b.msec)
  }

  predicate SameClock(a: TDateTime, b: TDateTime) {
    a.hour == b.hour && a.min == b.min && a.sec == b.sec && a.msec == b.msec
  }

  /** A later time of day has more milliseconds since midnight. */
  lemma MilliSecondsOrder(a: TDateTime, b: TDateTime)
    requires ClockValid(a) && ClockValid(b) && ClockLater(a, b)
    ensures MilliSecondOfTheDay(a) > MilliSecondOfTheDay(b)
  {
  }

  /** `CompareTime` orders the time of day: greater exactly when the left
      time is later, equal exactly when the clocks agree. */
  lemma CompareTimeOrdersClock(a: TDateTime, b: TDateTime)
    requires ClockValid(a) && ClockValid(b)
    ensures CompareTime(a, b) == GreaterThanValue <==> ClockLater(a, b)
    ensures CompareTime(a, b) == LessThanValue <==> ClockLater(b, a)
    ensures CompareTime(a, b) == EqualsValue <==> SameClock(a, b)
  {
    if ClockLater(a, b) {
      MilliSecondsOrder(a, b);
    } else if ClockLater(b, a) {
      MilliSecondsOrder(b, a);
    }
  }

  /** As written, 00:00:00.001000 compares as earlier than 00:00:00.000005. */
  lemma CompareTimeAsWrittenMisorders()
    ensures var later := DateTimes.DateTime(2000, 1, 1, 0, 0, 0, 1, 0);
      var earlier := DateTimes.DateTime(2000, 1, 1, 0, 0, 0, 0, 5);
      ClockLater(later, earlier) && CompareTimeAsWritten(later, earlier) == LessThanValue
  {
  }
}
