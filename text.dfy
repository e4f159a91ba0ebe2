/** String helpers shared by every component: the C library's notion of
    whitespace, `std::string::find`, `std::to_string` for integers, the
    base-10 prefix that `std::stol` reads, and ASCII upper-casing. */
module Text {
  import opened Wrappers

  // ---------------------------------------------------------------- whitespace

  /** `isspace` in the "C" locale: space, \t, \n, \v, \f, \r. */
  predicate IsSpace(c: char) {
    c == ' ' || c == '\t' || c == '\n' || c == '\r' || c == '\U{000B}' || c == '\U{000C}'
  }

  predicate AllSpace(s: string) {
    forall i :: 0 <= i < |s| ==> IsSpace(s[i])
  }

  /** `find_first_not_of` whitespace in `s[from..end]`: the first non-blank
      index there, or `end` when there is none. */
  function FirstNonSpace(s: string, from: nat, end: nat): (b: nat)
    requires from <= end <= |s|
    decreases end - from
    ensures from <= b <= end
    ensures forall k :: from <= k < b ==> IsSpace(s[k])
    ensures b == end || !IsSpace(s[b])
  {
    if from == end || !IsSpace(s[from]) then from else FirstNonSpace(s, from + 1, end)
  }

  /** One past `find_last_not_of` whitespace in `s[..end]`, or 0 when that
      prefix is all blank. */
  function LastNonSpaceEnd(s: string, end: nat): (e: nat)
    requires end <= |s|
    decreases end
    ensures e <= end
    ensures forall k :: e <= k < end ==> IsSpace(s[k])
    ensures e == 0 || !IsSpace(s[e - 1])
  {
    if end == 0 || !IsSpace(s[end - 1]) then end else LastNonSpaceEnd(s, end - 1)
  }

  /** Drops the leading whitespace. */
  function TrimLeft(s: string): (r: string)
    ensures |r| <= |s| && r == s[|s| - |r|..]
    ensures AllSpace(s[..|s| - |r|])
    ensures r == [] || !IsSpace(r[0])
  {
    s[FirstNonSpace(s, 0, |s|)..]
  }

  /** Drops the trailing whitespace. */
  function TrimRight(s: string): (r: string)
    ensures |r| <= |s| && r == s[..|r|]
    ensures AllSpace(s[|r|..])
    ensures r == [] || !IsSpace(r[|r| - 1])
  {
    s[..LastNonSpaceEnd(s, |s|)]
  }

  /** Whitespace removed from both ends, as the `trim` helpers of the INI
      readers do it: cut after the last non-blank character (or clear the
      string when there is none), then drop the leading blanks. */
  function Trim(s: string): (r: string)
    ensures |r| <= |s|
  {
    var e := LastNonSpaceEnd(s, |s|);
    s[FirstNonSpace(s, 0, e)..e]
  }

  /** The two-step description of `Trim`. */
  lemma TrimBothEnds(s: string)
    ensures Trim(s) == TrimLeft(TrimRight(s))
  {
    var e := LastNonSpaceEnd(s, |s|);
    var m := s[..e];
    var b := FirstNonSpace(s, 0, e);
    assert FirstNonSpace(m, 0, |m|) == b;
  }

  /** Trim keeps a contiguous slice and removes only whitespace; what it keeps
      starts and ends with a non-blank character. */
  lemma TrimIsSlice(s: string)
    ensures exists i, j :: (0 <= i <= j <= |s| && Trim(s) == s[i..j]
                            && AllSpace(s[..i]) && AllSpace(s[j..]))
    ensures Trim(s) == [] || (!IsSpace(Trim(s)[0]) && !IsSpace(Trim(s)[|Trim(s)| - 1]))
  {
    var e := LastNonSpaceEnd(s, |s|);
    var b := FirstNonSpace(s, 0, e);
    assert AllSpace(s[..b]) by {
      forall k | 0 <= k < b ensures IsSpace(s[..b][k]) {
        assert s[..b][k] == s[k];
      }
    }
    assert AllSpace(s[e..]) by {
      forall k | 0 <= k < |s| - e ensures IsSpace(s[e..][k]) {
        assert s[e..][k] == s[e + k];
      }
    }
    if b < e {
      assert Trim(s)[0] == s[b];
      assert Trim(s)[|Trim(s)| - 1] == s[e - 1];
    }
  }

  /** Trimming adds no character: what is absent from `s` is absent from
      its trimmed form. */
  lemma TrimFree(s: string, c: char)
    requires c !in s
    ensures c !in Trim(s)
  {
    var e := LastNonSpaceEnd(s, |s|);
    var b := FirstNonSpace(s, 0, e);
    forall k | 0 <= k < |Trim(s)| ensures Trim(s)[k] != c {
      assert Trim(s)[k] == s[b + k];
    }
  }

  /** Trimming twice is trimming once. */
  lemma TrimIdempotent(s: string)
    ensures Trim(Trim(s)) == Trim(s)
  {
    TrimIsSlice(s);
    TrimNoOp(Trim(s));
  }

  /** A string of whitespace only trims to the empty string. */
  lemma TrimAllSpace(s: string)
    requires AllSpace(s)
    ensures Trim(s) == []
  {
  }

  /** A string with non-blank ends is its own trim. */
  lemma TrimNoOp(s: string)
    requires s == [] || (!IsSpace(s[0]) && !IsSpace(s[|s| - 1]))
    ensures Trim(s) == s
  {
  }

  // -------------------------------------------------------------- searching

  /** `pat` occurs in `s` starting at index `i`. */
  predicate OccursAt(s: string, pat: string, i: nat) {
    i + |pat| <= |s| && s[i..i + |pat|] == pat
  }

  /** `s.find(pat, from)`: the first occurrence at or after `from`, `None`
      standing for `npos`. */
  function FindFrom(s: string, pat: string, from: nat): (r: Option<nat>)
    decreases |s| - from
    ensures r.Some? ==> from <= r.value && OccursAt(s, pat, r.value)
    ensures forall k :: from <= k && (r.None? || k < r.value) ==> !OccursAt(s, pat, k)
  {
    if from + |pat| > |s| then None
    else if s[from..from + |pat|] == pat then Some(from)
    else FindFrom(s, pat, from + 1)
  }

  /** `s.find_first_of(chars, from)` (also `find` with a single character). */
  function FindFirstOf(s: string, chars: set<char>, from: nat): (r: Option<nat>)
    decreases |s| - from
    ensures r.Some? ==> from <= r.value < |s| && s[r.value] in chars
    ensures forall k :: from <= k < |s| && (r.None? || k < r.value) ==> s[k] !in chars
  {
    if from >= |s| then None
    else if s[from] in chars then Some(from)
    else FindFirstOf(s, chars, from + 1)
  }

  /** Searching for a one-character string is searching for the character. */
  lemma {:induction false} FindFromChar(s: string, c: char, from: nat)
    ensures FindFrom(s, [c], from) == FindFirstOf(s, {c}, from)
    decreases |s| - from
  {
    if from + 1 <= |s| {
      assert s[from..from + 1] == [s[from]];
      if s[from] != c {
        FindFromChar(s, c, from + 1);
      }
    }
  }

  /** `s.find(pat) == 0` exactly when `s` starts with `pat`. */
  lemma FindAtStart(s: string, pat: string)
    ensures FindFrom(s, pat, 0) == Some(0) <==> pat <= s
  {
    if |pat| <= |s| && s[..|pat|] != pat {
      assert !OccursAt(s, pat, 0);
    }
  }

  /** A pattern is not found where the string never holds its first
      character. */
  lemma FindFromAbsent(s: string, pat: string, from: nat)
    requires |pat| > 0
    requires forall i :: from <= i < |s| ==> s[i] != pat[0]
    ensures FindFrom(s, pat, from).None?
  {
    forall k: nat | from <= k && k + |pat| <= |s|
      ensures !OccursAt(s, pat, k)
    {
      assert s[k..k + |pat|][0] == s[k] != pat[0];
    }
  }

  /** A match found in a suffix is found at the same place in the whole
      string, shifted by the prefix length. */
  lemma FindFromShift(a: string, b: string, s: string, pat: string, k: nat, at: nat)
    requires s == a + b && at == |a| + k
    ensures FindFrom(s, pat, at) ==
      (match FindFrom(b, pat, k) case None => None case Some(i) => Some(|a| + i))
  {
    forall i: nat
      ensures OccursAt(s, pat, |a| + i) <==> OccursAt(b, pat, i)
    {
      if i + |pat| <= |b| {
        assert s[|a| + i..|a| + i + |pat|] == b[i..i + |pat|];
      }
    }
    var whole := FindFrom(s, pat, at);
    if whole.Some? {
      assert OccursAt(b, pat, whole.value - |a|);
    }
  }

  /** Occurrences that start at or after `from` are unaffected by what the
      string holds before `from`. */
  lemma {:induction false} FindFromSuffix(s: string, pat: string, from: nat)
    requires from <= |s|
    ensures FindFrom(s, pat, from) ==
      (match FindFrom(s[from..], pat, 0) case None => None case Some(i) => Some(from + i))
  {
    assert s == s[..from] + s[from..];
    FindFromShift(s[..from], s[from..], s, pat, 0, from);
  }

  // ------------------------------------------------------------- sequences

  lemma AppendAssoc<T>(a: seq<T>, b: seq<T>, c: seq<T>)
    ensures (a + b) + c == a + (b + c)
  {
  }

  function Repeat(c: char, n: nat): (r: string)
    ensures |r| == n && forall i :: 0 <= i < n ==> r[i] == c
  {
    seq(n, _ => c)
  }

  /** One more copy in front is one more copy. */
  lemma RepeatPrepend(c: char, n: nat)
    ensures [c] + Repeat(c, n) == Repeat(c, n + 1)
  {
    assert forall i :: 0 <= i < n + 1 ==> ([c] + Repeat(c, n))[i] == c;
  }

  /** `s` preceded by as many '0' as it lacks to be `width` long; never
      truncated. */
  function ZeroPad(s: string, width: int): (r: string)
    ensures |r| == if width > |s| then width else |s|
    ensures r[|r| - |s|..] == s
    ensures forall i :: 0 <= i < |r| - |s| ==> r[i] == '0'
  {
    Repeat('0', if width > |s| then width - |s| else 0) + s
  }

  /** The parts separated by `sep`: "" for none, the part itself for one. */
  function Join(parts: seq<string>, sep: string): string {
    if |parts| == 0 then ""
    else if |parts| == 1 then parts[0]
    else parts[0] + sep + Join(parts[1..], sep)
  }

  /** A first part followed by at least one more is joined by one separator
      to the join of the others. */
  lemma JoinCons(head: string, tail: seq<string>, sep: string)
    requires |tail| >= 1
    ensures Join([head] + tail, sep) == head + sep + Join(tail, sep)
  {
    assert ([head] + tail)[1..] == tail;
  }

  lemma {:induction false} JoinAppend(parts: seq<string>, last: string, sep: string)
    requires |parts| > 0
    ensures Join(parts + [last], sep) == Join(parts, sep) + sep + last
  {
    if |parts| == 1 {
      assert parts + [last] == [parts[0], last];
      assert ([parts[0], last])[1..] == [last];
    } else {
      assert (parts + [last])[1..] == parts[1..] + [last];
      JoinAppend(parts[1..], last, sep);
    }
  }

  /** A join holding a non-empty part is not empty. */
  lemma {:induction false} JoinMember(parts: seq<string>, sep: string, i: nat)
    requires i < |parts| && parts[i] != []
    ensures Join(parts, sep) != []
  {
    if |parts| > 1 && i > 0 {
      JoinMember(parts[1..], sep, i - 1);
    }
  }

  // ------------------------------------------------------- integers as text

  predicate IsDigit(c: char) {
    '0' <= c <= '9'
  }

  predicate AllDigits(s: string) {
    forall i :: 0 <= i < |s| ==> IsDigit(s[i])
  }

  function DigitChar(d: nat): (c: char)
    requires d < 10
    ensures IsDigit(c)
  {
    ('0' as int + d) as char
  }

  function DigitValue(c: char): nat
    requires IsDigit(c)
  {
    c as int - '0' as int
  }

  /** The number a run of decimal digits denotes (leading zeros allowed). */
  function DigitsValue(s: string): nat
    requires AllDigits(s)
  {
    if s == [] then 0 else 10 * DigitsValue(s[..|s| - 1]) + DigitValue(s[|s| - 1])
  }

  /** `std::to_string` of a non-negative integer. */
  function NatToString(n: nat): (r: string)
    ensures |r| >= 1 && AllDigits(r)
  {
    if n < 10 then [DigitChar(n)] else NatToString(n / 10) + [DigitChar(n % 10)]
  }

  /** `std::to_string` of an integer: a minus sign in front of a negative one. */
  function IntToString(i: int): (r: string)
    ensures |r| >= 1
  {
    if i < 0 then "-" + NatToString(-i) else NatToString(i)
  }

  /** The digits of `NatToString(n)` spell `n` back, with no leading zero. */
  lemma {:induction false} NatToStringValue(n: nat)
    ensures DigitsValue(NatToString(n)) == n
    ensures NatToString(n)[0] != '0' || n == 0
  {
    var r := NatToString(n);
    if n >= 10 {
      NatToStringValue(n / 10);
      assert r[..|r| - 1] == NatToString(n / 10);
    }
  }

  /** Different numbers have different `to_string` texts. */
  lemma NatToStringInjective(m: nat, n: nat)
    requires NatToString(m) == NatToString(n)
    ensures m == n
  {
    NatToStringValue(m);
    NatToStringValue(n);
  }

  /** The length of `to_string(n)`: one digit below 10, two below 100, ... */
  lemma {:induction false} NatToStringLength(n: nat, k: nat)
    requires k >= 1
    ensures |NatToString(n)| <= k <==> n < Pow10(k)
  {
    if n >= 10 {
      if k == 1 {
        assert |NatToString(n)| >= 2 by { NatToStringLength(n / 10, 1); }
      } else {
        NatToStringLength(n / 10, k - 1);
      }
    }
  }

  function Pow10(k: nat): (p: nat)
    ensures p >= 1
  {
    if k == 0 then 1 else 10 * Pow10(k - 1)
  }

  /** Leading zeros do not change the value of a digit run. */
  lemma {:induction false} DigitsValueZeros(k: nat, s: string)
    requires AllDigits(s)
    ensures AllDigits(Repeat('0', k) + s)
    ensures DigitsValue(Repeat('0', k) + s) == DigitsValue(s)
    decreases |s|
  {
    var t := Repeat('0', k) + s;
    if s == [] {
      assert t == Repeat('0', k);
      AllZerosValue(k);
    } else {
      assert t[..|t| - 1] == Repeat('0', k) + s[..|s| - 1];
      DigitsValueZeros(k, s[..|s| - 1]);
    }
  }

  lemma {:induction false} AllZerosValue(k: nat)
    ensures DigitsValue(Repeat('0', k)) == 0
  {
    if k > 0 {
      assert Repeat('0', k)[..k - 1] == Repeat('0', k - 1);
      AllZerosValue(k - 1);
    }
  }

  // ------------------------------------------------------ reading integers

  /** The longest run of digits `s` starts with. */
  function DigitPrefix(s: string): (r: string)
    ensures r <= s && AllDigits(r)
    ensures |r| == |s| || !IsDigit(s[|r|])
  {
    if s != [] && IsDigit(s[0]) then [s[0]] + DigitPrefix(s[1..]) else []
  }

  /** What `std::stol(s)` (base 10) returns: leading whitespace skipped, an
      optional sign, then at least one digit; the rest of the string is
      ignored. `None` stands for the `std::invalid_argument` it throws when
      no digit follows. The range check of `stol` is left to the callers. */
  function LeadingInt(s: string): Option<int> {
    var t := TrimLeft(s);
    var negative := t != [] && t[0] == '-';
    var body := if t != [] && (t[0] == '-' || t[0] == '+') then t[1..] else t;
    var d := DigitPrefix(body);
    if d == [] then None
    else if negative then Some(-(DigitsValue(d) as int))
    else Some(DigitsValue(d))
  }

  /** `stol` reads a digit run followed by a non-digit as the run's value. */
  lemma {:induction false} DigitPrefixOf(d: string, rest: string)
    requires AllDigits(d)
    requires rest == [] || !IsDigit(rest[0])
    ensures DigitPrefix(d + rest) == d
    decreases |d|
  {
    var s := d + rest;
    if d == [] {
      assert s == rest;
    } else {
      assert s[0] == d[0] && IsDigit(s[0]);
      assert s[1..] == d[1..] + rest;
      DigitPrefixOf(d[1..], rest);
      assert DigitPrefix(s) == [s[0]] + DigitPrefix(s[1..]);
      assert [d[0]] + d[1..] == d;
    }
  }

  /** `stol` reads back a number padded by `ZeroPad`, whatever non-digit
      follows it. */
  lemma ZeroPadReadsBack(n: nat, width: int, rest: string)
    requires rest == [] || !IsDigit(rest[0])
    ensures LeadingInt(ZeroPad(NatToString(n), width) + rest) == Some(n)
  {
    var text := NatToString(n);
    var k := if width > |text| then width - |text| else 0;
    var d := ZeroPad(text, width);
    assert d == Repeat('0', k) + text;
    var s := d + rest;
    DigitsValueZeros(k, text);
    NatToStringValue(n);
    assert AllDigits(d);
    assert s[0] == d[0];
    DigitPrefixOf(d, rest);
    LeadingIntOfDigits(s, d);
  }

  /** A string that starts with a digit is read as its leading digit run. */
  lemma LeadingIntOfDigits(s: string, d: string)
    requires s != [] && IsDigit(s[0]) && DigitPrefix(s) == d
    ensures d != [] && LeadingInt(s) == Some(DigitsValue(d))
  {
    DigitPrefixOfDigit(s);
    LeadingIntUnsigned(s, d);
  }

  /** A minus sign in front negates the digit run after it. */
  lemma LeadingIntNegative(s: string, d: string)
    requires s != [] && s[0] == '-'
    requires DigitPrefix(s[1..]) == d && d != []
    ensures LeadingInt(s) == Some(-(DigitsValue(d) as int))
  {
    TrimLeftOfNonSpace(s);
  }

  /** With no blank and no sign in front, `stol` reads the digit run. */
  lemma LeadingIntUnsigned(s: string, d: string)
    requires s != [] && !IsSpace(s[0]) && s[0] != '-' && s[0] != '+'
    requires DigitPrefix(s) == d && d != []
    ensures LeadingInt(s) == Some(DigitsValue(d))
  {
    TrimLeftOfNonSpace(s);
  }

  lemma TrimLeftOfNonSpace(s: string)
    requires s != [] && !IsSpace(s[0])
    ensures TrimLeft(s) == s
  {
    assert FirstNonSpace(s, 0, |s|) == 0;
  }

  lemma DigitPrefixOfDigit(s: string)
    requires s != [] && IsDigit(s[0])
    ensures DigitPrefix(s) != [] && s[0] != '-' && s[0] != '+' && !IsSpace(s[0])
  {
  }

  // ----------------------------------------------------------- upper case

  /** `toupper` in the "C" locale. */
  function ToUpperChar(c: char): char {
    if 'a' <= c <= 'z' then (c as int - 32) as char else c
  }

  function ToUpper(s: string): (r: string)
    ensures |r| == |s| && forall i :: 0 <= i < |s| ==> r[i] == ToUpperChar(s[i])
  {
    seq(|s|, i requires 0 <= i < |s| => ToUpperChar(s[i]))
  }

  /** `tolower` in the "C" locale. */
  function ToLowerChar(c: char): char {
    if 'A' <= c <= 'Z' then (c as int + 32) as char else c
  }

  function ToLower(s: string): (r: string)
    ensures |r| == |s| && forall i :: 0 <= i < |s| ==> r[i] == ToLowerChar(s[i])
  {
    seq(|s|, i requires 0 <= i < |s| => ToLowerChar(s[i]))
  }
}
