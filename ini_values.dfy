/** The typed values of `Utility::Ini` (`include/utility/ini.hpp`,
    `src/utility/ini.cpp`): how `read_bool` and `read_int` interpret the text
    of a field, and the text `write_bool` and `write_int` store. The value
    handed to them is the trimmed, non-empty text `try_get_field` found. */
module IniValues {
  import opened Wrappers
  import opened Text

  // ------------------------------------------------------------- strtol

  /** A digit of `base` (8, 10 or 16) as `strtol` accepts it. */
  predicate IsBaseDigit(c: char, base: nat) {
    if base == 16 then IsDigit(c) || 'a' <= c <= 'f' || 'A' <= c <= 'F'
    else if base == 8 then '0' <= c <= '7'
    else IsDigit(c)
  }

  /** The end of the run of `base` digits that starts at `from`. */
  function DigitRunEnd(s: string, from: nat, base: nat): (e: nat)
    requires from <= |s|
    ensures from <= e <= |s|
    ensures forall k :: from <= k < e ==> IsBaseDigit(s[k], base)
    ensures e == |s| || !IsBaseDigit(s[e], base)
    decreases |s| - from
  {
    if from == |s| || !IsBaseDigit(s[from], base) then from else DigitRunEnd(s, from + 1, base)
  }

  /** Where `strtol(s, &endptr, base)` leaves `endptr`: past leading
      whitespace, an optional sign, for base 16 an optional `0x` or `0X`
      that a hexadecimal digit follows, and the digits after them; at the
      start of `s` when no digit was read. */
  function StrtolEnd(s: string, base: nat): (e: nat)
    ensures e <= |s|
  {
    var i := FirstNonSpace(s, 0, |s|);
    var j := if i < |s| && (s[i] == '+' || s[i] == '-') then i + 1 else i;
    var k := if base == 16 && j + 2 < |s| && s[j] == '0' && (s[j + 1] == 'x' || s[j + 1] == 'X')
                && IsBaseDigit(s[j + 2], 16) then j + 2 else j;
    var e := DigitRunEnd(s, k, base);
    if e == k then 0 else e
  }

  /** `is_convertable_to_long`: `strtol` in base 10, then 8, then 16, reads
      up to the terminating NUL. */
  function IsConvertibleToLong(s: string): bool {
    if StrtolEnd(s, 10) == |s| then true
    else if StrtolEnd(s, 8) == |s| then true
    else StrtolEnd(s, 16) == |s|
  }

  /** `strtol` reading nothing leaves `endptr` at the start, which is the
      terminating NUL only for the empty string. */
  lemma EmptyIsConvertible()
    ensures IsConvertibleToLong("")
  {
  }

  /** A non-empty text of an integer is read by `strtol` in base 10 to its
      end, so it is convertible. */
  lemma IntTextConvertible(i: int)
    ensures StrtolEnd(IntToString(i), 10) == |IntToString(i)|
    ensures IsConvertibleToLong(IntToString(i))
  {
    var s := IntToString(i);
    var j := if s[0] == '-' then 1 else 0;
    assert !IsSpace(s[0]);
    assert FirstNonSpace(s, 0, |s|) == 0;
    assert s[j..] == NatToString(if i < 0 then -i else i);
    assert forall k :: j <= k < |s| ==> IsDigit(s[k]);
    assert DigitRunEnd(s, j, 10) == |s|;
  }

  /** Text with a character that is no digit in any base and no sign is not
      convertible: `12xyz` (where `12abc` would be read as hexadecimal). */
  lemma TrailingLetterNotConvertible()
    ensures !IsConvertibleToLong("12xyz")
  {
    var s := "12xyz";
    assert FirstNonSpace(s, 0, |s|) == 0;
    assert DigitRunEnd(s, 0, 10) == 2;
    assert DigitRunEnd(s, 0, 8) == 2;
    assert DigitRunEnd(s, 0, 16) == 2;
  }

  /** `0x1A` is convertible, by base 16. */
  lemma HexConvertible()
    ensures IsConvertibleToLong("0x1A")
  {
    var s := "0x1A";
    assert FirstNonSpace(s, 0, |s|) == 0;
    assert DigitRunEnd(s, 2, 16) == 4;
  }

  // ----------------------------------------------------------- read_int

  const LongMin: int := -0x8000_0000_0000_0000
  const LongMax: int := 0x7FFF_FFFF_FFFF_FFFF
  const IntMin: int := -0x8000_0000
  const IntMax: int := 0x7FFF_FFFF

  /** The conversion of a `long` to a 32-bit `int`: the value congruent to
      `v` modulo 2^32 in the `int` range. */
  function ToInt32(v: int): (r: int)
    ensures IntMin <= r <= IntMax
    ensures (r - v) % 0x1_0000_0000 == 0
    ensures IntMin <= v <= IntMax ==> r == v
  {
    var m := v % 0x1_0000_0000;
    if m > IntMax then m - 0x1_0000_0000 else m
  }

  /** `read_int` on the text of a field: the default unless the text is
      convertible and `std::stol` reads a decimal value in the `long`
      range (it throws otherwise), which is then narrowed to `int`. */
  function ReadIntText(s: string, default: int): (r: int)
    ensures r == default || IntMin <= r <= IntMax
  {
    if !IsConvertibleToLong(s) then default
    else match LeadingInt(s)
      case None => default
      case Some(v) => if LongMin <= v <= LongMax then ToInt32(v) else default
  }

  /** `stol` reads a run of digits to its value. */
  lemma LeadingIntOfDigitRun(s: string)
    requires s != [] && AllDigits(s)
    ensures LeadingInt(s) == Some(DigitsValue(s))
  {
    DigitPrefixOf(s, []);
    assert s + [] == s;
    LeadingIntOfDigits(s, s);
  }

  /** `stol` reads a minus sign and a run of digits to the negated value. */
  lemma LeadingIntOfNegativeRun(s: string, d: string)
    requires d != [] && AllDigits(d) && s == "-" + d
    ensures LeadingInt(s) == Some(-(DigitsValue(d) as int))
  {
    DigitPrefixOf(d, []);
    assert d + [] == d;
    assert s[1..] == d;
    LeadingIntNegative(s, d);
  }

  /** `stol` reads the text of an integer back to it. */
  lemma LeadingIntOfIntText(i: int)
    ensures LeadingInt(IntToString(i)) == Some(i)
  {
    var n: nat := if i < 0 then -i else i;
    NatToStringValue(n);
    if i < 0 {
      LeadingIntOfNegativeRun(IntToString(i), NatToString(n));
    } else {
      LeadingIntOfDigitRun(NatToString(n));
    }
  }

  /** What `write_int` stores, `read_int` reads back. */
  lemma ReadIntOfWritten(i: int, default: int)
    requires IntMin <= i <= IntMax
    ensures ReadIntText(IntToString(i), default) == i
  {
    IntTextConvertible(i);
    LeadingIntOfIntText(i);
  }

  /** `read_int` reads `0x1A` as 0: the text passes the hexadecimal check,
      but `std::stol` reads it in base 10 and stops at the `x`. */
  lemma HexReadsLeadingZero(default: int)
    ensures ReadIntText("0x1A", default) == 0
  {
    var s := "0x1A";
    assert LeadingInt(s) == Some(0) by {
      assert DigitPrefix(s[1..]) == [] by { assert s[1..][0] == 'x'; }
      assert DigitPrefix(s) == "0";
      LeadingIntOfDigits(s, "0");
    }
    HexConvertible();
    ReadIntOfLeading(s, default, 0);
  }

  /** A convertible text that `stol` reads to a `long` value gives that
      value narrowed to `int`. */
  lemma ReadIntOfLeading(s: string, default: int, v: int)
    requires IsConvertibleToLong(s) && LeadingInt(s) == Some(v) && LongMin <= v <= LongMax
    ensures ReadIntText(s, default) == ToInt32(v)
  {
  }

  /** A run of decimal digits reads as its value narrowed to 32 bits when
      it fits a `long` (so `4294967297` reads as 1), and as the default
      when `stol` throws `out_of_range`. */
  lemma ReadDecimalRun(s: string, default: int)
    requires s != [] && AllDigits(s)
    ensures DigitsValue(s) <= LongMax ==> ReadIntText(s, default) == ToInt32(DigitsValue(s))
    ensures DigitsValue(s) > LongMax ==> ReadIntText(s, default) == default
  {
    DigitRunConvertible(s);
    LeadingIntOfDigitRun(s);
    if DigitsValue(s) <= LongMax {
      ReadIntOfLeading(s, default, DigitsValue(s));
    } else {
      ReadIntOutOfRange(s, default, DigitsValue(s));
    }
  }

  /** A run of decimal digits is read by `strtol` in base 10 to its end. */
  lemma DigitRunConvertible(s: string)
    requires s != [] && AllDigits(s)
    ensures IsConvertibleToLong(s)
  {
    assert FirstNonSpace(s, 0, |s|) == 0 by { assert !IsSpace(s[0]); }
    assert DigitRunEnd(s, 0, 10) == |s|;
  }

  /** A value outside the `long` range makes `stol` throw, which
      `read_int` turns into the default. */
  lemma ReadIntOutOfRange(s: string, default: int, v: int)
    requires IsConvertibleToLong(s) && LeadingInt(s) == Some(v) && !(LongMin <= v <= LongMax)
    ensures ReadIntText(s, default) == default
  {
  }

  // ---------------------------------------------------------- read_bool

  /** `read_bool` on the text of a field: `TRUE` or `FALSE` in any case,
      and the default for anything else. */
  function ReadBoolText(s: string, default: bool): (r: bool)
    ensures r != default ==> ToUpper(s) == "TRUE" || ToUpper(s) == "FALSE"
  {
    var u := ToUpper(s);
    if u == "TRUE" then true
    else if u == "FALSE" then false
    else default
  }

  /** `write_bool`'s text. */
  function BoolText(b: bool): (r: string)
    ensures |r| >= 4 && ToUpper(r) == if b then "TRUE" else "FALSE"
  {
    if b then "true" else "false"
  }

  /** What `write_bool` stores, `read_bool` reads back. */
  lemma ReadBoolOfWritten(b: bool, default: bool)
    ensures ReadBoolText(BoolText(b), default) == b
  {
  }

  /** Case does not matter to `read_bool`: `tRue` reads as true. */
  lemma ReadBoolIgnoresCase(default: bool)
    ensures ReadBoolText("tRue", default)
    ensures !ReadBoolText("FaLsE", default)
  {
    assert ToUpper("tRue") == "TRUE";
    assert ToUpper("FaLsE") == "FALSE";
  }
}
