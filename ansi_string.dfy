/** `AnsiString` of `include/builder_alternative/System.hpp`: a wrapper of
    `std::string` with 1-based positions. Assignment, `+=` and `Delete`
    change the text in place; the other members read it. */
module AnsiStrings {
  import opened Wrappers
  import opened Text
  import Core
  import IniValues

  /** `std::out_of_range` from `at`, `substr` and `erase`;
      `std::invalid_argument` from `stol`. */
  datatype StringError = OutOfRange | InvalidArgument

  /** How many characters `substr(pos, count)` and `erase(pos, count)`
      take: `count` converted to `size_t` (a negative one becomes huge), at
      most what is left after `pos`. */
  function Span(size: nat, pos: nat, count: int): (n: nat)
    requires pos <= size
    ensures n <= size - pos
    ensures 0 <= count <= size - pos ==> n == count
    ensures count < 0 || count > size - pos ==> n == size - pos
  {
    if count < 0 || count > size - pos then size - pos else count
  }

  /** `SubString(start, count)`, that is `substr(start - 1, count)`: the
      start must be a position of the text or one past its end. */
  function SubStringOf(s: string, start: int, count: int): (r: Result<string, StringError>)
    ensures r.Ok? <==> 1 <= start <= |s| + 1
    ensures r.Err? ==> r.error == OutOfRange
    ensures r.Ok? ==> (|r.value| == Span(|s|, start - 1, count)
      && r.value == s[start - 1..start - 1 + |r.value|])
  {
    if start < 1 || start - 1 > |s| then Err(OutOfRange)
    else Ok(s[start - 1..start - 1 + Span(|s|, start - 1, count)])
  }

  /** `Delete(start, length)`, that is `erase(start - 1, length)`. */
  function DeleteOf(s: string, start: int, length: int): (r: Result<string, StringError>)
    ensures r.Ok? <==> 1 <= start <= |s| + 1
    ensures r.Err? ==> r.error == OutOfRange
    ensures r.Ok? ==> (|r.value| == |s| - Span(|s|, start - 1, length)
      && r.value[..start - 1] == s[..start - 1])
  {
    if start < 1 || start - 1 > |s| then Err(OutOfRange)
    else Ok(s[..start - 1] + s[start - 1 + Span(|s|, start - 1, length)..])
  }

  /** `Delete(p, n)` removes exactly what `SubString(p, n)` returns: the
      text is the kept prefix, the substring and the kept suffix. */
  lemma DeleteRemovesSubString(s: string, start: int, count: int)
    requires 1 <= start <= |s| + 1
    ensures var sub := SubStringOf(s, start, count).value;
      var rest := DeleteOf(s, start, count).value;
      s == rest[..start - 1] + sub + rest[start - 1..]
  {
    var p := start - 1;
    var n := Span(|s|, p, count);
    assert s == s[..p] + s[p..p + n] + s[p + n..];
  }

  /** The text of `stol` narrowed to `int`, or the exception it throws. */
  function ToIntOf(s: string): (r: Result<int, StringError>)
    ensures r.Ok? ==> IniValues.IntMin <= r.value <= IniValues.IntMax
    ensures r.Err? <==> LeadingInt(s).None? || !(IniValues.LongMin <= LeadingInt(s).value <= IniValues.LongMax)
  {
    match LeadingInt(s)
    case None => Err(InvalidArgument)
    case Some(v) =>
      if IniValues.LongMin <= v <= IniValues.LongMax then Ok(IniValues.ToInt32(v)) else Err(OutOfRange)
  }

  /** `ToInt` reads the text of an `int` back to it. */
  lemma ToIntOfIntText(i: int)
    requires IniValues.IntMin <= i <= IniValues.IntMax
    ensures ToIntOf(IntToString(i)) == Ok(i)
  {
    IniValues.LeadingIntOfIntText(i);
  }

  /** `ToInt` of a text with no digit after the optional sign throws. */
  lemma ToIntOfWord()
    ensures ToIntOf("abc") == Err(InvalidArgument)
  {
    assert TrimLeft("abc") == "abc" by { assert !IsSpace('a'); }
  }

  /** The characters `AnsiPos` searches for. */
  function Chars(target: string): set<char> {
    set c | c in target
  }

  /** `AnsiPos(target)`: one plus the index of the first character of the
      text that is any character of `target`, or 0 when there is none. */
  function AnsiPosOf(s: string, target: string): (r: nat)
    ensures r <= |s|
    ensures r == 0 <==> forall k :: 0 <= k < |s| ==> s[k] !in target
    ensures r > 0 ==> s[r - 1] in target && forall k :: 0 <= k < r - 1 ==> s[k] !in target
  {
    match FindFirstOf(s, Chars(target), 0)
    case None => 0
    case Some(i) => i + 1
  }

  /** `AnsiPos` searches for characters, not for the target text: "lo" is
      found at the first "l" of "hello". */
  lemma AnsiPosIsCharacterSearch()
    ensures AnsiPosOf("hello", "lo") == 3
  {
    assert "hello"[2] == 'l';
    assert "hello"[0] !in "lo" && "hello"[1] !in "lo";
  }

  // --------------------------------------------------------- comparisons

  /** `operator==(AnsiString, AnsiString)` and its `std::string` and
      `const char *` variants: the texts are equal. */
  function Equals(lhs: string, rhs: string): (r: bool)
    ensures r <==> lhs == rhs
  {
    lhs == rhs
  }

  /** `operator==(AnsiString, char)` as written: the text is compared with
      `std::to_string(rhs)`, the decimal code of the character. The code is
      taken as non-negative, which a signed `char` gives for ASCII only. A
      text that compares equal is a run of digits, and for a character
      whose code is 10 or more it is never that character alone. */
  function EqualsCharAsWritten(lhs: string, rhs: char): (r: bool)
    ensures r ==> |lhs| >= 1 && AllDigits(lhs)
    ensures r && rhs as int >= 10 ==> lhs != [rhs]
  {
    lhs == NatToString(rhs as int)
  }

  /** `operator==(char, AnsiString)`: the character becomes a one-character
      text, which is compared. */
  function CharEquals(lhs: char, rhs: string): (r: bool)
    ensures r <==> |rhs| == 1 && rhs[0] == lhs
  {
    [lhs] == rhs
  }

  /** `operator==(AnsiString, char)` as evidently intended: the same test
      as with the operands swapped. */
  function EqualsChar(lhs: string, rhs: char): (r: bool)
    ensures r == CharEquals(rhs, lhs)
  {
    lhs == [rhs]
  }

  /** As written the comparison is not symmetric: `AnsiString("a") == 'a'`
      is false while `'a' == AnsiString("a")` is true, and
      `AnsiString("97") == 'a'` is true. */
  lemma CharComparisonAsymmetric()
    ensures !EqualsCharAsWritten("a", 'a') && CharEquals('a', "a")
    ensures EqualsCharAsWritten("97", 'a')
  {
    assert NatToString(97) == "97" by {
      assert NatToString(9) == "9" && NatToString(7) == "7";
    }
  }

  /** `operator!=` in each variant: the negation of `==`. */
  function NotEquals(lhs: string, rhs: string): (r: bool)
    ensures r <==> !Equals(lhs, rhs)
  {
    !(lhs == rhs)
  }

  // ------------------------------------------------------------- letters

  /** `LowerCase()` as written: each character through `toupper`. */
  function LowerCaseAsWritten(s: string): (r: string)
    ensures |r| == |s| && forall i :: 0 <= i < |r| ==> !('a' <= r[i] <= 'z')
  {
    ToUpper(s)
  }

  /** As written `LowerCase` is `UpperCase`: "a" becomes "A". */
  lemma LowerCaseAsWrittenUppercases(s: string)
    ensures LowerCaseAsWritten(s) == ToUpper(s)
    ensures LowerCaseAsWritten("a") == "A"
  {
  }

  /** No ASCII capital letter. */
  predicate NoCapitals(s: string) {
    forall i :: 0 <= i < |s| ==> !('A' <= s[i] <= 'Z')
  }

  // -------------------------------------------------------------- the class

  class AnsiString {
    var str: string

    /** `AnsiString(str)` from a `std::string` or a C string. */
    constructor (s: string)
      ensures str == s
    {
      str := s;
    }

    /** `AnsiString(c)`: the one-character text. */
    constructor FromChar(c: char)
      ensures str == [c]
    {
      str := [c];
    }

    /** `operator=` in each variant: the text is replaced. */
    method Assign(s: string)
      modifies this
      ensures str == s
    {
      str := s;
    }

    /** `operator+=` in each variant: the text is appended. */
    method Append(s: string)
      modifies this
      ensures str == old(str) + s
    {
      str := str + s;
    }

    /** `operator[](idx)`, that is `at(idx - 1)`. */
    function At(idx: int): (r: Result<char, StringError>)
      reads this
      ensures r.Ok? <==> 1 <= idx <= |str|
      ensures r.Ok? ==> r.value == str[idx - 1] && SubStringOf(str, idx, 1) == Ok([r.value])
    {
      if 1 <= idx <= |str| then
        assert str[idx - 1..idx] == [str[idx - 1]];
        Ok(str[idx - 1])
      else Err(OutOfRange)
    }

    /** `UpperCase()`: each character through `toupper`. */
    function UpperCase(): (r: string)
      reads this
      ensures |r| == |str| && NoSmallLetters(r)
      ensures forall i :: 0 <= i < |str| && !('a' <= str[i] <= 'z') ==> r[i] == str[i]
    {
      ToUpper(str)
    }

    /** `LowerCase()` as evidently intended: each character through
        `tolower`. */
    function LowerCase(): (r: string)
      reads this
      ensures |r| == |str| && NoCapitals(r)
      ensures forall i :: 0 <= i < |str| && !('A' <= str[i] <= 'Z') ==> r[i] == str[i]
    {
      ToLower(str)
    }

    /** `ToInt()`: `stol` of the text, narrowed to `int`. */
    function ToInt(): (r: Result<int, StringError>)
      reads this
      ensures r == ToIntOf(str)
    {
      ToIntOf(str)
    }

    /** `Length()`. */
    function Length(): (n: nat)
      reads this
      ensures n == |str|
    {
      |str|
    }

    /** `IsEmpty()`. */
    function IsEmpty(): (b: bool)
      reads this
      ensures b <==> Length() == 0
    {
      str == []
    }

    /** `Delete(start, length)`: on `out_of_range` the text is kept. */
    method Delete(start: int, length: int) returns (r: Result<(), StringError>)
      modifies this
      ensures r.Ok? <==> DeleteOf(old(str), start, length).Ok?
      ensures str == if r.Ok? then DeleteOf(old(str), start, length).value else old(str)
    {
      if start < 1 || start - 1 > |str| {
        return Err(OutOfRange);
      }
      var pos := start - 1;
      var n := Span(|str|, pos, length);
      str := str[..pos] + str[pos + n..];
      r := Ok(());
    }

    /** `TrimLeft()`: the text from its first non-blank character, or "". */
    function TrimLeft(): (r: string)
      reads this
      ensures |r| <= |str| && r == str[|str| - |r|..] && AllSpace(str[..|str| - |r|])
      ensures r == [] || !IsSpace(r[0])
    {
      Text.TrimLeft(str)
    }

    /** `TrimRight()`: the text up to its last non-blank character, or "". */
    function TrimRight(): (r: string)
      reads this
      ensures |r| <= |str| && r == str[..|r|] && AllSpace(str[|r|..])
      ensures r == [] || !IsSpace(r[|r| - 1])
    {
      Text.TrimRight(str)
    }

    /** `Trim()`: `TrimLeft` then `TrimRight`, which is the trim of the INI
        readers. */
    function Trim(): (r: string)
      reads this
      ensures r == Text.Trim(str)
    {
      TrimLeftThenRight(str);
      Text.TrimRight(Text.TrimLeft(str))
    }

    /** `SubString(start, count)`. */
    function SubString(start: int, count: int): (r: Result<string, StringError>)
      reads this
      ensures r == SubStringOf(str, start, count)
    {
      SubStringOf(str, start, count)
    }

    /** `SplitString(separator)`: "" gives no piece, an empty separator the
        whole text, and otherwise the pieces between the separators, found
        left to right. */
    method SplitString(separator: string) returns (result: seq<string>)
      ensures result == Core.SplitSpec(str, separator)
    {
      result := Core.Split(str, separator);
    }

    /** `AnsiPos(target)` and `Pos(target)`. */
    function AnsiPos(target: string): (r: nat)
      reads this
      ensures r == AnsiPosOf(str, target)
    {
      AnsiPosOf(str, target)
    }
  }

  /** No ASCII small letter. */
  predicate NoSmallLetters(s: string) {
    forall i :: 0 <= i < |s| ==> !('a' <= s[i] <= 'z')
  }

  /** Lowering then raising the case is raising it. */
  lemma UpperOfLower(s: string)
    ensures ToUpper(ToLower(s)) == ToUpper(s)
  {
  }

  /** Trimming the left end first and the right end second is `Trim`. */
  lemma TrimLeftThenRight(s: string)
    ensures Text.TrimRight(Text.TrimLeft(s)) == Text.Trim(s)
  {
    var b := FirstNonSpace(s, 0, |s|);
    var t := s[b..];
    var e := LastNonSpaceEnd(s, |s|);
    if b == |s| {
      assert AllSpace(s);
      TrimAllSpace(s);
    } else {
      assert LastNonSpaceEnd(t, |t|) == e - b by {
        LastNonSpaceEndShift(s, b, |s|);
      }
      assert FirstNonSpace(s, 0, e) == b;
      assert t[..e - b] == s[b..e];
    }
  }

  /** The trailing blanks of a suffix are those of the whole text. */
  lemma {:induction false} LastNonSpaceEndShift(s: string, b: nat, end: nat)
    requires b <= end <= |s| && b < |s| && !IsSpace(s[b])
    requires end > b
    ensures LastNonSpaceEnd(s[b..], end - b) == LastNonSpaceEnd(s, end) - b
    ensures LastNonSpaceEnd(s, end) > b
    decreases end
  {
    if !IsSpace(s[end - 1]) {
    } else {
      assert end - 1 > b;
      LastNonSpaceEndShift(s, b, end - 1);
    }
  }

  /** `SplitString` undoes a join: the pieces of a non-empty text joined
      with the separator give the text back. */
  lemma SplitStringJoins(s: string, separator: string)
    requires s != []
    ensures Join(Core.SplitSpec(s, separator), separator) == s
  {
    if separator != [] {
      Core.JoinPieces(s, separator);
    }
  }
}
