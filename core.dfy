/** The string, sequence and integer helpers of `Utility` (core.hpp): `split`,
    `concat`, `zero_fill`, both `limit` overloads, `range(end)` and
    `is_exist`. Templates are modelled at the instance the callers use:
    integers for `limit` and `concat`, any type with equality for
    `is_exist`. */
module Core {
  import opened Wrappers
  import opened Text

  // ----------------------------------------------------------------- limit

  /** `limit(value, lower_limit, upper_limit)`:
      `std::max(std::min(value, upper_limit), lower_limit)`. */
  function Limit(value: int, lower: int, upper: int): (r: int)
    ensures lower <= upper ==> lower <= r <= upper
    ensures lower <= value <= upper ==> r == value
    ensures value < lower ==> r == lower
    ensures value > upper ==> r == if upper < lower then lower else upper
  {
    var clipped := if value < upper then value else upper;
    if clipped < lower then lower else clipped
  }

  /** `limit(value, limit)`: `std::max(std::min(value, limit), -limit)`. */
  function LimitSymmetric(value: int, bound: int): (r: int)
    ensures bound >= 0 ==> -bound <= r <= bound
    ensures -bound <= value <= bound ==> r == value
  {
    var clipped := if value < bound then value else bound;
    if clipped < -bound then -bound else clipped
  }

  /** The two-argument `limit` is the three-argument one on [-limit, limit]. */
  lemma LimitSymmetricIsLimit(value: int, bound: int)
    ensures LimitSymmetric(value, bound) == Limit(value, -bound, bound)
  {
  }

  /** Clamping a clamped value again changes nothing. */
  lemma LimitIdempotent(value: int, lower: int, upper: int)
    requires lower <= upper
    ensures Limit(Limit(value, lower, upper), lower, upper) == Limit(value, lower, upper)
  {
  }

  // ------------------------------------------------------------- zero_fill

  /** `zero_fill(number, digits)`: `std::to_string(number)` preceded by as
      many '0' as it lacks to be `digits` long; never truncated. A negative
      number gets its zeros in front of the minus sign. */
  function ZeroFill(number: int, digits: int): (r: string)
    ensures |r| >= digits && |r| >= |IntToString(number)|
    ensures r[|r| - |IntToString(number)|..] == IntToString(number)
    ensures forall i :: 0 <= i < |r| - |IntToString(number)| ==> r[i] == '0'
  {
    ZeroPad(IntToString(number), digits)
  }

  /** `std::stol` reads a zero-filled non-negative number back. */
  lemma ZeroFillReadsBack(number: nat, digits: int)
    ensures LeadingInt(ZeroFill(number, digits)) == Some(number)
  {
    ZeroPadReadsBack(number, digits, []);
    assert ZeroFill(number, digits) + [] == ZeroFill(number, digits);
  }

  // ----------------------------------------------------------------- range

  /** `range(end)`: the integers 0, 1, ..., end - 1. A negative `end` would
      make `std::vector` throw inside a `noexcept` function, which
      terminates the program, so it is excluded. */
  method Range(end: int) returns (r: seq<int>)
    requires end >= 0
    ensures |r| == end && forall i :: 0 <= i < end ==> r[i] == i
  {
    r := [];
    var i := 0;
    while i < end
      invariant 0 <= i <= end
      invariant |r| == i && forall j :: 0 <= j < i ==> r[j] == j
    {
      r := r + [i];
      i := i + 1;
    }
  }

  // -------------------------------------------------------------- is_exist

  /** `std::find(list.begin(), list.end(), val)`: the first index holding
      `val`, or `|list|` for `end()`. */
  function Find<T(==)>(list: seq<T>, val: T): (r: nat)
    ensures r <= |list|
    ensures r < |list| ==> list[r] == val
    ensures forall i :: 0 <= i < r ==> list[i] != val
  {
    if list == [] then 0
    else if list[0] == val then 0
    else 1 + Find(list[1..], val)
  }

  /** `is_exist(val, list)`. */
  function IsExist<T(==)>(val: T, list: seq<T>): (r: bool)
    ensures r <==> val in list
  {
    Find(list, val) != |list|
  }

  // ---------------------------------------------------------------- concat

  /** The `std::to_string` of each element. */
  function Texts(origin: seq<int>): (r: seq<string>)
    ensures |r| == |origin| && forall i :: 0 <= i < |origin| ==> r[i] == IntToString(origin[i])
  {
    seq(|origin|, i requires 0 <= i < |origin| => IntToString(origin[i]))
  }

  /** Each part followed by the separator: what `concat` has built before
      it pops the last separator. */
  function Terminated(parts: seq<string>, sep: string): (r: string)
  {
    if parts == [] then "" else Terminated(parts[..|parts| - 1], sep) + parts[|parts| - 1] + sep
  }

  /** For at least one part, that is the join followed by one separator. */
  lemma {:induction false} TerminatedIsJoin(parts: seq<string>, sep: string)
    requires |parts| >= 1
    ensures Terminated(parts, sep) == Join(parts, sep) + sep
    decreases |parts|
  {
    var init := parts[..|parts| - 1];
    var last := parts[|parts| - 1];
    if |parts| == 1 {
      assert init == [];
    } else {
      TerminatedIsJoin(init, sep);
      JoinAppend(init, last, sep);
      assert init + [last] == parts;
    }
  }

  /** `concat(origin, separator)`: every element's text followed by the
      separator, then the last `|separator|` characters popped. Popping from
      the empty string is undefined, so an empty list needs an empty
      separator. */
  method Concat(origin: seq<int>, separator: string) returns (result: string)
    requires |origin| > 0 || separator == []
    ensures result == Join(Texts(origin), separator)
  {
    result := "";
    var i := 0;
    while i < |origin|
      invariant 0 <= i <= |origin|
      invariant result == Terminated(Texts(origin[..i]), separator)
    {
      TerminatedStep(origin, i, separator);
      result := result + IntToString(origin[i]) + separator;
      i := i + 1;
    }
    assert origin[..|origin|] == origin;
    if origin != [] {
      TerminatedIsJoin(Texts(origin), separator);
      assert result[..|result| - |separator|] == Join(Texts(origin), separator);
    }
    result := PopBack(result, |separator|);
  }

  /** One more element adds its text and a separator. */
  lemma TerminatedStep(origin: seq<int>, i: nat, sep: string)
    requires i < |origin|
    ensures Terminated(Texts(origin[..i + 1]), sep)
            == Terminated(Texts(origin[..i]), sep) + IntToString(origin[i]) + sep
  {
    var t := Texts(origin[..i + 1]);
    assert t[..i] == Texts(origin[..i]);
    assert t[i] == IntToString(origin[i]);
  }

  /** `while (count--) s.pop_back();` */
  method PopBack(s: string, count: nat) returns (r: string)
    requires count <= |s|
    ensures r == s[..|s| - count]
  {
    r := s;
    var n := count;
    while n > 0
      invariant 0 <= n <= count && r == s[..|s| - count + n]
    {
      r := r[..|r| - 1];
      n := n - 1;
    }
  }

  // ----------------------------------------------------------------- split

  /** The pieces of `s` between the leftmost non-overlapping occurrences of
      a non-empty `sep`, searched left to right. */
  function Pieces(s: string, sep: string): (r: seq<string>)
    requires |sep| > 0
    ensures |r| >= 1
    decreases |s|
  {
    match FindFrom(s, sep, 0)
    case None => [s]
    case Some(p) => [s[..p]] + Pieces(s[p + |sep|..], sep)
  }

  /** `Pieces` when a separator is found at `p`: the text before it, then
      the pieces of the text after it. */
  lemma PiecesUnfold(s: string, sep: string, p: nat, head: string, rest: string)
    requires |sep| > 0 && FindFrom(s, sep, 0) == Some(p)
    requires head == s[..p] && rest == s[p + |sep|..]
    ensures Pieces(s, sep) == [head] + Pieces(rest, sep)
  {
    var tail := Pieces(rest, sep);
    assert Pieces(s, sep) == [head] + tail;
  }

  /** What `split(origin, separator)` returns. */
  function SplitSpec(origin: string, separator: string): (r: seq<string>)
    ensures origin == [] ==> r == []
    ensures origin != [] && separator == [] ==> r == [origin]
  {
    if origin == [] then []
    else if separator == [] then [origin]
    else Pieces(origin, separator)
  }

  /** `split(origin, separator)`: cut at each occurrence found by
      `find(separator, find_start)`, resuming after the separator. */
  method Split(origin: string, separator: string) returns (result: seq<string>)
    ensures result == SplitSpec(origin, separator)
  {
    if origin == [] {
      return [];
    }
    if separator == [] {
      return [origin];
    }
    result := [];
    var findStart := 0;
    ghost var whole := Pieces(origin, separator);
    assert origin[0..] == origin;
    while true
      invariant findStart <= |origin|
      invariant result + Pieces(origin[findStart..], separator) == whole
      decreases |origin| - findStart
    {
      var findPosition := FindFrom(origin, separator, findStart);
      if findPosition.None? {
        SplitDone(origin, separator, findStart, result);
        result := result + [origin[findStart..]];
        return;
      }
      var p := findPosition.value;
      SplitStep(origin, separator, findStart, p, result);
      result := result + [origin[findStart..p]];
      findStart := p + |separator|;
    }
  }

  /** When the search finds no further separator, the rest of the string
      is the last piece. */
  lemma SplitDone(origin: string, sep: string, findStart: nat, result: seq<string>)
    requires |sep| > 0 && findStart <= |origin| && FindFrom(origin, sep, findStart).None?
    requires result + Pieces(origin[findStart..], sep) == Pieces(origin, sep)
    ensures result + [origin[findStart..]] == Pieces(origin, sep)
  {
    PiecesNotFound(origin, sep, findStart);
  }

  /** One turn of `split`'s loop keeps what is cut so far followed by the
      pieces of the rest equal to the pieces of the whole. */
  lemma SplitStep(origin: string, sep: string, findStart: nat, p: nat, result: seq<string>)
    requires |sep| > 0 && findStart <= |origin|
    requires FindFrom(origin, sep, findStart) == Some(p)
    requires result + Pieces(origin[findStart..], sep) == Pieces(origin, sep)
    ensures (result + [origin[findStart..p]]) + Pieces(origin[p + |sep|..], sep) == Pieces(origin, sep)
  {
    PiecesFoundAt(origin, sep, findStart, p);
    AppendAssoc(result, [origin[findStart..p]], Pieces(origin[p + |sep|..], sep));
  }

  /** The pieces of a suffix in which the search `split` makes in the whole
      string finds nothing: the suffix itself. */
  lemma PiecesNotFound(s: string, sep: string, from: nat)
    requires |sep| > 0 && from <= |s| && FindFrom(s, sep, from).None?
    ensures Pieces(s[from..], sep) == [s[from..]]
  {
    FindFromSuffix(s, sep, from);
    assert FindFrom(s[from..], sep, 0).None?;
  }

  /** The pieces of a suffix in which that search finds `sep` at `p`: the
      text up to `p`, then the pieces after the separator. */
  lemma PiecesFoundAt(s: string, sep: string, from: nat, p: nat)
    requires |sep| > 0 && from <= |s| && FindFrom(s, sep, from) == Some(p)
    ensures Pieces(s[from..], sep) == [s[from..p]] + Pieces(s[p + |sep|..], sep)
  {
    FindFromSuffix(s, sep, from);
    var t := s[from..];
    assert FindFrom(t, sep, 0) == Some(p - from);
    assert t[..p - from] == s[from..p];
    assert t[p - from + |sep|..] == s[p + |sep|..];
    PiecesUnfold(t, sep, p - from, s[from..p], s[p + |sep|..]);
  }

  /** Joining the pieces with the separator gives the string back. */
  lemma {:induction false} JoinPieces(s: string, sep: string)
    requires |sep| > 0
    ensures Join(Pieces(s, sep), sep) == s
    decreases |s|
  {
    match FindFrom(s, sep, 0)
    case None =>
    case Some(p) =>
      JoinPieces(s[p + |sep|..], sep);
      JoinPiecesStep(s, sep, p);
  }

  /** The step of `JoinPieces`: the first piece, the separator found after
      it, and the rest put back together. */
  lemma JoinPiecesStep(s: string, sep: string, p: nat)
    requires |sep| > 0 && FindFrom(s, sep, 0) == Some(p)
    requires Join(Pieces(s[p + |sep|..], sep), sep) == s[p + |sep|..]
    ensures Join(Pieces(s, sep), sep) == s
  {
    var head := s[..p];
    var rest := s[p + |sep|..];
    var tail := Pieces(rest, sep);
    PiecesUnfold(s, sep, p, head, rest);
    JoinCons(head, tail, sep);
    assert s[p..p + |sep|] == sep;
    assert s[p..] == sep + rest;
    assert s == head + s[p..];
    AppendAssoc(head, sep, rest);
  }

  /** No piece contains the separator. */
  lemma {:induction false} PiecesFree(s: string, sep: string)
    requires |sep| > 0
    ensures forall i :: 0 <= i < |Pieces(s, sep)| ==> FindFrom(Pieces(s, sep)[i], sep, 0).None?
    decreases |s|
  {
    match FindFrom(s, sep, 0)
    case None =>
    case Some(p) =>
      var rest := s[p + |sep|..];
      PiecesFree(rest, sep);
      var head := s[..p];
      forall k: nat | OccursAt(head, sep, k)
        ensures false
      {
        assert s[k..k + |sep|] == head[k..k + |sep|];
        assert OccursAt(s, sep, k);
      }
  }

  /** `split` undoes a join when no part shares a character with the
      separator: the separator then occurs exactly between the parts. */
  lemma {:induction false} PiecesOfJoin(parts: seq<string>, sep: string)
    requires |sep| > 0 && |parts| >= 1
    requires forall i, j, k :: 0 <= i < |parts| && 0 <= j < |parts[i]| && 0 <= k < |sep| ==> parts[i][j] != sep[k]
    ensures Pieces(Join(parts, sep), sep) == parts
    decreases |parts|
  {
    var s := Join(parts, sep);
    var head := parts[0];
    forall k: nat | k < |head|
      ensures !OccursAt(s, sep, k)
    {
      assert s[k] == head[k] != sep[0];
    }
    if |parts| == 1 {
      assert s == head;
      assert FindFrom(s, sep, 0).None?;
    } else {
      var rest := Join(parts[1..], sep);
      assert s == head + sep + rest;
      assert OccursAt(s, sep, |head|) by {
        assert s[|head|..|head| + |sep|] == sep;
      }
      assert FindFrom(s, sep, 0) == Some(|head|);
      assert s[..|head|] == head;
      assert s[|head| + |sep|..] == rest;
      PiecesOfJoin(parts[1..], sep);
      assert parts == [head] + parts[1..];
    }
  }

  /** Splitting what `concat` produced gives the numbers' texts back when
      the separator holds neither digits nor a minus sign. */
  lemma SplitConcat(origin: seq<int>, separator: string)
    requires |origin| >= 1 && |separator| > 0
    requires forall k :: 0 <= k < |separator| ==> !IsDigit(separator[k]) && separator[k] != '-'
    ensures SplitSpec(Join(Texts(origin), separator), separator) == Texts(origin)
  {
    var parts := Texts(origin);
    forall i, j, k | 0 <= i < |parts| && 0 <= j < |parts[i]| && 0 <= k < |separator|
      ensures parts[i][j] != separator[k]
    {
      IntToStringChars(origin[i]);
    }
    PiecesOfJoin(parts, separator);
    assert Join(parts, separator) != [] by {
      JoinNonEmpty(parts, separator);
    }
  }

  /** The text of an integer holds only digits and a minus sign. */
  lemma IntToStringChars(i: int)
    ensures forall j :: 0 <= j < |IntToString(i)| ==> IsDigit(IntToString(i)[j]) || IntToString(i)[j] == '-'
  {
  }

  /** A join whose first part is not empty is not empty. */
  lemma JoinNonEmpty(parts: seq<string>, sep: string)
    requires |parts| >= 1 && |parts[0]| >= 1
    ensures |Join(parts, sep)| >= 1
  {
  }
}
