/** `TPath` of `include/builder_alternative/System.hpp`: a path held as its
    list of components, whether it is absolute, whether it is a Windows
    network (SMB) path, and the separator style it was read with. The
    filesystem queries (`make_absolute`, `exists`, `file_size`, ...) are
    left out; what remains is the text processing. */
module Paths {
  import opened Wrappers
  import opened Text

  datatype PathType = Windows | Posix

  /** The model stands for a POSIX build, where `nativePath` is `posixPath`. */
  const NativePath := Posix

  const PosixDelims: set<char> := {'/'}
  const WindowsDelims: set<char> := {'/', '\\'}

  /** `MAX_PATH_WINDOWS_LEGACY`. */
  const MaxPathWindowsLegacy := 260

  /** The `\\?\` prefix of long Windows paths. */
  const LongPathPrefix := "\\\\?\\"

  const RelativeExpected := "TPath::operator/(): expected a relative path!"
  const SameTypeExpected := "TPath::operator/(): expected a path of the same type!"

  // ------------------------------------------------------------- tokenize

  /** No character of `s` is a delimiter. */
  predicate Free(s: string, delims: set<char>) {
    forall j :: 0 <= j < |s| ==> s[j] !in delims
  }

  predicate AllFree(parts: seq<string>, delims: set<char>) {
    forall i :: 0 <= i < |parts| ==> Free(parts[i], delims)
  }

  predicate AllNonEmpty(parts: seq<string>) {
    forall i :: 0 <= i < |parts| ==> parts[i] != []
  }

  /** The text between consecutive delimiter characters: "a//b" has the
      fields "a", "" and "b", and "/a/" the fields "", "a" and "". */
  function Fields(s: string, delims: set<char>): (r: seq<string>)
    ensures |r| >= 1
    decreases |s|
  {
    match FindFirstOf(s, delims, 0)
    case None => [s]
    case Some(p) => [s[..p]] + Fields(s[p + 1..], delims)
  }

  /** The non-empty strings of `xs`, in order. */
  function NonEmpty(xs: seq<string>): (r: seq<string>)
    ensures AllNonEmpty(r) && |r| <= |xs|
  {
    if xs == [] then []
    else (if xs[0] == [] then [] else [xs[0]]) + NonEmpty(xs[1..])
  }

  /** What `tokenize(string, delim)` returns: the maximal non-empty runs
      free of delimiters, except that the empty string gives one empty
      token. */
  function TokenizeSpec(s: string, delims: set<char>): (r: seq<string>)
    ensures s == [] ==> r == [[]]
  {
    if s == [] then [[]] else NonEmpty(Fields(s, delims))
  }

  /** `tokenize`: each search with `find_first_of` ends a run, which is kept
      when it is not empty; the loop stops at the end of the string or at a
      delimiter that is its last character. The source's `lastPos != npos`
      guard is never false where it is evaluated: `lastPos` only becomes `npos` right
      before the `break`. */
  method Tokenize(s: string, delims: set<char>) returns (tokens: seq<string>)
    ensures tokens == TokenizeSpec(s, delims)
  {
    var lastPos: nat := 0;
    var pos := FindFirstOf(s, delims, lastPos);
    tokens := [];
    assert s[0..] == s;
    while true
      invariant lastPos <= |s| && pos == FindFirstOf(s, delims, lastPos)
      invariant s == [] ==> tokens == [] && lastPos == 0
      invariant s != [] ==> lastPos < |s|
      invariant s != [] ==> tokens + NonEmpty(Fields(s[lastPos..], delims)) == NonEmpty(Fields(s, delims))
      decreases |s| - lastPos
    {
      if pos.None? {
        if s != [] {
          TurnLast(s, delims, lastPos, tokens);
        }
        tokens := tokens + [s[lastPos..]];
        return;
      }
      var p := pos.value;
      ghost var before := tokens;
      if p != lastPos {
        tokens := tokens + [s[lastPos..p]];
      }
      var next := p + 1;
      TurnCut(s, delims, lastPos, p, next, before, tokens);
      if next == |s| {
        return;
      }
      lastPos := next;
      pos := FindFirstOf(s, delims, lastPos);
    }
  }

  /** A search from `from` finds what a search of the suffix finds, shifted. */
  lemma FindFirstOfSuffix(s: string, delims: set<char>, from: nat)
    requires from <= |s|
    ensures FindFirstOf(s, delims, from) ==
      (match FindFirstOf(s[from..], delims, 0) case None => None case Some(i) => Some(from + i))
  {
    var whole := FindFirstOf(s, delims, from);
    var part := FindFirstOf(s[from..], delims, 0);
    if whole.Some? {
      assert s[from..][whole.value - from] in delims;
    }
    if part.Some? {
      assert s[from + part.value] in delims;
    }
  }

  /** The fields of a suffix without a delimiter: the suffix alone. */
  lemma FieldsFromNone(s: string, delims: set<char>, from: nat)
    requires from <= |s| && FindFirstOf(s, delims, from).None?
    ensures Fields(s[from..], delims) == [s[from..]]
  {
    FindFirstOfSuffix(s, delims, from);
    var t := s[from..];
    assert FindFirstOf(t, delims, 0).None?;
  }

  /** The fields of a suffix whose first delimiter is at `p`, in terms of
      the search `tokenize` makes in the whole string. */
  lemma FieldsFromAt(s: string, delims: set<char>, from: nat, p: nat, next: nat)
    requires from <= |s| && FindFirstOf(s, delims, from) == Some(p) && next == p + 1
    ensures Fields(s[from..], delims) == [s[from..p]] + Fields(s[next..], delims)
  {
    var t, q := s[from..], p - from;
    FindFirstOfShift(s, delims, from, p, t, q);
    SuffixSlices(s, from, p, t, q);
    FieldsAt(t, delims, q);
  }

  /** The fields of a string whose first delimiter is at `q`. */
  lemma FieldsAt(t: string, delims: set<char>, q: nat)
    requires FindFirstOf(t, delims, 0) == Some(q)
    ensures Fields(t, delims) == [t[..q]] + Fields(t[q + 1..], delims)
  {
  }

  lemma FindFirstOfShift(s: string, delims: set<char>, from: nat, p: nat, t: string, q: nat)
    requires from <= |s| && FindFirstOf(s, delims, from) == Some(p) && t == s[from..] && q == p - from
    ensures FindFirstOf(t, delims, 0) == Some(q)
  {
    FindFirstOfSuffix(s, delims, from);
  }

  lemma SuffixSlices(s: string, from: nat, p: nat, t: string, q: nat)
    requires from <= p < |s| && t == s[from..] && q == p - from
    ensures t[..q] == s[from..p] && t[q + 1..] == s[p + 1..]
  {
  }

  lemma {:induction false} NonEmptyAppend(a: seq<string>, b: seq<string>)
    ensures NonEmpty(a + b) == NonEmpty(a) + NonEmpty(b)
  {
    if a != [] {
      assert (a + b)[1..] == a[1..] + b;
      NonEmptyAppend(a[1..], b);
    } else {
      assert a + b == b;
    }
  }

  /** A string whose strings are all non-empty is kept whole. */
  lemma {:induction false} NonEmptyKeeps(xs: seq<string>)
    requires AllNonEmpty(xs)
    ensures NonEmpty(xs) == xs
  {
    if xs != [] {
      NonEmptyKeeps(xs[1..]);
    }
  }

  /** The last turn of `tokenize`: no delimiter is left, and the rest of
      the string is the last token. */
  lemma TurnLast(s: string, delims: set<char>, lastPos: nat, tokens: seq<string>)
    requires lastPos < |s| && FindFirstOf(s, delims, lastPos).None?
    requires tokens + NonEmpty(Fields(s[lastPos..], delims)) == NonEmpty(Fields(s, delims))
    ensures tokens + [s[lastPos..]] == TokenizeSpec(s, delims)
  {
    FieldsFromNone(s, delims, lastPos);
    assert NonEmpty([s[lastPos..]]) == [s[lastPos..]] by {
      NonEmptyKeeps([s[lastPos..]]);
    }
  }

  /** A turn of `tokenize` that finds a delimiter at `p`: the run before it
      is kept when it is not empty, and the search resumes after it; a
      delimiter at the very end leaves nothing more. */
  lemma TurnCut(s: string, delims: set<char>, lastPos: nat, p: nat, next: nat, tokens: seq<string>, kept: seq<string>)
    requires lastPos < |s| && FindFirstOf(s, delims, lastPos) == Some(p) && next == p + 1
    requires tokens + NonEmpty(Fields(s[lastPos..], delims)) == NonEmpty(Fields(s, delims))
    requires kept == tokens + (if p != lastPos then [s[lastPos..p]] else [])
    ensures next == |s| ==> kept == TokenizeSpec(s, delims)
    ensures next < |s| ==> kept + NonEmpty(Fields(s[next..], delims)) == NonEmpty(Fields(s, delims))
  {
    var head := s[lastPos..p];
    var rest := Fields(s[next..], delims);
    assert NonEmpty(Fields(s[lastPos..], delims)) == NonEmpty([head] + rest) by {
      FieldsFromAt(s, delims, lastPos, p, next);
    }
    assert NonEmpty([head] + rest) == (if p != lastPos then [head] else []) + NonEmpty(rest) by {
      NonEmptyAppend([head], rest);
      assert [head][1..] == [];
    }
    AppendAssoc(tokens, if p != lastPos then [head] else [], NonEmpty(rest));
    if next == |s| {
      assert s[next..] == [];
      assert NonEmpty(rest) == [];
    }
  }

  /** No field holds a delimiter. */
  lemma {:induction false} FieldsFree(s: string, delims: set<char>)
    ensures AllFree(Fields(s, delims), delims)
    decreases |s|
  {
    match FindFirstOf(s, delims, 0)
    case None =>
    case Some(p) =>
      FieldsFree(s[p + 1..], delims);
  }

  lemma {:induction false} NonEmptyFree(xs: seq<string>, delims: set<char>)
    requires AllFree(xs, delims)
    ensures AllFree(NonEmpty(xs), delims)
  {
    if xs != [] {
      NonEmptyFree(xs[1..], delims);
    }
  }

  /** The tokens of a non-empty string are non-empty and free of
      delimiters. */
  lemma TokensClean(s: string, delims: set<char>)
    requires s != []
    ensures AllNonEmpty(TokenizeSpec(s, delims)) && AllFree(TokenizeSpec(s, delims), delims)
  {
    FieldsFree(s, delims);
    NonEmptyFree(Fields(s, delims), delims);
  }

  /** Joining the fields with a single delimiter gives the string back:
      the fields are exactly the text between delimiters. */
  lemma {:induction false} JoinFields(s: string, c: char)
    ensures Join(Fields(s, {c}), [c]) == s
    decreases |s|
  {
    match FindFirstOf(s, {c}, 0)
    case None =>
    case Some(p) =>
      var rest := s[p + 1..];
      var tail := Fields(rest, {c});
      assert Fields(s, {c}) == [s[..p]] + tail;
      assert Join(tail, [c]) == rest by {
        JoinFields(rest, c);
      }
      assert ([s[..p]] + tail)[1..] == tail;
      assert Join([s[..p]] + tail, [c]) == s[..p] + [c] + rest;
      assert s == s[..p] + [c] + rest;
  }

  /** Joining delimiter-free parts with one delimiter and cutting at the
      delimiters gives the parts back. */
  lemma {:induction false} FieldsOfJoin(parts: seq<string>, c: char, delims: set<char>)
    requires c in delims && |parts| >= 1 && AllFree(parts, delims)
    ensures Fields(Join(parts, [c]), delims) == parts
    decreases |parts|
  {
    var s := Join(parts, [c]);
    var head := parts[0];
    if |parts| == 1 {
      assert s == head;
      assert FindFirstOf(s, delims, 0).None?;
    } else {
      var rest := Join(parts[1..], [c]);
      assert s == head + [c] + rest;
      assert s[|head|] == c;
      assert FindFirstOf(s, delims, 0) == Some(|head|) by {
        forall k | 0 <= k < |head| ensures s[k] !in delims {
          assert s[k] == head[k];
        }
      }
      assert s[..|head|] == head;
      assert s[|head| + 1..] == rest;
      FieldsOfJoin(parts[1..], c, delims);
      assert parts == [head] + parts[1..];
    }
  }

  /** `tokenize` of delimiter-free parts joined by one delimiter gives the
      non-empty parts: runs of delimiters, leading and trailing ones count
      as one cut. */
  lemma TokenizeOfJoin(parts: seq<string>, c: char, delims: set<char>)
    requires c in delims && |parts| >= 1 && AllFree(parts, delims)
    requires Join(parts, [c]) != []
    ensures TokenizeSpec(Join(parts, [c]), delims) == NonEmpty(parts)
  {
    FieldsOfJoin(parts, c, delims);
  }

  /** "a//b" gives the two tokens "a" and "b". */
  lemma DoubleSlash(a: string, b: string)
    requires a != [] && b != [] && Free(a, PosixDelims) && Free(b, PosixDelims)
    ensures TokenizeSpec(a + "//" + b, PosixDelims) == [a, b]
  {
    var parts := [a, [], b];
    assert Join(parts, "/") == a + "//" + b by {
      assert parts[1..] == [[], b] && [[], b][1..] == [b];
      assert Join([[], b], "/") == "/" + b;
    }
    TokenizeOfJoin(parts, '/', PosixDelims);
    assert NonEmpty(parts) == [a] + NonEmpty([[], b]) by {
      assert parts[1..] == [[], b];
    }
    assert NonEmpty([[], b]) == [b] by {
      assert [[], b][1..] == [b];
      NonEmptyKeeps([b]);
    }
  }

  // ---------------------------------------------------------- path values

  /** The fields of a `TPath`: `type_`, `path_`, `isAbsolute_`, `isSmb_`. */
  datatype Path = Path(kind: PathType, parts: seq<string>, absolute: bool, smb: bool)

  predicate IsAsciiAlpha(c: char) {
    'A' <= c <= 'Z' || 'a' <= c <= 'z'
  }

  /** A drive designation such as "C:". */
  predicate IsDrive(s: string) {
    |s| == 2 && IsAsciiAlpha(s[0]) && s[1] == ':'
  }

  /** `s` with the `\\?\` prefix removed when it has one. */
  function StripLongPrefix(s: string): (r: string)
    ensures LongPathPrefix <= s ==> s == LongPathPrefix + r
    ensures !(LongPathPrefix <= s) ==> r == s
  {
    if |s| >= |LongPathPrefix| && s[..|LongPathPrefix|] == LongPathPrefix then s[|LongPathPrefix|..] else s
  }

  /** `set(str, windowsPath)`: the `\\?\` prefix is dropped, then the rest
      is read by `WindowsRead`. */
  function WindowsSet(s: string): (p: Path)
    ensures p.kind == Windows && (p.smb ==> p.absolute)
  {
    WindowsRead(StripLongPrefix(s))
  }

  /** How `set` reads the start of a Windows path: the components it
      takes from the start, the text left to tokenize, and the two flags. */
  datatype Head = Head(prefix: seq<string>, rest: string, absolute: bool, smb: bool)

  /** A Windows path without the long prefix: "\\" starts a network path
      (absolute only when a separator follows), "UNC\" an absolute network
      path, "X:\" or "X:/" an absolute local path whose first component is
      the drive, and anything else a relative path. */
  function WindowsHead(tmp: string): (h: Head)
    ensures h.smb ==> h.absolute
  {
    if |tmp| >= 2 && tmp[0] == '\\' && tmp[1] == '\\' then
      var network := FindFirstOf(tmp[2..], WindowsDelims, 0).Some?;
      Head([], tmp[2..], network, network)
    else if |tmp| >= 4 && tmp[..4] == "UNC\\" then Head([], tmp[4..], true, true)
    else if |tmp| >= 3 && IsDrive(tmp[..2]) && (tmp[2] == '\\' || tmp[2] == '/') then
      Head([tmp[..2]], tmp[3..], true, false)
    else Head([], tmp, false, false)
  }

  /** The rest after the head is tokenized at both separators. */
  function WindowsRead(tmp: string): (p: Path)
    ensures p.kind == Windows && (p.smb ==> p.absolute)
  {
    var h := WindowsHead(tmp);
    Path(Windows, h.prefix + TokenizeSpec(h.rest, WindowsDelims), h.absolute, h.smb)
  }

  /** `set(str, type)` applied to a path whose `isSmb_` is `smb`: a POSIX
      path is absolute exactly when it starts with '/', and keeps `isSmb_`. */
  function SetSpec(s: string, kind: PathType, smb: bool): (p: Path)
    ensures p.kind == kind
    ensures kind == Posix ==> p.smb == smb && (p.absolute <==> |s| > 0 && s[0] == '/')
    ensures kind == Posix ==> p.parts == TokenizeSpec(s, PosixDelims)
  {
    if kind.Windows? then WindowsSet(s)
    else Path(Posix, TokenizeSpec(s, PosixDelims), s != [] && s[0] == '/', smb)
  }

  /** The separator `str(type)` writes between components. */
  function Separator(kind: PathType): string {
    if kind.Posix? then "/" else "\\"
  }

  /** The length `str` counts for a Windows path: each component and one
      character after it. */
  function WindowsLength(parts: seq<string>): nat {
    if parts == [] then 0
    else WindowsLength(parts[..|parts| - 1]) + |parts[|parts| - 1]| + 1
  }

  /** What `str` writes before the components. */
  function Root(p: Path): (r: string)
    ensures !p.absolute ==> r == []
    ensures p.absolute && p.kind == Posix ==> r == "/"
  {
    if !p.absolute then ""
    else if p.kind.Posix? then "/"
    else
      var length := WindowsLength(p.parts) + (if p.smb then 2 else 0);
      if length > MaxPathWindowsLegacy then (if p.smb then "\\\\?\\UNC\\" else LongPathPrefix)
      else if p.smb then "\\\\"
      else ""
  }

  /** `str(type)`: the root, then the components separated by the
      separator of `type`. */
  function StrOf(p: Path, sep: PathType): string {
    Root(p) + Join(p.parts, Separator(sep))
  }

  /** `filename()`: the last component, or "" without components. */
  function FilenameOf(p: Path): (r: string)
    ensures p.parts == [] ==> r == []
    ensures p.parts != [] ==> r == p.parts[|p.parts| - 1]
  {
    if p.parts == [] then "" else p.parts[|p.parts| - 1]
  }

  /** `find_last_of(c)`: the last index holding `c`. */
  function FindLast(s: string, c: char): (r: Option<nat>)
    ensures r.Some? ==> r.value < |s| && s[r.value] == c && forall k :: r.value < k < |s| ==> s[k] != c
    ensures r.None? ==> forall k :: 0 <= k < |s| ==> s[k] != c
  {
    if s == [] then None
    else if s[|s| - 1] == c then Some(|s| - 1)
    else FindLast(s[..|s| - 1], c)
  }

  /** `extension()`: the text after the last '.' of the file name, or ""
      when the name has none. */
  function ExtensionOf(p: Path): (r: string)
    ensures forall k :: 0 <= k < |r| ==> r[k] != '.'
    ensures var name := FilenameOf(p);
      (forall k :: 0 <= k < |name| ==> name[k] != '.') ==> r == []
    ensures var name := FilenameOf(p);
      (exists k :: 0 <= k < |name| && name[k] == '.') ==>
        |r| < |name| && name[|name| - |r| - 1] == '.' && name[|name| - |r|..] == r
  {
    var name := FilenameOf(p);
    match FindLast(name, '.')
    case None => ""
    case Some(i) => name[i + 1..]
  }

  /** `parent_path()`: the last component dropped; without components an
      absolute path stays the root and a relative one becomes "..". The
      result is built from a default `TPath`, so its type is the native
      one whatever the type of the original. */
  function ParentOf(p: Path): (r: Path)
    ensures r.kind == NativePath && r.absolute == p.absolute && r.smb == p.smb
    ensures p.parts != [] ==> r.parts + [FilenameOf(p)] == p.parts
    ensures p.parts == [] ==> r.parts == (if p.absolute then [] else [".."])
  {
    Path(NativePath,
         if p.parts == [] then (if p.absolute then [] else [".."]) else p.parts[..|p.parts| - 1],
         p.absolute, p.smb)
  }

  /** `operator/`: the right operand's components appended; an absolute
      right operand or a different type throws. */
  function DivOf(p: Path, q: Path): (r: Result<Path, string>)
    ensures r.Ok? <==> !q.absolute && p.kind == q.kind
    ensures q.absolute ==> r == Err(RelativeExpected)
    ensures !q.absolute && p.kind != q.kind ==> r == Err(SameTypeExpected)
    ensures r.Ok? ==> r.value.parts == p.parts + q.parts && r.value.kind == p.kind
    ensures r.Ok? ==> r.value.absolute == p.absolute && r.value.smb == p.smb
  {
    if q.absolute then Err(RelativeExpected)
    else if p.kind != q.kind then Err(SameTypeExpected)
    else Ok(Path(p.kind, p.parts + q.parts, p.absolute, p.smb))
  }

  /** `operator==`: only the components are compared. */
  function Equals(p: Path, q: Path): (r: bool)
    ensures r <==> p.parts == q.parts
  {
    p.parts == q.parts
  }

  /** What `str` has written after the first `i` components: their join,
      and the separator after the last of them unless it ends the path. */
  function Emitted(parts: seq<string>, i: nat, sep: string): string
    requires i <= |parts|
  {
    Join(parts[..i], sep) + (if 0 < i < |parts| then sep else [])
  }

  lemma EmittedStep(parts: seq<string>, i: nat, sep: string)
    requires i < |parts|
    ensures Emitted(parts, i + 1, sep) == Emitted(parts, i, sep) + (parts[i] + (if i + 1 < |parts| then sep else []))
  {
    if i > 0 {
      JoinAppend(parts[..i], parts[i], sep);
      assert parts[..i + 1] == parts[..i] + [parts[i]];
    } else {
      assert parts[..1] == [parts[0]];
    }
  }

  // ------------------------------------------------------------- the class

  class TPath {
    var kind: PathType
    var parts: seq<string>
    var absolute: bool
    var smb: bool

    function Value(): Path
      reads this
    {
      Path(kind, parts, absolute, smb)
    }

    /** `TPath()`: a relative native path without components. */
    constructor ()
      ensures Value() == Path(NativePath, [], false, false)
    {
      kind := NativePath;
      parts := [];
      absolute := false;
      smb := false;
    }

    /** The copy constructor. */
    constructor Copy(other: TPath)
      ensures Value() == other.Value()
    {
      kind := other.kind;
      parts := other.parts;
      absolute := other.absolute;
      smb := other.smb;
    }

    /** `TPath(string)`: not a network path, then `set(string)`. */
    constructor FromString(s: string)
      ensures Value() == SetSpec(s, NativePath, false)
    {
      kind := NativePath;
      parts := [];
      absolute := false;
      smb := false;
      new;
      Set(s, NativePath);
    }

    /** `set(str, type)`. */
    method Set(s: string, kind: PathType)
      modifies this
      ensures Value() == SetSpec(s, kind, old(smb))
    {
      this.kind := kind;
      if kind.Windows? {
        SetWindows(s);
      } else {
        parts := Tokenize(s, PosixDelims);
        absolute := s != [] && s[0] == '/';
      }
    }

    /** The `windowsPath` branch of `set`. */
    method SetWindows(s: string)
      requires kind == Windows
      modifies this
      ensures Value() == WindowsSet(s)
    {
      var tmp := s;
      if |tmp| >= |LongPathPrefix| && tmp[..|LongPathPrefix|] == LongPathPrefix {
        tmp := tmp[|LongPathPrefix|..];
      }
      ghost var stripped := tmp;
      assert stripped == StripLongPrefix(s);
      if |tmp| >= 2 && tmp[0] == '\\' && tmp[1] == '\\' {
        parts := [];
        tmp := tmp[2..];
        absolute := FindFirstOf(tmp, WindowsDelims, 0).Some?;
        smb := absolute;
        assert WindowsHead(stripped) == Head(parts, tmp, absolute, smb);
      } else if |tmp| >= 4 && tmp[..4] == "UNC\\" {
        parts := [];
        tmp := tmp[4..];
        absolute := true;
        smb := true;
        assert WindowsHead(stripped) == Head(parts, tmp, absolute, smb);
      } else if |tmp| >= 3 && IsDrive(tmp[..2]) && (tmp[2] == '\\' || tmp[2] == '/') {
        parts := [tmp[..2]];
        tmp := tmp[3..];
        absolute := true;
        smb := false;
        assert WindowsHead(stripped) == Head(parts, tmp, absolute, smb);
      } else {
        parts := [];
        absolute := false;
        smb := false;
        assert WindowsHead(stripped) == Head(parts, tmp, absolute, smb);
      }
      var tokenized := Tokenize(tmp, WindowsDelims);
      parts := parts + tokenized;
    }

    /** `operator=`: every field copied. */
    method Assign(other: TPath)
      modifies this
      ensures Value() == old(other.Value())
    {
      kind := other.kind;
      parts := other.parts;
      absolute := other.absolute;
      smb := other.smb;
    }

    /** `str(type)`: the root (with the Windows length count), then each
      component followed by the separator unless it is the last. */
    method Str(sep: PathType) returns (r: string)
      ensures r == StrOf(Value(), sep)
    {
      r := "";
      if absolute {
        if kind.Posix? {
          r := "/";
        } else {
          var length := CountLength(parts);
          if smb {
            length := length + 2;
          }
          if length > MaxPathWindowsLegacy {
            r := if smb then "\\\\?\\UNC\\" else LongPathPrefix;
          } else if smb {
            r := "\\\\";
          }
        }
      }
      r := Emit(r, parts, Separator(sep));
    }

    /** The length count of `str`: each component and one more. */
    static method CountLength(parts: seq<string>) returns (length: nat)
      ensures length == WindowsLength(parts)
    {
      length := 0;
      for i := 0 to |parts|
        invariant length == WindowsLength(parts[..i])
      {
        assert parts[..i + 1][..i] == parts[..i];
        length := length + |parts[i]| + 1;
      }
      assert parts[..|parts|] == parts;
    }

    /** The component loop of `str`: each component written after `root`,
      followed by the separator unless it is the last. */
    static method Emit(root: string, parts: seq<string>, separator: string) returns (r: string)
      ensures r == root + Join(parts, separator)
    {
      r := root;
      for i := 0 to |parts|
        invariant r == root + Emitted(parts, i, separator)
      {
        EmittedStep(parts, i, separator);
        ghost var before := r;
        r := r + parts[i];
        if i + 1 < |parts| {
          r := r + separator;
        }
        assert r == before + (parts[i] + (if i + 1 < |parts| then separator else []));
        AppendAssoc(root, Emitted(parts, i, separator), parts[i] + (if i + 1 < |parts| then separator else []));
      }
      assert parts[..|parts|] == parts;
    }

    /** `parent_path()`: a default path with this path's flags and all
      components but the last. */
    method ParentPath() returns (result: TPath)
      ensures fresh(result) && result.Value() == ParentOf(Value())
    {
      result := new TPath();
      result.absolute := absolute;
      result.smb := smb;
      if parts == [] {
        if !absolute {
          result.parts := result.parts + [".."];
        }
      } else {
        var until := |parts| - 1;
        for i := 0 to until
          invariant result.parts == parts[..i]
          invariant result.kind == NativePath && result.absolute == absolute && result.smb == smb
        {
          assert parts[..i + 1] == parts[..i] + [parts[i]];
          result.parts := result.parts + [parts[i]];
        }
      }
    }

    /** `operator/(other)`: a copy of this path with the other's
      components appended, or the exception. */
    method Div(other: TPath) returns (r: Result<TPath, string>)
      ensures DivOf(Value(), other.Value()).Err? ==> r == Err(DivOf(Value(), other.Value()).error)
      ensures DivOf(Value(), other.Value()).Ok? ==>
        r.Ok? && fresh(r.value) && r.value.Value() == DivOf(Value(), other.Value()).value
    {
      if other.absolute {
        return Err(RelativeExpected);
      }
      if kind != other.kind {
        return Err(SameTypeExpected);
      }
      var result := new TPath.Copy(this);
      var added := other.parts;
      for i := 0 to |added|
        invariant result.parts == parts + added[..i]
        invariant result.kind == kind && result.absolute == absolute && result.smb == smb
      {
        assert added[..i + 1] == added[..i] + [added[i]];
        result.parts := result.parts + [added[i]];
      }
      assert added[..|added|] == added;
      return Ok(result);
    }
  }

  // ------------------------------------------------------------ properties

  /** A well-formed POSIX path (components non-empty and free of '/', and
      at least one of them when relative) is read back by `set` from what
      `str` writes. */
  lemma PosixRoundTrip(p: Path)
    requires p.kind == Posix && AllNonEmpty(p.parts) && AllFree(p.parts, PosixDelims)
    requires p.absolute || |p.parts| > 0
    ensures SetSpec(StrOf(p, Posix), Posix, p.smb) == p
  {
    var s := StrOf(p, Posix);
    if p.absolute {
      var marked := [[]] + (if p.parts == [] then [[]] else p.parts);
      assert Join(marked, "/") == s by {
        assert marked[1..] == (if p.parts == [] then [[]] else p.parts);
      }
      TokenizeOfJoin(marked, '/', PosixDelims);
      assert NonEmpty(marked) == NonEmpty(marked[1..]);
      if p.parts == [] {
        assert NonEmpty([[]]) == [];
      } else {
        NonEmptyKeeps(p.parts);
      }
    } else {
      assert s == Join(p.parts, "/");
      assert p.parts[0] != [] && p.parts[0][0] != '/';
      JoinHead(p.parts, "/");
      TokenizeOfJoin(p.parts, '/', PosixDelims);
      NonEmptyKeeps(p.parts);
    }
  }

  /** A join starts with its first part. */
  lemma JoinHead(parts: seq<string>, sep: string)
    requires |parts| >= 1
    ensures parts[0] <= Join(parts, sep)
  {
  }

  /** `TPath("")` is not empty: it holds one empty component. */
  lemma EmptyStringHasOneComponent(smb: bool)
    ensures |SetSpec("", Posix, smb).parts| == 1 && !SetSpec("", Posix, smb).absolute
  {
    assert TokenizeSpec("", PosixDelims) == [[]];
  }

  /** "/x" and "x" compare equal, since `operator==` ignores whether a
      path is absolute, though only the first is absolute. */
  lemma RootIgnoredByEquals(s: string, smb: bool)
    requires s != [] && s[0] != '/'
    ensures Equals(SetSpec("/" + s, Posix, smb), SetSpec(s, Posix, smb))
    ensures SetSpec("/" + s, Posix, smb).absolute && !SetSpec(s, Posix, smb).absolute
  {
    var t := "/" + s;
    assert FindFirstOf(t, PosixDelims, 0) == Some(0);
    assert t[1..] == s;
    assert Fields(t, PosixDelims) == [[]] + Fields(s, PosixDelims);
    assert NonEmpty([[]] + Fields(s, PosixDelims)) == NonEmpty(Fields(s, PosixDelims)) by {
      NonEmptyAppend([[]], Fields(s, PosixDelims));
    }
  }

  /** `parent_path` undoes appending one component. */
  lemma ParentUndoesDiv(p: Path, q: Path)
    requires DivOf(p, q).Ok? && |q.parts| == 1
    ensures ParentOf(DivOf(p, q).value).parts == p.parts
    ensures FilenameOf(DivOf(p, q).value) == q.parts[0]
  {
  }

  /** The file name of `p / q` is that of `q` when `q` has components. */
  lemma FilenameOfDiv(p: Path, q: Path)
    requires DivOf(p, q).Ok? && q.parts != []
    ensures FilenameOf(DivOf(p, q).value) == FilenameOf(q)
  {
    var r := DivOf(p, q).value;
    assert r.parts[|r.parts| - 1] == q.parts[|q.parts| - 1];
  }

  /** `operator/` is associative when both sides succeed. */
  lemma DivAssociative(p: Path, q: Path, r: Path)
    requires DivOf(p, q).Ok? && DivOf(q, r).Ok?
    ensures DivOf(DivOf(p, q).value, r).Ok? && DivOf(p, DivOf(q, r).value).Ok?
    ensures DivOf(DivOf(p, q).value, r).value == DivOf(p, DivOf(q, r).value).value
  {
    assert (p.parts + q.parts) + r.parts == p.parts + (q.parts + r.parts);
  }

  /** The parent of a Windows path is a native (POSIX) path, so it can no
      longer be joined with a Windows path. */
  lemma ParentOfWindowsPath(p: Path, q: Path)
    requires p.kind == Windows && q.kind == Windows && !q.absolute
    ensures DivOf(p, q).Ok? && DivOf(ParentOf(p), q) == Err(SameTypeExpected)
  {
  }

  /** A path that starts with a drive and a separator is read as an
      absolute local path. */
  lemma DriveRead(tmp: string)
    requires |tmp| >= 3 && IsDrive(tmp[..2]) && (tmp[2] == '\\' || tmp[2] == '/')
    ensures WindowsRead(tmp) == Path(Windows, [tmp[..2]] + TokenizeSpec(tmp[3..], WindowsDelims), true, false)
  {
    assert tmp[0] == tmp[..2][0] != '\\';
    assert tmp[1] == ':';
    if |tmp| >= 4 {
      assert tmp[..4][1] == ':';
    }
  }

  /** The text after a Windows drive designation, read as a Windows path
      from "X:\" on. */
  lemma DriveParse(drive: string, rest: seq<string>)
    requires IsDrive(drive) && |rest| >= 1 && AllNonEmpty(rest) && AllFree(rest, WindowsDelims)
    ensures WindowsRead(Join([drive] + rest, "\\")) == Path(Windows, [drive] + rest, true, false)
  {
    var inner := Join(rest, "\\");
    var s := Join([drive] + rest, "\\");
    assert s == drive + "\\" + inner by {
      assert ([drive] + rest)[1..] == rest;
    }
    assert s[..2] == drive && s[2] == '\\' && s[3..] == inner;
    DriveRead(s);
    JoinHead(rest, "\\");
    assert inner != [] by {
      assert rest[0] <= inner;
    }
    TokenizeOfJoin(rest, '\\', WindowsDelims);
    NonEmptyKeeps(rest);
  }

  /** A local absolute Windows path ("C:" and at least one more component)
      is read back by `set` from what `str` writes, short or long. */
  lemma WindowsDriveRoundTrip(p: Path)
    requires p.kind == Windows && p.absolute && !p.smb
    requires |p.parts| >= 2 && IsDrive(p.parts[0])
    requires AllNonEmpty(p.parts[1..]) && AllFree(p.parts[1..], WindowsDelims)
    ensures WindowsSet(StrOf(p, Windows)) == p
  {
    var inner := Join(p.parts, "\\");
    assert p.parts == [p.parts[0]] + p.parts[1..];
    DriveParse(p.parts[0], p.parts[1..]);
    JoinHead(p.parts, "\\");
    assert inner[0] == p.parts[0][0] != '\\';
    assert !(LongPathPrefix <= inner);
    if Root(p) == LongPathPrefix {
      assert StrOf(p, Windows) == LongPathPrefix + inner;
      assert StripLongPrefix(LongPathPrefix + inner) == inner by {
        assert (LongPathPrefix + inner)[..|LongPathPrefix|] == LongPathPrefix;
        assert (LongPathPrefix + inner)[|LongPathPrefix|..] == inner;
      }
    } else {
      assert StrOf(p, Windows) == inner;
    }
  }

  /** What `str` writes for a short network path, "\\" and the joined
      components, is read with the flags set only when a separator follows
      the first component. */
  lemma ShortNetworkRead(parts: seq<string>)
    requires |parts| >= 1 && parts[0] != "?"
    requires AllNonEmpty(parts) && AllFree(parts, WindowsDelims)
    ensures var network := |parts| >= 2;
      WindowsSet("\\\\" + Join(parts, "\\")) == Path(Windows, parts, network, network)
  {
    var inner := Join(parts, "\\");
    var s := "\\\\" + inner;
    NoLongPrefix(parts, inner, s);
    NetworkRead(inner, s);
    JoinedHasDelim(parts, inner);
    assert TokenizeSpec(inner, WindowsDelims) == parts by {
      TokenizeOfJoin(parts, '\\', WindowsDelims);
      NonEmptyKeeps(parts);
    }
  }

  /** Two backslashes before components that do not start with "?" are
      not the long-path prefix. */
  lemma NoLongPrefix(parts: seq<string>, inner: string, s: string)
    requires |parts| >= 1 && parts[0] != "?" && AllNonEmpty(parts) && AllFree(parts, WindowsDelims)
    requires inner == Join(parts, "\\") && s == "\\\\" + inner
    ensures StripLongPrefix(s) == s
  {
    var first := parts[0];
    JoinHead(parts, "\\");
    assert inner[..|first|] == first;
    if |first| == 1 {
      assert first[0] != '?';
      assert s[2] == first[0];
    } else {
      assert s[3] == first[1] != '\\';
    }
  }

  /** A path after two backslashes is a network path exactly when it has
      a separator. */
  lemma NetworkRead(inner: string, s: string)
    requires s == "\\\\" + inner
    ensures var network := FindFirstOf(inner, WindowsDelims, 0).Some?;
      WindowsRead(s) == Path(Windows, TokenizeSpec(inner, WindowsDelims), network, network)
  {
    assert s[2..] == inner;
  }

  /** Components joined with backslashes hold a separator exactly when
      there are two of them or more. */
  lemma JoinedHasDelim(parts: seq<string>, inner: string)
    requires |parts| >= 1 && AllFree(parts, WindowsDelims) && inner == Join(parts, "\\")
    ensures FindFirstOf(inner, WindowsDelims, 0).Some? <==> |parts| >= 2
  {
    var first := parts[0];
    if |parts| >= 2 {
      JoinHead(parts, "\\");
      assert inner == first + "\\" + Join(parts[1..], "\\");
      assert inner[|first|] == '\\';
    } else {
      assert inner == first;
      assert Free(first, WindowsDelims);
    }
  }

  /** A network path with at least two components (the first not "?") is
      read back by `set` from what `str` writes, short or long. */
  lemma NetworkRoundTrip(p: Path)
    requires p.kind == Windows && p.absolute && p.smb
    requires |p.parts| >= 2 && p.parts[0] != "?"
    requires AllNonEmpty(p.parts) && AllFree(p.parts, WindowsDelims)
    ensures WindowsSet(StrOf(p, Windows)) == p
  {
    var inner := Join(p.parts, "\\");
    if Root(p) == "\\\\" {
      ShortNetworkRead(p.parts);
    } else {
      var unc := "UNC\\" + inner;
      assert StrOf(p, Windows) == LongPathPrefix + unc;
      LongNetworkRead(p.parts, inner, unc);
    }
  }

  /** The long form `\\?\UNC\` of a network path is read back as the
      components after it. */
  lemma LongNetworkRead(parts: seq<string>, inner: string, unc: string)
    requires |parts| >= 1 && AllNonEmpty(parts) && AllFree(parts, WindowsDelims)
    requires inner == Join(parts, "\\") && unc == "UNC\\" + inner
    ensures WindowsSet(LongPathPrefix + unc) == Path(Windows, parts, true, true)
  {
    assert StripLongPrefix(LongPathPrefix + unc) == unc by {
      assert (LongPathPrefix + unc)[..|LongPathPrefix|] == LongPathPrefix;
      assert (LongPathPrefix + unc)[|LongPathPrefix|..] == unc;
    }
    assert unc[..4] == "UNC\\" && unc[4..] == inner;
    assert WindowsHead(unc) == Head([], inner, true, true);
    JoinHead(parts, "\\");
    assert parts[0] != [];
    TokenizeOfJoin(parts, '\\', WindowsDelims);
    NonEmptyKeeps(parts);
  }

  /** A short network path of one component comes back relative: "\\x"
      is read as the relative path "x". */
  lemma ShortNetworkSingleIsRelative(x: string)
    requires x != [] && x != "?" && Free(x, WindowsDelims)
    requires WindowsLength([x]) + 2 <= MaxPathWindowsLegacy
    ensures var p := Path(Windows, [x], true, true);
      WindowsSet(StrOf(p, Windows)) == Path(Windows, [x], false, false)
  {
    var p := Path(Windows, [x], true, true);
    assert Root(p) == "\\\\";
    ShortNetworkRead([x]);
  }
}
