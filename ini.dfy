/** The INI reader/writer of `Utility::Ini` (`include/utility/ini.hpp`,
    `src/utility/ini.cpp`); `TIniFile` follows the same rules. The file is
    read as its text, cut into lines the way `getline` cuts them; a lookup
    walks the lines with a current section, and a write rewrites every
    line and stores the result as the file's new text. */
module Inis {
  import opened Wrappers
  import opened Text
  import Core
  import IniValues

  /** The two settings that change how lines are read: `field_separator_`
      and `comment_prefix_list_`. */
  datatype Syntax = Syntax(separator: char, commentPrefixes: seq<string>)

  /** What the constructors set: '=' and the prefixes "#" and ";". */
  const DefaultSyntax: Syntax := Syntax('=', ["#", ";"])

  /** The lines `getline(iss, line, '\n')` produces while neither `eof` nor
      `fail` is set: none for an empty file (copying an empty buffer into
      the stream sets `failbit`), otherwise the pieces between newlines,
      the last one empty when the text ends with a newline. */
  function Lines(text: string): (r: seq<string>)
    ensures text == [] ==> r == []
    ensures text != [] ==> |r| >= 1 && Join(r, "\n") == text
    ensures forall i :: 0 <= i < |r| ==> '\n' !in r[i]
  {
    if text == [] then []
    else
      Core.JoinPieces(text, "\n");
      Core.PiecesFree(text, "\n");
      var r := Core.Pieces(text, "\n");
      forall i | 0 <= i < |r| ensures '\n' !in r[i] {
        NoOccurrence(r[i], '\n');
      }
      r
  }

  /** A character the search for its one-character string does not find
      is absent. */
  lemma NoOccurrence(s: string, c: char)
    requires FindFrom(s, [c], 0).None?
    ensures c !in s
  {
    FindFromChar(s, c, 0);
  }

  /** Cutting the joined lines again gives them back. */
  lemma LinesOfJoin(lines: seq<string>)
    requires |lines| >= 1 && Join(lines, "\n") != []
    requires forall i :: 0 <= i < |lines| ==> '\n' !in lines[i]
    ensures Lines(Join(lines, "\n")) == lines
  {
    Core.PiecesOfJoin(lines, "\n");
  }

  // ------------------------------------------------------------ one line

  /** Some comment prefix starts `line`. */
  predicate IsComment(line: string, prefixes: seq<string>) {
    exists i :: 0 <= i < |prefixes| && prefixes[i] <= line
  }

  /** `is_ignore_line`: empty, or a comment. */
  predicate IsIgnoreLine(line: string, prefixes: seq<string>) {
    line == [] || IsComment(line, prefixes)
  }

  /** `is_ignore_line(line)`: tries the prefixes in order and stops at the
      first one that `line.find` reports at position 0. */
  method IgnoreLine(line: string, prefixes: seq<string>) returns (ignore: bool)
    ensures ignore == IsIgnoreLine(line, prefixes)
  {
    if |line| == 0 {
      return true;
    }
    for i := 0 to |prefixes|
      invariant forall j :: 0 <= j < i ==> !(prefixes[j] <= line)
    {
      FindAtStart(line, prefixes[i]);
      if FindFrom(line, prefixes[i], 0) == Some(0) {
        return true;
      }
    }
    return false;
  }

  /** What a trimmed line is. */
  datatype LineKind = Ignored | Header(name: string) | Field(name: string, value: string)

  /** The four parse failures; the source throws them with the line
      number in the message. */
  datatype ErrorKind = SectionNotClosed | SectionEmpty | FieldWithoutSection | NoSeparator

  datatype IniError = IniError(kind: ErrorKind, lineNumber: nat)

  /** How the loop body reads one trimmed line while `current` is the
      current section: skipped lines first, then a header `[name]` ended by
      the first ']', then a field split at the first separator, name and
      value trimmed. */
  function Classify(line: string, syntax: Syntax, current: string): Result<LineKind, ErrorKind> {
    if IsIgnoreLine(line, syntax.commentPrefixes) then Ok(Ignored)
    else if line[0] == '[' then
      match FindFrom(line, "]", 0)
      case None => Err(SectionNotClosed)
      case Some(pos) => if pos == 1 then Err(SectionEmpty) else Ok(Header(line[1..pos]))
    else if current == [] then Err(FieldWithoutSection)
    else
      match FindFirstOf(line, {syntax.separator}, 0)
      case None => Err(NoSeparator)
      case Some(pos) => Ok(Field(Trim(line[..pos]), Trim(line[pos + 1..])))
  }

  /** A header line fails exactly when it has no ']' at all, or when the
      first ']' comes straight after the '['. */
  lemma HeaderErrors(line: string, syntax: Syntax, current: string)
    requires !IsIgnoreLine(line, syntax.commentPrefixes) && line[0] == '['
    ensures Classify(line, syntax, current) == Err(SectionNotClosed) <==> ']' !in line
    ensures Classify(line, syntax, current) == Err(SectionEmpty) <==> |line| >= 2 && line[1] == ']'
  {
    FindFromChar(line, ']', 0);
  }

  /** A header line names the text between its '[' and its first ']'. */
  lemma HeaderName(line: string, syntax: Syntax, current: string, name: string)
    requires Classify(line, syntax, current) == Ok(Header(name))
    ensures !IsIgnoreLine(line, syntax.commentPrefixes) && line[0] == '['
    ensures |name| >= 1 && |line| >= |name| + 2
    ensures line[1..|name| + 1] == name && line[|name| + 1] == ']' && ']' !in name
  {
    FindFromChar(line, ']', 0);
    var pos := FindFirstOf(line, {']'}, 0).value;
    forall k | 0 <= k < |name| ensures name[k] != ']' {
      assert name[k] == line[k + 1];
    }
  }

  /** Every other line that is not skipped is a field, and fails exactly
      when no section has been read yet or the separator is missing. */
  lemma FieldErrors(line: string, syntax: Syntax, current: string)
    requires !IsIgnoreLine(line, syntax.commentPrefixes) && line[0] != '['
    ensures Classify(line, syntax, current) == Err(FieldWithoutSection) <==> current == []
    ensures Classify(line, syntax, current) == Err(NoSeparator) <==> current != [] && syntax.separator !in line
    ensures Classify(line, syntax, current).Ok? ==> Classify(line, syntax, current).value.Field?
  {
  }

  /** A field line is split at its first separator, both sides trimmed. */
  lemma FieldParts(line: string, syntax: Syntax, current: string, name: string, value: string)
    requires Classify(line, syntax, current) == Ok(Field(name, value))
    ensures !IsIgnoreLine(line, syntax.commentPrefixes) && line[0] != '[' && current != []
    ensures exists p :: 0 <= p < |line| && line[p] == syntax.separator && syntax.separator !in line[..p]
                 && name == Trim(line[..p]) && value == Trim(line[p + 1..])
  {
    var p := FindFirstOf(line, {syntax.separator}, 0).value;
    forall k | 0 <= k < p ensures line[..p][k] != syntax.separator {
      assert line[..p][k] == line[k];
    }
  }

  // ------------------------------------------------------------- lookup

  /** `try_get_field` over `lines`, `number` lines having been read before
      them: `Some(value)` for `true`, `None` for `false`, `Err` for the
      `runtime_error`. The first field of the target section with the
      target name decides; an empty value reads as `false`. */
  function LookupIn(lines: seq<string>, number: nat, syntax: Syntax, current: string, section: string, field: string)
    : (r: Result<Option<string>, IniError>)
    decreases |lines|
    ensures r.Ok? && r.value.Some? ==> r.value.value != [] && Trim(r.value.value) == r.value.value
    ensures r.Err? ==> number < r.error.lineNumber <= number + |lines|
  {
    if lines == [] then Ok(None)
    else
      var line := Trim(lines[0]);
      match Classify(line, syntax, current)
      case Err(kind) => Err(IniError(kind, number + 1))
      case Ok(Ignored) => LookupIn(lines[1..], number + 1, syntax, current, section, field)
      case Ok(Header(name)) => LookupIn(lines[1..], number + 1, syntax, name, section, field)
      case Ok(Field(name, value)) =>
        if current == section && name == field then
          TrimIdempotent(line[FindFirstOf(line, {syntax.separator}, 0).value + 1..]);
          Ok(if value != [] then Some(value) else None)
        else LookupIn(lines[1..], number + 1, syntax, current, section, field)
  }

  /** One step of `LookupIn`, after the lines already read. */
  lemma LookupStep(lines: seq<string>, number: nat, syntax: Syntax, current: string, section: string, field: string)
    requires number < |lines|
    ensures var line := Trim(lines[number]);
      LookupIn(lines[number..], number, syntax, current, section, field) ==
      match Classify(line, syntax, current)
      case Err(kind) => Err(IniError(kind, number + 1))
      case Ok(Ignored) => LookupIn(lines[number + 1..], number + 1, syntax, current, section, field)
      case Ok(Header(name)) => LookupIn(lines[number + 1..], number + 1, syntax, name, section, field)
      case Ok(Field(name, value)) =>
        if current == section && name == field then Ok(if value != [] then Some(value) else None)
        else LookupIn(lines[number + 1..], number + 1, syntax, current, section, field)
  {
    assert lines[number..][1..] == lines[number + 1..];
  }

  /** The result of `try_get_field(section, field, value)` on the text of
      the file. */
  function Lookup(text: string, syntax: Syntax, section: string, field: string): Result<Option<string>, IniError> {
    LookupIn(Lines(text), 0, syntax, [], section, field)
  }

  /** The body of the `try_get_field` loop for one trimmed line: skip it,
      read a header up to the first ']', or split a field at the first
      separator; the source throws where this returns `Err`. */
  method ReadLine(line: string, syntax: Syntax, current: string) returns (kind: Result<LineKind, ErrorKind>)
    ensures kind == Classify(line, syntax, current)
  {
    var ignore := IgnoreLine(line, syntax.commentPrefixes);
    if ignore {
      return Ok(Ignored);
    }
    if line[0] == '[' {
      var pos := FindFrom(line, "]", 0);
      if pos.None? {
        return Err(SectionNotClosed);
      }
      if pos.value == 1 {
        return Err(SectionEmpty);
      }
      return Ok(Header(line[1..pos.value]));
    }
    if current == "" {
      return Err(FieldWithoutSection);
    }
    var pos := FindFirstOf(line, {syntax.separator}, 0);
    if pos.None? {
      return Err(NoSeparator);
    }
    var name := Trim(line[..pos.value]);
    var value := Trim(line[pos.value + 1..]);
    return Ok(Field(name, value));
  }

  /** `try_get_field(section, field, value)`: read the lines in order with
      the current section, counting them for the error messages, until the
      target field of the target section turns up. */
  method TryGetField(text: string, syntax: Syntax, section: string, field: string)
    returns (r: Result<Option<string>, IniError>)
    ensures r == Lookup(text, syntax, section, field)
  {
    var lines := Lines(text);
    var number := 0;
    var current := "";
    while number < |lines|
      invariant number <= |lines|
      invariant Lookup(text, syntax, section, field) == LookupIn(lines[number..], number, syntax, current, section, field)
    {
      var line := Trim(lines[number]);
      LookupStep(lines, number, syntax, current, section, field);
      number := number + 1;
      var kind := ReadLine(line, syntax, current);
      match kind {
        case Err(e) =>
          return Err(IniError(e, number));
        case Ok(Ignored) =>
        case Ok(Header(name)) =>
          current := name;
        case Ok(Field(name, value)) =>
          if current == section && name == field {
            return Ok(if |value| != 0 then Some(value) else None);
          }
      }
    }
    return Ok(None);
  }

  // ------------------------------------------------------------ rewrite

  /** `found_mode` of `set_field`. */
  datatype FoundMode = NoMatch | SectionMatch | BothMatch

  /** The field `set_field` writes. */
  datatype Target = Target(section: string, field: string, value: string)

  /** `field<sep>value`, the line `set_field` writes for the target. */
  function FieldLine(t: Target, syntax: Syntax): string {
    t.field + [syntax.separator] + t.value
  }

  /** `[section]`. */
  function HeaderLine(section: string): string {
    "[" + section + "]"
  }

  /** What `set_field` adds after the last line: the section and the field
      when no header named the section, the field alone when the section
      was the last one read and held no such field, nothing otherwise. */
  function Tail(t: Target, syntax: Syntax, mode: FoundMode): seq<string> {
    match mode
    case NoMatch => [HeaderLine(t.section), FieldLine(t, syntax)]
    case SectionMatch => [FieldLine(t, syntax)]
    case BothMatch => []
  }

  /** `lines` put in front of a successful rewrite. */
  function Prepend(lines: seq<string>, r: Result<seq<string>, IniError>): (p: Result<seq<string>, IniError>)
    ensures p.Err? <==> r.Err?
    ensures r.Ok? ==> p.value == lines + r.value
    ensures r.Err? ==> p.error == r.error
  {
    match r
    case Ok(rest) => Ok(lines + rest)
    case Err(e) => Err(e)
  }

  /** What `set_field` does with one trimmed line of kind `kind` read in
      `mode` with section `current`: the lines it writes for it, and the
      section and mode after it. A field of the target section with the
      target name becomes the field line; a header that ends the target
      section while no field matched there is preceded by the field line. */
  function Advance(line: string, kind: LineKind, syntax: Syntax, current: string, mode: FoundMode, t: Target)
    : (r: (seq<string>, string, FoundMode))
    ensures |r.0| >= 1
    ensures r.1 == if kind.Header? then kind.name else current
  {
    match kind
    case Ignored => ([line], current, mode)
    case Header(name) =>
      if name == t.section then ([line], name, SectionMatch)
      else if mode == SectionMatch then ([FieldLine(t, syntax), line], name, BothMatch)
      else ([line], name, mode)
    case Field(name, _) =>
      if current == t.section && name == t.field then ([FieldLine(t, syntax)], current, BothMatch)
      else ([line], current, mode)
  }

  lemma PrependTwice(first: seq<string>, second: seq<string>, r: Result<seq<string>, IniError>)
    ensures Prepend(first, Prepend(second, r)) == Prepend(first + second, r)
  {
    if r.Ok? {
      assert first + (second + r.value) == (first + second) + r.value;
    }
  }

  /** The lines `set_field` writes for `lines`, `number` lines having been
      read before them in `mode` with section `current`: every line
      trimmed and passed through `Advance`, then `Tail`. The errors are
      those of `try_get_field`, checked on every line. */
  function RewriteIn(lines: seq<string>, number: nat, syntax: Syntax, current: string, mode: FoundMode, t: Target)
    : Result<seq<string>, IniError>
    decreases |lines|
  {
    if lines == [] then Ok(Tail(t, syntax, mode))
    else
      var line := Trim(lines[0]);
      match Classify(line, syntax, current)
      case Err(kind) => Err(IniError(kind, number + 1))
      case Ok(kind) =>
        var (out, current', mode') := Advance(line, kind, syntax, current, mode, t);
        Prepend(out, RewriteIn(lines[1..], number + 1, syntax, current', mode', t))
  }

  /** The text `set_field` stores: the rewritten lines, each followed by a
      newline, the last newline popped. */
  function SetFieldText(text: string, syntax: Syntax, t: Target): Result<string, IniError> {
    match RewriteIn(Lines(text), 0, syntax, [], NoMatch, t)
    case Ok(out) => Ok(Join(out, "\n"))
    case Err(e) => Err(e)
  }

  /** One step of `set_field`'s loop: a line that fails to parse ends the
      rewrite with its error; any other line moves what it writes to the
      emitted lines. */
  lemma RewriteStep(lines: seq<string>, number: nat, syntax: Syntax, current: string, mode: FoundMode, t: Target,
                    emitted: seq<string>, kind: Result<LineKind, ErrorKind>)
    requires number < |lines|
    requires kind == Classify(Trim(lines[number]), syntax, current)
    ensures kind.Err? ==>
      Prepend(emitted, RewriteIn(lines[number..], number, syntax, current, mode, t)) == Err(IniError(kind.error, number + 1))
    ensures kind.Ok? ==>
      var (out, current', mode') := Advance(Trim(lines[number]), kind.value, syntax, current, mode, t);
      Prepend(emitted, RewriteIn(lines[number..], number, syntax, current, mode, t))
      == Prepend(emitted + out, RewriteIn(lines[number + 1..], number + 1, syntax, current', mode', t))
  {
    assert lines[number..][1..] == lines[number + 1..];
    if kind.Ok? {
      var (out, current', mode') := Advance(Trim(lines[number]), kind.value, syntax, current, mode, t);
      PrependTwice(emitted, out, RewriteIn(lines[number + 1..], number + 1, syntax, current', mode', t));
    }
  }

  /** Emitting more lines into the output stream. */
  lemma {:induction false} TerminatedAppend(emitted: seq<string>, more: seq<string>)
    ensures Core.Terminated(emitted + more, "\n") == Core.Terminated(emitted, "\n") + Core.Terminated(more, "\n")
    decreases |more|
  {
    if more == [] {
      assert emitted + more == emitted;
    } else {
      var init := more[..|more| - 1];
      var last := more[|more| - 1];
      var all := emitted + more;
      assert all[..|all| - 1] == emitted + init;
      assert all[|all| - 1] == last;
      TerminatedAppend(emitted, init);
      assert Core.Terminated(all, "\n") == Core.Terminated(emitted + init, "\n") + last + "\n";
      assert Core.Terminated(more, "\n") == Core.Terminated(init, "\n") + last + "\n";
    }
  }

  /** One or two lines, each followed by a newline. */
  lemma TerminatedShort(a: string, b: string)
    ensures Core.Terminated([a], "\n") == a + "\n"
    ensures Core.Terminated([a, b], "\n") == a + "\n" + b + "\n"
  {
    assert [a][..0] == [];
    assert [a, b][..1] == [a];
  }

  lemma PrependNothing(r: Result<seq<string>, IniError>)
    ensures Prepend([], r) == r
  {
    if r.Ok? {
      assert [] + r.value == r.value;
    }
  }

  /** What `Tail` adds to the output stream. */
  lemma TerminatedTail(t: Target, syntax: Syntax, mode: FoundMode)
    ensures Core.Terminated(Tail(t, syntax, mode), "\n") ==
      match mode
      case NoMatch => "[" + t.section + "]" + "\n" + FieldLine(t, syntax) + "\n"
      case SectionMatch => FieldLine(t, syntax) + "\n"
      case BothMatch => ""
  {
    TerminatedShort(HeaderLine(t.section), FieldLine(t, syntax));
    TerminatedShort(FieldLine(t, syntax), []);
  }

  /** The stream holds the output lines each followed by a newline; with
      its last character popped it is their join. */
  lemma PopLastNewline(emitted: seq<string>, tail: seq<string>, oss: string, extra: string)
    requires oss == Core.Terminated(emitted, "\n") && extra == Core.Terminated(tail, "\n")
    requires |emitted + tail| >= 1
    ensures |oss + extra| >= 1 && (oss + extra)[..|oss + extra| - 1] == Join(emitted + tail, "\n")
  {
    TerminatedAppend(emitted, tail);
    Core.TerminatedIsJoin(emitted + tail, "\n");
  }

  /** The body of the `set_field` loop for one trimmed line of kind
      `kind`: update the section and the mode, and give the text that goes
      to the output stream before the newline. */
  method WriteLine(line: string, kind: LineKind, syntax: Syntax, current: string, mode: FoundMode, t: Target)
    returns (written: string, current': string, mode': FoundMode, ghost out: seq<string>)
    ensures (out, current', mode') == Advance(line, kind, syntax, current, mode, t)
    ensures Core.Terminated(out, "\n") == written + "\n"
  {
    written, current', mode', out := line, current, mode, [line];
    match kind {
      case Ignored =>
      case Header(name) =>
        current' := name;
        if current' == t.section {
          mode' := SectionMatch;
        } else if mode == SectionMatch {
          out := [FieldLine(t, syntax), line];
          written := FieldLine(t, syntax) + "\n" + line;
          mode' := BothMatch;
        }
      case Field(name, _) =>
        if current == t.section && name == t.field {
          written := FieldLine(t, syntax);
          out := [written];
          mode' := BothMatch;
        }
    }
    TerminatedShort(line, FieldLine(t, syntax));
    TerminatedShort(FieldLine(t, syntax), line);
  }

  /** The end of `set_field`: the section header and the field line when
      no header named the section, the field line alone when the target
      section was the last one read and held no such field. */
  method AppendMissing(oss: string, syntax: Syntax, mode: FoundMode, t: Target) returns (oss': string)
    ensures oss' == oss + Core.Terminated(Tail(t, syntax, mode), "\n")
  {
    TerminatedTail(t, syntax, mode);
    oss' := oss;
    if mode == NoMatch {
      oss' := oss' + "[" + t.section + "]" + "\n";
      oss' := oss' + FieldLine(t, syntax) + "\n";
    } else if mode == SectionMatch {
      oss' := oss' + FieldLine(t, syntax) + "\n";
    }
  }

  /** `set_field(section, field, value)`: every line is trimmed, checked
      like in `try_get_field`, possibly replaced or preceded by the field
      line, and written to the output stream with a newline; the section
      or the field is appended when missing, and the last newline is
      popped before the text is stored. */
  method SetField(text: string, syntax: Syntax, t: Target) returns (r: Result<string, IniError>)
    ensures r == SetFieldText(text, syntax, t)
  {
    var lines := Lines(text);
    var oss := "";
    ghost var emitted: seq<string> := [];
    ghost var whole := RewriteIn(lines, 0, syntax, [], NoMatch, t);
    PrependNothing(whole);
    var mode := NoMatch;
    var number := 0;
    var current := "";
    while number < |lines|
      invariant number <= |lines|
      invariant oss == Core.Terminated(emitted, "\n")
      invariant |emitted| >= number
      invariant number == 0 ==> mode == NoMatch
      invariant whole == Prepend(emitted, RewriteIn(lines[number..], number, syntax, current, mode, t))
    {
      var line := Trim(lines[number]);
      var kind := ReadLine(line, syntax, current);
      RewriteStep(lines, number, syntax, current, mode, t, emitted, kind);
      number := number + 1;
      if kind.Err? {
        return Err(IniError(kind.error, number));
      }
      ghost var out: seq<string>;
      line, current, mode, out := WriteLine(line, kind.value, syntax, current, mode, t);
      TerminatedAppend(emitted, out);
      oss := oss + line + "\n";
      emitted := emitted + out;
    }
    ghost var before := oss;
    oss := AppendMissing(oss, syntax, mode, t);
    ghost var tail := Tail(t, syntax, mode);
    assert lines[number..] == [];
    assert whole == Ok(emitted + tail);
    SetFieldDone(text, syntax, t, whole, emitted, tail, before, oss);
    return Ok(oss[..|oss| - 1]);
  }

  /** After the last line of `set_field`'s loop, the stream with the
      missing lines appended and its last character popped is the text
      `SetFieldText` gives. */
  lemma SetFieldDone(text: string, syntax: Syntax, t: Target, whole: Result<seq<string>, IniError>,
                     emitted: seq<string>, tail: seq<string>, before: string, oss: string)
    requires whole == RewriteIn(Lines(text), 0, syntax, [], NoMatch, t) && whole == Ok(emitted + tail)
    requires |emitted + tail| >= 1
    requires before == Core.Terminated(emitted, "\n") && oss == before + Core.Terminated(tail, "\n")
    ensures |oss| >= 1 && SetFieldText(text, syntax, t) == Ok(oss[..|oss| - 1])
  {
    PopLastNewline(emitted, tail, before, Core.Terminated(tail, "\n"));
  }

  // ------------------------------------------------------- round trips

  /** A target written as plain tokens: a section without ']' whose header
      is not a comment, a field name without the separator that does not
      look like a header, and no surrounding blanks or newlines; the
      separator itself is not blank. */
  predicate PlainTarget(t: Target, syntax: Syntax) {
    && t.section != [] && ']' !in t.section && '\n' !in t.section
    && !IsComment(HeaderLine(t.section), syntax.commentPrefixes)
    && t.field != [] && Trim(t.field) == t.field && t.field[0] != '['
    && syntax.separator !in t.field && '\n' !in t.field
    && Trim(t.value) == t.value && '\n' !in t.value
    && !IsSpace(syntax.separator)
    && !IsComment(FieldLine(t, syntax), syntax.commentPrefixes)
  }

  /** The header `set_field` appends reads back as the target section. */
  lemma HeaderLineKind(t: Target, syntax: Syntax, current: string)
    requires PlainTarget(t, syntax)
    ensures Trim(HeaderLine(t.section)) == HeaderLine(t.section)
    ensures Classify(HeaderLine(t.section), syntax, current) == Ok(Header(t.section))
  {
    var h := HeaderLine(t.section);
    TrimNoOp(h);
    FindFromChar(h, ']', 0);
    assert h[|t.section| + 1] == ']';
    forall k | 0 <= k < |t.section| + 1 ensures h[k] != ']' {
      if k > 0 {
        assert h[k] == t.section[k - 1];
      }
    }
    assert FindFirstOf(h, {']'}, 0) == Some(|t.section| + 1);
    assert h[1..|t.section| + 1] == t.section;
  }

  /** The field line has no surrounding blanks. */
  lemma FieldLineTrimmed(t: Target, syntax: Syntax)
    requires PlainTarget(t, syntax)
    ensures Trim(FieldLine(t, syntax)) == FieldLine(t, syntax)
  {
    var f := FieldLine(t, syntax);
    TrimIsSlice(t.field);
    TrimIsSlice(t.value);
    assert f[0] == t.field[0];
    assert f[|f| - 1] == if t.value == [] then syntax.separator else t.value[|t.value| - 1];
    TrimNoOp(f);
  }

  /** The field line `set_field` writes reads back as the target field,
      under any section. */
  lemma FieldLineKind(t: Target, syntax: Syntax, current: string)
    requires PlainTarget(t, syntax) && current != []
    ensures Trim(FieldLine(t, syntax)) == FieldLine(t, syntax)
    ensures Classify(FieldLine(t, syntax), syntax, current) == Ok(Field(t.field, t.value))
  {
    FieldLineTrimmed(t, syntax);
    var f := FieldLine(t, syntax);
    var n := |t.field|;
    assert !IsIgnoreLine(f, syntax.commentPrefixes);
    assert f[0] != '[';
    forall k | 0 <= k < n ensures f[k] !in {syntax.separator} {
      assert f[k] == t.field[k];
    }
    assert f[n] == syntax.separator;
    var pos := FindFirstOf(f, {syntax.separator}, 0);
    assert pos == Some(n);
    assert f[..n] == t.field;
    assert f[n + 1..] == t.value;
  }

  /** A line already trimmed reads the same when trimmed again. */
  lemma TrimmedKind(raw: string, syntax: Syntax, current: string)
    ensures Classify(Trim(Trim(raw)), syntax, current) == Classify(Trim(raw), syntax, current)
  {
    TrimIdempotent(raw);
  }

  /** The state of `set_field` before it has written the target: outside
      the target section with no match yet, or inside it. */
  predicate Pending(t: Target, current: string, mode: FoundMode) {
    match mode
    case NoMatch => current != t.section
    case SectionMatch => current == t.section
    case BothMatch => false
  }

  /** What a lookup of the target gives once it has been written. */
  function Written(t: Target): Result<Option<string>, IniError> {
    Ok(if t.value != [] then Some(t.value) else None)
  }

  /** A lookup reading a trimmed line that parses: it stops at a matching
      field, and otherwise goes on with the section the line leaves. */
  lemma LookupCons(line: string, rest: seq<string>, m: nat, syntax: Syntax, current: string, section: string, field: string)
    requires Trim(line) == line && Classify(line, syntax, current).Ok?
    ensures var kind := Classify(line, syntax, current).value;
      LookupIn([line] + rest, m, syntax, current, section, field) ==
        if kind.Field? && current == section && kind.name == field then Ok(if kind.value != [] then Some(kind.value) else None)
        else LookupIn(rest, m + 1, syntax, if kind.Header? then kind.name else current, section, field)
  {
    assert ([line] + rest)[0] == line;
    assert ([line] + rest)[1..] == rest;
  }

  /** The same for the first of the lines read from the file, which is
      trimmed first; `rest`, `n'` and `next` are what is left to read, the
      count after it and the section after it. */
  lemma LookupFirst(lines: seq<string>, number: nat, syntax: Syntax, current: string, section: string, field: string,
                    kind: LineKind, rest: seq<string>, n': nat, next: string)
    requires lines != [] && Classify(Trim(lines[0]), syntax, current) == Ok(kind)
    requires rest == lines[1..] && n' == number + 1 && next == if kind.Header? then kind.name else current
    ensures LookupIn(lines, number, syntax, current, section, field) ==
      if kind.Field? && current == section && kind.name == field then Ok(if kind.value != [] then Some(kind.value) else None)
      else LookupIn(rest, n', syntax, next, section, field)
  {
  }

  /** A successful rewrite of some lines is what `Advance` writes for the
      first one followed by the successful rewrite of the others. */
  lemma RewriteHead(lines: seq<string>, number: nat, syntax: Syntax, current: string, mode: FoundMode, t: Target)
    requires lines != [] && RewriteIn(lines, number, syntax, current, mode, t).Ok?
    ensures Classify(Trim(lines[0]), syntax, current).Ok?
    ensures var a := Advance(Trim(lines[0]), Classify(Trim(lines[0]), syntax, current).value, syntax, current, mode, t);
      && RewriteIn(lines[1..], number + 1, syntax, a.1, a.2, t).Ok?
      && RewriteIn(lines, number, syntax, current, mode, t).value == a.0 + RewriteIn(lines[1..], number + 1, syntax, a.1, a.2, t).value
  {
  }

  /** A lookup of the target stops at its own field line in its section. */
  lemma FieldFirstFound(rest: seq<string>, m: nat, syntax: Syntax, current: string, t: Target)
    requires PlainTarget(t, syntax) && current == t.section
    ensures LookupIn([FieldLine(t, syntax)] + rest, m, syntax, current, t.section, t.field) == Written(t)
  {
    FieldLineKind(t, syntax, current);
    LookupCons(FieldLine(t, syntax), rest, m, syntax, current, t.section, t.field);
  }

  /** One line of `set_field` from a pending state: a lookup of the target
      in what it writes followed by `rest` finds the written value, given
      that it does so in `rest` whenever the state stays pending. */
  lemma StepThenLookup(line: string, kind: LineKind, rest: seq<string>, m: nat, syntax: Syntax,
                       current: string, mode: FoundMode, t: Target)
    requires PlainTarget(t, syntax) && Pending(t, current, mode)
    requires Trim(line) == line && Classify(line, syntax, current) == Ok(kind)
    requires var a := Advance(line, kind, syntax, current, mode, t);
      Pending(t, a.1, a.2) ==>
        LookupIn(rest, m + 1, syntax, a.1, t.section, t.field) == Written(t) && FieldLine(t, syntax) in rest
    ensures var a := Advance(line, kind, syntax, current, mode, t);
      LookupIn(a.0 + rest, m, syntax, current, t.section, t.field) == Written(t) && FieldLine(t, syntax) in a.0 + rest
  {
    var a := Advance(line, kind, syntax, current, mode, t);
    var f := FieldLine(t, syntax);
    if kind.Field? && current == t.section && kind.name == t.field {
      assert a.0 == [f];
      FieldFirstFound(rest, m, syntax, current, t);
    } else if kind.Header? && kind.name != t.section && mode == SectionMatch {
      assert a.0 == [f, line];
      assert a.0 + rest == [f] + ([line] + rest);
      FieldFirstFound([line] + rest, m, syntax, current, t);
    } else {
      assert a.0 == [line];
      LookupCons(line, rest, m, syntax, current, t.section, t.field);
    }
  }

  /** Looking the target up in what `set_field` wrote from a pending state
      finds the written value, and the field line is among the lines. */
  lemma {:induction false} RewriteThenLookup(lines: seq<string>, number: nat, m: nat, syntax: Syntax,
                                             current: string, mode: FoundMode, t: Target)
    requires PlainTarget(t, syntax) && Pending(t, current, mode)
    requires RewriteIn(lines, number, syntax, current, mode, t).Ok?
    ensures var out := RewriteIn(lines, number, syntax, current, mode, t).value;
      LookupIn(out, m, syntax, current, t.section, t.field) == Written(t) && FieldLine(t, syntax) in out
    decreases |lines|
  {
    if lines == [] {
      TailThenLookup(m, syntax, current, mode, t);
    } else {
      RewriteHead(lines, number, syntax, current, mode, t);
      var line := Trim(lines[0]);
      var kind := Classify(line, syntax, current).value;
      var a := Advance(line, kind, syntax, current, mode, t);
      if Pending(t, a.1, a.2) {
        RewriteThenLookup(lines[1..], number + 1, m + 1, syntax, a.1, a.2, t);
      }
      TrimIdempotent(lines[0]);
      StepThenLookup(line, kind, RewriteIn(lines[1..], number + 1, syntax, a.1, a.2, t).value, m, syntax, current, mode, t);
    }
  }

  /** The lines `set_field` adds at the end hold the target. */
  lemma TailThenLookup(m: nat, syntax: Syntax, current: string, mode: FoundMode, t: Target)
    requires PlainTarget(t, syntax) && Pending(t, current, mode)
    ensures var out := Tail(t, syntax, mode);
      LookupIn(out, m, syntax, current, t.section, t.field) == Written(t) && FieldLine(t, syntax) in out
  {
    var f := FieldLine(t, syntax);
    assert [f] + [] == [f];
    if mode == NoMatch {
      HeaderLineKind(t, syntax, current);
      FieldLineKind(t, syntax, t.section);
      assert Tail(t, syntax, mode) == [HeaderLine(t.section)] + [f];
      LookupCons(HeaderLine(t.section), [f], m, syntax, current, t.section, t.field);
      LookupCons(f, [], m + 1, syntax, t.section, t.section, t.field);
    } else {
      FieldLineKind(t, syntax, current);
      LookupCons(f, [], m, syntax, current, t.section, t.field);
    }
  }

  /** The lines `set_field` adds at the end hold nothing else. */
  lemma TailKeepsOthers(m: nat, syntax: Syntax, current: string, mode: FoundMode, t: Target, section: string, field: string)
    requires PlainTarget(t, syntax)
    requires mode == NoMatch ==> current != t.section
    requires mode == SectionMatch ==> current == t.section
    requires section != t.section || field != t.field
    ensures LookupIn(Tail(t, syntax, mode), m, syntax, current, section, field) == Ok(None)
  {
    var f := FieldLine(t, syntax);
    assert [f] + [] == [f];
    if mode == NoMatch {
      HeaderLineKind(t, syntax, current);
      FieldLineKind(t, syntax, t.section);
      assert Tail(t, syntax, mode) == [HeaderLine(t.section)] + [f];
      LookupCons(HeaderLine(t.section), [f], m, syntax, current, section, field);
      LookupCons(f, [], m + 1, syntax, t.section, section, field);
    } else if mode == SectionMatch {
      FieldLineKind(t, syntax, current);
      LookupCons(f, [], m, syntax, current, section, field);
    }
  }

  /** A lookup of another key passes over the field line of the target. */
  lemma FieldFirstSkipped(rest: seq<string>, m: nat, syntax: Syntax, current: string, t: Target,
                          section: string, field: string)
    requires PlainTarget(t, syntax) && current == t.section
    requires section != t.section || field != t.field
    ensures LookupIn([FieldLine(t, syntax)] + rest, m, syntax, current, section, field)
            == LookupIn(rest, m + 1, syntax, current, section, field)
  {
    FieldLineKind(t, syntax, current);
    LookupCons(FieldLine(t, syntax), rest, m, syntax, current, section, field);
  }

  /** One line of `set_field`: a lookup of another key in what it writes
      followed by `rest` behaves like a lookup in the line alone followed
      by `rest`. */
  lemma StepKeepsOthers(line: string, kind: LineKind, rest: seq<string>, m: nat, syntax: Syntax,
                        current: string, mode: FoundMode, t: Target, section: string, field: string,
                        out: seq<string>, next: string, m': nat)
    requires PlainTarget(t, syntax)
    requires mode == SectionMatch ==> current == t.section
    requires section != t.section || field != t.field
    requires Trim(line) == line && Classify(line, syntax, current) == Ok(kind)
    requires var a := Advance(line, kind, syntax, current, mode, t); out == a.0 && next == a.1 && m' == m + |out|
    ensures LookupIn(out + rest, m, syntax, current, section, field) ==
        if kind.Field? && current == section && kind.name == field then Ok(if kind.value != [] then Some(kind.value) else None)
        else LookupIn(rest, m', syntax, next, section, field)
  {
    if kind.Field? && current == t.section && kind.name == t.field {
      FieldFirstSkipped(rest, m, syntax, current, t, section, field);
      StepReplaced(line, kind, rest, m, syntax, current, mode, t, section, field, out, next, m');
    } else if kind.Header? && kind.name != t.section && mode == SectionMatch {
      InsertedKeepsOthers(line, kind, rest, m, syntax, current, t, section, field);
      StepInserted(line, kind, rest, m, syntax, current, mode, t, section, field, out, next, m');
    } else {
      LookupCons(line, rest, m, syntax, current, section, field);
      StepCopied(line, kind, rest, m, syntax, current, mode, t, section, field, out, next, m');
    }
  }

  /** `StepKeepsOthers` for the field line that replaces the target's own. */
  lemma StepReplaced(line: string, kind: LineKind, rest: seq<string>, m: nat, syntax: Syntax,
                     current: string, mode: FoundMode, t: Target, section: string, field: string,
                     out: seq<string>, next: string, m': nat)
    requires var a := Advance(line, kind, syntax, current, mode, t); out == a.0 && next == a.1 && m' == m + |out|
    requires kind.Field? && current == t.section && kind.name == t.field
    requires LookupIn([FieldLine(t, syntax)] + rest, m, syntax, current, section, field)
             == LookupIn(rest, m + 1, syntax, current, section, field)
    ensures LookupIn(out + rest, m, syntax, current, section, field) == LookupIn(rest, m', syntax, next, section, field)
  {
    assert out == [FieldLine(t, syntax)] && next == current;
  }

  /** `StepKeepsOthers` for the field line put before the header that ends
      the target section. */
  lemma StepInserted(line: string, kind: LineKind, rest: seq<string>, m: nat, syntax: Syntax,
                     current: string, mode: FoundMode, t: Target, section: string, field: string,
                     out: seq<string>, next: string, m': nat)
    requires var a := Advance(line, kind, syntax, current, mode, t); out == a.0 && next == a.1 && m' == m + |out|
    requires kind.Header? && kind.name != t.section && mode == SectionMatch
    requires LookupIn([FieldLine(t, syntax), line] + rest, m, syntax, current, section, field)
             == LookupIn(rest, m + 2, syntax, kind.name, section, field)
    ensures LookupIn(out + rest, m, syntax, current, section, field) == LookupIn(rest, m', syntax, next, section, field)
  {
    assert out == [FieldLine(t, syntax), line] && next == kind.name;
  }

  /** `StepKeepsOthers` for a line copied as it is. */
  lemma StepCopied(line: string, kind: LineKind, rest: seq<string>, m: nat, syntax: Syntax,
                   current: string, mode: FoundMode, t: Target, section: string, field: string,
                   out: seq<string>, next: string, m': nat)
    requires var a := Advance(line, kind, syntax, current, mode, t); out == a.0 && next == a.1 && m' == m + |out|
    requires !(kind.Field? && current == t.section && kind.name == t.field)
    requires !(kind.Header? && kind.name != t.section && mode == SectionMatch)
    requires LookupIn([line] + rest, m, syntax, current, section, field) ==
        if kind.Field? && current == section && kind.name == field then Ok(if kind.value != [] then Some(kind.value) else None)
        else LookupIn(rest, m + 1, syntax, if kind.Header? then kind.name else current, section, field)
    ensures LookupIn(out + rest, m, syntax, current, section, field) ==
        if kind.Field? && current == section && kind.name == field then Ok(if kind.value != [] then Some(kind.value) else None)
        else LookupIn(rest, m', syntax, next, section, field)
  {
    assert out == [line] && next == if kind.Header? then kind.name else current;
  }

  /** The field line put before the header that ends the target section is
      passed over by a lookup of another key. */
  lemma InsertedKeepsOthers(line: string, kind: LineKind, rest: seq<string>, m: nat, syntax: Syntax,
                            current: string, t: Target, section: string, field: string)
    requires PlainTarget(t, syntax)
    requires section != t.section || field != t.field
    requires kind.Header? && current == t.section
    requires Trim(line) == line && Classify(line, syntax, current) == Ok(kind)
    ensures LookupIn([FieldLine(t, syntax), line] + rest, m, syntax, current, section, field)
            == LookupIn(rest, m + 2, syntax, kind.name, section, field)
  {
    var f := FieldLine(t, syntax);
    assert [f, line] + rest == [f] + ([line] + rest);
    FieldFirstSkipped([line] + rest, m, syntax, current, t, section, field);
    LookupCons(line, rest, m + 1, syntax, current, section, field);
  }

  /** A lookup of `field` in `section` gives the same in `out` as in
      `lines`, each read from section `current`, after `m` and `number`
      lines. */
  predicate SameLookup(out: seq<string>, m: nat, lines: seq<string>, number: nat, syntax: Syntax,
                       current: string, section: string, field: string) {
    LookupIn(out, m, syntax, current, section, field) == LookupIn(lines, number, syntax, current, section, field)
  }

  /** `set_field` does not change what a lookup of any other field or
      section gives. */
  lemma {:induction false} RewriteKeepsOthers(lines: seq<string>, number: nat, m: nat, syntax: Syntax,
                                              current: string, mode: FoundMode, t: Target,
                                              section: string, field: string)
    requires PlainTarget(t, syntax)
    requires mode == NoMatch ==> current != t.section
    requires mode == SectionMatch ==> current == t.section
    requires section != t.section || field != t.field
    requires RewriteIn(lines, number, syntax, current, mode, t).Ok?
    ensures SameLookup(RewriteIn(lines, number, syntax, current, mode, t).value, m, lines, number, syntax, current, section, field)
    decreases |lines|, 1
  {
    if lines == [] {
      TailKeepsOthers(m, syntax, current, mode, t, section, field);
    } else {
      RewriteKeepsStep(lines, number, m, syntax, current, mode, t, section, field);
    }
  }

  /** The inductive step of `RewriteKeepsOthers`. */
  lemma {:induction false} RewriteKeepsStep(lines: seq<string>, number: nat, m: nat, syntax: Syntax,
                                            current: string, mode: FoundMode, t: Target, section: string, field: string)
    requires PlainTarget(t, syntax)
    requires mode == NoMatch ==> current != t.section
    requires mode == SectionMatch ==> current == t.section
    requires section != t.section || field != t.field
    requires RewriteIn(lines, number, syntax, current, mode, t).Ok? && lines != []
    ensures SameLookup(RewriteIn(lines, number, syntax, current, mode, t).value, m, lines, number, syntax, current, section, field)
    decreases |lines|, 0
  {
    RewriteHead(lines, number, syntax, current, mode, t);
    var line := Trim(lines[0]);
    var kind := Classify(line, syntax, current).value;
    var a := Advance(line, kind, syntax, current, mode, t);
    var rest, n', m', next := lines[1..], number + 1, m + |a.0|, a.1;
    AdvancePending(line, kind, syntax, current, mode, t);
    RewriteKeepsOthers(rest, n', m', syntax, next, a.2, t, section, field);
    var tail := RewriteIn(rest, n', syntax, next, a.2, t).value;
    TrimIdempotent(lines[0]);
    LookupFirst(lines, number, syntax, current, section, field, kind, rest, n', next);
    StepKeepsOthers(line, kind, tail, m, syntax, current, mode, t, section, field, a.0, next, m');
    LookupsAgree(lines, rest, number, n', m, m', syntax, current, section, field, kind,
                 RewriteIn(lines, number, syntax, current, mode, t).value, a.0, tail, next);
  }

  /** `set_field` leaves a line in a state where the section read tells
      whether the target section is the current one. */
  lemma AdvancePending(line: string, kind: LineKind, syntax: Syntax, current: string, mode: FoundMode, t: Target)
    requires mode == NoMatch ==> current != t.section
    requires mode == SectionMatch ==> current == t.section
    ensures var a := Advance(line, kind, syntax, current, mode, t);
      && (a.2 == NoMatch ==> a.1 != t.section)
      && (a.2 == SectionMatch ==> a.1 == t.section)
  {
  }

  /** Composes the step of `RewriteKeepsOthers`: a lookup in the lines a
      step writes followed by the rest of the output agrees with a lookup
      in the lines read, once it agrees on the rest. */
  lemma LookupsAgree(lines: seq<string>, rest: seq<string>, number: nat, n': nat, m: nat, m': nat, syntax: Syntax,
                     current: string, section: string, field: string, kind: LineKind,
                     out: seq<string>, head: seq<string>, tail: seq<string>, next: string)
    requires out == head + tail
    requires LookupIn(head + tail, m, syntax, current, section, field) ==
        if kind.Field? && current == section && kind.name == field then Ok(if kind.value != [] then Some(kind.value) else None)
        else LookupIn(tail, m', syntax, next, section, field)
    requires SameLookup(tail, m', rest, n', syntax, next, section, field)
    requires LookupIn(lines, number, syntax, current, section, field) ==
        if kind.Field? && current == section && kind.name == field then Ok(if kind.value != [] then Some(kind.value) else None)
        else LookupIn(rest, n', syntax, next, section, field)
    ensures SameLookup(out, m, lines, number, syntax, current, section, field)
  {
  }

  /** No line of `lines` holds a line break. */
  predicate Unbroken(lines: seq<string>) {
    forall i :: 0 <= i < |lines| ==> '\n' !in lines[i]
  }

  lemma UnbrokenConcat(a: seq<string>, b: seq<string>)
    requires Unbroken(a) && Unbroken(b)
    ensures Unbroken(a + b)
  {
    forall i | 0 <= i < |a + b| ensures '\n' !in (a + b)[i] {
      if i >= |a| {
        assert (a + b)[i] == b[i - |a|];
      }
    }
  }

  /** The field line and the header of a plain target hold no line break. */
  lemma TargetLinesFree(t: Target, syntax: Syntax)
    requires PlainTarget(t, syntax)
    ensures '\n' !in FieldLine(t, syntax) && '\n' !in HeaderLine(t.section)
  {
    assert syntax.separator != '\n';
  }

  /** No line `set_field` writes for a line without a line break holds one. */
  lemma AdvanceFree(line: string, kind: LineKind, syntax: Syntax, current: string, mode: FoundMode, t: Target)
    requires '\n' !in line && '\n' !in FieldLine(t, syntax)
    ensures Unbroken(Advance(line, kind, syntax, current, mode, t).0)
  {
    var out := Advance(line, kind, syntax, current, mode, t).0;
    assert out == [line] || out == [FieldLine(t, syntax)] || out == [FieldLine(t, syntax), line];
  }

  /** Nor do the lines it adds at the end. */
  lemma TailFree(t: Target, syntax: Syntax, mode: FoundMode)
    requires '\n' !in FieldLine(t, syntax) && '\n' !in HeaderLine(t.section)
    ensures Unbroken(Tail(t, syntax, mode))
  {
  }

  /** The lines `set_field` writes hold no line break, so they are read back
      as the same lines. */
  lemma {:induction false} RewriteFree(lines: seq<string>, number: nat, syntax: Syntax, current: string,
                                       mode: FoundMode, t: Target)
    requires PlainTarget(t, syntax) && Unbroken(lines)
    requires RewriteIn(lines, number, syntax, current, mode, t).Ok?
    ensures Unbroken(RewriteIn(lines, number, syntax, current, mode, t).value)
    decreases |lines|
  {
    TargetLinesFree(t, syntax);
    if lines == [] {
      TailFree(t, syntax, mode);
    } else {
      RewriteHead(lines, number, syntax, current, mode, t);
      var line := Trim(lines[0]);
      var kind := Classify(line, syntax, current).value;
      var a := Advance(line, kind, syntax, current, mode, t);
      TrimFree(lines[0], '\n');
      AdvanceFree(line, kind, syntax, current, mode, t);
      assert Unbroken(lines[1..]) by {
        forall i | 0 <= i < |lines| - 1 ensures '\n' !in lines[1..][i] {
          assert lines[1..][i] == lines[i + 1];
        }
      }
      RewriteFree(lines[1..], number + 1, syntax, a.1, a.2, t);
      UnbrokenConcat(a.0, RewriteIn(lines[1..], number + 1, syntax, a.1, a.2, t).value);
    }
  }
  /** The text `set_field` writes is read back line for line as the lines
      the rewrite produced. */
  lemma ReadBackRewrite(text: string, syntax: Syntax, t: Target)
    requires PlainTarget(t, syntax) && SetFieldText(text, syntax, t).Ok?
    ensures var out := RewriteIn(Lines(text), 0, syntax, [], NoMatch, t).value;
      && FieldLine(t, syntax) in out
      && Lines(SetFieldText(text, syntax, t).value) == out
  {
    var lines := Lines(text);
    var out := RewriteIn(lines, 0, syntax, [], NoMatch, t).value;
    RewriteThenLookup(lines, 0, 0, syntax, [], NoMatch, t);
    RewriteFree(lines, 0, syntax, [], NoMatch, t);
    var k :| 0 <= k < |out| && out[k] == FieldLine(t, syntax);
    JoinMember(out, "\n", k);
    LinesOfJoin(out);
  }

  /** `get_field` after a successful `set_field` finds the value written
      (none when it was empty). */
  lemma SetFieldThenLookup(text: string, syntax: Syntax, t: Target)
    requires PlainTarget(t, syntax) && SetFieldText(text, syntax, t).Ok?
    ensures Lookup(SetFieldText(text, syntax, t).value, syntax, t.section, t.field) == Written(t)
  {
    ReadBackRewrite(text, syntax, t);
    RewriteThenLookup(Lines(text), 0, 0, syntax, [], NoMatch, t);
  }

  /** A successful `set_field` leaves what every other field reads as it was. */
  lemma SetFieldKeepsOthers(text: string, syntax: Syntax, t: Target, section: string, field: string)
    requires PlainTarget(t, syntax) && SetFieldText(text, syntax, t).Ok?
    requires section != t.section || field != t.field
    ensures Lookup(SetFieldText(text, syntax, t).value, syntax, section, field) == Lookup(text, syntax, section, field)
  {
    ReadBackRewrite(text, syntax, t);
    RewriteKeepsOthers(Lines(text), 0, 0, syntax, [], NoMatch, t, section, field);
  }

  // ------------------------------------------------------ typed reading

  /** `read_str`: the text found, or the default when the lookup finds
      nothing; a parse error propagates. */
  function ReadStrOf(found: Result<Option<string>, IniError>, default: string): (r: Result<string, IniError>)
    ensures r.Err? <==> found.Err?
  {
    match found
    case Err(e) => Err(e)
    case Ok(None) => Ok(default)
    case Ok(Some(text)) => Ok(text)
  }

  /** `read_bool` on what the lookup found. */
  function ReadBoolOf(found: Result<Option<string>, IniError>, default: bool): (r: Result<bool, IniError>)
    ensures r.Err? <==> found.Err?
    ensures found == Ok(None) ==> r == Ok(default)
  {
    match found
    case Err(e) => Err(e)
    case Ok(None) => Ok(default)
    case Ok(Some(text)) => Ok(IniValues.ReadBoolText(text, default))
  }

  /** `read_int` on what the lookup found. */
  function ReadIntOf(found: Result<Option<string>, IniError>, default: int): (r: Result<int, IniError>)
    ensures r.Err? <==> found.Err?
    ensures found == Ok(None) ==> r == Ok(default)
    ensures r.Ok? ==> r.value == default || IniValues.IntMin <= r.value <= IniValues.IntMax
  {
    match found
    case Err(e) => Err(e)
    case Ok(None) => Ok(default)
    case Ok(Some(text)) => Ok(IniValues.ReadIntText(text, default))
  }

  /** After `write_str` of a plain value, `read_str` gives it back (the
      default for an empty value, which the lookup reports as absent). */
  lemma WriteStrThenReadStr(text: string, syntax: Syntax, t: Target, default: string)
    requires PlainTarget(t, syntax) && SetFieldText(text, syntax, t).Ok?
    ensures ReadStrOf(Lookup(SetFieldText(text, syntax, t).value, syntax, t.section, t.field), default)
            == Ok(if t.value != [] then t.value else default)
  {
    SetFieldThenLookup(text, syntax, t);
  }

  /** After `write_bool`, `read_bool` gives the written value back. */
  lemma WriteBoolThenReadBool(text: string, syntax: Syntax, section: string, field: string, b: bool, default: bool)
    requires PlainTarget(Target(section, field, IniValues.BoolText(b)), syntax)
    requires SetFieldText(text, syntax, Target(section, field, IniValues.BoolText(b))).Ok?
    ensures var written := SetFieldText(text, syntax, Target(section, field, IniValues.BoolText(b))).value;
      ReadBoolOf(Lookup(written, syntax, section, field), default) == Ok(b)
  {
    SetFieldThenLookup(text, syntax, Target(section, field, IniValues.BoolText(b)));
    IniValues.ReadBoolOfWritten(b, default);
  }

  /** After `write_int`, `read_int` gives the written value back. */
  lemma WriteIntThenReadInt(text: string, syntax: Syntax, section: string, field: string, v: int, default: int)
    requires IniValues.IntMin <= v <= IniValues.IntMax
    requires PlainTarget(Target(section, field, IntToString(v)), syntax)
    requires SetFieldText(text, syntax, Target(section, field, IntToString(v))).Ok?
    ensures var written := SetFieldText(text, syntax, Target(section, field, IntToString(v))).value;
      ReadIntOf(Lookup(written, syntax, section, field), default) == Ok(v)
  {
    SetFieldThenLookup(text, syntax, Target(section, field, IntToString(v)));
    IniValues.ReadIntOfWritten(v, default);
  }

  // ------------------------------------------------------------ the class

  /** `Utility::Ini`. The file at `file_path_` is its text, `content`; a
      write replaces that text only when the rewrite succeeds, as the source
      opens the file for writing only after the loop. */
  class Ini {
    var content: string
    var separator: char
    var commentPrefixes: seq<string>
    var quiet: bool

    function CurrentSyntax(): (s: Syntax)
      reads this
      ensures s.separator == separator && s.commentPrefixes == commentPrefixes
    {
      Syntax(separator, commentPrefixes)
    }

    /** `Ini(iniFilePath, is_quiet)`: '=' and the prefixes "#" and ";". */
    constructor (content: string, quiet: bool)
      ensures this.content == content && this.quiet == quiet
      ensures CurrentSyntax() == DefaultSyntax
    {
      this.content := content;
      separator := '=';
      commentPrefixes := ["#", ";"];
      this.quiet := quiet;
    }

    /** `set_field_separator`: only the separator changes. */
    method SetFieldSeparator(separator: char)
      modifies this
      ensures this.separator == separator
      ensures content == old(content) && commentPrefixes == old(commentPrefixes) && quiet == old(quiet)
    {
      this.separator := separator;
    }

    /** `set_comment_prefix_list`: only the prefixes change. */
    method SetCommentPrefixList(prefixes: seq<string>)
      modifies this
      ensures commentPrefixes == prefixes
      ensures content == old(content) && separator == old(separator) && quiet == old(quiet)
    {
      commentPrefixes := prefixes;
    }

    /** `read_str`. */
    method ReadStr(section: string, field: string, default: string) returns (r: Result<string, IniError>)
      ensures r == ReadStrOf(Lookup(content, CurrentSyntax(), section, field), default)
    {
      var found := TryGetField(content, CurrentSyntax(), section, field);
      r := ReadStrOf(found, default);
    }

    /** `read_bool`. */
    method ReadBool(section: string, field: string, default: bool) returns (r: Result<bool, IniError>)
      ensures r == ReadBoolOf(Lookup(content, CurrentSyntax(), section, field), default)
    {
      var found := TryGetField(content, CurrentSyntax(), section, field);
      r := ReadBoolOf(found, default);
    }

    /** `read_int`. */
    method ReadInt(section: string, field: string, default: int) returns (r: Result<int, IniError>)
      ensures r == ReadIntOf(Lookup(content, CurrentSyntax(), section, field), default)
    {
      var found := TryGetField(content, CurrentSyntax(), section, field);
      r := ReadIntOf(found, default);
    }

    /** `write_str`: the rewritten text replaces the file's on success; a
        parse error leaves the file as it was. */
    method WriteStr(section: string, field: string, value: string) returns (r: Result<(), IniError>)
      modifies this
      ensures var w := SetFieldText(old(content), old(CurrentSyntax()), Target(section, field, value));
        && (r.Err? <==> w.Err?) && (w.Err? ==> r.error == w.error)
        && content == (if w.Ok? then w.value else old(content))
      ensures separator == old(separator) && commentPrefixes == old(commentPrefixes) && quiet == old(quiet)
    {
      var w := SetField(content, CurrentSyntax(), Target(section, field, value));
      match w
      case Ok(text) =>
        content := text;
        r := Ok(());
      case Err(e) =>
        r := Err(e);
    }

    /** `write_bool`: `true` or `false`. */
    method WriteBool(section: string, field: string, value: bool) returns (r: Result<(), IniError>)
      modifies this
      ensures var w := SetFieldText(old(content), old(CurrentSyntax()), Target(section, field, IniValues.BoolText(value)));
        && (r.Err? <==> w.Err?) && content == (if w.Ok? then w.value else old(content))
      ensures separator == old(separator) && commentPrefixes == old(commentPrefixes) && quiet == old(quiet)
    {
      r := WriteStr(section, field, if value then "true" else "false");
    }

    /** `write_int`: the decimal text `operator<<` gives. */
    method WriteInt(section: string, field: string, value: int) returns (r: Result<(), IniError>)
      modifies this
      ensures var w := SetFieldText(old(content), old(CurrentSyntax()), Target(section, field, IntToString(value)));
        && (r.Err? <==> w.Err?) && content == (if w.Ok? then w.value else old(content))
      ensures separator == old(separator) && commentPrefixes == old(commentPrefixes) && quiet == old(quiet)
    {
      r := WriteStr(section, field, IntToString(value));
    }
  }
}
