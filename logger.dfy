/** `Utility::Logger` of `include/utility/logger.hpp`: a text buffer that the
    variadic `add` and `add_line` append to. A scalar argument is the text
    `operator<<` gives it; a vector argument is a list of integers. Console
    colours, `format` and `save` are left out. */
module Logging {
  import opened Text
  import Core

  /** One argument of `add` or `add_line`. */
  datatype Arg = Scalar(text: string) | Ints(values: seq<int>)

  /** `std::vector` arguments pop a character off an empty string when they
      are empty, which is undefined; every vector here has an element. */
  predicate Renderable(args: seq<Arg>) {
    forall i :: 0 <= i < |args| ==> (args[i].Ints? ==> |args[i].values| > 0)
  }

  lemma RenderableTail(args: seq<Arg>)
    requires |args| >= 1 && Renderable(args)
    ensures Renderable(args[1..])
  {
    forall i | 0 <= i < |args| - 1 ensures args[1..][i].Ints? ==> |args[1..][i].values| > 0 {
      assert args[1..][i] == args[i + 1];
    }
  }

  /** The text an argument is written as: a vector is "[" and its elements'
      `to_string` separated by single spaces and "]". */
  function Render(a: Arg): (r: string)
    ensures a.Scalar? ==> r == a.text
    ensures a.Ints? ==> |r| >= 2 && r[0] == '[' && r[|r| - 1] == ']'
  {
    match a
    case Scalar(text) => text
    case Ints(values) => "[" + Join(Core.Texts(values), " ") + "]"
  }

  /** What `add(v1, ..., vn)` appends: the arguments separated by the
      separator, none after the last. */
  function AddText(args: seq<Arg>, separator: string): string
    requires |args| >= 1
    decreases |args|
  {
    if |args| == 1 then Render(args[0])
    else Render(args[0]) + separator + AddText(args[1..], separator)
  }

  /** What `add_line(v1, ..., vn)` appends: each scalar but the last
      followed by the separator, and the last argument and every vector
      followed by the line break. */
  function AddLineText(args: seq<Arg>, separator: string, newLine: string): (r: string)
    requires |args| >= 1
    decreases |args|
  {
    if |args| == 1 then Render(args[0]) + newLine
    else if args[0].Ints? then Render(args[0]) + newLine + AddLineText(args[1..], separator, newLine)
    else Render(args[0]) + separator + AddLineText(args[1..], separator, newLine)
  }

  /** The text of each argument. */
  function Renders(args: seq<Arg>): (r: seq<string>)
    ensures |r| == |args| && forall i :: 0 <= i < |args| ==> r[i] == Render(args[i])
  {
    seq(|args|, i requires 0 <= i < |args| => Render(args[i]))
  }

  /** `add` writes the arguments joined by the separator. */
  lemma {:induction false} AddTextIsJoin(args: seq<Arg>, separator: string)
    requires |args| >= 1
    ensures AddText(args, separator) == Join(Renders(args), separator)
    decreases |args|
  {
    if |args| > 1 {
      AddTextIsJoin(args[1..], separator);
      assert Renders(args)[1..] == Renders(args[1..]);
    }
  }

  /** With scalars only, `add_line` is `add` followed by one line break. */
  lemma {:induction false} AddLineOfScalars(args: seq<Arg>, separator: string, newLine: string)
    requires |args| >= 1
    requires forall i :: 0 <= i < |args| ==> args[i].Scalar?
    ensures AddLineText(args, separator, newLine) == AddText(args, separator) + newLine
    decreases |args|
  {
    if |args| > 1 {
      AddLineOfScalars(args[1..], separator, newLine);
    }
  }

  /** A vector in the middle of `add_line` ends a line: it is followed by
      the line break, not by the separator. */
  lemma VectorEndsLine(values: seq<int>, rest: seq<Arg>, separator: string, newLine: string)
    requires |rest| >= 1
    ensures AddLineText([Ints(values)] + rest, separator, newLine)
            == Render(Ints(values)) + newLine + AddLineText(rest, separator, newLine)
  {
    assert ([Ints(values)] + rest)[1..] == rest;
  }

  /** Every `add_line` ends with the line break. */
  lemma {:induction false} AddLineEndsWithNewLine(args: seq<Arg>, separator: string, newLine: string)
    requires |args| >= 1
    ensures var r := AddLineText(args, separator, newLine);
      |r| >= |newLine| && r[|r| - |newLine|..] == newLine
    decreases |args|
  {
    var r := AddLineText(args, separator, newLine);
    if |args| > 1 {
      AddLineEndsWithNewLine(args[1..], separator, newLine);
      var tail := AddLineText(args[1..], separator, newLine);
      assert r[|r| - |tail|..] == tail;
      assert r[|r| - |newLine|..] == tail[|tail| - |newLine|..];
    }
  }

  lemma AppendThree(a: string, b: string, c: string, d: string)
    ensures (a + b + c) + d == a + (b + c + d)
  {
  }

  class Logger {
    var buffer: string
    var separator: string
    var newLine: string

    /** `Logger(separator = " ", new_line = "\n")`: an empty buffer. */
    constructor (separator: string, newLine: string)
      ensures buffer == "" && this.separator == separator && this.newLine == newLine
    {
      buffer := "";
      this.separator := separator;
      this.newLine := newLine;
    }

    /** `Logger()` with the default arguments: a space between arguments and
        "\n" as the line break. */
    constructor Default()
      ensures buffer == "" && separator == " " && newLine == "\n"
    {
      buffer, separator, newLine := "", " ", "\n";
    }

    /** The text of one argument, a vector built the way the source does:
        each element's text and a space, the last space popped. */
    static method RenderArg(a: Arg) returns (r: string)
      requires a.Ints? ==> |a.values| > 0
      ensures r == Render(a)
    {
      match a
      case Scalar(text) =>
        r := text;
      case Ints(values) =>
        var result := Core.Concat(values, " ");
        r := "[" + result + "]";
    }

    /** `add(val, remain...)`: the first argument, then the separator and
        the rest when there is more. */
    method Add(args: seq<Arg>)
      requires |args| >= 1 && Renderable(args)
      modifies this`buffer
      ensures buffer == old(buffer) + AddText(args, old(separator))
      ensures separator == old(separator) && newLine == old(newLine)
      decreases |args|
    {
      var text := RenderArg(args[0]);
      if |args| == 1 {
        assert AddText(args, separator) == text;
        buffer := buffer + text;
      } else {
        RenderableTail(args);
        assert AddText(args, separator) == text + separator + AddText(args[1..], separator);
        AppendThree(buffer, text, separator, AddText(args[1..], separator));
        buffer := buffer + text + separator;
        Add(args[1..]);
      }
    }

    /** `add_line(val, remain...)`: the first argument, then the line break
        when it is the last or a vector, the separator otherwise, and the
        rest. */
    method AddLine(args: seq<Arg>)
      requires |args| >= 1 && Renderable(args)
      modifies this`buffer
      ensures buffer == old(buffer) + AddLineText(args, old(separator), old(newLine))
      ensures separator == old(separator) && newLine == old(newLine)
      decreases |args|
    {
      var text := RenderArg(args[0]);
      if |args| == 1 {
        buffer := buffer + text + newLine;
      } else {
        RenderableTail(args);
        if args[0].Ints? {
          AppendThree(buffer, text, newLine, AddLineText(args[1..], separator, newLine));
          buffer := buffer + text + newLine;
        } else {
          AppendThree(buffer, text, separator, AddLineText(args[1..], separator, newLine));
          buffer := buffer + text + separator;
        }
        AddLine(args[1..]);
      }
    }

    /** `endl()`: one line break. */
    method Endl()
      modifies this`buffer
      ensures buffer == old(buffer) + newLine
      ensures separator == old(separator) && newLine == old(newLine)
    {
      buffer := buffer + newLine;
    }

    /** `flush()`: the buffer is emptied. */
    method Flush()
      modifies this`buffer
      ensures buffer == "" && Size() == 0
      ensures separator == old(separator) && newLine == old(newLine)
    {
      buffer := "";
    }

    /** `set_separator`: only the separator changes. */
    method SetSeparator(separator: string)
      modifies this
      ensures this.separator == separator
      ensures buffer == old(buffer) && newLine == old(newLine)
    {
      this.separator := separator;
    }

    /** `set_new_line`: only the line break changes. */
    method SetNewLine(newLine: string)
      modifies this
      ensures this.newLine == newLine
      ensures buffer == old(buffer) && separator == old(separator)
    {
      this.newLine := newLine;
    }

    /** `size()`: the length of the buffer's text. */
    function Size(): (n: nat)
      reads this
      ensures n == |GetBuffer()|
    {
      |buffer|
    }

    /** `get_buffer()`. */
    function GetBuffer(): (r: string)
      reads this
      ensures r == buffer
    {
      buffer
    }
  }
}
