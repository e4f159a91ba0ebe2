/** `TIniFile` of `include/builder_alternative/System.hpp`: the same line
    rules as `Utility::Ini` (its `trim`, `isIgnoreLine`, `tryGetField` and
    `setField` do what the `Ini` members do), behind the C++Builder names.
    The file at `iniFilePath_` is its text, `content`. */
module TIniFiles {
  import opened Wrappers
  import opened Text
  import Inis
  import IniValues

  class TIniFile {
    var content: string
    var separator: char
    var commentPrefixes: seq<string>

    function CurrentSyntax(): (s: Inis.Syntax)
      reads this
      ensures s.separator == separator && s.commentPrefixes == commentPrefixes
    {
      Inis.Syntax(separator, commentPrefixes)
    }

    /** `TIniFile(iniFilePath)`: '=' and the prefixes "#" and ";". */
    constructor (content: string)
      ensures this.content == content
      ensures CurrentSyntax() == Inis.DefaultSyntax
    {
      this.content := content;
      separator := '=';
      commentPrefixes := ["#", ";"];
    }

    /** `SetFieldSep`: only the separator changes. */
    method SetFieldSep(separator: char)
      modifies this
      ensures this.separator == separator
      ensures content == old(content) && commentPrefixes == old(commentPrefixes)
    {
      this.separator := separator;
    }

    /** `SetCommentPrefixes`: only the prefixes change. */
    method SetCommentPrefixes(prefixes: seq<string>)
      modifies this
      ensures commentPrefixes == prefixes
      ensures content == old(content) && separator == old(separator)
    {
      commentPrefixes := prefixes;
    }

    /** `ReadBool`: "TRUE" or "FALSE" in any case, otherwise the default;
        a line that fails to parse throws. */
    method ReadBool(section: string, name: string, default: bool) returns (r: Result<bool, Inis.IniError>)
      ensures r == Inis.ReadBoolOf(Inis.Lookup(content, CurrentSyntax(), section, name), default)
    {
      var found := Inis.TryGetField(content, CurrentSyntax(), section, name);
      r := Inis.ReadBoolOf(found, default);
    }

    /** `ReadInteger`: a text `strtol` accepts whole in base 10, 8 or 16,
        read by `stol` in base 10 and narrowed to `int`; otherwise the
        default. */
    method ReadInteger(section: string, name: string, default: int) returns (r: Result<int, Inis.IniError>)
      ensures r == Inis.ReadIntOf(Inis.Lookup(content, CurrentSyntax(), section, name), default)
    {
      var found := Inis.TryGetField(content, CurrentSyntax(), section, name);
      r := Inis.ReadIntOf(found, default);
    }

    /** `ReadString`: the value, or the default when the field is missing
        or empty. */
    method ReadString(section: string, name: string, default: string) returns (r: Result<string, Inis.IniError>)
      ensures r == Inis.ReadStrOf(Inis.Lookup(content, CurrentSyntax(), section, name), default)
    {
      var found := Inis.TryGetField(content, CurrentSyntax(), section, name);
      r := Inis.ReadStrOf(found, default);
    }

    /** `WriteString`: `setField` rewrites the text, which replaces the
        file's when no line fails to parse. */
    method WriteString(section: string, name: string, value: string) returns (r: Result<(), Inis.IniError>)
      modifies this
      ensures var w := Inis.SetFieldText(old(content), old(CurrentSyntax()), Inis.Target(section, name, value));
        && (r.Err? <==> w.Err?) && (w.Err? ==> r.error == w.error)
        && content == (if w.Ok? then w.value else old(content))
      ensures separator == old(separator) && commentPrefixes == old(commentPrefixes)
    {
      var w := Inis.SetField(content, CurrentSyntax(), Inis.Target(section, name, value));
      match w
      case Ok(text) =>
        content := text;
        r := Ok(());
      case Err(e) =>
        r := Err(e);
    }

    /** `WriteBool`: "true" or "false". */
    method WriteBool(section: string, name: string, value: bool) returns (r: Result<(), Inis.IniError>)
      modifies this
      ensures var w := Inis.SetFieldText(old(content), old(CurrentSyntax()),
                                         Inis.Target(section, name, IniValues.BoolText(value)));
        && (r.Err? <==> w.Err?) && content == (if w.Ok? then w.value else old(content))
      ensures separator == old(separator) && commentPrefixes == old(commentPrefixes)
    {
      r := WriteString(section, name, if value then "true" else "false");
    }

    /** `WriteInteger`: the decimal text `operator<<` gives. */
    method WriteInteger(section: string, name: string, value: int) returns (r: Result<(), Inis.IniError>)
      modifies this
      ensures var w := Inis.SetFieldText(old(content), old(CurrentSyntax()),
                                         Inis.Target(section, name, IntToString(value)));
        && (r.Err? <==> w.Err?) && content == (if w.Ok? then w.value else old(content))
      ensures separator == old(separator) && commentPrefixes == old(commentPrefixes)
    {
      r := WriteString(section, name, IntToString(value));
    }
  }

  /** A value written with `WriteBool` through a `TIniFile` is read back by
      `ReadBool` on the same file. */
  method WriteThenReadBool(file: TIniFile, section: string, name: string, b: bool, default: bool)
    returns (written: Result<(), Inis.IniError>, read: Result<bool, Inis.IniError>)
    requires Inis.PlainTarget(Inis.Target(section, name, IniValues.BoolText(b)), file.CurrentSyntax())
    modifies file
    ensures written.Ok? ==> read == Ok(b)
  {
    written := file.WriteBool(section, name, b);
    if written.Ok? {
      Inis.WriteBoolThenReadBool(old(file.content), file.CurrentSyntax(), section, name, b, default);
    }
    read := file.ReadBool(section, name, default);
  }
}
