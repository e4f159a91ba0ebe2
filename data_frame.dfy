/** `Utility::DataFrame` of `include/utility/pythonian/data_frame.hpp` and
    `src/utility/pythonian/data_frame.cpp`: a table of strings with a header
    row, read from CSV text, with column projection, row indexing and row
    slicing. Each selection builds a new frame; `rename` changes the header
    in place. The CSV file is its text. */
module DataFrames {
  import opened Wrappers
  import opened Text
  import Core

  /** The header and the rows of a frame, as values. */
  datatype Frame = Frame(header: seq<string>, data: seq<seq<string>>)

  /** Every row has one cell per column: `read_csv` checks it for each row,
      so `row.at(index)` in the selections never throws. */
  predicate WellFormed(f: Frame) {
    forall r :: 0 <= r < |f.data| ==> |f.data[r]| == |f.header|
  }

  /** The exceptions: `runtime_error` for a missing column, a header of the
      wrong size and a row of the wrong width; `out_of_range` for a row
      index. */
  datatype DfError = ColumnNotFound | HeaderSizeDiffers | RowSizeDiffers | OutOfRange

  // ------------------------------------------------------- split / concat

  /** What `split(origin, separator)` returns: the fields `getline` reads,
      none for the empty string, and no empty field after a final
      separator. */
  function Fields(s: string, separator: char): (r: seq<string>)
    ensures s == [] ==> r == []
  {
    if s == [] then []
    else
      var p := Core.Pieces(s, [separator]);
      if p[|p| - 1] == [] then p[..|p| - 1] else p
  }

  /** A text without the separator is one field. */
  lemma FieldsOfPlain(s: string, separator: char)
    requires s != [] && separator !in s
    ensures Fields(s, separator) == [s]
  {
    FindFromAbsent(s, [separator], 0);
  }

  /** `split`: the `getline` loop is `Core`'s separator search, with the
      trailing empty field dropped. */
  method Split(origin: string, separator: char) returns (result: seq<string>)
    ensures result == Fields(origin, separator)
  {
    result := Core.Split(origin, [separator]);
    if |result| > 0 && result[|result| - 1] == [] {
      result := result[..|result| - 1];
    }
  }

  /** `concat(origin, separator)`: each field followed by the separator,
      then the last separator popped (undefined for no field). */
  method Concat(origin: seq<string>, separator: char) returns (result: string)
    requires |origin| > 0
    ensures result == Join(origin, [separator])
  {
    result := "";
    var i := 0;
    while i < |origin|
      invariant 0 <= i <= |origin|
      invariant result == Core.Terminated(origin[..i], [separator])
    {
      assert origin[..i + 1][..i] == origin[..i];
      result := result + origin[i] + [separator];
      i := i + 1;
    }
    assert origin[..|origin|] == origin;
    Core.TerminatedIsJoin(origin, [separator]);
    result := result[..|result| - 1];
  }

  /** Splitting a joined row gives the row back when no field holds the
      separator and the last field is not empty. */
  lemma FieldsOfJoin(row: seq<string>, separator: char)
    requires |row| >= 1 && row[|row| - 1] != []
    requires forall i :: 0 <= i < |row| ==> separator !in row[i]
    ensures Fields(Join(row, [separator]), separator) == row
  {
    var s := Join(row, [separator]);
    assert s != [] by { JoinMember(row, [separator], |row| - 1); }
    PiecesOfRow(row, separator);
    FieldsArePieces(s, separator, row);
  }

  /** Nothing is dropped when the last piece is not empty. */
  lemma FieldsArePieces(s: string, separator: char, pieces: seq<string>)
    requires s != [] && pieces == Core.Pieces(s, [separator])
    requires pieces[|pieces| - 1] != []
    ensures Fields(s, separator) == pieces
  {
  }

  lemma PiecesOfRow(row: seq<string>, separator: char)
    requires |row| >= 1
    requires forall i :: 0 <= i < |row| ==> separator !in row[i]
    ensures Core.Pieces(Join(row, [separator]), [separator]) == row
  {
    forall i, j, k | 0 <= i < |row| && 0 <= j < |row[i]| && 0 <= k < |[separator]|
      ensures row[i][j] != [separator][k]
    {
      assert row[i][j] in row[i];
    }
    Core.PiecesOfJoin(row, [separator]);
  }

  /** The last piece is empty only when the text ends with the separator. */
  lemma LastPieceEmpty(s: string, separator: char)
    requires s != []
    requires Core.Pieces(s, [separator])[|Core.Pieces(s, [separator])| - 1] == []
    ensures s[|s| - 1] == separator
  {
    var p := Core.Pieces(s, [separator]);
    Core.JoinPieces(s, [separator]);
    if |p| > 1 {
      JoinAppend(p[..|p| - 1], [], [separator]);
      assert p[..|p| - 1] + [[]] == p;
    }
  }

  /** Joining the fields of a line that does not end with the separator
      gives the line back. */
  lemma JoinOfFields(s: string, separator: char)
    requires s != [] && s[|s| - 1] != separator
    ensures Join(Fields(s, separator), [separator]) == s
  {
    var p := Core.Pieces(s, [separator]);
    Core.JoinPieces(s, [separator]);
    if p[|p| - 1] == [] {
      LastPieceEmpty(s, separator);
    }
  }

  /** Only the empty field after a final separator is dropped: a line
      and the line with one more separator split alike. */
  lemma TrailingFieldDropped(s: string, separator: char)
    requires s != [] && s[|s| - 1] != separator
    ensures Fields(s + [separator], separator) == Fields(s, separator)
  {
    var row := Core.Pieces(s, [separator]);
    Core.JoinPieces(s, [separator]);
    if row[|row| - 1] == [] {
      LastPieceEmpty(s, separator);
    }
    FieldsArePieces(s, separator, row);
    Core.PiecesFree(s, [separator]);
    var longer := row + [[]];
    forall i | 0 <= i < |longer| ensures separator !in longer[i] {
      if i < |row| {
        FindFromChar(row[i], separator, 0);
        assert longer[i] == row[i];
      }
    }
    JoinAppend(row, [], [separator]);
    assert Join(longer, [separator]) == s + [separator];
    PiecesOfRow(longer, separator);
    FieldsDropLast(s + [separator], separator);
    assert longer[..|longer| - 1] == row;
  }

  /** The empty last piece is dropped. */
  lemma FieldsDropLast(s: string, separator: char)
    requires s != []
    requires Core.Pieces(s, [separator])[|Core.Pieces(s, [separator])| - 1] == []
    ensures var p := Core.Pieces(s, [separator]); Fields(s, separator) == p[..|p| - 1]
  {
  }

  // ----------------------------------------------------------- read_csv

  /** The header without a header line: "0", "1", ... */
  function Numbered(n: nat): (r: seq<string>)
    ensures |r| == n && forall i :: 0 <= i < n ==> r[i] == NatToString(i)
  {
    seq(n, i requires 0 <= i < n => NatToString(i))
  }

  /** `read_csv(text, header, separator)`: the first line gives the header,
      or only its width when there is no header line; every later line is
      a row and must have one field per column. */
  function ReadCsvOf(text: string, hasHeader: bool, separator: char): (r: Result<Frame, DfError>)
    ensures r.Ok? ==> WellFormed(r.value)
    ensures r.Err? ==> r.error == RowSizeDiffers
    ensures r.Ok? ==> |r.value.data| == if Fields(text, '\n') == [] then 0 else |Fields(text, '\n')| - 1
  {
    var lines := Fields(text, '\n');
    var header := HeaderOf(lines, hasHeader, separator);
    var rows := RowsOf(lines, separator);
    if forall i :: 0 <= i < |rows| ==> |rows[i]| == |header| then Ok(Frame(header, rows))
    else Err(RowSizeDiffers)
  }

  /** The header `read_csv` takes from the first line. */
  function HeaderOf(lines: seq<string>, hasHeader: bool, separator: char): seq<string> {
    var first := if lines == [] then [] else Fields(lines[0], separator);
    if hasHeader then first else Numbered(|first|)
  }

  /** The rows `read_csv` takes from the lines after the first. */
  function RowsOf(lines: seq<string>, separator: char): (r: seq<seq<string>>)
    ensures |r| == if lines == [] then 0 else |lines| - 1
    ensures forall i :: 0 <= i < |r| ==> r[i] == Fields(lines[i + 1], separator)
  {
    if lines == [] then [] else seq(|lines| - 1, i requires 0 <= i < |lines| - 1 => Fields(lines[i + 1], separator))
  }

  /** Without a header line the columns are numbered from "0", as many as
      the first line has fields, and that line is not data. */
  lemma ReadCsvWithoutHeader(text: string, separator: char)
    requires ReadCsvOf(text, false, separator).Ok?
    ensures var lines := Fields(text, '\n');
      var f := ReadCsvOf(text, false, separator).value;
      && f.header == Numbered(if lines == [] then 0 else |Fields(lines[0], separator)|)
      && (lines != [] ==> forall i :: 0 <= i < |f.data| ==> f.data[i] == Fields(lines[i + 1], separator))
  {
  }

  /** With a header line, the header is that line's fields. */
  lemma ReadCsvWithHeader(text: string, separator: char)
    requires ReadCsvOf(text, true, separator).Ok?
    requires Fields(text, '\n') != []
    ensures ReadCsvOf(text, true, separator).value.header == Fields(Fields(text, '\n')[0], separator)
  {
  }

  // ---------------------------------------------------------- selections

  /** The cells of `row` at `indices`, in that order. */
  function Project(row: seq<string>, indices: seq<nat>): (r: seq<string>)
    requires forall k :: 0 <= k < |indices| ==> indices[k] < |row|
    ensures |r| == |indices| && forall k :: 0 <= k < |indices| ==> r[k] == row[indices[k]]
  {
    seq(|indices|, k requires 0 <= k < |indices| => row[indices[k]])
  }

  /** Every row projected to `indices`. */
  function ProjectRows(data: seq<seq<string>>, indices: seq<nat>): (r: seq<seq<string>>)
    requires forall i, k :: 0 <= i < |data| && 0 <= k < |indices| ==> indices[k] < |data[i]|
    ensures |r| == |data| && forall i :: 0 <= i < |data| ==> r[i] == Project(data[i], indices)
  {
    seq(|data|, i requires 0 <= i < |data| => Project(data[i], indices))
  }

  /** The index of the first column of each name. */
  function IndicesOf(header: seq<string>, columns: seq<string>): (r: seq<nat>)
    requires forall k :: 0 <= k < |columns| ==> columns[k] in header
    ensures |r| == |columns|
    ensures forall k :: 0 <= k < |columns| ==> r[k] == Core.Find(header, columns[k]) && r[k] < |header| && header[r[k]] == columns[k]
  {
    seq(|columns|, k requires 0 <= k < |columns| => Core.Find(header, columns[k]))
  }

  /** `df[column]`: the first column of that name, one cell per row. */
  function ColumnOf(f: Frame, column: string): (r: Result<Frame, DfError>)
    requires WellFormed(f)
    ensures r.Ok? <==> column in f.header
    ensures r.Err? ==> r.error == ColumnNotFound
    ensures r.Ok? ==> r.value.header == [column] && |r.value.data| == |f.data| && WellFormed(r.value)
  {
    var index := Core.Find(f.header, column);
    if index == |f.header| then Err(ColumnNotFound)
    else Ok(Frame([f.header[index]], ProjectRows(f.data, [index])))
  }

  /** Each cell of a selected column is the row's cell under the first
      column of that name. */
  lemma ColumnCells(f: Frame, column: string, row: nat)
    requires WellFormed(f) && column in f.header && row < |f.data|
    ensures var i := Core.Find(f.header, column);
      i < |f.header| && ColumnOf(f, column).value.data[row] == [f.data[row][i]]
  {
  }

  /** `df[columns]`: the named columns in the order asked for, repeats
      allowed; the first column of each name is taken. */
  function ColumnsOf(f: Frame, columns: seq<string>): (r: Result<Frame, DfError>)
    requires WellFormed(f)
    ensures r.Ok? <==> forall k :: 0 <= k < |columns| ==> columns[k] in f.header
    ensures r.Err? ==> r.error == ColumnNotFound
    ensures r.Ok? ==> r.value.header == columns && |r.value.data| == |f.data| && WellFormed(r.value)
    ensures r.Ok? ==> forall i, k :: 0 <= i < |f.data| && 0 <= k < |columns| ==>
              Core.Find(f.header, columns[k]) < |f.header| &&
              r.value.data[i][k] == f.data[i][Core.Find(f.header, columns[k])]
  {
    if exists k :: 0 <= k < |columns| && columns[k] !in f.header then Err(ColumnNotFound)
    else
      var indices := IndicesOf(f.header, columns);
      Ok(Frame(Project(f.header, indices), ProjectRows(f.data, indices)))
  }

  /** Selecting one name as a list is selecting that column. */
  lemma ColumnsOfOne(f: Frame, column: string)
    requires WellFormed(f)
    ensures ColumnsOf(f, [column]) == ColumnOf(f, column)
  {
    if column in f.header {
      var i := Core.Find(f.header, column);
      assert [column][0] == column;
      assert IndicesOf(f.header, [column]) == [i];
      assert Project(f.header, [i]) == [f.header[i]];
    }
  }

  /** A row index from the end: `size + index` for a negative one. */
  function Normalize(index: int, size: nat): int {
    if index >= 0 then index else size + index
  }

  /** `df[index]`: the one row at the normalised index, under the same
      header. */
  function RowOf(f: Frame, index: int): (r: Result<Frame, DfError>)
    ensures r.Ok? <==> -|f.data| <= index < |f.data|
    ensures r.Err? ==> r.error == OutOfRange
    ensures r.Ok? ==> r.value.header == f.header && |r.value.data| == 1
  {
    var i := Normalize(index, |f.data|);
    if i < 0 || i >= |f.data| then Err(OutOfRange)
    else Ok(Frame(f.header, [f.data[i]]))
  }

  /** A negative index counts from the end: `-1` is the last row. */
  lemma RowFromEnd(f: Frame, k: nat)
    requires 1 <= k <= |f.data|
    ensures RowOf(f, -(k as int)) == RowOf(f, |f.data| - k)
    ensures RowOf(f, -(k as int)).value.data == [f.data[|f.data| - k]]
  {
  }

  /** `df[{first, second}]`: both ends normalised and within the rows,
      the first not after the second; the rows from the first up to but
      not including the second. */
  function RangeOf(f: Frame, first: int, second: int): (r: Result<Frame, DfError>)
    ensures r.Err? ==> r.error == OutOfRange
    ensures r.Ok? <==> var s, e := Normalize(first, |f.data|), Normalize(second, |f.data|);
      0 <= s < |f.data| && 0 <= e < |f.data| && s <= e
    ensures r.Ok? ==> (r.value.header == f.header
      && r.value.data == f.data[Normalize(first, |f.data|)..Normalize(second, |f.data|)])
  {
    var s := Normalize(first, |f.data|);
    var e := Normalize(second, |f.data|);
    if s < 0 || s >= |f.data| then Err(OutOfRange)
    else if e < 0 || e >= |f.data| then Err(OutOfRange)
    else if s > e then Err(OutOfRange)
    else Ok(Frame(f.header, f.data[s..e]))
  }

  /** The end of a range must be a row index, and it is excluded, so the
      last row is never in a slice and no slice holds every row. */
  lemma RangeMissesLastRow(f: Frame, first: int, second: int)
    requires RangeOf(f, first, second).Ok?
    ensures |RangeOf(f, first, second).value.data| < |f.data|
    ensures f.data[|f.data| - 1] !in RangeOf(f, first, second).value.data
            || f.data[|f.data| - 1] in f.data[..|f.data| - 1]
  {
    var e := Normalize(second, |f.data|);
    var s := Normalize(first, |f.data|);
    assert f.data[s..e] == f.data[..|f.data| - 1][s..e];
  }

  /** `rename(header)`: a header of the same size replaces the old one;
      the rows stay. */
  function RenameOf(f: Frame, header: seq<string>): (r: Result<Frame, DfError>)
    ensures r.Ok? <==> |header| == |f.header|
    ensures r.Err? ==> r.error == HeaderSizeDiffers
    ensures r.Ok? ==> r.value.header == header && r.value.data == f.data
    ensures r.Ok? && WellFormed(f) ==> WellFormed(r.value)
  {
    if |header| != |f.header| then Err(HeaderSizeDiffers) else Ok(Frame(header, f.data))
  }

  // ------------------------------------------------------------ the class

  class DataFrame {
    var header: seq<string>
    var data: seq<seq<string>>

    function Value(): Frame
      reads this
    {
      Frame(header, data)
    }

    /** The private `DataFrame(header, data)`. */
    constructor (header: seq<string>, data: seq<seq<string>>)
      ensures Value() == Frame(header, data)
    {
      this.header := header;
      this.data := data;
    }

    /** `operator=`: both fields copied. */
    method Assign(other: DataFrame)
      modifies this
      ensures Value() == old(other.Value())
    {
      var h, d := other.header, other.data;
      header := h;
      data := d;
    }

    /** `read_csv`: the first line, then each later line split and checked
        against the header's width. */
    static method ReadCsv(text: string, hasHeader: bool, separator: char) returns (r: Result<DataFrame, DfError>)
      ensures r.Ok? <==> ReadCsvOf(text, hasHeader, separator).Ok?
      ensures r.Ok? ==> fresh(r.value) && r.value.Value() == ReadCsvOf(text, hasHeader, separator).value
    {
      var lines := Split(text, '\n');
      var headerRow := ReadHeader(lines, hasHeader, separator);
      var rows := ReadRows(lines, |headerRow|, separator);
      if rows.None? {
        return Err(RowSizeDiffers);
      }
      var df := new DataFrame(headerRow, rows.value);
      r := Ok(df);
    }

    /** The loop of `read_csv` over the lines after the first: each is
        split, and the first of the wrong width stops the reading. */
    static method ReadRows(lines: seq<string>, width: nat, separator: char) returns (r: Option<seq<seq<string>>>)
      ensures r.Some? <==> forall i :: 0 <= i < |RowsOf(lines, separator)| ==> |RowsOf(lines, separator)[i]| == width
      ensures r.Some? ==> r.value == RowsOf(lines, separator)
    {
      ghost var rows := RowsOf(lines, separator);
      var rowsRead: seq<seq<string>> := [];
      var n := 1;
      while n < |lines|
        invariant 1 <= n && (n == 1 || n <= |lines|)
        invariant |rowsRead| == n - 1 && rowsRead == rows[..n - 1]
        invariant forall i :: 0 <= i < |rowsRead| ==> |rowsRead[i]| == width
      {
        var row := Split(lines[n], separator);
        if |row| != width {
          assert rows[n - 1] == row;
          return None;
        }
        rowsRead := rowsRead + [row];
        n := n + 1;
      }
      assert rowsRead == rows by {
        if lines != [] { assert rows[..n - 1] == rows; }
      }
      r := Some(rowsRead);
    }

    /** The first line of `read_csv`: split into the header, or counted
        and numbered. */
    static method ReadHeader(lines: seq<string>, hasHeader: bool, separator: char) returns (header: seq<string>)
      ensures header == HeaderOf(lines, hasHeader, separator)
    {
      var line := if lines == [] then "" else lines[0];
      var firstRow := Split(line, separator);
      header := firstRow;
      if !hasHeader {
        header := [];
        var i := 0;
        while i < |firstRow|
          invariant 0 <= i <= |firstRow| && header == Numbered(i)
        {
          header := header + [NatToString(i)];
          i := i + 1;
        }
      }
    }

    /** `operator[](target_column)`. */
    method Column(column: string) returns (r: Result<DataFrame, DfError>)
      requires WellFormed(Value())
      ensures r.Ok? <==> ColumnOf(Value(), column).Ok?
      ensures r.Ok? ==> fresh(r.value) && r.value.Value() == ColumnOf(Value(), column).value
    {
      var index := Core.Find(header, column);
      if index == |header| {
        return Err(ColumnNotFound);
      }
      var cells: seq<seq<string>> := [];
      var n := 0;
      while n < |data|
        invariant 0 <= n <= |data| && |cells| == n
        invariant forall i :: 0 <= i < n ==> cells[i] == Project(data[i], [index])
      {
        assert [data[n][index]] == Project(data[n], [index]);
        cells := cells + [[data[n][index]]];
        n := n + 1;
      }
      assert cells == ProjectRows(data, [index]);
      var df := new DataFrame([header[index]], cells);
      r := Ok(df);
    }

    /** `operator[](target_columns)`: the indices first, failing on the
        first name not found; then the header and each row projected. */
    method Columns(columns: seq<string>) returns (r: Result<DataFrame, DfError>)
      requires WellFormed(Value())
      ensures r.Ok? <==> ColumnsOf(Value(), columns).Ok?
      ensures r.Ok? ==> fresh(r.value) && r.value.Value() == ColumnsOf(Value(), columns).value
    {
      var indices: seq<nat> := [];
      var k := 0;
      while k < |columns|
        invariant 0 <= k <= |columns| && |indices| == k
        invariant forall j :: 0 <= j < k ==> indices[j] == Core.Find(header, columns[j]) && indices[j] < |header|
      {
        var index := Core.Find(header, columns[k]);
        if index == |header| {
          assert columns[k] !in header;
          return Err(ColumnNotFound);
        }
        indices := indices + [index];
        k := k + 1;
      }
      assert indices == IndicesOf(header, columns);
      var names: seq<string> := [];
      k := 0;
      while k < |indices|
        invariant 0 <= k <= |indices| && |names| == k
        invariant forall j :: 0 <= j < k ==> names[j] == header[indices[j]]
      {
        names := names + [header[indices[k]]];
        k := k + 1;
      }
      var rows: seq<seq<string>> := [];
      var n := 0;
      while n < |data|
        invariant 0 <= n <= |data| && |rows| == n
        invariant forall i :: 0 <= i < n ==> rows[i] == Project(data[i], indices)
      {
        var rowData := ProjectRow(data[n], indices);
        rows := rows + [rowData];
        n := n + 1;
      }
      assert names == Project(header, indices);
      assert rows == ProjectRows(data, indices);
      var df := new DataFrame(names, rows);
      r := Ok(df);
    }

    /** The inner loop of `operator[](target_columns)`. */
    static method ProjectRow(row: seq<string>, indices: seq<nat>) returns (rowData: seq<string>)
      requires forall k :: 0 <= k < |indices| ==> indices[k] < |row|
      ensures rowData == Project(row, indices)
    {
      rowData := [];
      var k := 0;
      while k < |indices|
        invariant 0 <= k <= |indices| && |rowData| == k
        invariant forall j :: 0 <= j < k ==> rowData[j] == row[indices[j]]
      {
        rowData := rowData + [row[indices[k]]];
        k := k + 1;
      }
    }

    /** `operator[](target_row)`. */
    method Row(index: int) returns (r: Result<DataFrame, DfError>)
      ensures r.Ok? <==> RowOf(Value(), index).Ok?
      ensures r.Ok? ==> fresh(r.value) && r.value.Value() == RowOf(Value(), index).value
    {
      var i := if index >= 0 then index else |data| + index;
      if i < 0 || i >= |data| {
        return Err(OutOfRange);
      }
      var df := new DataFrame(header, [data[i]]);
      r := Ok(df);
    }

    /** `operator[](range)`. */
    method Range(first: int, second: int) returns (r: Result<DataFrame, DfError>)
      ensures r.Ok? <==> RangeOf(Value(), first, second).Ok?
      ensures r.Ok? ==> fresh(r.value) && r.value.Value() == RangeOf(Value(), first, second).value
    {
      var startIndex := if first >= 0 then first else |data| + first;
      var endIndex := if second >= 0 then second else |data| + second;
      if startIndex < 0 || startIndex >= |data| {
        return Err(OutOfRange);
      }
      if endIndex < 0 || endIndex >= |data| {
        return Err(OutOfRange);
      }
      if startIndex > endIndex {
        return Err(OutOfRange);
      }
      var rows: seq<seq<string>> := [];
      var i := startIndex;
      while i < endIndex
        invariant startIndex <= i <= endIndex && rows == data[startIndex..i]
      {
        rows := rows + [data[i]];
        i := i + 1;
      }
      var df := new DataFrame(header, rows);
      r := Ok(df);
    }

    /** `rename(header)`: on a size mismatch nothing changes. */
    method Rename(newHeader: seq<string>) returns (r: Result<(), DfError>)
      modifies this
      ensures var w := RenameOf(old(Value()), newHeader);
        && (r.Ok? <==> w.Ok?) && Value() == (if w.Ok? then w.value else old(Value()))
    {
      if |newHeader| != |header| {
        return Err(HeaderSizeDiffers);
      }
      header := newHeader;
      r := Ok(());
    }
  }
}
