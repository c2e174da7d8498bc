/** `csv_exporter::ExportCSV` and `Export_CSV_RowBuilder` of CSV_Exporter.h: rows are held in
    memory, every row must have the length of the first row added, and printing writes each
    row as its cells each followed by a comma, then a line break. */
module CsvExporter {

  //---------------------------------------------------------------------------
  // Rendering

  /** Each cell followed by ",". */
  function RenderCells(cells: seq<string>): string
  {
    if cells == [] then "" else RenderCells(cells[..|cells| - 1]) + cells[|cells| - 1] + ","
  }

  /** Rows one per line; `std::endl` is written as "\n". */
  function RenderRows(rows: seq<seq<string>>): string
  {
    if rows == [] then "" else RenderRows(rows[..|rows| - 1]) + RenderCells(rows[|rows| - 1]) + "\n"
  }

  /** A data row as `operator<<` on `double` writes it; the formatting is a parameter. */
  function Shown(show: real -> string, row: seq<real>): (cells: seq<string>)
    ensures |cells| == |row|
  {
    seq(|row|, k requires 0 <= k < |row| => show(row[k]))
  }

  function ShownRows(show: real -> string, rows: seq<seq<real>>): (shown: seq<seq<string>>)
    ensures |shown| == |rows|
  {
    seq(|rows|, i requires 0 <= i < |rows| => Shown(show, rows[i]))
  }

  /** Everything `PrintAll` writes: the header rows, then the data rows. */
  function Rendering(show: real -> string, headerRows: seq<seq<string>>, dataRows: seq<seq<real>>): string
  {
    RenderRows(headerRows) + RenderRows(ShownRows(show, dataRows))
  }

  //---------------------------------------------------------------------------
  // Properties of the rendering

  function Count(c: char, s: string): nat
  {
    if s == [] then 0 else Count(c, s[..|s| - 1]) + (if s[|s| - 1] == c then 1 else 0)
  }

  lemma {:induction false} CountAppend(c: char, a: string, b: string)
    ensures Count(c, a + b) == Count(c, a) + Count(c, b)
  {
    if b != [] {
      assert (a + b)[..|a + b| - 1] == a + b[..|b| - 1];
      CountAppend(c, a, b[..|b| - 1]);
    } else {
      assert a + b == a;
    }
  }

  /** A row whose cells hold no comma prints with exactly one comma per cell. */
  lemma {:induction false} OneCommaPerCell(cells: seq<string>)
    requires forall i | 0 <= i < |cells| :: ',' !in cells[i]
    ensures Count(',', RenderCells(cells)) == |cells|
  {
    if cells != [] {
      var front := cells[..|cells| - 1];
      var last := cells[|cells| - 1];
      OneCommaPerCell(front);
      CountAppend(',', RenderCells(front), last);
      CountAppend(',', RenderCells(front) + last, ",");
      NoCount(',', last);
      assert Count(',', ",") == Count(',', "") + 1;
    }
  }

  lemma {:induction false} NoCount(c: char, s: string)
    requires c !in s
    ensures Count(c, s) == 0
  {
    if s != [] {
      assert forall i | 0 <= i < |s| - 1 :: s[..|s| - 1][i] == s[i];
      NoCount(c, s[..|s| - 1]);
    }
  }

  /** Cells holding no line break print as one line per row. */
  lemma {:induction false} OneLinePerRow(rows: seq<seq<string>>)
    requires forall i, j | 0 <= i < |rows| && 0 <= j < |rows[i]| :: '\n' !in rows[i][j]
    ensures Count('\n', RenderRows(rows)) == |rows|
  {
    if rows != [] {
      var front := rows[..|rows| - 1];
      var last := rows[|rows| - 1];
      OneLinePerRow(front);
      NoLineBreak(last);
      CountAppend('\n', RenderRows(front), RenderCells(last));
      CountAppend('\n', RenderRows(front) + RenderCells(last), "\n");
      assert Count('\n', "\n") == Count('\n', "") + 1;
    }
  }

  lemma {:induction false} NoLineBreak(cells: seq<string>)
    requires forall j | 0 <= j < |cells| :: '\n' !in cells[j]
    ensures Count('\n', RenderCells(cells)) == 0
  {
    if cells != [] {
      var front := cells[..|cells| - 1];
      NoLineBreak(front);
      NoCount('\n', cells[|cells| - 1]);
      CountAppend('\n', RenderCells(front), cells[|cells| - 1]);
      CountAppend('\n', RenderCells(front) + cells[|cells| - 1], ",");
      assert Count('\n', ",") == Count('\n', "") + 0;
    }
  }

  lemma {:induction false} RenderRowsAppend(a: seq<seq<string>>, b: seq<seq<string>>)
    ensures RenderRows(a + b) == RenderRows(a) + RenderRows(b)
  {
    if b == [] {
      assert a + b == a;
    } else {
      assert (a + b)[..|a + b| - 1] == a + b[..|b| - 1];
      RenderRowsAppend(a, b[..|b| - 1]);
    }
  }

  /** Printing with `PrintAll_clear` in two steps writes the same text as printing all the
      rows at once: the second step prints only the rows added after the first. */
  lemma IncrementalPrinting(show: real -> string, header: seq<seq<string>>,
                            first: seq<seq<real>>, later: seq<seq<real>>)
    ensures Rendering(show, header, first) + Rendering(show, [], later)
         == Rendering(show, header, first + later)
  {
    assert ShownRows(show, first + later) == ShownRows(show, first) + ShownRows(show, later);
    RenderRowsAppend(ShownRows(show, first), ShownRows(show, later));
  }

  /** One row of `PrintAll`: each cell then ",", then the line break. */
  method PrintLine(cells: seq<string>) returns (line: string)
    ensures line == RenderCells(cells) + "\n"
  {
    line := "";
    for j := 0 to |cells|
      invariant line == RenderCells(cells[..j])
    {
      line := line + cells[j] + ",";
      assert cells[..j + 1][..j] == cells[..j];
    }
    assert cells[..|cells|] == cells;
    line := line + "\n";
  }

  /** The first loop of `PrintAll`. */
  method PrintHeaderRows(rows: seq<seq<string>>) returns (text: string)
    ensures text == RenderRows(rows)
  {
    text := "";
    for i := 0 to |rows|
      invariant text == RenderRows(rows[..i])
    {
      var line := PrintLine(rows[i]);
      text := text + line;
      assert rows[..i + 1][..i] == rows[..i];
    }
    assert rows[..|rows|] == rows;
  }

  /** The second loop of `PrintAll`. */
  method PrintDataRows(show: real -> string, rows: seq<seq<real>>) returns (text: string)
    ensures text == RenderRows(ShownRows(show, rows))
  {
    text := "";
    for i := 0 to |rows|
      invariant text == RenderRows(ShownRows(show, rows[..i]))
    {
      var line := PrintLine(Shown(show, rows[i]));
      text := text + line;
      assert ShownRows(show, rows[..i + 1]) == ShownRows(show, rows[..i]) + [Shown(show, rows[i])];
    }
    assert rows[..|rows|] == rows;
  }

  //---------------------------------------------------------------------------
  // ExportCSV

  class ExportCsv {
    var rowLength: nat
    var rowLengthIsSet: bool
    var headerRows: seq<seq<string>>
    var dataRows: seq<seq<real>>

    /** Every held row has the length fixed by the first row ever added. */
    ghost predicate Valid()
      reads this
    {
      && (!rowLengthIsSet ==> rowLength == 0 && headerRows == [] && dataRows == [])
      && (forall i | 0 <= i < |headerRows| :: |headerRows[i]| == rowLength)
      && (forall i | 0 <= i < |dataRows| :: |dataRows[i]| == rowLength)
    }

    /** The estimate only reserves storage. */
    constructor (numRowsEstimate: nat)
      ensures Valid() && !rowLengthIsSet && headerRows == [] && dataRows == []
    {
      rowLength, rowLengthIsSet := 0, false;
      headerRows, dataRows := [], [];
    }

    /** The first call fixes the row length; later calls report whether the length matches
        it (the source throws "Row lengths do not match" when it does not). */
    method ValidateRowLength(length: nat) returns (matched: bool)
      requires Valid()
      modifies this
      ensures matched <==> !old(rowLengthIsSet) || length == old(rowLength)
      ensures rowLengthIsSet && (matched ==> rowLength == length)
      ensures !matched ==> rowLength == old(rowLength)
      ensures headerRows == old(headerRows) && dataRows == old(dataRows)
      ensures (old(rowLengthIsSet) || !matched) ==> rowLengthIsSet == old(rowLengthIsSet) && rowLength == old(rowLength)
    {
      if rowLengthIsSet {
        return length == rowLength;
      }
      rowLength := length;
      rowLengthIsSet := true;
      return true;
    }

    /** Appends a header row of the right length; on a mismatch nothing is stored. */
    method AddHeader(row: seq<string>) returns (matched: bool)
      requires Valid()
      modifies this
      ensures Valid() && rowLengthIsSet
      ensures matched <==> !old(rowLengthIsSet) || |row| == old(rowLength)
      ensures matched ==> headerRows == old(headerRows) + [row] && rowLength == |row|
      ensures !matched ==> headerRows == old(headerRows) && rowLength == old(rowLength)
      ensures dataRows == old(dataRows)
    {
      matched := ValidateRowLength(|row|);
      if matched {
        headerRows := headerRows + [row];
      }
    }

    /** Appends a data row of the right length; on a mismatch nothing is stored. */
    method AddRow(row: seq<real>) returns (matched: bool)
      requires Valid()
      modifies this
      ensures Valid() && rowLengthIsSet
      ensures matched <==> !old(rowLengthIsSet) || |row| == old(rowLength)
      ensures matched ==> dataRows == old(dataRows) + [row] && rowLength == |row|
      ensures !matched ==> dataRows == old(dataRows) && rowLength == old(rowLength)
      ensures headerRows == old(headerRows)
    {
      matched := ValidateRowLength(|row|);
      if matched {
        dataRows := dataRows + [row];
      }
    }

    /** Writes the header rows then the data rows, each cell followed by a comma. */
    method PrintAll(show: real -> string) returns (text: string)
      ensures text == Rendering(show, headerRows, dataRows)
    {
      var head := PrintHeaderRows(headerRows);
      var data := PrintDataRows(show, dataRows);
      text := head + data;
    }

    /** Prints, then drops the held rows; the row length stays fixed. */
    method PrintAllClear(show: real -> string) returns (text: string)
      requires Valid()
      modifies this
      ensures Valid()
      ensures text == Rendering(show, old(headerRows), old(dataRows))
      ensures headerRows == [] && dataRows == []
      ensures rowLength == old(rowLength) && rowLengthIsSet == old(rowLengthIsSet)
    {
      text := PrintAll(show);
      headerRows, dataRows := [], [];
    }
  }

  //---------------------------------------------------------------------------
  // Export_CSV_RowBuilder

  class RowBuilder<T> {
    var row: seq<T>

    constructor ()
      ensures row == []
    {
      row := [];
    }

    method AddData(value: T)
      modifies this
      ensures row == old(row) + [value]
    {
      row := row + [value];
    }

    /** The overload taking a vector: appends all of it. */
    method AddValues(values: seq<T>)
      modifies this
      ensures row == old(row) + values
    {
      row := row + values;
    }
  }
}
