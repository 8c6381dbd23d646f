/**
 * The spreadsheet side of the workflow (src/excel_io.py): reading
 * identifiers from the input column and laying out the output sheet.
 *
 * The output sheet is a map from (row, column) to a cell; a write
 * replaces whatever the cell held, because the sheet is created with
 * overwriting allowed.
 */
module ExcelIO {
  import opened Wrappers
  import opened Config
  import opened IntText
  import opened Records

  datatype CellValue = Text(text: string) | Number(n: int)

  /** Plain is the workbook's default style; Orange is the solid orange fill of the result cells. */
  datatype Style = Plain | Orange

  datatype Cell = Cell(value: CellValue, style: Style)

  type Grid = map<(int, int), Cell>

  /** Columns taken by one subject: IA, SEE, TOTAL and RES (the writer's `col += 4`). */
  const BlockWidth: int := 4

  function Lookup(g: Grid, row: int, col: int): Option<Cell> {
    if (row, col) in g then Some(g[(row, col)]) else None
  }

  function TextCell(s: string): Cell { Cell(Text(s), Plain) }

  // ---------------------------------------------------------------- input

  /** The identifier column of the input sheet: 1-based row number to cell text; a missing row is an empty cell. */
  type InputColumn = map<int, string>

  /**
   * read_usn: the value of the identifier cell (column 1) of a row, or None
   * when the cell is empty. openpyxl refuses a row number below 1 by raising.
   */
  function ReadUsn(column: InputColumn, row: int): (r: Result<Option<string>>)
    ensures r.Failure? <==> row < 1
    ensures r.Success? ==> (r.value.Some? <==> row in column)
    ensures r.Success? && r.value.Some? ==> r.value.value == column[row]
  {
    if row < 1 then Failure("Row or column values must be at least 1")
    else if row in column then Success(Some(column[row]))
    else Success(None)
  }

  // ---------------------------------------------------------------- output

  /** The data sheet of the output workbook. */
  class OutputSheet {
    var cells: Grid

    constructor ()
      ensures cells == map[]
    {
      cells := map[];
    }

    /** sheet.write(row, col, value[, style]): the cell is replaced, nothing else changes. */
    method Write(row: int, col: int, value: CellValue, style: Style)
      modifies this
      ensures cells == old(cells)[(row, col) := Cell(value, style)]
    {
      cells := cells[(row, col) := Cell(value, style)];
    }
  }

  /** The sheet after write_headers. */
  function WithHeaders(g: Grid): (r: Grid)
    ensures Lookup(r, HeaderRow, UsnColumn) == Some(TextCell("USN"))
    ensures Lookup(r, HeaderRow, NameColumn) == Some(TextCell("NAME"))
    ensures forall row, col :: !(row == HeaderRow && (col == UsnColumn || col == NameColumn)) ==>
              Lookup(r, row, col) == Lookup(g, row, col)
  {
    g[(HeaderRow, UsnColumn) := TextCell("USN")][(HeaderRow, NameColumn) := TextCell("NAME")]
  }

  /** The sheet after write_student_info for source row `row`. */
  function WithStudent(g: Grid, row: int, usn: string, name: string): (r: Grid)
    ensures Lookup(r, row + 1, UsnColumn) == Some(TextCell(usn))
    ensures Lookup(r, row + 1, NameColumn) == Some(TextCell(name))
    ensures forall rw, col :: !(rw == row + 1 && (col == UsnColumn || col == NameColumn)) ==>
              Lookup(r, rw, col) == Lookup(g, rw, col)
  {
    g[(row + 1, UsnColumn) := TextCell(usn)][(row + 1, NameColumn) := TextCell(name)]
  }

  /** The sheet after some writes, and whether they all happened (false: int() raised part-way). */
  datatype Written = Written(grid: Grid, complete: bool)

  /**
   * The writes for one subject whose block starts at column `col`, in the
   * writer's order: the name and the four sub-headers, then the three marks
   * (each parsed just before its own write) and the orange result cell.
   * A mark that does not parse stops the writes; nothing written is undone.
   */
  function WriteBlock(g: Grid, row: int, col: int, s: Subject): Written {
    var h := g[(HeaderRow, col) := TextCell(s.name)]
              [(SubHeaderRow, col) := TextCell("IA")]
              [(SubHeaderRow, col + 1) := TextCell("SEE")]
              [(SubHeaderRow, col + 2) := TextCell("TOTAL")]
              [(SubHeaderRow, col + 3) := TextCell("RES")];
    match ParseInt(s.ia)
    case None => Written(h, false)
    case Some(ia) =>
      var h1 := h[(row + 1, col) := Cell(Number(ia), Plain)];
      match ParseInt(s.see)
      case None => Written(h1, false)
      case Some(see) =>
        var h2 := h1[(row + 1, col + 1) := Cell(Number(see), Plain)];
        match ParseInt(s.total)
        case None => Written(h2, false)
        case Some(total) =>
          Written(h2[(row + 1, col + 2) := Cell(Number(total), Plain)]
                    [(row + 1, col + 3) := Cell(Text(s.res), Orange)], true)
  }

  /** The sheet after write_subject_data, the blocks starting at column `col`. */
  function WriteSubjects(g: Grid, row: int, subjects: seq<Subject>, col: int): Written
    decreases |subjects|
  {
    if subjects == [] then Written(g, true)
    else
      var w := WriteBlock(g, row, col, subjects[0]);
      if !w.complete then w else WriteSubjects(w.grid, row, subjects[1..], col + BlockWidth)
  }

  method WriteHeaders(sheet: OutputSheet)
    modifies sheet
    ensures sheet.cells == WithHeaders(old(sheet.cells))
  {
    sheet.Write(HeaderRow, UsnColumn, Text("USN"), Plain);
    sheet.Write(HeaderRow, NameColumn, Text("NAME"), Plain);
  }

  method WriteStudentInfo(sheet: OutputSheet, row: int, usn: string, name: string)
    modifies sheet
    ensures sheet.cells == WithStudent(old(sheet.cells), row, usn, name)
  {
    sheet.Write(row + 1, UsnColumn, Text(usn), Plain);
    sheet.Write(row + 1, NameColumn, Text(name), Plain);
  }

  /**
   * write_subject_data. `complete` is false when int() raised ValueError on
   * a mark; the cells written before that point stay in the sheet.
   */
  method WriteSubjectData(sheet: OutputSheet, row: int, subjects: seq<Subject>) returns (complete: bool)
    modifies sheet
    ensures Written(sheet.cells, complete) == WriteSubjects(old(sheet.cells), row, subjects, SubjectsStartColumn)
  {
    var col := SubjectsStartColumn;
    var i := 0;
    while i < |subjects|
      invariant 0 <= i <= |subjects|
      invariant col == SubjectsStartColumn + BlockWidth * i
      invariant WriteSubjects(sheet.cells, row, subjects[i..], col)
             == WriteSubjects(old(sheet.cells), row, subjects, SubjectsStartColumn)
    {
      var sub := subjects[i];
      assert subjects[i..][0] == sub && subjects[i..][1..] == subjects[i + 1..];
      sheet.Write(HeaderRow, col, Text(sub.name), Plain);
      sheet.Write(SubHeaderRow, col, Text("IA"), Plain);
      sheet.Write(SubHeaderRow, col + 1, Text("SEE"), Plain);
      sheet.Write(SubHeaderRow, col + 2, Text("TOTAL"), Plain);
      sheet.Write(SubHeaderRow, col + 3, Text("RES"), Plain);

      var ia := ParseInt(sub.ia);
      if ia.None? { return false; }
      sheet.Write(row + 1, col, Number(ia.value), Plain);
      var see := ParseInt(sub.see);
      if see.None? { return false; }
      sheet.Write(row + 1, col + 1, Number(see.value), Plain);
      var total := ParseInt(sub.total);
      if total.None? { return false; }
      sheet.Write(row + 1, col + 2, Number(total.value), Plain);
      sheet.Write(row + 1, col + 3, Text(sub.res), Orange);

      col := col + BlockWidth;
      i := i + 1;
    }
    return true;
  }

  // ---------------------------------------------------------------- layout

  /** How many subjects, from the first, have marks that all parse. */
  function ParsedPrefix(subjects: seq<Subject>): (n: nat)
    ensures n <= |subjects|
    decreases |subjects|
  {
    if subjects == [] || !MarksParse(subjects[0]) then 0 else 1 + ParsedPrefix(subjects[1..])
  }

  /** ParsedPrefix is the length of the longest prefix whose marks all parse. */
  lemma {:induction false} ParsedPrefixIsLongest(subjects: seq<Subject>)
    ensures forall i :: 0 <= i < ParsedPrefix(subjects) ==> MarksParse(subjects[i])
    ensures ParsedPrefix(subjects) < |subjects| ==> !MarksParse(subjects[ParsedPrefix(subjects)])
    decreases |subjects|
  {
    if subjects != [] && MarksParse(subjects[0]) {
      ParsedPrefixIsLongest(subjects[1..]);
      forall i | 0 <= i < ParsedPrefix(subjects) ensures MarksParse(subjects[i]) {
        if i > 0 { assert subjects[i] == subjects[1..][i - 1]; }
      }
    }
  }

  /** Number of blocks the writer touches: the parsed ones and, after a failure, the failing one. */
  function TouchedBlocks(subjects: seq<Subject>): (n: nat)
    ensures ParsedPrefix(subjects) <= n <= |subjects|
  {
    if ParsedPrefix(subjects) < |subjects| then ParsedPrefix(subjects) + 1 else |subjects|
  }

  /** Cell (r, c) lies in one of the `n` blocks from column `col`, on a header row or the data row of `row`. */
  predicate InBlocks(row: int, col: int, n: nat, r: int, c: int) {
    (r == HeaderRow || r == SubHeaderRow || r == row + 1) && col <= c < col + BlockWidth * n
  }

  /** The two header rows of the block at `col` name subject `s` and its four sub-columns. */
  predicate HeadersAt(g: Grid, col: int, s: Subject) {
    Lookup(g, HeaderRow, col) == Some(TextCell(s.name)) &&
    Lookup(g, SubHeaderRow, col) == Some(TextCell("IA")) &&
    Lookup(g, SubHeaderRow, col + 1) == Some(TextCell("SEE")) &&
    Lookup(g, SubHeaderRow, col + 2) == Some(TextCell("TOTAL")) &&
    Lookup(g, SubHeaderRow, col + 3) == Some(TextCell("RES"))
  }

  /** The data row of `row` holds the three marks of `s` as integers and its result text, orange. */
  predicate MarksAt(g: Grid, row: int, col: int, s: Subject) {
    MarksParse(s) &&
    Lookup(g, row + 1, col) == Some(Cell(Number(ParseInt(s.ia).value), Plain)) &&
    Lookup(g, row + 1, col + 1) == Some(Cell(Number(ParseInt(s.see).value), Plain)) &&
    Lookup(g, row + 1, col + 2) == Some(Cell(Number(ParseInt(s.total).value), Plain)) &&
    Lookup(g, row + 1, col + 3) == Some(Cell(Text(s.res), Orange))
  }

  /** One block: it completes iff the marks parse, and then its data cells hold them; it touches only its own columns. */
  lemma WriteBlockLayout(g: Grid, row: int, col: int, s: Subject)
    ensures WriteBlock(g, row, col, s).complete <==> MarksParse(s)
    ensures MarksParse(s) ==> MarksAt(WriteBlock(g, row, col, s).grid, row, col, s)
    ensures row >= 1 ==> HeadersAt(WriteBlock(g, row, col, s).grid, col, s)
    ensures forall r, c :: !InBlocks(row, col, 1, r, c) ==>
              Lookup(WriteBlock(g, row, col, s).grid, r, c) == Lookup(g, r, c)
  {
  }

  /**
   * write_subject_data completes iff every subject's marks parse, and it
   * changes no cell outside the three rows of the blocks it touches: the
   * parsed subjects and, after a failure, the failing one (blocks are
   * four columns wide from column `col`).
   */
  lemma {:induction false} WriteSubjectsFrame(g: Grid, row: int, subjects: seq<Subject>, col: int)
    ensures WriteSubjects(g, row, subjects, col).complete <==> ParsedPrefix(subjects) == |subjects|
    ensures forall r, c :: !InBlocks(row, col, TouchedBlocks(subjects), r, c) ==>
              Lookup(WriteSubjects(g, row, subjects, col).grid, r, c) == Lookup(g, r, c)
    decreases |subjects|
  {
    if subjects != [] {
      var w := WriteBlock(g, row, col, subjects[0]);
      WriteBlockLayout(g, row, col, subjects[0]);
      if w.complete {
        WriteSubjectsFrame(w.grid, row, subjects[1..], col + BlockWidth);
      }
    }
  }

  /** A block's cells survive writes confined to blocks further right. */
  lemma BlockKept(g: Grid, h: Grid, row: int, col: int, s: Subject, from: int, n: nat)
    requires col + BlockWidth <= from
    requires forall r, c :: !InBlocks(row, from, n, r, c) ==> Lookup(h, r, c) == Lookup(g, r, c)
    ensures MarksAt(g, row, col, s) ==> MarksAt(h, row, col, s)
    ensures HeadersAt(g, col, s) ==> HeadersAt(h, col, s)
  {
  }

  /** The writes for subjects[0] followed by those for the rest, one block to the right. */
  lemma WriteSubjectsUnfold(g: Grid, row: int, subjects: seq<Subject>, col: int)
    requires subjects != [] && WriteBlock(g, row, col, subjects[0]).complete
    ensures WriteSubjects(g, row, subjects, col)
         == WriteSubjects(WriteBlock(g, row, col, subjects[0]).grid, row, subjects[1..], col + BlockWidth)
  {
  }

  /** The first n subjects have their marks in consecutive blocks from column `col`. */
  predicate MarksFrom(g: Grid, row: int, col: int, subjects: seq<Subject>, n: nat)
    requires n <= |subjects|
    decreases n
  {
    n == 0 || (MarksAt(g, row, col, subjects[0]) && MarksFrom(g, row, col + BlockWidth, subjects[1..], n - 1))
  }

  /** The first n subjects have their header cells in consecutive blocks from column `col`. */
  predicate HeadersFrom(g: Grid, col: int, subjects: seq<Subject>, n: nat)
    requires n <= |subjects|
    decreases n
  {
    n == 0 || (HeadersAt(g, col, subjects[0]) && HeadersFrom(g, col + BlockWidth, subjects[1..], n - 1))
  }

  lemma {:induction false} MarksFromAt(g: Grid, row: int, col: int, subjects: seq<Subject>, n: nat, i: nat)
    requires n <= |subjects| && MarksFrom(g, row, col, subjects, n) && i < n
    ensures MarksAt(g, row, col + BlockWidth * i, subjects[i])
    decreases i
  {
    if i > 0 {
      MarksFromAt(g, row, col + BlockWidth, subjects[1..], n - 1, i - 1);
      assert subjects[i] == subjects[1..][i - 1];
    }
  }

  lemma {:induction false} HeadersFromAt(g: Grid, col: int, subjects: seq<Subject>, n: nat, i: nat)
    requires n <= |subjects| && HeadersFrom(g, col, subjects, n) && i < n
    ensures HeadersAt(g, col + BlockWidth * i, subjects[i])
    decreases i
  {
    if i > 0 {
      HeadersFromAt(g, col + BlockWidth, subjects[1..], n - 1, i - 1);
      assert subjects[i] == subjects[1..][i - 1];
    }
  }

  lemma {:induction false} WriteSubjectsMarksFrom(g: Grid, row: int, subjects: seq<Subject>, col: int)
    ensures MarksFrom(WriteSubjects(g, row, subjects, col).grid, row, col, subjects, ParsedPrefix(subjects))
    decreases |subjects|
  {
    if subjects != [] && MarksParse(subjects[0]) {
      var w := WriteBlock(g, row, col, subjects[0]);
      var out := WriteSubjects(w.grid, row, subjects[1..], col + BlockWidth);
      assert w.complete by { WriteBlockLayout(g, row, col, subjects[0]); }
      WriteSubjectsUnfold(g, row, subjects, col);
      assert MarksAt(out.grid, row, col, subjects[0]) by {
        WriteBlockLayout(g, row, col, subjects[0]);
        WriteSubjectsFrame(w.grid, row, subjects[1..], col + BlockWidth);
        BlockKept(w.grid, out.grid, row, col, subjects[0], col + BlockWidth, TouchedBlocks(subjects[1..]));
      }
      WriteSubjectsMarksFrom(w.grid, row, subjects[1..], col + BlockWidth);
    }
  }

  lemma {:induction false} WriteSubjectsHeadersFrom(g: Grid, row: int, subjects: seq<Subject>, col: int)
    requires row >= 1
    ensures HeadersFrom(WriteSubjects(g, row, subjects, col).grid, col, subjects, TouchedBlocks(subjects))
    decreases |subjects|
  {
    if subjects != [] {
      var w := WriteBlock(g, row, col, subjects[0]);
      assert w.complete <==> MarksParse(subjects[0]) by { WriteBlockLayout(g, row, col, subjects[0]); }
      if w.complete {
        var out := WriteSubjects(w.grid, row, subjects[1..], col + BlockWidth);
        WriteSubjectsUnfold(g, row, subjects, col);
        assert HeadersAt(out.grid, col, subjects[0]) by {
          WriteBlockLayout(g, row, col, subjects[0]);
          WriteSubjectsFrame(w.grid, row, subjects[1..], col + BlockWidth);
          BlockKept(w.grid, out.grid, row, col, subjects[0], col + BlockWidth, TouchedBlocks(subjects[1..]));
        }
        WriteSubjectsHeadersFrom(w.grid, row, subjects[1..], col + BlockWidth);
        assert TouchedBlocks(subjects) == TouchedBlocks(subjects[1..]) + 1;
      } else {
        assert HeadersAt(w.grid, col, subjects[0]) by { WriteBlockLayout(g, row, col, subjects[0]); }
        assert TouchedBlocks(subjects) == 1;
      }
    }
  }

  /**
   * Subject i owns columns col + 4i .. col + 4i + 3: every subject before
   * the first one with an unparsable mark ends with its three marks as
   * integers and its result text (the only orange cell) on the data row,
   * whatever that row is.
   */
  lemma WriteSubjectsMarks(g: Grid, row: int, subjects: seq<Subject>, col: int)
    ensures forall i :: 0 <= i < ParsedPrefix(subjects) ==>
              MarksAt(WriteSubjects(g, row, subjects, col).grid, row, col + BlockWidth * i, subjects[i])
  {
    var grid := WriteSubjects(g, row, subjects, col).grid;
    WriteSubjectsMarksFrom(g, row, subjects, col);
    forall i | 0 <= i < ParsedPrefix(subjects) ensures MarksAt(grid, row, col + BlockWidth * i, subjects[i]) {
      MarksFromAt(grid, row, col, subjects, ParsedPrefix(subjects), i);
    }
  }

  /**
   * On a data row below the two header rows, every block the writer
   * touched, including that of a subject whose marks failed to parse,
   * ends with the subject's name on row 0 and IA, SEE, TOTAL, RES on row 1:
   * a failure rolls nothing back.
   */
  lemma WriteSubjectsHeaders(g: Grid, row: int, subjects: seq<Subject>, col: int)
    requires row >= 1
    ensures forall i :: 0 <= i < TouchedBlocks(subjects) ==>
              HeadersAt(WriteSubjects(g, row, subjects, col).grid, col + BlockWidth * i, subjects[i])
  {
    var grid := WriteSubjects(g, row, subjects, col).grid;
    WriteSubjectsHeadersFrom(g, row, subjects, col);
    forall i | 0 <= i < TouchedBlocks(subjects) ensures HeadersAt(grid, col + BlockWidth * i, subjects[i]) {
      HeadersFromAt(grid, col, subjects, TouchedBlocks(subjects), i);
    }
  }

  /**
   * A data row on output row 1 (source row 0) lands on the sub-header row:
   * once all marks parse, every block's first sub-header cell holds the IA
   * mark instead of "IA".
   */
  lemma SubjectDataOnRowZeroHidesSubHeaders(g: Grid, subjects: seq<Subject>)
    requires forall i :: 0 <= i < |subjects| ==> MarksParse(subjects[i])
    ensures forall i :: 0 <= i < |subjects| ==>
              MarksAt(WriteSubjects(g, 0, subjects, SubjectsStartColumn).grid, 0, SubjectsStartColumn + BlockWidth * i, subjects[i]) &&
              Lookup(WriteSubjects(g, 0, subjects, SubjectsStartColumn).grid, SubHeaderRow, SubjectsStartColumn + BlockWidth * i)
                != Some(TextCell("IA"))
  {
    WriteSubjectsMarks(g, 0, subjects, SubjectsStartColumn);
    ParsedPrefixIsLongest(subjects);
    assert ParsedPrefix(subjects) == |subjects|;
  }
}
