/**
 * The PowerPoint table converter: a table becomes Markdown table lines,
 * one per row, with a header separator after the first row. Each column is
 * as wide as its widest ordinary cell; merge-origin and spanned cells count
 * as width 0 and are written unpadded.
 *
 * The table is its column count and its rows of cells. The cell iterator
 * of the presentation library hands out exactly one cell per row and
 * column, row after row, so the loops read `rows[row][col]` where the
 * source calls `next(cell_iterator)`.
 */
module PptxTable {
  import opened Outcomes
  import opened Text

  datatype Cell = Cell(text: string, isMergeOrigin: bool, isSpanned: bool)

  datatype Table = Table(columns: nat, rows: seq<seq<Cell>>)

  /** Every row has one cell per column. */
  predicate WellFormed(t: Table) {
    forall r :: 0 <= r < |t.rows| ==> |t.rows[r]| == t.columns
  }

  predicate Merged(cell: Cell) {
    cell.isMergeOrigin || cell.isSpanned
  }

  /** The width a cell asks of its column. */
  function Width(cell: Cell): nat {
    if Merged(cell) then 0 else |cell.text|
  }

  /** The widths one column's cells ask for, top to bottom: `col_widths[col_i]`. */
  function ColumnWidths(rows: seq<seq<Cell>>, col: nat): (ws: seq<nat>)
    requires forall r :: 0 <= r < |rows| ==> col < |rows[r]|
    ensures |ws| == |rows|
    ensures forall r :: 0 <= r < |rows| ==> ws[r] == Width(rows[r][col])
  {
    if rows == [] then []
    else ColumnWidths(rows[..|rows| - 1], col) + [Width(rows[|rows| - 1][col])]
  }

  /** Python's `max` of a non-empty list of numbers. */
  function Max(xs: seq<nat>): (m: nat)
    requires xs != []
    ensures forall i :: 0 <= i < |xs| ==> xs[i] <= m
    ensures m in xs
  {
    if |xs| == 1 then xs[0]
    else
      var m := Max(xs[..|xs| - 1]);
      assert forall i :: 0 <= i < |xs| - 1 ==> xs[..|xs| - 1][i] == xs[i];
      if xs[|xs| - 1] > m then xs[|xs| - 1] else m
  }

  /** `calculate_col_char_widths`: each column's largest cell width, or ValueError from `max` of a column without cells. */
  function ColWidths(t: Table): Result<seq<nat>>
    requires WellFormed(t)
  {
    if t.rows == [] && t.columns > 0 then Err(ValueError)
    else Ok(seq(t.columns, c requires 0 <= c < t.columns => Max(ColumnWidths(t.rows, c))))
  }

  /**
   * The widths fail exactly for a table with columns but no rows; otherwise
   * there is one per column, no cell of the column asks for more, and some
   * cell of the column asks for exactly that much.
   */
  lemma ColWidthsSpec(t: Table)
    requires WellFormed(t)
    ensures ColWidths(t).Err? <==> |t.rows| == 0 && t.columns > 0
    ensures ColWidths(t).Err? ==> ColWidths(t).error == ValueError
    ensures ColWidths(t).Ok? ==> |ColWidths(t).value| == t.columns
    ensures ColWidths(t).Ok? ==> forall r, c :: 0 <= r < |t.rows| && 0 <= c < t.columns ==> Width(t.rows[r][c]) <= ColWidths(t).value[c]
    ensures ColWidths(t).Ok? ==> forall c :: 0 <= c < t.columns ==> exists r :: 0 <= r < |t.rows| && Width(t.rows[r][c]) == ColWidths(t).value[c]
  {
    if ColWidths(t).Ok? {
      var w := ColWidths(t).value;
      forall r, c | 0 <= r < |t.rows| && 0 <= c < t.columns
        ensures Width(t.rows[r][c]) <= w[c]
      {
        assert ColumnWidths(t.rows, c)[r] == Width(t.rows[r][c]);
      }
      forall c | 0 <= c < t.columns
        ensures exists r :: 0 <= r < |t.rows| && Width(t.rows[r][c]) == w[c]
      {
        var ws := ColumnWidths(t.rows, c);
        var r :| 0 <= r < |ws| && ws[r] == Max(ws);
        assert Width(t.rows[r][c]) == w[c];
      }
    }
  }

  /** A column whose cells are all merged or spanned has width 0. */
  lemma MergedColumnHasNoWidth(t: Table, c: nat)
    requires WellFormed(t) && ColWidths(t).Ok? && c < t.columns
    requires forall r :: 0 <= r < |t.rows| ==> Merged(t.rows[r][c])
    ensures ColWidths(t).value[c] == 0
  {
    ColWidthsSpec(t);
    var r :| 0 <= r < |t.rows| && Width(t.rows[r][c]) == ColWidths(t).value[c];
  }

  /** The row and column loops of `calculate_col_char_widths`, then `max` of each column's list. */
  method CalculateColCharWidths(t: Table) returns (r: Result<seq<nat>>)
    requires WellFormed(t)
    ensures r == ColWidths(t)
  {
    var colWidths: seq<seq<nat>> := seq(t.columns, _ => []);
    for row := 0 to |t.rows|
      invariant |colWidths| == t.columns
      invariant forall c :: 0 <= c < t.columns ==> colWidths[c] == ColumnWidths(t.rows[..row], c)
    {
      colWidths := AppendRowWidths(colWidths, t, row);
    }
    assert t.rows[..|t.rows|] == t.rows;
    if t.rows == [] && t.columns > 0 {
      return Err(ValueError);
    }
    assert forall c :: 0 <= c < t.columns ==> colWidths[c] != [];
    var widths := seq(t.columns, c requires 0 <= c < t.columns && colWidths[c] != [] => Max(colWidths[c]));
    assert forall k :: 0 <= k < t.columns ==> ColWidths(t).value[k] == widths[k];
    assert widths == ColWidths(t).value;
    r := Ok(widths);
  }

  /** The inner loop of `calculate_col_char_widths`: one width appended to each column's list. */
  method AppendRowWidths(colWidths: seq<seq<nat>>, t: Table, row: nat) returns (next: seq<seq<nat>>)
    requires WellFormed(t) && row < |t.rows| && |colWidths| == t.columns
    requires forall c :: 0 <= c < t.columns ==> colWidths[c] == ColumnWidths(t.rows[..row], c)
    ensures |next| == t.columns
    ensures forall c :: 0 <= c < t.columns ==> next[c] == ColumnWidths(t.rows[..row + 1], c)
  {
    next := colWidths;
    for col := 0 to t.columns
      invariant |next| == t.columns
      invariant forall c :: 0 <= c < col ==> next[c] == ColumnWidths(t.rows[..row + 1], c)
      invariant forall c :: col <= c < t.columns ==> next[c] == ColumnWidths(t.rows[..row], c)
    {
      var cell := t.rows[row][col];
      var colWidth;
      if cell.isMergeOrigin || cell.isSpanned {
        colWidth := 0;
      } else {
        colWidth := |cell.text|;
      }
      ColumnWidthsSnoc(t.rows, row, col);
      next := next[col := next[col] + [colWidth]];
    }
  }

  /** One more row adds one width to each column's list. */
  lemma ColumnWidthsSnoc(rows: seq<seq<Cell>>, row: nat, col: nat)
    requires row < |rows| && col < |rows[row]|
    requires forall r :: 0 <= r < |rows| ==> col < |rows[r]|
    ensures ColumnWidths(rows[..row + 1], col) == ColumnWidths(rows[..row], col) + [Width(rows[row][col])]
  {
    assert rows[..row + 1][..row] == rows[..row];
  }

  // ---------------------------------------------------------------------
  // Lines

  /** A cell as written: merged and spanned cells as they are, ordinary cells `ljust` to the column width. */
  function Pad(cell: Cell, width: nat): string {
    if Merged(cell) then cell.text else LJust(cell.text, width)
  }

  /** `f"| {' | '.join(parts)} |"`. */
  function Framed(parts: seq<string>): string {
    "| " + Join(" | ", parts) + " |"
  }

  /** One run of `-` per column, as long as the column is wide. */
  function Dashes(widths: seq<nat>): (ds: seq<string>)
    ensures |ds| == |widths|
  {
    seq(|widths|, c requires 0 <= c < |widths| => Repeat('-', widths[c]))
  }

  /** The header separator line. */
  function Separator(widths: seq<nat>): string {
    Framed(Dashes(widths))
  }

  /** The cells of one row as written. */
  function PaddedCells(row: seq<Cell>, widths: seq<nat>): (ps: seq<string>)
    requires |row| == |widths|
    ensures |ps| == |row|
  {
    seq(|row|, c requires 0 <= c < |row| => Pad(row[c], widths[c]))
  }

  /** One row's line. */
  function RowLine(row: seq<Cell>, widths: seq<nat>): string
    requires |row| == |widths|
  {
    Framed(PaddedCells(row, widths))
  }

  predicate RowsFit(rows: seq<seq<Cell>>, widths: seq<nat>) {
    forall r :: 0 <= r < |rows| ==> |rows[r]| == |widths|
  }

  /** `table_lines` for these rows: each row's line, with the separator before the second row. */
  function TableLines(rows: seq<seq<Cell>>, widths: seq<nat>): (lines: seq<string>)
    requires RowsFit(rows, widths)
    ensures |lines| == if |rows| >= 2 then |rows| + 1 else |rows|
  {
    if rows == [] then []
    else
      var n := |rows| - 1;
      TableLines(rows[..n], widths) + (if n == 1 then [Separator(widths)] else []) + [RowLine(rows[n], widths)]
  }

  /** `table_to_markdown`: the lines, or the ValueError of the widths. */
  function TableMarkdown(t: Table): Result<seq<string>>
    requires WellFormed(t)
  {
    match ColWidths(t)
    case Err(e) => Err(e)
    case Ok(w) => Ok(TableLines(t.rows, w))
  }

  /** The loops of `table_to_markdown`. */
  method TableToMarkdown(t: Table) returns (r: Result<seq<string>>)
    requires WellFormed(t)
    ensures r == TableMarkdown(t)
  {
    var widths := CalculateColCharWidths(t);
    if widths.Err? {
      return Err(widths.error);
    }
    var colWidths := widths.value;
    assert RowsFit(t.rows, colWidths);
    var tableLines := RowsToLines(t.rows, colWidths);
    r := Ok(tableLines);
  }

  /** The row loop of `table_to_markdown`, once the widths are known. */
  method RowsToLines(rows: seq<seq<Cell>>, colWidths: seq<nat>) returns (tableLines: seq<string>)
    requires RowsFit(rows, colWidths)
    ensures tableLines == TableLines(rows, colWidths)
  {
    tableLines := [];
    for rowI := 0 to |rows|
      invariant tableLines == TableLines(rows[..rowI], colWidths)
    {
      TableLinesStep(rows, colWidths, rowI);
      if rowI == 1 {
        tableLines := tableLines + [Separator(colWidths)];
      }
      var rowLine := RowToLine(rows[rowI], colWidths);
      tableLines := tableLines + [rowLine];
    }
    assert rows[..|rows|] == rows;
  }

  /** One more row: the separator when it is the second row, then the row's line. */
  lemma TableLinesStep(rows: seq<seq<Cell>>, widths: seq<nat>, i: nat)
    requires RowsFit(rows, widths) && i < |rows|
    ensures RowsFit(rows[..i + 1], widths) && |rows[i]| == |widths|
    ensures TableLines(rows[..i + 1], widths)
      == TableLines(rows[..i], widths) + (if i == 1 then [Separator(widths)] else []) + [RowLine(rows[i], widths)]
  {
    assert rows[..i + 1][..i] == rows[..i];
  }

  /** The column loop of `table_to_markdown` for one row, then the row's line. */
  method RowToLine(row: seq<Cell>, colWidths: seq<nat>) returns (line: string)
    requires |row| == |colWidths|
    ensures line == RowLine(row, colWidths)
  {
    var rowLines: seq<string> := [];
    for colI := 0 to |row|
      invariant |rowLines| == colI
      invariant forall k :: 0 <= k < colI ==> rowLines[k] == Pad(row[k], colWidths[k])
    {
      var cell := row[colI];
      var colWidth := colWidths[colI];
      var cellText;
      if cell.isSpanned || cell.isMergeOrigin {
        cellText := cell.text;
      } else {
        cellText := LJust(cell.text, colWidth);
      }
      rowLines := rowLines + [cellText];
    }
    assert rowLines == PaddedCells(row, colWidths);
    line := "| " + Join(" | ", rowLines) + " |";
  }

  /** Where each row's line lands: the first row first, the separator second, every later row one place down. */
  lemma {:induction false} TableLinesLayout(rows: seq<seq<Cell>>, widths: seq<nat>)
    requires RowsFit(rows, widths)
    ensures rows != [] ==> TableLines(rows, widths)[0] == RowLine(rows[0], widths)
    ensures |rows| >= 2 ==> TableLines(rows, widths)[1] == Separator(widths)
    ensures forall r :: 1 <= r < |rows| ==> TableLines(rows, widths)[r + 1] == RowLine(rows[r], widths)
  {
    if rows != [] {
      var n := |rows| - 1;
      var front := rows[..n];
      TableLinesLayout(front, widths);
      assert forall r :: 0 <= r < n ==> front[r] == rows[r];
    }
  }

  /** A framed line starts with `"| "` and ends with `" |"`. */
  lemma FramedEnds(parts: seq<string>)
    ensures |Framed(parts)| >= 4
    ensures Framed(parts)[..2] == "| "
    ensures Framed(parts)[|Framed(parts)| - 2..] == " |"
  {
    var j := Join(" | ", parts);
    assert Framed(parts) == "| " + j + " |";
  }

  /** Every line of the table, the separator included, starts with `"| "` and ends with `" |"`. */
  lemma {:induction false} TableLinesFramed(rows: seq<seq<Cell>>, widths: seq<nat>)
    requires RowsFit(rows, widths)
    ensures forall k :: 0 <= k < |TableLines(rows, widths)| ==>
      |TableLines(rows, widths)[k]| >= 4 &&
      TableLines(rows, widths)[k][..2] == "| " &&
      TableLines(rows, widths)[k][|TableLines(rows, widths)[k]| - 2..] == " |"
  {
    if rows != [] {
      var n := |rows| - 1;
      TableLinesFramed(rows[..n], widths);
      FramedEnds(PaddedCells(rows[n], widths));
      FramedEnds(Dashes(widths));
    }
  }

  /** The separator's runs: one per column, made of `-` only, as long as the column's width. */
  lemma SeparatorRuns(widths: seq<nat>)
    ensures Separator(widths) == Framed(Dashes(widths))
    ensures forall c :: 0 <= c < |widths| ==> |Dashes(widths)[c]| == widths[c]
    ensures forall c, i :: 0 <= c < |widths| && 0 <= i < widths[c] ==> Dashes(widths)[c][i] == '-'
  {
  }

  /** An ordinary cell no wider than its column is padded with spaces to exactly the column width; its text stays whole. */
  lemma PadOrdinary(cell: Cell, width: nat)
    requires !Merged(cell) && |cell.text| <= width
    ensures |Pad(cell, width)| == width
    ensures Pad(cell, width)[..|cell.text|] == cell.text
    ensures forall i :: |cell.text| <= i < width ==> Pad(cell, width)[i] == ' '
  {
  }

  /** A merged or spanned cell is written as it is, whatever the width. */
  lemma PadMerged(cell: Cell, width: nat)
    requires Merged(cell)
    ensures Pad(cell, width) == cell.text
  {
  }

  /** In a converted table every ordinary cell is written exactly as wide as its column. */
  lemma OrdinaryCellsFillColumn(t: Table, r: nat, c: nat)
    requires WellFormed(t) && ColWidths(t).Ok?
    requires r < |t.rows| && c < t.columns && !Merged(t.rows[r][c])
    ensures |Pad(t.rows[r][c], ColWidths(t).value[c])| == ColWidths(t).value[c]
    ensures Pad(t.rows[r][c], ColWidths(t).value[c])[..|t.rows[r][c].text|] == t.rows[r][c].text
  {
    ColWidthsSpec(t);
    PadOrdinary(t.rows[r][c], ColWidths(t).value[c]);
  }

  /** A merged cell may be longer than its column: its width does not count. */
  lemma MergedCellOverflows()
    ensures var t := Table(1, [[Cell("ab", true, false)], [Cell("x", false, false)]]);
      ColWidths(t) == Ok([1]) && |Pad(t.rows[0][0], 1)| == 2
  {
    var t := Table(1, [[Cell("ab", true, false)], [Cell("x", false, false)]]);
    assert ColumnWidths(t.rows, 0) == [0, 1];
    assert Max([0, 1]) == 1;
    assert ColWidths(t).value == [1];
  }
}
