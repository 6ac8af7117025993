/**
  * Day 3: an engine schematic is a grid of text lines. A part number is a
  * maximal run of digits adjacent (also diagonally) to a symbol, any
  * character other than a digit, `.` or a line break. Part one sums the part
  * numbers; part two sums, over the `*` cells with exactly two adjacent
  * numbers, the product of those two numbers.
  *
  * The bounds check of the 3x3 block is inclusive (`0 <= x <= max_rows`,
  * `max_rows = len(lines)`), so a symbol in the last row whose column is at
  * most one past the length of the first line makes the scanner look one row
  * past the end, which raises IndexError; the model keeps this.
  */
module Schematic {
  import opened Outcomes
  import opened Text

  /** A position in the grid: row, then column. */
  datatype Cell = Cell(row: int, col: int)

  /**
    * A number of the schematic: its row, the span `[colStart, colEnd)` of its
    * digits and its value. Python hashes it by the position alone; equality
    * compares all fields, and within one schematic the position determines the
    * value (see `SamePositionSameNumber`).
    */
  datatype PartNumber = PartNumber(row: int, colStart: nat, colEnd: nat, value: nat)

  /** `SYMBOL = [^\d.\n]`. */
  predicate IsSymbol(c: char) { !IsDigit(c) && c != '.' && c != '\n' }

  /** `GEAR = (\*)`. */
  predicate IsGear(c: char) { c == '*' }

  /** `c` is at most one row and one column away from `(row, col)`. */
  predicate Near(c: Cell, row: int, col: int) {
    row - 1 <= c.row <= row + 1 && col - 1 <= c.col <= col + 1
  }

  /** The bounds test of `surroundings`: both upper bounds inclusive. */
  predicate InBounds(c: Cell, maxRows: int, maxCols: int) {
    0 <= c.row <= maxRows && 0 <= c.col <= maxCols
  }

  predicate RowMajorBefore(a: Cell, b: Cell) {
    a.row < b.row || (a.row == b.row && a.col < b.col)
  }

  predicate RowMajorSorted(cells: seq<Cell>) {
    forall a, b :: 0 <= a < b < |cells| ==> RowMajorBefore(cells[a], cells[b])
  }

  // ----------------------------------------------------------------------
  // surroundings
  // ----------------------------------------------------------------------

  /** The 3x3 block around `(row, col)`, row by row. */
  function Window(row: int, col: int): (w: seq<Cell>)
    ensures |w| == 9 && RowMajorSorted(w)
    ensures forall c :: c in w <==> Near(c, row, col)
  {
    [Cell(row - 1, col - 1), Cell(row - 1, col), Cell(row - 1, col + 1),
     Cell(row, col - 1), Cell(row, col), Cell(row, col + 1),
     Cell(row + 1, col - 1), Cell(row + 1, col), Cell(row + 1, col + 1)]
  }

  /** The cells that pass the bounds test, in their order. */
  function Clip(cells: seq<Cell>, maxRows: int, maxCols: int): (kept: seq<Cell>)
    ensures |kept| <= |cells|
    ensures forall c :: c in kept <==> c in cells && InBounds(c, maxRows, maxCols)
    ensures RowMajorSorted(cells) ==> RowMajorSorted(kept)
    decreases |cells|
  {
    if cells == [] then []
    else
      var rest := Clip(cells[1..], maxRows, maxCols);
      assert forall c :: c in cells[1..] ==> c in cells;
      assert RowMajorSorted(cells) ==> RowMajorSorted(cells[1..]) && forall c :: c in cells[1..] ==> RowMajorBefore(cells[0], c);
      if InBounds(cells[0], maxRows, maxCols) then [cells[0]] + rest else rest
  }

  /**
    * `surroundings(row, col, max_rows, max_cols)`: the cells within one row and
    * one column of `(row, col)` that satisfy `0 <= x <= max_rows` and
    * `0 <= y <= max_cols`, in row-major order, without duplicates.
    */
  function Surroundings(row: int, col: int, maxRows: int, maxCols: int): (cells: seq<Cell>)
    ensures |cells| <= 9
    ensures forall c :: c in cells <==> Near(c, row, col) && InBounds(c, maxRows, maxCols)
    ensures RowMajorSorted(cells)
    ensures forall a, b :: 0 <= a < b < |cells| ==> cells[a] != cells[b]
    ensures InBounds(Cell(row, col), maxRows, maxCols) ==> Cell(row, col) in cells
  {
    Clip(Window(row, col), maxRows, maxCols)
  }

  // ----------------------------------------------------------------------
  // from_pos
  // ----------------------------------------------------------------------

  /** Python's index `rows[row]` for `-n <= row < n`. */
  function LineIndex(row: int, n: int): (i: int)
    requires -n <= row < n
    ensures 0 <= i < n && (row >= 0 ==> i == row) && (row < 0 ==> i == row + n)
  {
    if row < 0 then row + n else row
  }

  /** The first run of digits at index `i` or later of `NUMBER.finditer(line)` whose span holds `col`. */
  function FindRun(line: string, row: int, col: int, i: nat): Option<PartNumber>
    requires i <= |Spans(line, IsDigit)|
    decreases |Spans(line, IsDigit)| - i
  {
    var runs := Spans(line, IsDigit);
    if i == |runs| then None
    else if runs[i].start <= col < runs[i].end then
      Some(PartNumber(row, runs[i].start, runs[i].end, RunValue(line, runs[i])))
    else
      FindRun(line, row, col, i + 1)
  }

  /**
    * A number found is the maximal run of digits through `col` with its decimal
    * value; None means that no run from index `i` on holds `col`.
    */
  lemma {:induction false} FindRunSpec(line: string, row: int, col: int, i: nat)
    requires i <= |Spans(line, IsDigit)|
    ensures var r := FindRun(line, row, col, i);
            (r.Some? ==>
               var sp := Span(r.value.colStart, r.value.colEnd);
               r.value.row == row && IsMaximalRun(line, IsDigit, sp) && sp.start <= col < sp.end
               && r.value.value == RunValue(line, sp))
            && (r.None? ==>
                  forall a :: i <= a < |Spans(line, IsDigit)| ==> !(Spans(line, IsDigit)[a].start <= col < Spans(line, IsDigit)[a].end))
    decreases |Spans(line, IsDigit)| - i
  {
    var runs := Spans(line, IsDigit);
    if i < |runs| && !(runs[i].start <= col < runs[i].end) {
      FindRunSpec(line, row, col, i + 1);
    }
  }

  /**
    * `PartNumber.from_pos`: IndexError when `rows[row]` is out of range
    * (negative rows count from the end, as in Python), else the number whose
    * digits cover column `col` of that row, or None.
    */
  function FromPos(schematic: string, row: int, col: int): (r: Result<Option<PartNumber>>)
    ensures r.Err? <==> !(-|SplitLines(schematic)| <= row < |SplitLines(schematic)|)
    ensures r.Err? ==> r == Err(IndexError)
  {
    var lines := SplitLines(schematic);
    if -|lines| <= row < |lines| then
      Ok(FindRun(lines[LineIndex(row, |lines|)], row, col, 0))
    else
      Err(IndexError)
  }

  /**
    * `from_pos` finds a number exactly when the character at `col` is a digit;
    * the number is then the maximal run of digits through `col`, read in
    * decimal, and it carries the row it was asked for.
    */
  lemma FromPosSpec(schematic: string, row: int, col: int)
    requires -|SplitLines(schematic)| <= row < |SplitLines(schematic)|
    ensures var line := SplitLines(schematic)[LineIndex(row, |SplitLines(schematic)|)];
            var r := FromPos(schematic, row, col).value;
            (r.Some? <==> 0 <= col < |line| && IsDigit(line[col]))
            && (r.Some? ==>
                  var sp := Span(r.value.colStart, r.value.colEnd);
                  r.value.row == row && IsMaximalRun(line, IsDigit, sp) && sp.start <= col < sp.end
                  && r.value.value == RunValue(line, sp))
  {
    var lines := SplitLines(schematic);
    var line := lines[LineIndex(row, |lines|)];
    var r := FromPos(schematic, row, col).value;
    assert r == FindRun(line, row, col, 0);
    FindRunSpec(line, row, col, 0);
    if 0 <= col < |line| && IsDigit(line[col]) {
      var a := SpansCover(line, IsDigit, col);
    }
  }

  /** Within one schematic, two numbers found at the same row and span are the same number. */
  lemma SamePositionSameNumber(schematic: string, row: int, col: int, col': int, p: PartNumber, q: PartNumber)
    requires FromPos(schematic, row, col) == Ok(Some(p))
    requires FromPos(schematic, row, col') == Ok(Some(q))
    requires p.colStart == q.colStart && p.colEnd == q.colEnd
    ensures p == q
  {
    FromPosSpec(schematic, row, col);
    FromPosSpec(schematic, row, col');
  }

  // ----------------------------------------------------------------------
  // Collecting numbers over cells
  // ----------------------------------------------------------------------

  /**
    * The union of `f(c)` over the cells, taken one after the other, or the
    * error of the first cell for which `f` fails.
    */
  function Collect(cells: seq<Cell>, f: Cell -> Result<set<PartNumber>>): (r: Result<set<PartNumber>>)
    ensures r.Ok? <==> forall c :: c in cells ==> f(c).Ok?
    ensures r.Err? ==> exists c :: c in cells && f(c) == Err(r.exc)
    decreases |cells|
  {
    if cells == [] then Ok({})
    else
      var n := |cells| - 1;
      assert forall c :: c in cells <==> c in cells[..n] || c == cells[n];
      match Collect(cells[..n], f)
      case Err(e) => Err(e)
      case Ok(parts) =>
        match f(cells[n])
        case Err(e) => Err(e)
        case Ok(more) => Ok(parts + more)
  }

  /** The union holds exactly the numbers that `f` yields for one of the cells. */
  lemma {:induction false} CollectMembers(cells: seq<Cell>, f: Cell -> Result<set<PartNumber>>, p: PartNumber)
    requires Collect(cells, f).Ok?
    ensures p in Collect(cells, f).value <==> exists c :: c in cells && p in f(c).value
    decreases |cells|
  {
    if cells != [] {
      var n := |cells| - 1;
      assert forall c :: c in cells <==> c in cells[..n] || c == cells[n];
      CollectMembers(cells[..n], f, p);
    }
  }

  /** One more cell adds what `f` yields for it. */
  lemma CollectStep(cells: seq<Cell>, c: Cell, f: Cell -> Result<set<PartNumber>>, parts: set<PartNumber>, more: set<PartNumber>)
    requires Collect(cells, f) == Ok(parts) && f(c) == Ok(more)
    ensures Collect(cells + [c], f) == Ok(parts + more)
  {
    assert (cells + [c])[..|cells|] == cells;
  }

  // ----------------------------------------------------------------------
  // from_neighborhood
  // ----------------------------------------------------------------------

  /** `from_pos` at a cell, as a set of at most one number. */
  function FoundAt(schematic: string): Cell -> Result<set<PartNumber>> {
    (c: Cell) =>
      match FromPos(schematic, c.row, c.col)
      case Err(e) => Err(e)
      case Ok(None) => Ok({})
      case Ok(Some(p)) => Ok({p})
  }

  /** The number at a cell is the one `from_pos` returns there. */
  lemma FoundAtMember(schematic: string, c: Cell, p: PartNumber)
    requires FoundAt(schematic)(c).Ok?
    ensures p in FoundAt(schematic)(c).value <==> FromPos(schematic, c.row, c.col) == Ok(Some(p))
  {
  }

  /**
    * What `from_neighborhood(schematic, row, col, max_rows, max_cols)` returns:
    * the numbers `from_pos` finds at the cells of `surroundings`, or the
    * IndexError of the first cell whose row is not a line.
    */
  function Neighborhood(schematic: string, row: int, col: int, maxRows: int, maxCols: int): (r: Result<set<PartNumber>>)
    ensures r.Err? ==> r == Err(IndexError)
  {
    Collect(Surroundings(row, col, maxRows, maxCols), FoundAt(schematic))
  }

  /**
    * `PartNumber.from_neighborhood`: the numbers found by `from_pos` at the
    * cells of `surroundings`, collected into a set.
    */
  method FromNeighborhood(schematic: string, row: int, col: int, maxRows: int, maxCols: int)
    returns (r: Result<set<PartNumber>>)
    ensures r == Neighborhood(schematic, row, col, maxRows, maxCols)
  {
    var neighborhood := Surroundings(row, col, maxRows, maxCols);
    var partNumbers: set<PartNumber> := {};
    for i := 0 to |neighborhood|
      invariant Collect(neighborhood[..i], FoundAt(schematic)) == Ok(partNumbers)
    {
      var cell := neighborhood[i];
      var partNumber := FromPos(schematic, cell.row, cell.col);
      if partNumber.Err? {
        FoundAtFails(schematic, neighborhood, i);
        return Err(IndexError);
      }
      FoundAtStep(schematic, neighborhood, i, partNumbers);
      if partNumber.value.Some? {
        partNumbers := partNumbers + {partNumber.value.value};
      }
    }
    assert neighborhood[..|neighborhood|] == neighborhood;
    r := Ok(partNumbers);
  }

  /** One more cell adds the number `from_pos` finds there, if any. */
  lemma FoundAtStep(schematic: string, cells: seq<Cell>, i: nat, parts: set<PartNumber>)
    requires i < |cells| && Collect(cells[..i], FoundAt(schematic)) == Ok(parts)
    requires FromPos(schematic, cells[i].row, cells[i].col).Ok?
    ensures var found := FromPos(schematic, cells[i].row, cells[i].col).value;
            Collect(cells[..i + 1], FoundAt(schematic)) == Ok(if found.Some? then parts + {found.value} else parts)
  {
    var found := FromPos(schematic, cells[i].row, cells[i].col).value;
    assert cells[..i + 1] == cells[..i] + [cells[i]];
    var more := if found.Some? then {found.value} else {};
    CollectStep(cells[..i], cells[i], FoundAt(schematic), parts, more);
    assert parts + {} == parts;
  }

  /** A cell where `from_pos` fails makes the whole neighbourhood fail. */
  lemma FoundAtFails(schematic: string, cells: seq<Cell>, i: nat)
    requires i < |cells| && FromPos(schematic, cells[i].row, cells[i].col).Err?
    ensures Collect(cells, FoundAt(schematic)) == Err(IndexError)
  {
    assert cells[i] in cells;
  }

  /**
    * The neighbourhood holds exactly the numbers that `from_pos` finds at a
    * cell within one row and one column of `(row, col)` that passes the
    * bounds test.
    */
  lemma NeighborhoodMembers(schematic: string, row: int, col: int, maxRows: int, maxCols: int, p: PartNumber)
    requires Neighborhood(schematic, row, col, maxRows, maxCols).Ok?
    ensures p in Neighborhood(schematic, row, col, maxRows, maxCols).value <==>
            exists c :: Near(c, row, col) && InBounds(c, maxRows, maxCols) && FromPos(schematic, c.row, c.col) == Ok(Some(p))
  {
    var cells, found := Surroundings(row, col, maxRows, maxCols), FoundAt(schematic);
    CollectMembers(cells, found, p);
    if p in Neighborhood(schematic, row, col, maxRows, maxCols).value {
      var c :| c in cells && p in found(c).value;
      FoundAtMember(schematic, c, p);
    }
    if exists c :: Near(c, row, col) && InBounds(c, maxRows, maxCols) && FromPos(schematic, c.row, c.col) == Ok(Some(p)) {
      var c :| Near(c, row, col) && InBounds(c, maxRows, maxCols) && FromPos(schematic, c.row, c.col) == Ok(Some(p));
      FoundAtMember(schematic, c, p);
      assert c in cells;
    }
  }

  /** Every number of a neighbourhood touches the centre cell, diagonals included. */
  lemma NeighborhoodAdjacent(schematic: string, row: int, col: int, maxRows: int, maxCols: int, p: PartNumber)
    requires Neighborhood(schematic, row, col, maxRows, maxCols).Ok?
    requires p in Neighborhood(schematic, row, col, maxRows, maxCols).value
    ensures row - 1 <= p.row <= row + 1 && p.colStart - 1 <= col <= p.colEnd
  {
    NeighborhoodMembers(schematic, row, col, maxRows, maxCols, p);
    var c :| Near(c, row, col) && InBounds(c, maxRows, maxCols) && FromPos(schematic, c.row, c.col) == Ok(Some(p));
    FromPosSpec(schematic, c.row, c.col);
  }

  /**
    * A number whose digits occupy several cells of the block is in the
    * neighbourhood once: two members at the same position are equal.
    */
  lemma NeighborhoodKeyed(schematic: string, row: int, col: int, maxRows: int, maxCols: int, p: PartNumber, q: PartNumber)
    requires Neighborhood(schematic, row, col, maxRows, maxCols).Ok?
    requires p in Neighborhood(schematic, row, col, maxRows, maxCols).value
    requires q in Neighborhood(schematic, row, col, maxRows, maxCols).value
    requires p.row == q.row && p.colStart == q.colStart && p.colEnd == q.colEnd
    ensures p == q
  {
    NeighborhoodMembers(schematic, row, col, maxRows, maxCols, p);
    NeighborhoodMembers(schematic, row, col, maxRows, maxCols, q);
    var c :| Near(c, row, col) && InBounds(c, maxRows, maxCols) && FromPos(schematic, c.row, c.col) == Ok(Some(p));
    var d :| Near(d, row, col) && InBounds(d, maxRows, maxCols) && FromPos(schematic, d.row, d.col) == Ok(Some(q));
    FromPosSpec(schematic, c.row, c.col);
    FromPosSpec(schematic, d.row, d.col);
    SamePositionSameNumber(schematic, p.row, c.col, d.col, p, q);
  }

  /**
    * The neighbourhood raises IndexError exactly when one of its cells lies in
    * a row at or past the last line (the bounds test admits row `max_rows`).
    */
  lemma NeighborhoodFails(schematic: string, row: int, col: int, maxRows: int, maxCols: int)
    ensures Neighborhood(schematic, row, col, maxRows, maxCols).Err? <==>
            exists c :: c in Surroundings(row, col, maxRows, maxCols) && c.row >= |SplitLines(schematic)|
  {
    var n := |SplitLines(schematic)|;
    forall c | c in Surroundings(row, col, maxRows, maxCols)
      ensures FoundAt(schematic)(c).Err? <==> c.row >= n
    {
      assert c.row >= 0;
    }
  }

  /**
    * Around a cell of the grid, with `max_rows` the number of lines, the
    * neighbourhood fails exactly when the cell is on the last line and its
    * column is at most one past `max_cols`.
    */
  lemma NeighborhoodFailsOnLastRow(schematic: string, row: int, col: int, maxCols: int)
    requires 0 <= row < |SplitLines(schematic)| && 0 <= col && 0 <= maxCols
    ensures Neighborhood(schematic, row, col, |SplitLines(schematic)|, maxCols).Err? <==>
            row == |SplitLines(schematic)| - 1 && col <= maxCols + 1
  {
    var n := |SplitLines(schematic)|;
    NeighborhoodFails(schematic, row, col, n, maxCols);
    if Neighborhood(schematic, row, col, n, maxCols).Err? {
      var d :| d in Surroundings(row, col, n, maxCols) && d.row >= n;
      assert Near(d, row, col) && InBounds(d, n, maxCols);
    }
    if row == n - 1 && col <= maxCols + 1 {
      var below := Cell(n, if col == 0 then 0 else col - 1);
      assert Near(below, row, col) && InBounds(below, n, maxCols);
    }
  }

  // ----------------------------------------------------------------------
  // Scanning the grid
  // ----------------------------------------------------------------------

  /** The cells of one line whose character is in the class `p`, left to right. */
  function RowCells(line: string, row: int, p: char -> bool): (cells: seq<Cell>)
    ensures forall c :: c in cells <==> c.row == row && 0 <= c.col < |line| && p(line[c.col])
    ensures forall a :: 0 <= a < |cells| ==> cells[a].row == row
    ensures forall a, b :: 0 <= a < b < |cells| ==> cells[a].col < cells[b].col
    decreases |line|
  {
    if line == [] then []
    else
      var n := |line| - 1;
      var before := RowCells(line[..n], row, p);
      assert forall k :: 0 <= k < n ==> line[..n][k] == line[k];
      before + (if p(line[n]) then [Cell(row, n)] else [])
  }

  /** The cells of the grid whose character is in the class `p`, in row-major order. */
  function GridCells(lines: seq<string>, p: char -> bool): (cells: seq<Cell>)
    ensures forall c :: c in cells <==> 0 <= c.row < |lines| && 0 <= c.col < |lines[c.row]| && p(lines[c.row][c.col])
    ensures RowMajorSorted(cells)
    decreases |lines|
  {
    if lines == [] then []
    else
      var n := |lines| - 1;
      var before := GridCells(lines[..n], p);
      var last := RowCells(lines[n], n, p);
      assert forall k :: 0 <= k < n ==> lines[..n][k] == lines[k];
      assert forall a :: 0 <= a < |before| ==> before[a] in before && before[a].row < n;
      before + last
  }

  /** `from_neighborhood` with the bounds of the grid, as a function of the centre cell. */
  function NeighborhoodOf(schematic: string, maxRows: int, maxCols: int): Cell -> Result<set<PartNumber>> {
    (c: Cell) => Neighborhood(schematic, c.row, c.col, maxRows, maxCols)
  }

  /** The symbol cells of the grid: the matches of `SYMBOL.finditer` on every line. */
  function SymbolCells(lines: seq<string>): seq<Cell> {
    GridCells(lines, IsSymbol)
  }

  /**
    * What `PartNumber.from_schematic` returns: IndexError for an empty
    * schematic (`lines[0]`), else the union of the neighbourhoods of all
    * symbol cells, with `max_rows` the number of lines and `max_cols` the
    * length of the first line.
    */
  function SchematicParts(schematic: string): (r: Result<set<PartNumber>>)
    ensures r.Err? ==> r == Err(IndexError)
  {
    var lines := SplitLines(schematic);
    if |lines| == 0 then Err(IndexError)
    else Collect(SymbolCells(lines), NeighborhoodOf(schematic, |lines|, |lines[0]|))
  }

  /** The cells of the first `row` lines and then of the first `col` characters of line `row`. */
  function ScannedCells(lines: seq<string>, row: nat, col: nat, p: char -> bool): seq<Cell>
    requires row < |lines| && col <= |lines[row]|
  {
    GridCells(lines[..row], p) + RowCells(lines[row][..col], row, p)
  }

  /** Scanning one more character adds its cell when it is in the class. */
  lemma ScanNextColumn(lines: seq<string>, row: nat, col: nat, p: char -> bool)
    requires row < |lines| && col < |lines[row]|
    ensures ScannedCells(lines, row, col + 1, p) ==
            ScannedCells(lines, row, col, p) + (if p(lines[row][col]) then [Cell(row, col)] else [])
  {
    var line := lines[row];
    assert line[..col + 1][..col] == line[..col];
    var a, b := GridCells(lines[..row], p), RowCells(line[..col], row, p);
    var c := if p(line[col]) then [Cell(row, col)] else [];
    assert a + (b + c) == (a + b) + c;
  }

  /** A finished line is followed by the start of the next one. */
  lemma ScanNextRow(lines: seq<string>, row: nat, p: char -> bool)
    requires row + 1 < |lines|
    ensures ScannedCells(lines, row, |lines[row]|, p) == ScannedCells(lines, row + 1, 0, p)
  {
    assert lines[..row + 1][..row] == lines[..row];
    assert lines[row][..|lines[row]|] == lines[row];
    assert lines[row + 1][..0] == [];
  }

  /** The whole scan covers every cell of the grid. */
  lemma ScanEnd(lines: seq<string>, p: char -> bool)
    requires |lines| > 0
    ensures ScannedCells(lines, |lines| - 1, |lines[|lines| - 1]|, p) == GridCells(lines, p)
  {
    var n := |lines| - 1;
    assert lines[n][..|lines[n]|] == lines[n];
    assert lines[..n + 1] == lines;
  }

  /** A symbol whose neighbourhood fails makes the whole scan fail. */
  lemma SymbolCellFails(schematic: string, row: int, col: int)
    requires var lines := SplitLines(schematic);
             0 <= row < |lines| && 0 <= col < |lines[row]| && IsSymbol(lines[row][col])
             && Neighborhood(schematic, row, col, |lines|, |lines[0]|).Err?
    ensures SchematicParts(schematic) == Err(IndexError)
  {
    var lines := SplitLines(schematic);
    var cells := SymbolCells(lines);
    var near := NeighborhoodOf(schematic, |lines|, |lines[0]|);
    assert Cell(row, col) in cells && near(Cell(row, col)).Err?;
    assert SchematicParts(schematic) == Collect(cells, near);
  }

  /**
    * `PartNumber.from_schematic`: every symbol found scanning the lines adds
    * the numbers of its neighbourhood to the set.
    */
  method FromSchematic(schematic: string) returns (r: Result<set<PartNumber>>)
    ensures r == SchematicParts(schematic)
  {
    var lines := SplitLines(schematic);
    if |lines| == 0 {
      return Err(IndexError);
    }
    var maxRows, maxCols := |lines|, |lines[0]|;
    ghost var near := NeighborhoodOf(schematic, maxRows, maxCols);
    var partNumbers: set<PartNumber> := {};
    assert lines[..0] == [] && lines[0][..0] == [];
    for row := 0 to |lines|
      invariant row < |lines| ==> Collect(ScannedCells(lines, row, 0, IsSymbol), near) == Ok(partNumbers)
      invariant row == |lines| ==> Collect(SymbolCells(lines), near) == Ok(partNumbers)
    {
      var line := lines[row];
      for col := 0 to |line|
        invariant Collect(ScannedCells(lines, row, col, IsSymbol), near) == Ok(partNumbers)
      {
        ScanNextColumn(lines, row, col, IsSymbol);
        if IsSymbol(line[col]) {
          var neighboringParts := FromNeighborhood(schematic, row, col, maxRows, maxCols);
          if neighboringParts.Err? {
            SymbolCellFails(schematic, row, col);
            return Err(IndexError);
          }
          CollectStep(ScannedCells(lines, row, col, IsSymbol), Cell(row, col), near, partNumbers, neighboringParts.value);
          partNumbers := partNumbers + neighboringParts.value;
        } else {
          assert ScannedCells(lines, row, col, IsSymbol) + [] == ScannedCells(lines, row, col, IsSymbol);
        }
      }
      if row + 1 < |lines| {
        ScanNextRow(lines, row, IsSymbol);
      } else {
        ScanEnd(lines, IsSymbol);
      }
    }
    r := Ok(partNumbers);
  }

  /** Every number `from_schematic` returns touches a symbol, diagonals included. */
  lemma SchematicPartsAdjacent(schematic: string, p: PartNumber) returns (c: Cell)
    requires SchematicParts(schematic).Ok? && p in SchematicParts(schematic).value
    ensures var lines := SplitLines(schematic);
            0 <= c.row < |lines| && 0 <= c.col < |lines[c.row]| && IsSymbol(lines[c.row][c.col])
    ensures c.row - 1 <= p.row <= c.row + 1 && p.colStart - 1 <= c.col <= p.colEnd
  {
    var lines := SplitLines(schematic);
    CollectMembers(SymbolCells(lines), NeighborhoodOf(schematic, |lines|, |lines[0]|), p);
    c :| c in SymbolCells(lines) && p in Neighborhood(schematic, c.row, c.col, |lines|, |lines[0]|).value;
    NeighborhoodAdjacent(schematic, c.row, c.col, |lines|, |lines[0]|, p);
  }

  /**
    * A number next to several symbols is counted once: two numbers found at
    * the same position are the same number.
    */
  lemma SchematicPartsKeyed(schematic: string, p: PartNumber, q: PartNumber)
    requires SchematicParts(schematic).Ok? && p in SchematicParts(schematic).value && q in SchematicParts(schematic).value
    requires p.row == q.row && p.colStart == q.colStart && p.colEnd == q.colEnd
    ensures p == q
  {
    var e := SchematicPartFoundAt(schematic, p);
    var f := SchematicPartFoundAt(schematic, q);
    SamePositionSameNumber(schematic, p.row, e, f, p, q);
  }

  /** Every number found is what `from_pos` returns at some column of its own row. */
  lemma SchematicPartFoundAt(schematic: string, p: PartNumber) returns (col: int)
    requires SchematicParts(schematic).Ok? && p in SchematicParts(schematic).value
    ensures FromPos(schematic, p.row, col) == Ok(Some(p))
  {
    var lines := SplitLines(schematic);
    CollectMembers(SymbolCells(lines), NeighborhoodOf(schematic, |lines|, |lines[0]|), p);
    var c :| c in SymbolCells(lines) && p in Neighborhood(schematic, c.row, c.col, |lines|, |lines[0]|).value;
    NeighborhoodMembers(schematic, c.row, c.col, |lines|, |lines[0]|, p);
    var e :| Near(e, c.row, c.col) && InBounds(e, |lines|, |lines[0]|) && FromPos(schematic, e.row, e.col) == Ok(Some(p));
    FromPosSpec(schematic, e.row, e.col);
    col := e.col;
  }

  /**
    * Every number with a digit next to a symbol is found, provided that digit's
    * cell passes the bounds test (its column is at most the length of the
    * first line).
    */
  lemma SchematicPartsComplete(schematic: string, symbol: Cell, digit: Cell)
    requires SchematicParts(schematic).Ok?
    requires var lines := SplitLines(schematic);
             0 <= symbol.row < |lines| && 0 <= symbol.col < |lines[symbol.row]| && IsSymbol(lines[symbol.row][symbol.col])
             && 0 <= digit.row < |lines| && 0 <= digit.col < |lines[digit.row]| && IsDigit(lines[digit.row][digit.col])
             && Near(digit, symbol.row, symbol.col) && digit.col <= |lines[0]|
    ensures exists p :: p in SchematicParts(schematic).value && p.row == digit.row && p.colStart <= digit.col < p.colEnd
  {
    var lines := SplitLines(schematic);
    var maxRows, maxCols := |lines|, |lines[0]|;
    FromPosSpec(schematic, digit.row, digit.col);
    var p := FromPos(schematic, digit.row, digit.col).value.value;
    assert symbol in SymbolCells(lines);
    NeighborhoodMembers(schematic, symbol.row, symbol.col, maxRows, maxCols, p);
    CollectMembers(SymbolCells(lines), NeighborhoodOf(schematic, maxRows, maxCols), p);
  }

  /**
    * `from_schematic` raises IndexError exactly when the schematic is empty or
    * the last line holds a symbol whose column is at most one past the length
    * of the first line: the bounds test then admits a cell in row `len(lines)`.
    */
  lemma SchematicPartsFails(schematic: string)
    ensures var lines := SplitLines(schematic);
            SchematicParts(schematic).Err? <==>
              |lines| == 0
              || exists c :: c in SymbolCells(lines) && c.row == |lines| - 1 && c.col <= |lines[0]| + 1
  {
    var lines := SplitLines(schematic);
    if |lines| > 0 {
      var cells := SymbolCells(lines);
      assert SchematicParts(schematic) == Collect(cells, NeighborhoodOf(schematic, |lines|, |lines[0]|));
      CellsFail(schematic, cells);
    }
  }

  // ----------------------------------------------------------------------
  // Sums and products over sets of numbers
  // ----------------------------------------------------------------------

  /** `sum(number.value for number in parts)`, in whatever order the set yields them. */
  ghost function ValueSum(parts: set<PartNumber>): int
    decreases parts
  {
    if parts == {} then 0 else var p :| p in parts; p.value + ValueSum(parts - {p})
  }

  /** The sum does not depend on the order: any member can be taken out first. */
  lemma {:induction false} ValueSumRemove(parts: set<PartNumber>, p: PartNumber)
    requires p in parts
    ensures ValueSum(parts) == p.value + ValueSum(parts - {p})
    decreases parts
  {
    var q :| q in parts && ValueSum(parts) == q.value + ValueSum(parts - {q});
    if q != p {
      ValueSumRemove(parts - {q}, p);
      ValueSumRemove(parts - {p}, q);
      assert parts - {q} - {p} == parts - {p} - {q};
    }
  }

  /** `prod(part.value for part in parts)`. */
  ghost function ValueProduct(parts: set<PartNumber>): int
    decreases parts
  {
    if parts == {} then 1 else var p :| p in parts; p.value * ValueProduct(parts - {p})
  }

  lemma MulSwap(a: int, b: int, x: int)
    ensures a * (b * x) == b * (a * x)
  {
  }

  lemma MulAssociates(a: int, b: int, x: int)
    ensures (a * b) * x == a * (b * x)
  {
  }

  /** The product does not depend on the order: any member can be taken out first. */
  lemma {:induction false} ValueProductRemove(parts: set<PartNumber>, p: PartNumber)
    requires p in parts
    ensures ValueProduct(parts) == p.value * ValueProduct(parts - {p})
    decreases parts
  {
    var q :| q in parts && ValueProduct(parts) == q.value * ValueProduct(parts - {q});
    if q != p {
      var rest := parts - {q} - {p};
      assert parts - {p} - {q} == rest;
      ValueProductRemove(parts - {q}, p);
      ValueProductRemove(parts - {p}, q);
      MulSwap(q.value, p.value, ValueProduct(rest));
    }
  }

  /** The product of a two-number set is the product of its two values. */
  lemma PairProduct(parts: set<PartNumber>, p: PartNumber, q: PartNumber)
    requires parts == {p, q} && p != q
    ensures ValueProduct(parts) == p.value * q.value
  {
    ValueProductRemove(parts, p);
    assert parts - {p} == {q};
    ValueProductRemove({q}, q);
    assert {q} - {q} == {};
  }

  /** A set of exactly two numbers is made of two different numbers. */
  lemma TwoMembers(parts: set<PartNumber>) returns (p: PartNumber, q: PartNumber)
    requires |parts| == 2
    ensures parts == {p, q} && p != q
  {
    p :| p in parts;
    var rest := parts - {p};
    assert parts == rest + {p} && p !in rest;
    assert |rest| == 1;
    q :| q in rest;
    var others := rest - {q};
    assert rest == others + {q} && q !in others;
    assert |others| == 0;
  }

  /** The summing loop of part one, over the set in the order it yields its members. */
  method SumValues(parts: set<PartNumber>) returns (total: int)
    ensures total == ValueSum(parts)
  {
    total := 0;
    var rest := parts;
    while rest != {}
      invariant rest <= parts
      invariant total + ValueSum(rest) == ValueSum(parts)
      decreases rest
    {
      var p :| p in rest;
      ValueSumRemove(rest, p);
      total := total + p.value;
      rest := rest - {p};
    }
  }

  /** `prod(...)` over the set, in the order it yields its members. */
  method ProductOfValues(parts: set<PartNumber>) returns (product: int)
    ensures product == ValueProduct(parts)
  {
    product := 1;
    var rest := parts;
    while rest != {}
      invariant rest <= parts
      invariant product * ValueProduct(rest) == ValueProduct(parts)
      decreases rest
    {
      var p :| p in rest;
      ValueProductRemove(rest, p);
      MulAssociates(product, p.value, ValueProduct(rest - {p}));
      product := product * p.value;
      rest := rest - {p};
    }
  }

  /** `parse_file_part_one` on the text of the file: the sum of the part numbers. */
  method PartOne(schematic: string) returns (r: Result<int>)
    ensures r.Ok? <==> SchematicParts(schematic).Ok?
    ensures r.Err? ==> r == Err(IndexError)
    ensures r.Ok? ==> r.value == ValueSum(SchematicParts(schematic).value)
  {
    var parts := FromSchematic(schematic);
    if parts.Err? {
      return Err(IndexError);
    }
    var total := SumValues(parts.value);
    r := Ok(total);
  }

  // ----------------------------------------------------------------------
  // Gear ratios
  // ----------------------------------------------------------------------

  /** The number of cells where `near` holds exactly two numbers. */
  ghost function Qualifying(cells: seq<Cell>, near: Cell -> Result<set<PartNumber>>): (k: nat)
    ensures k <= |cells|
    decreases |cells|
  {
    if cells == [] then 0
    else
      var n := |cells| - 1;
      Qualifying(cells[..n], near) + (if near(cells[n]).Ok? && |near(cells[n]).value| == 2 then 1 else 0)
  }

  /**
    * The ratios of the cells, taken one after the other: the product of the
    * values of `near(c)` for every cell `c` where it holds exactly two numbers;
    * or the error of the first cell for which `near` fails.
    */
  ghost function Ratios(cells: seq<Cell>, near: Cell -> Result<set<PartNumber>>): (r: Result<seq<int>>)
    ensures r.Ok? <==> forall c :: c in cells ==> near(c).Ok?
    ensures r.Err? ==> exists c :: c in cells && near(c) == Err(r.exc)
    ensures r.Ok? ==> |r.value| == Qualifying(cells, near)
    decreases |cells|
  {
    if cells == [] then Ok([])
    else
      var n := |cells| - 1;
      assert forall c :: c in cells <==> c in cells[..n] || c == cells[n];
      match Ratios(cells[..n], near)
      case Err(e) => Err(e)
      case Ok(ratios) =>
        match near(cells[n])
        case Err(e) => Err(e)
        case Ok(parts) => Ok(if |parts| == 2 then ratios + [ValueProduct(parts)] else ratios)
  }

  /**
    * What `get_gear_ratios` returns: IndexError for an empty schematic, else
    * the ratios of the `*` cells in row-major order.
    */
  ghost function GearRatios(schematic: string): (r: Result<seq<int>>)
    ensures r.Err? ==> r == Err(IndexError)
  {
    var lines := SplitLines(schematic);
    if |lines| == 0 then Err(IndexError)
    else Ratios(GridCells(lines, IsGear), NeighborhoodOf(schematic, |lines|, |lines[0]|))
  }

  /** Each ratio is the product of the two numbers of some cell that has exactly two. */
  lemma {:induction false} RatioSource(cells: seq<Cell>, near: Cell -> Result<set<PartNumber>>, k: nat)
    returns (c: Cell, p: PartNumber, q: PartNumber)
    requires Ratios(cells, near).Ok? && k < |Ratios(cells, near).value|
    ensures c in cells && near(c) == Ok({p, q}) && p != q
    ensures Ratios(cells, near).value[k] == p.value * q.value
    decreases |cells|
  {
    var n := |cells| - 1;
    var before := Ratios(cells[..n], near).value;
    if k < |before| {
      c, p, q := RatioSource(cells[..n], near, k);
      assert c in cells;
    } else {
      c := cells[n];
      p, q := TwoMembers(near(c).value);
      PairProduct(near(c).value, p, q);
    }
  }

  /**
    * Every cell with exactly two numbers contributes its ratio, at the position
    * given by the number of such cells before it.
    */
  lemma {:induction false} RatiosComplete(cells: seq<Cell>, near: Cell -> Result<set<PartNumber>>, i: nat)
    requires Ratios(cells, near).Ok? && i < |cells| && near(cells[i]).Ok? && |near(cells[i]).value| == 2
    ensures Qualifying(cells[..i], near) < |Ratios(cells, near).value|
    ensures Ratios(cells, near).value[Qualifying(cells[..i], near)] == ValueProduct(near(cells[i]).value)
    decreases |cells|
  {
    var n := |cells| - 1;
    if i < n {
      assert cells[..n][..i] == cells[..i] && cells[..n][i] == cells[i];
      RatiosComplete(cells[..n], near, i);
    }
  }

  /** There are no ratios exactly when no cell has two numbers. */
  lemma {:induction false} RatiosEmpty(cells: seq<Cell>, near: Cell -> Result<set<PartNumber>>)
    requires Ratios(cells, near).Ok?
    ensures Ratios(cells, near).value == [] <==> forall c :: c in cells ==> |near(c).value| != 2
    decreases |cells|
  {
    if cells != [] {
      var n := |cells| - 1;
      assert forall c :: c in cells <==> c in cells[..n] || c == cells[n];
      RatiosEmpty(cells[..n], near);
    }
  }

  /** One more cell appends its ratio when it has exactly two numbers. */
  lemma RatiosStep(cells: seq<Cell>, c: Cell, near: Cell -> Result<set<PartNumber>>, ratios: seq<int>, parts: set<PartNumber>)
    requires Ratios(cells, near) == Ok(ratios) && near(c) == Ok(parts)
    ensures Ratios(cells + [c], near) == Ok(if |parts| == 2 then ratios + [ValueProduct(parts)] else ratios)
  {
    assert (cells + [c])[..|cells|] == cells;
  }

  /** A `*` whose neighbourhood fails makes the whole scan fail. */
  lemma GearCellFails(schematic: string, row: int, col: int)
    requires var lines := SplitLines(schematic);
             0 <= row < |lines| && 0 <= col < |lines[row]| && IsGear(lines[row][col])
             && Neighborhood(schematic, row, col, |lines|, |lines[0]|).Err?
    ensures GearRatios(schematic) == Err(IndexError)
  {
    assert Cell(row, col) in GridCells(SplitLines(schematic), IsGear);
  }

  /**
    * `get_gear_ratios`: every `*` found scanning the lines whose neighbourhood
    * has exactly two numbers appends the product of their values.
    */
  method GetGearRatios(schematic: string) returns (r: Result<seq<int>>)
    ensures r == GearRatios(schematic)
  {
    var lines := SplitLines(schematic);
    if |lines| == 0 {
      return Err(IndexError);
    }
    var maxRows, maxCols := |lines|, |lines[0]|;
    ghost var near := NeighborhoodOf(schematic, maxRows, maxCols);
    var gearRatios: seq<int> := [];
    assert lines[..0] == [] && lines[0][..0] == [];
    for row := 0 to |lines|
      invariant row < |lines| ==> Ratios(ScannedCells(lines, row, 0, IsGear), near) == Ok(gearRatios)
      invariant row == |lines| ==> Ratios(GridCells(lines, IsGear), near) == Ok(gearRatios)
    {
      var line := lines[row];
      for col := 0 to |line|
        invariant Ratios(ScannedCells(lines, row, col, IsGear), near) == Ok(gearRatios)
      {
        ScanNextColumn(lines, row, col, IsGear);
        if IsGear(line[col]) {
          var neighboringParts := FromNeighborhood(schematic, row, col, maxRows, maxCols);
          if neighboringParts.Err? {
            GearCellFails(schematic, row, col);
            return Err(IndexError);
          }
          RatiosStep(ScannedCells(lines, row, col, IsGear), Cell(row, col), near, gearRatios, neighboringParts.value);
          if |neighboringParts.value| == 2 {
            var ratio := ProductOfValues(neighboringParts.value);
            gearRatios := gearRatios + [ratio];
          }
        } else {
          assert ScannedCells(lines, row, col, IsGear) + [] == ScannedCells(lines, row, col, IsGear);
        }
      }
      if row + 1 < |lines| {
        ScanNextRow(lines, row, IsGear);
      } else {
        ScanEnd(lines, IsGear);
      }
    }
    r := Ok(gearRatios);
  }

  /**
    * The gear ratios: at most one per `*` of the schematic, each the product
    * of the values of the two numbers around a `*` that has exactly two.
    */
  lemma GearRatiosSpec(schematic: string, k: nat) returns (gear: Cell, p: PartNumber, q: PartNumber)
    requires GearRatios(schematic).Ok? && k < |GearRatios(schematic).value|
    ensures var lines := SplitLines(schematic);
            |lines| > 0 && |GearRatios(schematic).value| <= |GridCells(lines, IsGear)|
            && 0 <= gear.row < |lines| && 0 <= gear.col < |lines[gear.row]| && lines[gear.row][gear.col] == '*'
            && Neighborhood(schematic, gear.row, gear.col, |lines|, |lines[0]|) == Ok({p, q}) && p != q
            && GearRatios(schematic).value[k] == p.value * q.value
  {
    var lines := SplitLines(schematic);
    gear, p, q := RatioSource(GridCells(lines, IsGear), NeighborhoodOf(schematic, |lines|, |lines[0]|), k);
  }

  /** There is one gear ratio per `*` with exactly two numbers around it. */
  lemma GearRatiosCount(schematic: string)
    requires GearRatios(schematic).Ok?
    ensures var lines := SplitLines(schematic);
            |lines| > 0
            && |GearRatios(schematic).value| == Qualifying(GridCells(lines, IsGear), NeighborhoodOf(schematic, |lines|, |lines[0]|))
  {
  }

  /** The cells of a row-major sorted sequence before index `i` are exactly those before its `i`-th cell. */
  lemma SortedPrefix(cells: seq<Cell>, i: nat)
    requires RowMajorSorted(cells) && i < |cells|
    ensures forall c :: c in cells[..i] <==> c in cells && RowMajorBefore(c, cells[i])
  {
    forall c | c in cells && RowMajorBefore(c, cells[i])
      ensures c in cells[..i]
    {
      var j :| 0 <= j < |cells| && cells[j] == c;
      assert cells[..i][j] == c;
    }
  }

  /**
    * Every `*` with exactly two numbers around it yields the product of their
    * values, and it sits at index `k`, the number of such `*` cells before it
    * in row-major order.
    */
  lemma GearRatiosComplete(schematic: string, gear: Cell) returns (i: nat, k: nat)
    requires GearRatios(schematic).Ok?
    requires var lines := SplitLines(schematic);
             0 <= gear.row < |lines| && 0 <= gear.col < |lines[gear.row]| && lines[gear.row][gear.col] == '*'
             && |Neighborhood(schematic, gear.row, gear.col, |lines|, |lines[0]|).value| == 2
    ensures var lines := SplitLines(schematic);
            var gears := GridCells(lines, IsGear);
            i < |gears| && gears[i] == gear
            && (forall c :: c in gears[..i] <==> c in gears && RowMajorBefore(c, gear))
            && k == Qualifying(gears[..i], NeighborhoodOf(schematic, |lines|, |lines[0]|))
            && k < |GearRatios(schematic).value|
            && GearRatios(schematic).value[k] == ValueProduct(Neighborhood(schematic, gear.row, gear.col, |lines|, |lines[0]|).value)
  {
    var lines := SplitLines(schematic);
    var gears := GridCells(lines, IsGear);
    var near := NeighborhoodOf(schematic, |lines|, |lines[0]|);
    assert gear in gears;
    i :| 0 <= i < |gears| && gears[i] == gear;
    SortedPrefix(gears, i);
    RatiosComplete(gears, near, i);
    k := Qualifying(gears[..i], near);
  }

  /** A schematic has no gear ratios exactly when no `*` has exactly two numbers around it. */
  lemma GearRatiosEmpty(schematic: string)
    requires GearRatios(schematic).Ok?
    ensures var lines := SplitLines(schematic);
            GearRatios(schematic).value == [] <==>
              forall c :: c in GridCells(lines, IsGear) ==> |Neighborhood(schematic, c.row, c.col, |lines|, |lines[0]|).value| != 2
  {
    var lines := SplitLines(schematic);
    RatiosEmpty(GridCells(lines, IsGear), NeighborhoodOf(schematic, |lines|, |lines[0]|));
  }

  /**
    * `get_gear_ratios` raises IndexError exactly when the schematic is empty or
    * the last line holds a `*` whose column is at most one past the length of
    * the first line.
    */
  lemma GearRatiosFails(schematic: string)
    ensures var lines := SplitLines(schematic);
            GearRatios(schematic).Err? <==>
              |lines| == 0
              || exists c :: c in GridCells(lines, IsGear) && c.row == |lines| - 1 && c.col <= |lines[0]| + 1
  {
    var lines := SplitLines(schematic);
    if |lines| > 0 {
      var cells := GridCells(lines, IsGear);
      assert GearRatios(schematic) == Ratios(cells, NeighborhoodOf(schematic, |lines|, |lines[0]|));
      CellsFail(schematic, cells);
    }
  }

  /**
    * The neighbourhoods of some cells of the grid all succeed exactly when none
    * of the cells is on the last line at most one column past the first line's length.
    */
  lemma CellsFail(schematic: string, cells: seq<Cell>)
    requires var lines := SplitLines(schematic);
             |lines| > 0 && forall c :: c in cells ==> 0 <= c.row < |lines| && 0 <= c.col < |lines[c.row]|
    ensures var lines := SplitLines(schematic);
            (forall c :: c in cells ==> NeighborhoodOf(schematic, |lines|, |lines[0]|)(c).Ok?) <==>
            !exists c :: c in cells && c.row == |lines| - 1 && c.col <= |lines[0]| + 1
  {
    var lines := SplitLines(schematic);
    forall c | c in cells
      ensures NeighborhoodOf(schematic, |lines|, |lines[0]|)(c).Err? <==> c.row == |lines| - 1 && c.col <= |lines[0]| + 1
    {
      NeighborhoodFailsOnLastRow(schematic, c.row, c.col, |lines[0]|);
    }
  }

  /** The sum of a list of integers. */
  function Sum(xs: seq<int>): int
    decreases |xs|
  {
    if xs == [] then 0 else xs[0] + Sum(xs[1..])
  }

  /** `parse_file_part_two` on the text of the file: the sum of the gear ratios. */
  method PartTwo(schematic: string) returns (r: Result<int>)
    ensures r.Ok? <==> GearRatios(schematic).Ok?
    ensures r.Err? ==> r == Err(IndexError)
    ensures r.Ok? ==> r.value == Sum(GearRatios(schematic).value)
  {
    var ratios := GetGearRatios(schematic);
    if ratios.Err? {
      return Err(IndexError);
    }
    r := Ok(Sum(ratios.value));
  }
}
