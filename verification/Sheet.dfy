/**
 Building a worksheet's grid (ECMA-376 Part 1, sections 18.3.1.4 and 18.3.1.73). The XML is already
 cut into row and cell tokens; each may carry its own reference or leave it to its position.
 */
module Sheet {
  import opened Wrappers
  import opened Columns

  type ColumnName = s: string | s != "" && Letters(s) witness "A"

  datatype Kind = InlineString(text: string) | SharedString | Boolean | ErrorValue | Numeric | Other

  /** A `<c>` element: its column letters, its type, its cached `<v>` text and whether its style is a date's. */
  datatype Cell = Cell(column: Option<ColumnName>, kind: Kind, cached: Option<string>, dated: bool)

  /** A `<row>` element: its `r` attribute and its cells. */
  datatype Row = Row(number: Option<nat>, cells: seq<Cell>)

  /** What the reader needs from outside: the shared strings, `Number` as an index, and dates as ISO text. */
  datatype Workbook = Workbook(shared: seq<string>, index: string -> Option<int>, iso: string -> Option<string>)

  type Grid = seq<seq<string>>

  function CellText(w: Workbook, cell: Cell): string {
    if cell.kind.InlineString? then cell.kind.text
    else if cell.cached.None? then ""
    else CachedText(w, cell.kind, cell.cached.value, cell.dated)
  }

  function CachedText(w: Workbook, kind: Kind, raw: string, dated: bool): string {
    if kind.SharedString? then SharedAt(w, w.index(raw))
    else if kind.Boolean? then if raw == "1" then "true" else "false"
    else if kind.ErrorValue? then ""
    else if kind.Numeric? && dated && raw != "" && w.iso(raw).Some? then w.iso(raw).value
    else raw
  }

  function SharedAt(w: Workbook, i: Option<int>): string {
    if i.Some? && 0 <= i.value < |w.shared| then w.shared[i.value] else ""
  }

  // ----- where each token goes

  function Max(a: nat, b: nat): nat {
    if a < b then b else a
  }

  /** How wide the row is once `n` of its cells are in. */
  function Width(cells: seq<Cell>, n: nat): nat
    requires n <= |cells|
    decreases n, 0
  {
    if n == 0 then 0 else Max(Width(cells, n - 1), ColumnOf(cells, n - 1) + 1)
  }

  /** The column cell `i` is addressed to: its own, or the next free one. */
  function ColumnOf(cells: seq<Cell>, i: nat): (c: nat)
    requires i < |cells|
    decreases i, 1
  {
    if cells[i].column.Some? then NamedColumn(cells[i].column.value) else Width(cells, i)
  }

  function NamedColumn(name: ColumnName): (c: nat)
    ensures c == Value(name) - 1
  {
    assert Value(name) == Value(name[..|name| - 1]) * 26 + Digit(name[|name| - 1]);
    Value(name) - 1
  }

  /** How many rows there are once `n` row elements are in. */
  function Height(rows: seq<Row>, n: nat): nat
    requires n <= |rows|
    decreases n, 0
  {
    if n == 0 then 0
    else if RowOf(rows, n - 1) < 0 then Height(rows, n - 1)
    else Max(Height(rows, n - 1), RowOf(rows, n - 1) + 1)
  }

  /** The row element `i` is addressed to; a row numbered 0 is addressed to -1, outside the grid. */
  function RowOf(rows: seq<Row>, i: nat): int
    requires i < |rows|
    decreases i, 1
  {
    (if rows[i].number.Some? then rows[i].number.value else Height(rows, i) + 1) - 1
  }

  predicate CellAt(cells: seq<Cell>, i: nat, c: int)
    requires i < |cells|
  {
    ColumnOf(cells, i) == c
  }

  predicate RowAt(rows: seq<Row>, i: nat, r: int)
    requires i < |rows|
  {
    RowOf(rows, i) == r
  }

  /** Of the first `n` cells, `i` is the last addressed to column `c`. */
  ghost predicate LastCell(cells: seq<Cell>, n: nat, c: nat, i: nat)
    requires n <= |cells|
  {
    && i < n && CellAt(cells, i, c)
    && forall j :: i < j < n ==> !CellAt(cells, j, c)
  }

  ghost predicate NoCell(cells: seq<Cell>, n: nat, c: nat)
    requires n <= |cells|
  {
    forall i :: 0 <= i < n ==> !CellAt(cells, i, c)
  }

  ghost predicate LastRow(rows: seq<Row>, n: nat, r: nat, i: nat)
    requires n <= |rows|
  {
    && i < n && RowAt(rows, i, r)
    && forall j :: i < j < n ==> !RowAt(rows, j, r)
  }

  ghost predicate NoRow(rows: seq<Row>, n: nat, r: nat)
    requires n <= |rows|
  {
    forall i :: 0 <= i < n ==> !RowAt(rows, i, r)
  }

  // ----- the specification

  /** `row` is the first `n` cells made dense: the last value addressed to each column, "" in the gaps. */
  ghost predicate DenseRow(w: Workbook, cells: seq<Cell>, n: nat, row: seq<string>)
    requires n <= |cells|
  {
    && |row| == Width(cells, n)
    && (forall c: nat, i: nat :: c < |row| && LastCell(cells, n, c, i) ==> row[c] == CellText(w, cells[i]))
    && (forall c: nat :: c < |row| && NoCell(cells, n, c) ==> row[c] == "")
  }

  /** `grid` is the first `n` row elements made dense: the last row addressed to each number, [] in the gaps. */
  ghost predicate DenseGrid(w: Workbook, rows: seq<Row>, n: nat, grid: Grid)
    requires n <= |rows|
  {
    && |grid| == Height(rows, n)
    && (forall r: nat, i: nat :: r < |grid| && LastRow(rows, n, r, i) ==>
          DenseRow(w, rows[i].cells, |rows[i].cells|, grid[r]))
    && (forall r: nat :: r < |grid| && NoRow(rows, n, r) ==> grid[r] == [])
  }

  /** The width is one past the rightmost column addressed, so no column is left out and none added. */
  lemma {:induction false} WidthIsTight(cells: seq<Cell>, n: nat)
    requires n <= |cells|
    ensures forall i :: 0 <= i < n ==> ColumnOf(cells, i) < Width(cells, n)
    ensures Width(cells, n) == 0 <==> n == 0
    ensures n > 0 ==> exists i :: 0 <= i < n && ColumnOf(cells, i) + 1 == Width(cells, n)
  {
    if n > 0 {
      WidthIsTight(cells, n - 1);
      assert ColumnOf(cells, n - 1) + 1 == Width(cells, n) || n > 1;
    }
  }

  lemma {:induction false} HeightIsTight(rows: seq<Row>, n: nat)
    requires n <= |rows|
    ensures forall i :: 0 <= i < n ==> RowOf(rows, i) < Height(rows, n)
    ensures Height(rows, n) > 0 ==> exists i :: 0 <= i < n && RowOf(rows, i) + 1 == Height(rows, n)
  {
    if n > 0 {
      HeightIsTight(rows, n - 1);
      if Height(rows, n) > Height(rows, n - 1) {
        assert RowOf(rows, n - 1) + 1 == Height(rows, n);
      }
    }
  }

  // ----- the two loops

  lemma WidthMeans(cells: seq<Cell>, n: nat, c: nat)
    requires n < |cells| && ColumnOf(cells, n) == c
    ensures n + 1 <= |cells| && Width(cells, n + 1) == Max(Width(cells, n), c + 1)
  {}

  method ReadRow(w: Workbook, cells: seq<Cell>) returns (row: seq<string>)
    ensures DenseRow(w, cells, |cells|, row)
  {
    row := [];
    for n := 0 to |cells|
      invariant DenseRow(w, cells, n, row)
    {
      ghost var before := row;
      WidthIsTight(cells, n);
      var column := |row|;
      if cells[n].column.Some? {
        column := ColumnIndex(cells[n].column.value);
        assert Leads(cells[n].column.value, |cells[n].column.value|);
        assert cells[n].column.value[..|cells[n].column.value|] == cells[n].column.value;
      }
      assert column == ColumnOf(cells, n);
      while |row| < column
        invariant |before| <= |row| <= Max(|before|, column)
        invariant row[..|before|] == before
        invariant forall c :: |before| <= c < |row| ==> row[c] == ""
      {
        row := row + [""];
      }
      row := if column == |row| then row + [CellText(w, cells[n])] else row[column := CellText(w, cells[n])];
      RowStep(w, cells, n, before, row);
    }
  }

  lemma LastCellStep(cells: seq<Cell>, n: nat, c: nat, i: nat)
    requires n < |cells|
    ensures LastCell(cells, n + 1, c, i) <==> if ColumnOf(cells, n) == c then i == n else LastCell(cells, n, c, i)
  {
    assert CellAt(cells, n, c) <==> ColumnOf(cells, n) == c;
  }

  lemma NoCellStep(cells: seq<Cell>, n: nat, c: nat)
    requires n < |cells|
    ensures NoCell(cells, n + 1, c) <==> NoCell(cells, n, c) && ColumnOf(cells, n) != c
  {
    assert CellAt(cells, n, c) <==> ColumnOf(cells, n) == c;
  }

  lemma AddressInWidth(cells: seq<Cell>, n: nat, i: nat)
    requires i < n <= |cells|
    ensures ColumnOf(cells, i) < Width(cells, n)
  {
    WidthIsTight(cells, n);
  }

  lemma LastRowStep(rows: seq<Row>, n: nat, r: nat, i: nat)
    requires n < |rows|
    ensures LastRow(rows, n + 1, r, i) <==> if RowOf(rows, n) == r then i == n else LastRow(rows, n, r, i)
  {
    assert RowAt(rows, n, r) <==> RowOf(rows, n) == r;
  }

  lemma NoRowStep(rows: seq<Row>, n: nat, r: nat)
    requires n < |rows|
    ensures NoRow(rows, n + 1, r) <==> NoRow(rows, n, r) && RowOf(rows, n) != r
  {
    assert RowAt(rows, n, r) <==> RowOf(rows, n) == r;
  }

  lemma RowInHeight(rows: seq<Row>, n: nat, i: nat)
    requires i < n <= |rows|
    ensures RowOf(rows, i) < Height(rows, n)
  {
    HeightIsTight(rows, n);
  }

  lemma HeightMeans(rows: seq<Row>, n: nat, r: int)
    requires n < |rows| && RowOf(rows, n) == r
    ensures Height(rows, n + 1) == if r < 0 then Height(rows, n) else Max(Height(rows, n), r + 1)
  {}

  /** Placing one more cell keeps the row dense. */
  lemma RowStep(w: Workbook, cells: seq<Cell>, n: nat, before: seq<string>, row: seq<string>)
    requires n < |cells| && DenseRow(w, cells, n, before)
    requires var c := ColumnOf(cells, n);
      && |row| == Max(|before|, c + 1) && row[c] == CellText(w, cells[n])
      && forall k :: 0 <= k < |row| && k != c ==> row[k] == if k < |before| then before[k] else ""
    ensures DenseRow(w, cells, n + 1, row)
  {
    var c := ColumnOf(cells, n);
    WidthMeans(cells, n, c);
    forall k: nat, i: nat | k < |row| && LastCell(cells, n + 1, k, i) ensures row[k] == CellText(w, cells[i]) {
      LastCellStep(cells, n, k, i);
      if i < n {
        AddressInWidth(cells, n, i);
      }
    }
    forall k: nat | k < |row| && NoCell(cells, n + 1, k) ensures row[k] == "" {
      NoCellStep(cells, n, k);
    }
  }

  method ReadSheet(w: Workbook, rows: seq<Row>) returns (grid: Grid)
    ensures DenseGrid(w, rows, |rows|, grid)
  {
    grid := [];
    for n := 0 to |rows|
      invariant DenseGrid(w, rows, n, grid)
    {
      ghost var before := grid;
      var index := (if rows[n].number.Some? then rows[n].number.value else |grid| + 1) - 1;
      assert index == RowOf(rows, n);
      var row := ReadRow(w, rows[n].cells);
      while |grid| < index
        invariant |before| <= |grid| && (|grid| <= index || grid == before)
        invariant grid[..|before|] == before
        invariant forall r :: |before| <= r < |grid| ==> grid[r] == []
      {
        grid := grid + [[]];
      }
      if index >= 0 {
        grid := if index == |grid| then grid + [row] else grid[index := row];
      }
      GridStep(w, rows, n, before, row, grid);
    }
  }

  lemma GridStep(w: Workbook, rows: seq<Row>, n: nat, before: Grid, row: seq<string>, grid: Grid)
    requires n < |rows| && DenseGrid(w, rows, n, before)
    requires DenseRow(w, rows[n].cells, |rows[n].cells|, row)
    requires var r := RowOf(rows, n);
      if r < 0 then grid == before
      else
        && |grid| == Max(|before|, r + 1) && grid[r] == row
        && forall k :: 0 <= k < |grid| && k != r ==> grid[k] == if k < |before| then before[k] else []
    ensures DenseGrid(w, rows, n + 1, grid)
  {
    var r := RowOf(rows, n);
    HeightMeans(rows, n, r);
    forall k: nat, i: nat | k < |grid| && LastRow(rows, n + 1, k, i)
      ensures DenseRow(w, rows[i].cells, |rows[i].cells|, grid[k])
    {
      LastRowStep(rows, n, k, i);
      if i < n {
        RowInHeight(rows, n, i);
      }
    }
    forall k: nat | k < |grid| && NoRow(rows, n + 1, k) ensures grid[k] == [] {
      NoRowStep(rows, n, k);
    }
  }

  // ----- the specification leaves no choice

  lemma {:induction false} SomeLastCell(cells: seq<Cell>, n: nat, c: nat)
    requires n <= |cells| && !NoCell(cells, n, c)
    ensures exists i: nat :: LastCell(cells, n, c, i)
  {
    NoCellStep(cells, n - 1, c);
    if ColumnOf(cells, n - 1) == c {
      LastCellStep(cells, n - 1, c, n - 1);
      assert LastCell(cells, n, c, n - 1);
    } else {
      SomeLastCell(cells, n - 1, c);
      var i: nat :| LastCell(cells, n - 1, c, i);
      LastCellStep(cells, n - 1, c, i);
      assert LastCell(cells, n, c, i);
    }
  }

  lemma {:induction false} SomeLastRow(rows: seq<Row>, n: nat, r: nat)
    requires n <= |rows| && !NoRow(rows, n, r)
    ensures exists i: nat :: LastRow(rows, n, r, i)
  {
    NoRowStep(rows, n - 1, r);
    if RowOf(rows, n - 1) == r {
      LastRowStep(rows, n - 1, r, n - 1);
      assert LastRow(rows, n, r, n - 1);
    } else {
      SomeLastRow(rows, n - 1, r);
      var i: nat :| LastRow(rows, n - 1, r, i);
      LastRowStep(rows, n - 1, r, i);
      assert LastRow(rows, n, r, i);
    }
  }

  lemma RowDetermined(w: Workbook, cells: seq<Cell>, n: nat, a: seq<string>, b: seq<string>)
    requires n <= |cells| && DenseRow(w, cells, n, a) && DenseRow(w, cells, n, b)
    ensures a == b
  {
    forall c: nat | c < |a| ensures a[c] == b[c] {
      if !NoCell(cells, n, c) {
        SomeLastCell(cells, n, c);
      }
    }
  }

  /** Main result: only one grid is the dense form of a sheet's tokens, so the reader's answer is that grid. */
  lemma GridDetermined(w: Workbook, rows: seq<Row>, a: Grid, b: Grid)
    requires DenseGrid(w, rows, |rows|, a) && DenseGrid(w, rows, |rows|, b)
    ensures a == b
  {
    forall r: nat | r < |a| ensures a[r] == b[r] {
      if !NoRow(rows, |rows|, r) {
        SomeLastRow(rows, |rows|, r);
        var i: nat :| LastRow(rows, |rows|, r, i);
        RowDetermined(w, rows[i].cells, |rows[i].cells|, a[r], b[r]);
      }
    }
  }

  // ----- writing a grid of values out and reading it back

  /** What somebody puts into a cell. `Dated` carries its serial number's date as ISO text, if it has one. */
  datatype CellValue =
    | Text(text: string)
    | Pooled(text: string)
    | Truth(holds: bool)
    | Fault(code: string)
    | Number(digits: string)
    | Dated(serial: string, iso: Option<string>)
    | Computed(text: string, dated: bool)
    | Blank

  /** What a reader of the sheet is to see of it. */
  function Shows(v: CellValue): string {
    match v
    case Text(s) => s
    case Pooled(s) => s
    case Truth(true) => "true"
    case Truth(false) => "false"
    case Fault(_) => ""
    case Number(digits) => digits
    case Dated(serial, iso) => if serial != "" && iso.Some? then iso.value else serial
    case Computed(s, _) => s
    case Blank => ""
  }

  /** The workbook has the string in its table, and takes the serial number for that date. */
  predicate Fits(w: Workbook, v: CellValue) {
    match v
    case Pooled(s) => s in w.shared
    case Dated(serial, iso) => w.iso(serial) == iso
    case _ => true
  }

  /** The first position of a string in the table. */
  function PositionIn(table: seq<string>, s: string): (i: nat)
    requires s in table
    ensures i < |table| && table[i] == s
  {
    if table[0] == s then 0 else PositionIn(table[1..], s) + 1
  }

  /** How table positions are written down. */
  type Numerals = nat -> string

  ghost predicate ReadsNumerals(w: Workbook, numerals: Numerals) {
    forall i: nat :: i < |w.shared| ==> w.index(numerals(i)) == Some(i)
  }

  /** Which rows and cells are written with a reference of their own. */
  datatype References = References(row: nat -> bool, cell: (nat, nat) -> bool)

  function Reference(c: nat, referenced: bool): Option<ColumnName> {
    if referenced then NameIsColumn(c); Some(Name(c + 1)) else None
  }

  lemma NameIsColumn(c: nat)
    ensures Name(c + 1) != "" && Letters(Name(c + 1)) && Value(Name(c + 1)) == c + 1
  {
    ValueOfName(c + 1);
  }

  /** The element for a value, as OOXML has it: type attribute, cached text, style. */
  function CellFor(w: Workbook, numerals: Numerals, name: Option<ColumnName>, v: CellValue): Cell
    requires Fits(w, v)
  {
    match v
    case Text(s) => Cell(name, InlineString(s), None, false)
    case Pooled(s) => Cell(name, SharedString, Some(numerals(PositionIn(w.shared, s))), false)
    case Truth(holds) => Cell(name, Boolean, Some(if holds then "1" else "0"), false)
    case Fault(code) => Cell(name, ErrorValue, Some(code), false)
    case Number(digits) => Cell(name, Numeric, Some(digits), false)
    case Dated(serial, _) => Cell(name, Numeric, Some(serial), true)
    case Computed(s, dated) => Cell(name, Other, Some(s), dated)
    case Blank => Cell(name, Numeric, None, false)
  }

  predicate RowFits(w: Workbook, row: seq<CellValue>) {
    forall c :: 0 <= c < |row| ==> Fits(w, row[c])
  }

  predicate GridFits(w: Workbook, grid: seq<seq<CellValue>>) {
    forall r :: 0 <= r < |grid| ==> RowFits(w, grid[r])
  }

  function CellsFor(w: Workbook, numerals: Numerals, refs: References, r: nat, row: seq<CellValue>): (cells: seq<Cell>)
    requires RowFits(w, row)
    ensures |cells| == |row|
  {
    seq(|row|, c requires 0 <= c < |row| => CellFor(w, numerals, Reference(c, refs.cell(r, c)), row[c]))
  }

  function RowsFor(w: Workbook, numerals: Numerals, refs: References, grid: seq<seq<CellValue>>): (rows: seq<Row>)
    requires GridFits(w, grid)
    ensures |rows| == |grid|
  {
    seq(|grid|, r requires 0 <= r < |grid| =>
      Row(if refs.row(r) then Some(r + 1) else None, CellsFor(w, numerals, refs, r, grid[r])))
  }

  function Shown(row: seq<CellValue>): seq<string> {
    seq(|row|, c requires 0 <= c < |row| => Shows(row[c]))
  }

  function ShownAll(grid: seq<seq<CellValue>>): Grid {
    seq(|grid|, r requires 0 <= r < |grid| => Shown(grid[r]))
  }

  /** Each kind of cell gives the text of the value it was written for. */
  lemma ValueReadsBack(w: Workbook, numerals: Numerals, name: Option<ColumnName>, v: CellValue)
    requires ReadsNumerals(w, numerals) && Fits(w, v)
    ensures CellText(w, CellFor(w, numerals, name, v)) == Shows(v)
  {
    if v.Pooled? {
      var i := PositionIn(w.shared, v.text);
      assert w.index(numerals(i)) == Some(i);
    }
  }

  /** Cells written in order stand where they were, with or without a reference. */
  lemma {:induction false} WrittenWidth(
      w: Workbook, numerals: Numerals, refs: References, r: nat, row: seq<CellValue>, n: nat)
    requires RowFits(w, row) && n <= |row|
    ensures var cells := CellsFor(w, numerals, refs, r, row);
      Width(cells, n) == n && forall i :: 0 <= i < n ==> ColumnOf(cells, i) == i
  {
    if n > 0 {
      var cells := CellsFor(w, numerals, refs, r, row);
      WrittenWidth(w, numerals, refs, r, row, n - 1);
      NameIsColumn(n - 1);
      assert cells[n - 1].column == Reference(n - 1, refs.cell(r, n - 1));
      WidthMeans(cells, n - 1, n - 1);
    }
  }

  lemma {:induction false} WrittenHeight(
      w: Workbook, numerals: Numerals, refs: References, grid: seq<seq<CellValue>>, n: nat)
    requires GridFits(w, grid) && n <= |grid|
    ensures var rows := RowsFor(w, numerals, refs, grid);
      Height(rows, n) == n && forall i :: 0 <= i < n ==> RowOf(rows, i) == i
  {
    if n > 0 {
      WrittenHeight(w, numerals, refs, grid, n - 1);
    }
  }

  lemma RowReadsBack(w: Workbook, numerals: Numerals, refs: References, r: nat, row: seq<CellValue>)
    requires ReadsNumerals(w, numerals) && RowFits(w, row)
    ensures DenseRow(w, CellsFor(w, numerals, refs, r, row), |row|, Shown(row))
  {
    var cells := CellsFor(w, numerals, refs, r, row);
    WrittenWidth(w, numerals, refs, r, row, |row|);
    forall c: nat, i: nat | c < |row| && LastCell(cells, |row|, c, i) ensures Shown(row)[c] == CellText(w, cells[i]) {
      assert CellAt(cells, i, c) && ColumnOf(cells, i) == i;
      ValueReadsBack(w, numerals, Reference(c, refs.cell(r, c)), row[c]);
    }
    forall c: nat | c < |row| ensures !NoCell(cells, |row|, c) {
      assert CellAt(cells, c, c);
    }
  }

  /**
   Main result: a grid of values, written with whatever references, has one reading: each value's own text, in its
   place.
   */
  lemma WrittenReadsBack(
      w: Workbook, numerals: Numerals, refs: References, grid: seq<seq<CellValue>>, answer: Grid)
    requires ReadsNumerals(w, numerals) && GridFits(w, grid)
    ensures DenseGrid(w, RowsFor(w, numerals, refs, grid), |grid|, answer) <==> answer == ShownAll(grid)
  {
    var rows := RowsFor(w, numerals, refs, grid);
    WrittenHeight(w, numerals, refs, grid, |grid|);
    forall r: nat, i: nat | r < |grid| && LastRow(rows, |grid|, r, i)
      ensures DenseRow(w, rows[i].cells, |rows[i].cells|, ShownAll(grid)[r])
    {
      assert RowAt(rows, i, r) && RowOf(rows, i) == i;
      RowReadsBack(w, numerals, refs, r, grid[r]);
    }
    forall r: nat | r < |grid| ensures !NoRow(rows, |grid|, r) {
      assert RowAt(rows, r, r);
    }
    if DenseGrid(w, rows, |grid|, answer) {
      GridDetermined(w, rows, answer, ShownAll(grid));
    }
  }
}
