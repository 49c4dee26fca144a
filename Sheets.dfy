/** Worksheets as maps from (row, column) to cell values, and `copy_data`:
    the fixed block copied from one source sheet into one day column. */
module Sheets {

  /** A cell value. The copy never looks inside it, so its content is kept
      as an opaque text; Empty is openpyxl's None. */
  datatype CellValue = Empty | Scalar(repr: string)

  /** The cells of a sheet, 1-based (row, column); absent means Empty. */
  type Cells = map<(int, int), CellValue>

  /** The result of `openpyxl.load_workbook(path)`: the active sheet's
      cells, or an error for a missing, corrupt or unreadable file. */
  datatype Workbook = Loaded(sheet: Cells) | Unreadable

  /** The source block: rows 3 .. 27 of column 3, moved down by two rows
      into column 3 + day index. */
  const FirstSourceRow := 3
  const LastSourceRow := 27
  const SourceColumn := 3
  const RowShift := 2
  const FirstDayColumn := 3

  /** `ws.cell(row, col).value`. */
  function At(cells: Cells, row: int, col: int): CellValue {
    if (row, col) in cells then cells[(row, col)] else Empty
  }

  /** Source rows lo .. hi-1 copied into column FirstDayColumn + day. */
  function CopyRows(dest: Cells, src: Cells, day: nat, lo: int, hi: int): Cells
    decreases hi - lo
  {
    if lo >= hi then dest
    else CopyRows(dest[(lo + RowShift, FirstDayColumn + day) := At(src, lo, SourceColumn)], src, day, lo + 1, hi)
  }

  /** The destination cells written by copying source rows lo .. hi-1. */
  function Targets(day: nat, lo: int, hi: int): set<(int, int)>
    decreases hi - lo
  {
    if lo >= hi then {} else {(lo + RowShift, FirstDayColumn + day)} + Targets(day, lo + 1, hi)
  }

  /** The destination sheet after `copy_data` for one day. */
  function CopyBlock(dest: Cells, src: Cells, day: nat): Cells {
    CopyRows(dest, src, day, FirstSourceRow, LastSourceRow + 1)
  }

  /** The cells `copy_data` writes for one day. */
  function Footprint(day: nat): set<(int, int)> {
    Targets(day, FirstSourceRow, LastSourceRow + 1)
  }

  lemma {:induction false} CopyRowsAt(dest: Cells, src: Cells, day: nat, lo: int, hi: int, row: int, col: int)
    ensures At(CopyRows(dest, src, day, lo, hi), row, col) ==
      if col == FirstDayColumn + day && lo + RowShift <= row < hi + RowShift
      then At(src, row - RowShift, SourceColumn)
      else At(dest, row, col)
    decreases hi - lo
  {
    if lo < hi {
      CopyRowsAt(dest[(lo + RowShift, FirstDayColumn + day) := At(src, lo, SourceColumn)], src, day, lo + 1, hi, row, col);
    }
  }

  lemma {:induction false} CopyRowsKeys(dest: Cells, src: Cells, day: nat, lo: int, hi: int)
    ensures CopyRows(dest, src, day, lo, hi).Keys == dest.Keys + Targets(day, lo, hi)
    decreases hi - lo
  {
    if lo < hi {
      var next := dest[(lo + RowShift, FirstDayColumn + day) := At(src, lo, SourceColumn)];
      CopyRowsKeys(next, src, day, lo + 1, hi);
    }
  }

  /** `copy_data`'s effect cell by cell: destination rows 5 .. 29 of column
      3 + day receive source rows 3 .. 27 of column 3; every other cell keeps
      its value, and the only cells added are those 25. */
  lemma CopyBlockAt(dest: Cells, src: Cells, day: nat, row: int, col: int)
    ensures At(CopyBlock(dest, src, day), row, col) ==
      if col == day + 3 && 5 <= row <= 29 then At(src, row - 2, 3) else At(dest, row, col)
    ensures CopyBlock(dest, src, day).Keys == dest.Keys + Footprint(day)
  {
    CopyRowsAt(dest, src, day, FirstSourceRow, LastSourceRow + 1, row, col);
    CopyRowsKeys(dest, src, day, FirstSourceRow, LastSourceRow + 1);
  }

  lemma {:induction false} TargetsShape(day: nat, lo: int, hi: int)
    requires lo <= hi
    ensures |Targets(day, lo, hi)| == hi - lo
    ensures forall c: (int, int) :: c in Targets(day, lo, hi) <==>
      c.1 == FirstDayColumn + day && lo + RowShift <= c.0 < hi + RowShift
    decreases hi - lo
  {
    if lo < hi {
      TargetsShape(day, lo + 1, hi);
    }
  }

  /** Exactly 25 cells are written, all in rows 5 .. 29 of column 3 + day. */
  lemma FootprintShape(day: nat)
    ensures |Footprint(day)| == 25
    ensures forall c: (int, int) :: c in Footprint(day) <==> c.1 == day + 3 && 5 <= c.0 <= 29
  {
    TargetsShape(day, FirstSourceRow, LastSourceRow + 1);
  }

  lemma CommuteAt(dest: Cells, a: Cells, b: Cells, dayA: nat, dayB: nat, row: int, col: int)
    requires dayA != dayB
    ensures At(CopyBlock(CopyBlock(dest, a, dayA), b, dayB), row, col)
         == At(CopyBlock(CopyBlock(dest, b, dayB), a, dayA), row, col)
  {
    CopyBlockAt(dest, a, dayA, row, col);
    CopyBlockAt(dest, b, dayB, row, col);
    CopyBlockAt(CopyBlock(dest, a, dayA), b, dayB, row, col);
    CopyBlockAt(CopyBlock(dest, b, dayB), a, dayA, row, col);
  }

  /** Copies for different days touch disjoint columns, so they can be done
      in either order. */
  lemma CopyBlocksCommute(dest: Cells, a: Cells, b: Cells, dayA: nat, dayB: nat)
    requires dayA != dayB
    ensures Footprint(dayA) !! Footprint(dayB)
    ensures CopyBlock(CopyBlock(dest, a, dayA), b, dayB) == CopyBlock(CopyBlock(dest, b, dayB), a, dayA)
  {
    FootprintShape(dayA);
    FootprintShape(dayB);
    var ab := CopyBlock(CopyBlock(dest, a, dayA), b, dayB);
    var ba := CopyBlock(CopyBlock(dest, b, dayB), a, dayA);
    CommuteKeys(dest, a, b, dayA, dayB);
    forall k | k in ab.Keys ensures ab[k] == ba[k] {
      CommuteAt(dest, a, b, dayA, dayB, k.0, k.1);
      assert ab[k] == At(ab, k.0, k.1) && ba[k] == At(ba, k.0, k.1);
    }
  }

  lemma CommuteKeys(dest: Cells, a: Cells, b: Cells, dayA: nat, dayB: nat)
    ensures CopyBlock(CopyBlock(dest, a, dayA), b, dayB).Keys == CopyBlock(CopyBlock(dest, b, dayB), a, dayA).Keys
  {
    CopyBlockAt(dest, a, dayA, 0, 0);
    CopyBlockAt(dest, b, dayB, 0, 0);
    CopyBlockAt(CopyBlock(dest, a, dayA), b, dayB, 0, 0);
    CopyBlockAt(CopyBlock(dest, b, dayB), a, dayA, 0, 0);
  }

  /** One destination sheet, updated cell by cell. */
  class Worksheet {
    var cells: Cells

    constructor (initial: Cells)
      ensures cells == initial
    {
      cells := initial;
    }

    /** `copy_data(source_file, ws, day_index)` once the source file has been
        opened: a readable source fills the day's block, an unreadable one
        changes nothing and raises nothing. */
    method CopyData(source: Workbook, dayIndex: nat)
      modifies this
      ensures source.Loaded? ==> cells == CopyBlock(old(cells), source.sheet, dayIndex)
      ensures source.Unreadable? ==> cells == old(cells)
    {
      match source
      case Unreadable =>
      case Loaded(src) =>
        for row := FirstSourceRow to LastSourceRow + 1
          invariant CopyRows(cells, src, dayIndex, row, LastSourceRow + 1) == CopyBlock(old(cells), src, dayIndex)
        {
          cells := cells[(row + RowShift, dayIndex + FirstDayColumn) := At(src, row, SourceColumn)];
        }
    }
  }
}
