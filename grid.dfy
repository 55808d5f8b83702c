/** The 32 x 32 grid, its 16-colour palette, the validation of a paint
    request and the row-major flattening used for the canvas snapshot. */
module Grid {
  import opened Types

  const GridSize: int := 32
  const PaletteSize: int := 16
  const CellCount: int := GridSize * GridSize

  /** The state every cell is seeded with: colour 0, no editor, time 0. */
  const BlankCell: Cell := Cell(0, None, 0.0)

  predicate InBounds(x: int, y: int) {
    0 <= x < GridSize && 0 <= y < GridSize
  }

  predicate ValidColor(color: int) {
    0 <= color < PaletteSize
  }

  /** The checks `paint_pixel` makes before touching the database:
      coordinates first, then the colour. */
  function PaintCheck(x: int, y: int, color: int): (r: Option<Error>)
    ensures r == None <==> InBounds(x, y) && ValidColor(color)
    ensures !InBounds(x, y) ==> r == Some(OutOfBounds)
    ensures InBounds(x, y) && !ValidColor(color) ==> r == Some(InvalidColor)
  {
    if !InBounds(x, y) then Some(OutOfBounds)
    else if !ValidColor(color) then Some(InvalidColor)
    else None
  }

  /** Position of cell `(x, y)` in the flat snapshot: row by row, `y` outer. */
  function CellIndex(x: int, y: int): (i: int)
    requires InBounds(x, y)
    ensures 0 <= i < CellCount
    ensures i % GridSize == x && i / GridSize == y
  {
    y * GridSize + x
  }

  /** The cell that a snapshot index stands for; the inverse of `CellIndex`. */
  function PositionOf(i: int): (p: Pos)
    requires 0 <= i < CellCount
    ensures InBounds(p.0, p.1)
    ensures CellIndex(p.0, p.1) == i
  {
    (i % GridSize, i / GridSize)
  }

  /** The cells named by the snapshot indices below `n`. */
  ghost function PositionsBelow(n: int): set<Pos>
    requires 0 <= n <= CellCount
  {
    set i | 0 <= i < n :: PositionOf(i)
  }

  /** Distinct indices name distinct cells, so `n` indices name `n` cells. */
  lemma {:induction false} PositionsBelowSize(n: int)
    requires 0 <= n <= CellCount
    ensures |PositionsBelow(n)| == n
    decreases n
  {
    if n > 0 {
      PositionsBelowSize(n - 1);
      var last := PositionOf(n - 1);
      assert PositionsBelow(n) == PositionsBelow(n - 1) + {last};
      assert last !in PositionsBelow(n - 1) by {
        forall i | 0 <= i < n - 1
          ensures PositionOf(i) != last
        {
          var p := PositionOf(i);
          assert CellIndex(p.0, p.1) == i != n - 1 == CellIndex(last.0, last.1);
        }
      }
    }
  }

  /** A map with exactly the in-range cells as keys has 32 * 32 of them. */
  lemma FullGridSize<V>(cells: map<Pos, V>)
    requires forall p :: p in cells <==> InBounds(p.0, p.1)
    ensures |cells| == CellCount
  {
    forall p | p in cells
      ensures p in PositionsBelow(CellCount)
    {
      var i := CellIndex(p.0, p.1);
      assert PositionOf(i) == p;
    }
    assert cells.Keys == PositionsBelow(CellCount);
    PositionsBelowSize(CellCount);
  }

  /** The canvas `init_db` seeds: exactly the in-range cells, all blank. */
  ghost predicate IsInitialCanvas(canvas: map<Pos, Cell>) {
    && (forall p :: p in canvas <==> InBounds(p.0, p.1))
    && (forall p :: p in canvas ==> canvas[p] == BlankCell)
  }
}
