/**
 The playfield as the rule layer sees it: an occupancy oracle over a
 fixed width-by-height grid. A cell off the grid always reads as occupied,
 so the same query serves as wall, floor and stack collision test. Only the
 colour stored in each in-bounds cell is kept; line clearing is left opaque
 and is passed in by the session as a function on boards.
 */
module Boards {
  import opened Catalog

  /** `cells` holds the colour of every filled cell; a cell not in the map is empty. */
  datatype Board = Board(width: nat, height: nat, cells: map<Vec, Color>)

  predicate InBounds(b: Board, x: int, y: int)
  {
    0 <= x < b.width && 0 <= y < b.height
  }

  /** True off the grid and on every filled cell. */
  predicate IsOccupied(b: Board, x: int, y: int)
  {
    !InBounds(b, x, y) || Vec(x, y) in b.cells
  }

  /** A board of the given size with every cell empty. */
  function EmptyBoard(width: nat, height: nat): (b: Board)
    ensures b.width == width && b.height == height
    ensures forall x: int, y: int :: IsOccupied(b, x, y) <==> !(0 <= x < width && 0 <= y < height)
  {
    Board(width, height, map[])
  }

  /** Whatever the contents, every cell outside the grid reads as occupied. */
  lemma OffBoardIsOccupied(b: Board, x: int, y: int)
    requires x < 0 || x >= b.width || y < 0 || y >= b.height
    ensures IsOccupied(b, x, y)
  {
  }

  /**
   Writes colour `c` into cell (x,y). A write outside the grid is ignored;
   no other cell changes.
   */
  function PlaceBlock(b: Board, x: int, y: int, c: Color): (r: Board)
    ensures r.width == b.width && r.height == b.height
    ensures InBounds(b, x, y) ==> Vec(x, y) in r.cells && r.cells[Vec(x, y)] == c
    ensures !InBounds(b, x, y) ==> r == b
    ensures forall v :: v != Vec(x, y) ==> (v in r.cells <==> v in b.cells)
    ensures forall v :: v != Vec(x, y) && v in b.cells ==> r.cells[v] == b.cells[v]
  {
    if InBounds(b, x, y) then b.(cells := b.cells[Vec(x, y) := c]) else b
  }

  /** After writing an in-bounds cell, that cell is occupied and every other cell reads as before. */
  lemma PlaceBlockOccupancy(b: Board, x: int, y: int, c: Color, x': int, y': int)
    requires InBounds(b, x, y)
    ensures IsOccupied(PlaceBlock(b, x, y, c), x, y)
    ensures (x', y') != (x, y) ==> (IsOccupied(PlaceBlock(b, x, y, c), x', y') <==> IsOccupied(b, x', y'))
  {
  }
}
