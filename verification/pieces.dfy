/**
 The active piece: its kind, its four relative cell offsets, its anchor on
 the board and its orientation, with the operations the game applies to it:
 the collision test, translation, rotation with wall kicks, and locking into
 the board.
 */
module Pieces {
  import opened Catalog
  import opened Boards

  datatype Option<T> = None | Some(value: T)

  /** A piece at anchor (x, y); its cells are the anchor plus each offset in `blocks`. */
  datatype Piece = Piece(kind: PieceType, blocks: seq<Vec>, x: int, y: int, rotation: Rotation)

  /** The anchor of a freshly constructed piece. */
  const SpawnX: int := 3
  const SpawnY: int := 0

  /** A new piece of kind `k`: the kind's spawn shape at the spawn anchor, unrotated. */
  function NewPiece(k: PieceType): (p: Piece)
    ensures p.kind == k && p.rotation == R0
    ensures p.x == SpawnX && p.y == SpawnY
    ensures |p.blocks| == 4 && p.blocks == Shape(k)
  {
    Piece(k, Shape(k), SpawnX, SpawnY, R0)
  }

  /** The absolute board cells the piece covers. */
  function Cells(p: Piece): (cs: seq<Vec>)
    ensures |cs| == |p.blocks|
    ensures forall i :: 0 <= i < |cs| ==> cs[i] == Vec(p.x + p.blocks[i].x, p.y + p.blocks[i].y)
  {
    seq(|p.blocks|, i requires 0 <= i < |p.blocks| => Vec(p.x + p.blocks[i].x, p.y + p.blocks[i].y))
  }

  /** Scans offsets from the front, stopping at the first one whose cell at (ax, ay) is occupied. */
  function AllFree(b: Board, bs: seq<Vec>, ax: int, ay: int): (r: bool)
    ensures r <==> forall i :: 0 <= i < |bs| ==> !IsOccupied(b, ax + bs[i].x, ay + bs[i].y)
  {
    if |bs| == 0 then true
    else if IsOccupied(b, ax + bs[0].x, ay + bs[0].y) then false
    else
      var rest := AllFree(b, bs[1..], ax, ay);
      assert forall i :: 1 <= i < |bs| ==> bs[i] == bs[1..][i - 1];
      rest
  }

  /**
   Whether the piece, shifted by (dx, dy), would sit entirely on free cells:
   true exactly when none of its four shifted cells is off the board or filled.
   */
  function CanMove(p: Piece, b: Board, dx: int, dy: int): (r: bool)
    ensures r <==> forall i :: 0 <= i < |p.blocks| ==> !IsOccupied(b, p.x + p.blocks[i].x + dx, p.y + p.blocks[i].y + dy)
  {
    AllFree(b, p.blocks, p.x + dx, p.y + dy)
  }

  /** Shifts the anchor by (dx, dy); no legality check, as callers test CanMove first. */
  function Move(p: Piece, dx: int, dy: int): Piece
  {
    p.(x := p.x + dx, y := p.y + dy)
  }

  /**
   Moving by (dx, dy) changes only the anchor, by exactly (dx, dy); the
   collision test for the shift is the collision test of the moved piece in
   place; and moving back restores the piece.
   */
  lemma MoveSpec(p: Piece, b: Board, dx: int, dy: int)
    ensures Move(p, dx, dy).kind == p.kind && Move(p, dx, dy).blocks == p.blocks
    ensures Move(p, dx, dy).rotation == p.rotation
    ensures Move(p, dx, dy).x == p.x + dx && Move(p, dx, dy).y == p.y + dy
    ensures CanMove(p, b, dx, dy) <==> CanMove(Move(p, dx, dy), b, 0, 0)
    ensures Move(Move(p, dx, dy), -dx, -dy) == p
  {
  }

  /** The quarter turn of one offset about the anchor: (a,b) to (-b,a) clockwise, to (b,-a) otherwise. */
  function RotateVec(v: Vec, clockwise: bool): Vec
  {
    if clockwise then Vec(-v.y, v.x) else Vec(v.y, -v.x)
  }

  function RotateBlocks(bs: seq<Vec>, clockwise: bool): (r: seq<Vec>)
    ensures |r| == |bs|
    ensures forall i :: 0 <= i < |bs| ==> r[i] == RotateVec(bs[i], clockwise)
  {
    seq(|bs|, i requires 0 <= i < |bs| => RotateVec(bs[i], clockwise))
  }

  /** A four-offset shape, the size of every tetromino, turns offset by offset. */
  lemma RotateFourBlocks(a: Vec, b: Vec, c: Vec, d: Vec, clockwise: bool)
    ensures RotateBlocks([a, b, c, d], clockwise)
         == [RotateVec(a, clockwise), RotateVec(b, clockwise), RotateVec(c, clockwise), RotateVec(d, clockwise)]
  {
    var r := RotateBlocks([a, b, c, d], clockwise);
    assert r[0] == RotateVec(a, clockwise);
    assert r[1] == RotateVec(b, clockwise);
    assert r[2] == RotateVec(c, clockwise);
    assert r[3] == RotateVec(d, clockwise);
  }

  /** The two directions of turn undo each other, on one offset and on a whole shape. */
  lemma RotateBlocksInverse(bs: seq<Vec>, clockwise: bool)
    ensures forall v :: RotateVec(RotateVec(v, clockwise), !clockwise) == v
    ensures RotateBlocks(RotateBlocks(bs, clockwise), !clockwise) == bs
  {
    assert forall i :: 0 <= i < |bs| ==> RotateBlocks(RotateBlocks(bs, clockwise), !clockwise)[i] == bs[i];
  }

  /** Three clockwise turns are one counter-clockwise turn. */
  lemma ThreeClockwiseIsCounter(bs: seq<Vec>)
    ensures RotateBlocks(RotateBlocks(RotateBlocks(bs, true), true), true) == RotateBlocks(bs, false)
  {
    var r := RotateBlocks(RotateBlocks(RotateBlocks(bs, true), true), true);
    assert forall i :: 0 <= i < |bs| ==> r[i] == RotateBlocks(bs, false)[i];
  }

  /** `bs` turned clockwise `n` times. */
  function ClockwiseTimes(bs: seq<Vec>, n: nat): (r: seq<Vec>)
    ensures |r| == |bs|
  {
    if n == 0 then bs else RotateBlocks(ClockwiseTimes(bs, n - 1), true)
  }

  /** Four clockwise turns give back the shape. */
  lemma {:induction false} FourClockwiseIsIdentity(bs: seq<Vec>)
    ensures ClockwiseTimes(bs, 4) == bs
  {
    var r1 := ClockwiseTimes(bs, 1);
    var r2 := ClockwiseTimes(bs, 2);
    var r3 := ClockwiseTimes(bs, 3);
    var r4 := ClockwiseTimes(bs, 4);
    assert ClockwiseTimes(bs, 0) == bs;
    assert r1 == RotateBlocks(bs, true);
    assert r2 == RotateBlocks(r1, true);
    assert r3 == RotateBlocks(r2, true);
    assert r4 == RotateBlocks(r3, true);
    assert forall i :: 0 <= i < |bs| ==> r2[i] == Vec(-bs[i].x, -bs[i].y);
    assert forall i :: 0 <= i < |bs| ==> r4[i] == bs[i];
  }

  /** The offsets a piece of kind `k` has in orientation `r`. */
  function Oriented(k: PieceType, r: Rotation): (bs: seq<Vec>)
    ensures |bs| == 4
  {
    ClockwiseTimes(Shape(k), RotationIndex(r))
  }

  /** The offsets agree with the kind and the orientation field. */
  predicate Consistent(p: Piece)
  {
    p.blocks == Oriented(p.kind, p.rotation)
  }

  /** Turning the offsets of orientation `r` gives the offsets of the next orientation, in either direction. */
  lemma TurnAdvancesOrientation(k: PieceType, r: Rotation, clockwise: bool)
    ensures RotateBlocks(Oriented(k, r), clockwise) == Oriented(k, NextRotation(r, clockwise))
  {
    OrientedAdvances(Shape(k), r, clockwise);
  }

  lemma OrientedAdvances(s: seq<Vec>, r: Rotation, clockwise: bool)
    ensures RotateBlocks(ClockwiseTimes(s, RotationIndex(r)), clockwise) == ClockwiseTimes(s, RotationIndex(NextRotation(r, clockwise)))
  {
    TurnAdvancesCount(s, RotationIndex(r), clockwise);
  }

  /** A turn moves `n` clockwise quarter turns to n+1 or n+3, counted modulo 4. */
  lemma {:induction false} TurnAdvancesCount(bs: seq<Vec>, n: nat, clockwise: bool)
    requires n < 4
    ensures RotateBlocks(ClockwiseTimes(bs, n), clockwise) == ClockwiseTimes(bs, (n + if clockwise then 1 else 3) % 4)
  {
    if clockwise {
      if n == 3 {
        FourClockwiseIsIdentity(bs);
        assert ClockwiseTimes(bs, 4) == RotateBlocks(ClockwiseTimes(bs, 3), true);
      } else {
        assert ClockwiseTimes(bs, n + 1) == RotateBlocks(ClockwiseTimes(bs, n), true);
      }
    } else if n == 0 {
      ThreeClockwiseIsCounter(bs);
      assert ClockwiseTimes(bs, 0) == bs;
      assert ClockwiseTimes(bs, 1) == RotateBlocks(bs, true);
      assert ClockwiseTimes(bs, 2) == RotateBlocks(ClockwiseTimes(bs, 1), true);
      assert ClockwiseTimes(bs, 3) == RotateBlocks(ClockwiseTimes(bs, 2), true);
    } else {
      RotateBlocksInverse(ClockwiseTimes(bs, n - 1), true);
      assert ClockwiseTimes(bs, n) == RotateBlocks(ClockwiseTimes(bs, n - 1), true);
    }
  }

  /** The piece after the offset transform and the orientation step, before any kick is applied. */
  function Turned(p: Piece, clockwise: bool): Piece
  {
    p.(blocks := RotateBlocks(p.blocks, clockwise), rotation := NextRotation(p.rotation, clockwise))
  }

  /** Whether kick candidate `j` of the row for this turn leaves the turned piece collision-free. */
  ghost predicate KickFits(p: Piece, b: Board, clockwise: bool, j: nat)
    requires j < 5
  {
    var kick := KickRow(p.kind, p.rotation, clockwise)[j];
    CanMove(Turned(p, clockwise), b, kick.x, kick.y)
  }

  /** Whether some candidate of the row fits: the success the game does not report. */
  ghost predicate RotationSucceeds(p: Piece, b: Board, clockwise: bool)
  {
    exists j :: 0 <= j < 5 && KickFits(p, b, clockwise, j)
  }

  /** The first index at or after `i` whose kick offset lets `q` move, if there is one. */
  function FirstFit(q: Piece, b: Board, kicks: seq<Vec>, i: nat): (r: Option<nat>)
    requires i <= |kicks|
    ensures r.Some? ==> i <= r.value < |kicks| && CanMove(q, b, kicks[r.value].x, kicks[r.value].y)
    ensures r.Some? ==> forall j :: i <= j < r.value ==> !CanMove(q, b, kicks[j].x, kicks[j].y)
    ensures r.None? ==> forall j :: i <= j < |kicks| ==> !CanMove(q, b, kicks[j].x, kicks[j].y)
    decreases |kicks| - i
  {
    if i == |kicks| then None
    else if CanMove(q, b, kicks[i].x, kicks[i].y) then Some(i)
    else FirstFit(q, b, kicks, i + 1)
  }

  /**
   Turns the piece a quarter, then shifts it by the first candidate of the
   kick row that leaves it collision-free. When no candidate fits, the piece
   is returned exactly as it was.
   */
  function Rotate(p: Piece, b: Board, clockwise: bool): (r: Piece)
    ensures r.kind == p.kind
    ensures RotationSucceeds(p, b, clockwise) ==>
      && r.blocks == RotateBlocks(p.blocks, clockwise)
      && r.rotation == NextRotation(p.rotation, clockwise)
      && CanMove(r, b, 0, 0)
      && (exists j :: 0 <= j < 5 && KickFits(p, b, clockwise, j)
           && (forall j' :: 0 <= j' < j ==> !KickFits(p, b, clockwise, j'))
           && r.x == p.x + KickRow(p.kind, p.rotation, clockwise)[j].x
           && r.y == p.y + KickRow(p.kind, p.rotation, clockwise)[j].y)
    ensures !RotationSucceeds(p, b, clockwise) ==> r == p
  {
    var q := Turned(p, clockwise);
    var kicks := KickRow(p.kind, p.rotation, clockwise);
    match FirstFit(q, b, kicks, 0)
    case Some(j) =>
      var r := Move(q, kicks[j].x, kicks[j].y);
      assert KickFits(p, b, clockwise, j);
      assert forall j' :: 0 <= j' < j ==> !KickFits(p, b, clockwise, j');
      MoveSpec(q, b, kicks[j].x, kicks[j].y);
      r
    case None =>
      assert forall j :: 0 <= j < 5 ==> !KickFits(p, b, clockwise, j);
      p
  }

  /** Rotation keeps the offsets in agreement with the orientation field, whether it succeeds or reverts. */
  lemma RotatePreservesConsistency(p: Piece, b: Board, clockwise: bool)
    requires Consistent(p)
    ensures Consistent(Rotate(p, b, clockwise))
  {
    TurnAdvancesOrientation(p.kind, p.rotation, clockwise);
  }

  /**
   When the piece sits free and its turn fits unkicked, turning back the
   other way lands it on its original offsets, orientation and anchor.
   */
  lemma RotateRoundTrip(p: Piece, b: Board, clockwise: bool)
    requires CanMove(p, b, 0, 0)
    requires KickFits(p, b, clockwise, 0)
    ensures Rotate(Rotate(p, b, clockwise), b, !clockwise) == p
  {
    var r := Rotate(p, b, clockwise);
    assert r == Turned(p, clockwise);
    RotateBlocksInverse(p.blocks, clockwise);
    NextRotationInverse(p.rotation, clockwise);
    assert Turned(r, !clockwise) == p;
    assert KickFits(r, b, !clockwise, 0);
  }

  /** Writes colour `c` into each cell of `cs`, front to back. */
  function PlaceCells(b: Board, cs: seq<Vec>, c: Color): (r: Board)
    decreases |cs|
    ensures r.width == b.width && r.height == b.height
    ensures forall v :: v in cs && InBounds(b, v.x, v.y) ==> v in r.cells && r.cells[v] == c
    ensures forall v :: !(v in cs && InBounds(b, v.x, v.y)) ==> (v in r.cells <==> v in b.cells)
    ensures forall v :: !(v in cs && InBounds(b, v.x, v.y)) && v in b.cells ==> r.cells[v] == b.cells[v]
  {
    if |cs| == 0 then b
    else
      var b' := PlaceBlock(b, cs[0].x, cs[0].y, c);
      var r := PlaceCells(b', cs[1..], c);
      assert forall v :: v in cs <==> v == cs[0] || v in cs[1..];
      r
  }

  /**
   Locks the piece: its colour goes into each of its cells on the board
   (cells off the board are not stored); every other cell keeps its contents.
   */
  function Place(b: Board, p: Piece): (r: Board)
    ensures r.width == b.width && r.height == b.height
    ensures forall v :: v in Cells(p) && InBounds(b, v.x, v.y) ==> v in r.cells && r.cells[v] == ColorOf(p.kind)
    ensures forall v :: !(v in Cells(p) && InBounds(b, v.x, v.y)) ==> (v in r.cells <==> v in b.cells)
    ensures forall v :: !(v in Cells(p) && InBounds(b, v.x, v.y)) && v in b.cells ==> r.cells[v] == b.cells[v]
  {
    PlaceCells(b, Cells(p), ColorOf(p.kind))
  }

  /**
   Locking a collision-free piece fills exactly its four cells: the filled
   set grows by the piece's cells and nothing else.
   */
  lemma PlaceFreePiece(b: Board, p: Piece)
    requires CanMove(p, b, 0, 0)
    ensures forall v :: v in Place(b, p).cells <==> v in b.cells || v in Cells(p)
    ensures forall v :: v in Cells(p) ==> v !in b.cells && Place(b, p).cells[v] == ColorOf(p.kind)
  {
    FreePieceCells(b, p);
  }

  /** The cells of a collision-free piece are on the board and empty. */
  lemma FreePieceCells(b: Board, p: Piece)
    requires CanMove(p, b, 0, 0)
    ensures forall v :: v in Cells(p) ==> InBounds(b, v.x, v.y) && v !in b.cells
  {
    var cs := Cells(p);
    forall v | v in cs
      ensures InBounds(b, v.x, v.y) && v !in b.cells
    {
      var i :| 0 <= i < |cs| && cs[i] == v;
      assert !IsOccupied(b, p.x + p.blocks[i].x + 0, p.y + p.blocks[i].y + 0);
    }
  }
}
