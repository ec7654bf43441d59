/**
 The static piece catalog: the seven kinds, the four orientations, the
 relative cell offsets of every kind, one colour tag per kind, and the two
 wall-kick tables. Everything here is constant data indexed by the enums,
 in the order the game declares them.
 */
module Catalog {

  /** Integer cell offset or position on the board (x grows right, y grows down). */
  datatype Vec = Vec(x: int, y: int)

  /** The seven tetromino kinds, in declaration order T,S,Z,I,O,J,L. */
  datatype PieceType = T | S | Z | I | O | J | L

  /** The four orientations, in declaration order. */
  datatype Rotation = R0 | R90 | R180 | R270

  /** Colour tag of a kind; the tags name the colour values the game uses. */
  datatype Color = Magenta | Green | Red | Cyan | Yellow | Orange | Blue

  /** The position of a kind in the enum, which indexes the shape and colour tables. */
  function KindIndex(k: PieceType): (i: nat)
    ensures i < 7
  {
    match k
    case T => 0
    case S => 1
    case Z => 2
    case I => 3
    case O => 4
    case J => 5
    case L => 6
  }

  /** All kinds in enum order: the contents of a freshly stocked bag. */
  const AllKinds: seq<PieceType> := [T, S, Z, I, O, J, L]

  lemma AllKindsIndexed(k: PieceType)
    ensures AllKinds[KindIndex(k)] == k
    ensures multiset(AllKinds)[k] == 1
  {
  }

  function RotationIndex(r: Rotation): (i: nat)
    ensures i < 4
  {
    match r
    case R0 => 0
    case R90 => 1
    case R180 => 2
    case R270 => 3
  }

  function RotationFromIndex(i: nat): (r: Rotation)
    requires i < 4
    ensures RotationIndex(r) == i
  {
    if i == 0 then R0 else if i == 1 then R90 else if i == 2 then R180 else R270
  }

  /** The orientation after one turn: +1 clockwise, +3 counter-clockwise, modulo 4. */
  function NextRotation(r: Rotation, clockwise: bool): (r': Rotation)
    ensures clockwise ==> RotationIndex(r') == (RotationIndex(r) + 1) % 4
    ensures !clockwise ==> RotationIndex(r') == (RotationIndex(r) + 3) % 4
  {
    RotationFromIndex((RotationIndex(r) + (if clockwise then 1 else 3)) % 4)
  }

  /** A clockwise turn followed by a counter-clockwise one, or vice versa, restores the orientation. */
  lemma NextRotationInverse(r: Rotation, clockwise: bool)
    ensures NextRotation(NextRotation(r, clockwise), !clockwise) == r
  {
  }

  /** Four turns in the same direction restore the orientation. */
  lemma NextRotationFourTimes(r: Rotation, clockwise: bool)
    ensures NextRotation(NextRotation(NextRotation(NextRotation(r, clockwise), clockwise), clockwise), clockwise) == r
  {
  }

  /** Relative cell offsets of every kind, indexed by KindIndex. */
  const PieceShapes: seq<seq<Vec>> := [
    [Vec(0, 0), Vec(-1, 0), Vec(1, 0), Vec(0, 1)],   // T
    [Vec(0, 0), Vec(1, 0), Vec(0, 1), Vec(-1, 1)],   // S
    [Vec(0, 0), Vec(-1, 0), Vec(0, 1), Vec(1, 1)],   // Z
    [Vec(0, 0), Vec(-1, 0), Vec(1, 0), Vec(2, 0)],   // I
    [Vec(0, 0), Vec(1, 0), Vec(0, 1), Vec(1, 1)],    // O
    [Vec(0, 0), Vec(-1, 0), Vec(-1, 1), Vec(1, 0)],  // J
    [Vec(0, 0), Vec(-1, 0), Vec(1, 0), Vec(1, 1)]    // L
  ]

  /** Colour tags indexed by KindIndex (J is the orange value, L is blue). */
  const PieceColors: seq<Color> := [Magenta, Green, Red, Cyan, Yellow, Orange, Blue]

  /** The spawn shape of a kind: four offsets, the first being the anchor cell itself. */
  function Shape(k: PieceType): (bs: seq<Vec>)
    ensures |bs| == 4
    ensures bs[0] == Vec(0, 0)
    ensures forall i :: 0 <= i < 4 ==> -1 <= bs[i].x <= 2 && 0 <= bs[i].y <= 1
  {
    PieceShapes[KindIndex(k)]
  }

  function ColorOf(k: PieceType): Color
  {
    PieceColors[KindIndex(k)]
  }

  /** Distinct kinds carry distinct colours, so a locked cell's colour identifies its kind. */
  lemma ColorsDistinct(k: PieceType, k': PieceType)
    ensures ColorOf(k) == ColorOf(k') ==> k == k'
  {
  }

  /** Kick offsets for T, J, L, S and Z; eight rows of five candidates. */
  const WallKicks: seq<seq<Vec>> := [
    [Vec(0, 0), Vec(-1, 0), Vec(-1, 1), Vec(0, -2), Vec(-1, -2)],
    [Vec(0, 0), Vec(1, 0), Vec(1, -1), Vec(0, 2), Vec(1, 2)],
    [Vec(0, 0), Vec(1, 0), Vec(1, -1), Vec(0, 2), Vec(1, 2)],
    [Vec(0, 0), Vec(-1, 0), Vec(-1, 1), Vec(0, -2), Vec(-1, -2)],
    [Vec(0, 0), Vec(1, 0), Vec(1, 1), Vec(0, -2), Vec(1, -2)],
    [Vec(0, 0), Vec(-1, 0), Vec(-1, -1), Vec(0, 2), Vec(-1, 2)],
    [Vec(0, 0), Vec(-1, 0), Vec(-1, -1), Vec(0, 2), Vec(-1, 2)],
    [Vec(0, 0), Vec(1, 0), Vec(1, 1), Vec(0, -2), Vec(1, -2)]
  ]

  /** Kick offsets for the I piece; row 3 repeats (-2,1) as its last candidate. */
  const WallKicksI: seq<seq<Vec>> := [
    [Vec(0, 0), Vec(-2, 0), Vec(1, 0), Vec(-2, -1), Vec(1, 2)],
    [Vec(0, 0), Vec(2, 0), Vec(-1, 0), Vec(2, 1), Vec(-1, -2)],
    [Vec(0, 0), Vec(-1, 0), Vec(2, 0), Vec(-1, 2), Vec(2, -1)],
    [Vec(0, 0), Vec(1, 0), Vec(-2, 1), Vec(1, -2), Vec(-2, 1)],
    [Vec(0, 0), Vec(2, 0), Vec(-1, 0), Vec(2, 1), Vec(-1, -2)],
    [Vec(0, 0), Vec(-2, 0), Vec(1, 0), Vec(-2, -1), Vec(1, 2)],
    [Vec(0, 0), Vec(1, 0), Vec(-2, 0), Vec(1, -2), Vec(-2, 1)],
    [Vec(0, 0), Vec(-1, 0), Vec(2, 0), Vec(-1, 2), Vec(2, -1)]
  ]

  /** The kick row for a turn out of orientation `from`: 2*from clockwise, 2*from+1 counter-clockwise. */
  function KickIndex(from: Rotation, clockwise: bool): (i: nat)
    ensures i < 8
    ensures i / 2 == RotationIndex(from)
    ensures (i % 2 == 0) <==> clockwise
  {
    RotationIndex(from) * 2 + (if clockwise then 0 else 1)
  }

  /**
   The candidate offsets tried, in order, for a turn of a piece of kind `k`
   out of orientation `from`: taken from the I table exactly when `k` is I.
   */
  function KickRow(k: PieceType, from: Rotation, clockwise: bool): (row: seq<Vec>)
    ensures |row| == 5
    ensures row[0] == Vec(0, 0)
  {
    var table := if k == I then WallKicksI else WallKicks;
    table[KickIndex(from, clockwise)]
  }

  /** The row comes from the I table exactly when the kind is I. */
  lemma KickRowTable(k: PieceType, from: Rotation, clockwise: bool)
    ensures k == I ==> KickRow(k, from, clockwise) == WallKicksI[KickIndex(from, clockwise)]
    ensures k != I ==> KickRow(k, from, clockwise) == WallKicks[KickIndex(from, clockwise)]
  {
  }

  /** Both tables have eight rows of five offsets, and every row starts with the unkicked (0,0). */
  lemma KickTablesShape()
    ensures |WallKicks| == 8 && |WallKicksI| == 8
    ensures forall i :: 0 <= i < 8 ==> |WallKicks[i]| == 5 && WallKicks[i][0] == Vec(0, 0)
    ensures forall i :: 0 <= i < 8 ==> |WallKicksI[i]| == 5 && WallKicksI[i][0] == Vec(0, 0)
  {
  }
}
