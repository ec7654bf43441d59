/**
 The game session: board, bag, active piece, the five-entry next queue and
 the hold slot, advanced by the input step and the fall tick. Keyboard
 sampling and the timers are not modelled: a step receives the keys that
 are down, a tick is a call of Fall, and every draw from the bag receives
 the permutation a refill would produce.
 */
module Session {
  import opened Catalog
  import opened Boards
  import opened Pieces
  import opened Randomizer

  /** Number of kinds the next queue shows. */
  const QueueLength: nat := 5

  /**
   The session state. `holdPieceType` is meaningful only while `holdExists`;
   `holdUsed` says whether hold was used since the last lock.
   */
  datatype Game = Game(
    board: Board,
    bag: seq<PieceType>,
    current: Piece,
    nextQueue: seq<PieceType>,
    holdUsed: bool,
    holdExists: bool,
    holdPieceType: PieceType)

  /**
   The session invariant: a full queue, a bag with no kind twice, a piece
   whose offsets match its orientation, and hold used only once a kind is parked.
   */
  predicate Valid(g: Game)
  {
    && |g.nextQueue| == QueueLength
    && (g.holdUsed ==> g.holdExists)
    && BagValid(g.bag)
    && Consistent(g.current)
  }

  /**
   Session start on an empty board: the bag is stocked with `shuffled`, the
   active piece is the first draw and the queue is filled with the next five
   draws, in draw order.
   */
  method Init(width: nat, height: nat, shuffled: seq<PieceType>) returns (g: Game)
    requires IsShuffle(shuffled)
    ensures Valid(g)
    ensures g.board == EmptyBoard(width, height)
    ensures g.current == NewPiece(shuffled[6])
    ensures g.nextQueue == [shuffled[5], shuffled[4], shuffled[3], shuffled[2], shuffled[1]]
    ensures g.bag == [shuffled[0]]
    ensures !g.holdUsed && !g.holdExists
  {
    var bag := shuffled;
    var first := GetNext(bag, shuffled);
    bag := first.bag;
    var queue: seq<PieceType> := [];
    var i := 0;
    while i < 5
      invariant 0 <= i <= 5
      invariant bag == shuffled[..6 - i]
      invariant |queue| == i
      invariant forall j :: 0 <= j < i ==> queue[j] == shuffled[5 - j]
    {
      var d := GetNext(bag, shuffled);
      queue := queue + [d.piece];
      bag := d.bag;
      i := i + 1;
    }
    assert bag == [shuffled[0]];
    assert queue == [shuffled[5], shuffled[4], shuffled[3], shuffled[2], shuffled[1]];
    NewPieceConsistent(first.piece);
    g := Game(EmptyBoard(width, height), bag, NewPiece(first.piece), queue, false, false, T);
  }

  /** The keys held down during one input step. */
  datatype Keys = Keys(left: bool, right: bool, down: bool, rotateLeft: bool, rotateRight: bool, hold: bool)

  /** Moves the active piece by (dx, dy) when that is collision-free; otherwise nothing changes. */
  function TryMove(g: Game, dx: int, dy: int): (r: Game)
    ensures CanMove(g.current, g.board, dx, dy) ==>
      r.current.x == g.current.x + dx && r.current.y == g.current.y + dy && CanMove(r.current, r.board, 0, 0)
    ensures !CanMove(g.current, g.board, dx, dy) ==> r == g
    ensures r == g.(current := r.current)
    ensures r.current.kind == g.current.kind && r.current.blocks == g.current.blocks
    ensures r.current.rotation == g.current.rotation
  {
    if CanMove(g.current, g.board, dx, dy) then
      MoveSpec(g.current, g.board, dx, dy);
      g.(current := Move(g.current, dx, dy))
    else g
  }

  /** Rotates the active piece, keeping it unchanged when no kick fits. */
  function TryRotate(g: Game, clockwise: bool): (r: Game)
    ensures r == g.(current := r.current)
    ensures r.current.kind == g.current.kind
    ensures CanMove(g.current, g.board, 0, 0) ==> CanMove(r.current, r.board, 0, 0)
    ensures RotationSucceeds(g.current, g.board, clockwise) ==> r.current.rotation == NextRotation(g.current.rotation, clockwise)
    ensures !RotationSucceeds(g.current, g.board, clockwise) ==> r == g
    ensures r.current == Rotate(g.current, g.board, clockwise)
    ensures RotationSucceeds(g.current, g.board, clockwise) ==> r.current.blocks == RotateBlocks(g.current.blocks, clockwise)
  {
    g.(current := Rotate(g.current, g.board, clockwise))
  }

  /**
   The hold key. Ignored once hold has been used this turn. The first hold
   parks the active kind and takes the next kind off the front of the queue,
   refilling the back from the bag; later holds swap the active and parked
   kinds. Either way the new active piece starts at the spawn anchor,
   unrotated, and hold is used up until the next lock.
   */
  function Hold(g: Game, shuffled: seq<PieceType>): (r: Game)
    requires IsShuffle(shuffled)
    requires |g.nextQueue| > 0
    ensures g.holdUsed ==> r == g
    ensures !g.holdUsed ==>
      && r.holdUsed && r.holdExists
      && r.holdPieceType == g.current.kind
      && r.current.x == SpawnX && r.current.y == SpawnY && r.current.rotation == R0
      && r.board == g.board
    ensures !g.holdUsed && !g.holdExists ==>
      && r.current == NewPiece(g.nextQueue[0])
      && r.nextQueue == g.nextQueue[1..] + [GetNext(g.bag, shuffled).piece]
      && r.bag == GetNext(g.bag, shuffled).bag
    ensures !g.holdUsed && g.holdExists ==>
      && r.current == NewPiece(g.holdPieceType)
      && r.nextQueue == g.nextQueue && r.bag == g.bag
    ensures |r.nextQueue| == |g.nextQueue|
  {
    if g.holdUsed then g
    else if !g.holdExists then
      var d := GetNext(g.bag, shuffled);
      var p := NewPiece(g.nextQueue[0]);
      g.(holdPieceType := g.current.kind, holdExists := true,
         current := p.(x := SpawnX, y := SpawnY),
         nextQueue := g.nextQueue[1..] + [d.piece], bag := d.bag, holdUsed := true)
    else
      var p := NewPiece(g.holdPieceType);
      g.(current := p.(x := SpawnX, y := SpawnY), holdPieceType := g.current.kind, holdUsed := true)
  }

  /** Hold works at most once per turn: a second press before the next lock changes nothing. */
  lemma HoldOncePerTurn(g: Game, s1: seq<PieceType>, s2: seq<PieceType>)
    requires IsShuffle(s1) && IsShuffle(s2)
    requires |g.nextQueue| > 0
    ensures Hold(Hold(g, s1), s2) == Hold(g, s1)
  {
  }

  /** Before the first hold, the parked kind is never read: its initial value does not affect the outcome. */
  lemma HoldIgnoresEmptySlot(g: Game, k: PieceType, shuffled: seq<PieceType>)
    requires IsShuffle(shuffled)
    requires Valid(g)
    requires !g.holdExists
    ensures Hold(g.(holdPieceType := k), shuffled) == Hold(g, shuffled)
  {
  }

  /**
   The swap branch is its own inverse: once the per-turn flag is cleared, a
   second swap gives back the active and the parked kinds, and neither swap
   touches the queue or the bag.
   */
  lemma SwapTwiceRestoresKinds(g: Game, s1: seq<PieceType>, s2: seq<PieceType>)
    requires IsShuffle(s1) && IsShuffle(s2)
    requires |g.nextQueue| > 0
    requires !g.holdUsed && g.holdExists
    ensures var h := Hold(Hold(g, s1).(holdUsed := false), s2);
      h.current.kind == g.current.kind && h.holdPieceType == g.holdPieceType
      && h.nextQueue == g.nextQueue && h.bag == g.bag
  {
  }

  /**
   Swapping across a real turn boundary: after a hold and a fall that locks,
   the next hold makes the originally active kind active again and parks the
   kind that the lock spawned from the queue.
   */
  lemma HoldAcrossLock(g: Game, s1: seq<PieceType>, s2: seq<PieceType>, s3: seq<PieceType>, clearLines: Board -> Board)
    requires IsShuffle(s1) && IsShuffle(s2) && IsShuffle(s3)
    requires Valid(g)
    requires !g.holdUsed
    requires !CanMove(Hold(g, s1).current, Hold(g, s1).board, 0, 1)
    ensures var f := Fall(Hold(g, s1), clearLines, s2);
      && !f.holdUsed && f.holdExists
      && Hold(f, s3).current.kind == g.current.kind
      && Hold(f, s3).holdPieceType == f.current.kind
      && f.current.kind == Hold(g, s1).nextQueue[0]
  {
    HoldPreservesValid(g, s1);
  }

  /** The arrow keys of one input step: left, then right, then down, each only when it fits. */
  function ShiftKeys(g: Game, keys: Keys): (r: Game)
    ensures r == g.(current := r.current)
    ensures r.current.kind == g.current.kind && r.current.blocks == g.current.blocks
    ensures r.current.rotation == g.current.rotation
    ensures -1 <= r.current.x - g.current.x <= 1 && 0 <= r.current.y - g.current.y <= 1
    ensures CanMove(g.current, g.board, 0, 0) ==> CanMove(r.current, r.board, 0, 0)
    ensures !keys.left && !keys.right && !keys.down ==> r == g
    ensures keys.left && !keys.right && !keys.down ==> r == TryMove(g, -1, 0)
    ensures !keys.left && keys.right && !keys.down ==> r == TryMove(g, 1, 0)
    ensures !keys.left && !keys.right && keys.down ==> r == TryMove(g, 0, 1)
  {
    var g1 := if keys.left then TryMove(g, -1, 0) else g;
    var g2 := if keys.right then TryMove(g1, 1, 0) else g1;
    if keys.down then TryMove(g2, 0, 1) else g2
  }

  /** The rotation keys of one input step: counter-clockwise, then clockwise. */
  function TurnKeys(g: Game, keys: Keys): (r: Game)
    ensures r == g.(current := r.current)
    ensures r.current.kind == g.current.kind
    ensures CanMove(g.current, g.board, 0, 0) ==> CanMove(r.current, r.board, 0, 0)
    ensures !keys.rotateLeft && !keys.rotateRight ==> r == g
    ensures keys.rotateLeft && !keys.rotateRight ==> r == TryRotate(g, false)
    ensures !keys.rotateLeft && keys.rotateRight ==> r == TryRotate(g, true)
  {
    var g1 := if keys.rotateLeft then TryRotate(g, false) else g;
    if keys.rotateRight then TryRotate(g1, true) else g1
  }

  /**
   One input step: left, right and down each move the piece when they can,
   then the left and right rotations, then hold, in that order.
   */
  function HandleInput(g: Game, keys: Keys, shuffled: seq<PieceType>): (r: Game)
    requires IsShuffle(shuffled)
    requires |g.nextQueue| > 0
    ensures r.board == g.board
    ensures !keys.hold ==> r == g.(current := r.current)
    ensures !keys.hold && CanMove(g.current, g.board, 0, 0) ==> CanMove(r.current, r.board, 0, 0)
    ensures g.holdUsed ==> r == g.(current := r.current)
    ensures r.current.kind == g.current.kind || (keys.hold && !g.holdUsed)
    ensures keys.hold ==> r.holdUsed
    ensures keys.hold && !g.holdUsed ==>
      && r.holdExists && r.holdPieceType == g.current.kind
      && r.current.x == SpawnX && r.current.y == SpawnY && r.current.rotation == R0
    ensures |r.nextQueue| == |g.nextQueue|
    ensures !keys.rotateLeft && !keys.rotateRight && !keys.hold ==>
      && r.current.blocks == g.current.blocks && r.current.rotation == g.current.rotation
      && -1 <= r.current.x - g.current.x <= 1 && 0 <= r.current.y - g.current.y <= 1
    ensures keys == Keys(true, false, false, false, false, false) ==> r == TryMove(g, -1, 0)
    ensures keys == Keys(false, true, false, false, false, false) ==> r == TryMove(g, 1, 0)
    ensures keys == Keys(false, false, true, false, false, false) ==> r == TryMove(g, 0, 1)
    ensures keys == Keys(false, false, false, true, false, false) ==> r == TryRotate(g, false)
    ensures keys == Keys(false, false, false, false, true, false) ==> r == TryRotate(g, true)
    ensures keys == Keys(false, false, false, false, false, true) ==> r == Hold(g, shuffled)
    ensures keys.hold && !g.holdUsed && !g.holdExists ==>
      && r.current == NewPiece(g.nextQueue[0])
      && r.nextQueue == g.nextQueue[1..] + [GetNext(g.bag, shuffled).piece]
      && r.bag == GetNext(g.bag, shuffled).bag
    ensures keys.hold && !g.holdUsed && g.holdExists ==>
      && r.current == NewPiece(g.holdPieceType)
      && r.nextQueue == g.nextQueue && r.bag == g.bag
  {
    var g5 := TurnKeys(ShiftKeys(g, keys), keys);
    if keys.hold then Hold(g5, shuffled) else g5
  }

  /**
   The fall tick. A piece that can drop moves down one row and nothing else
   changes. Otherwise it is locked into the board, lines are cleared, the
   next piece comes off the front of the queue, one draw refills the back,
   and hold becomes available again.
   */
  function Fall(g: Game, clearLines: Board -> Board, shuffled: seq<PieceType>): (r: Game)
    requires IsShuffle(shuffled)
    requires |g.nextQueue| > 0
    ensures CanMove(g.current, g.board, 0, 1) ==>
      && r == g.(current := r.current)
      && r.current.x == g.current.x && r.current.y == g.current.y + 1
      && r.current.blocks == g.current.blocks && r.current.kind == g.current.kind
      && r.current.rotation == g.current.rotation
      && CanMove(r.current, r.board, 0, 0)
    ensures !CanMove(g.current, g.board, 0, 1) ==>
      && r.board == clearLines(Place(g.board, g.current))
      && r.current == NewPiece(g.nextQueue[0])
      && r.nextQueue == g.nextQueue[1..] + [GetNext(g.bag, shuffled).piece]
      && r.bag == GetNext(g.bag, shuffled).bag
      && !r.holdUsed
      && r.holdExists == g.holdExists && r.holdPieceType == g.holdPieceType
    ensures |r.nextQueue| == |g.nextQueue|
  {
    if CanMove(g.current, g.board, 0, 1) then
      MoveSpec(g.current, g.board, 0, 1);
      g.(current := Move(g.current, 0, 1))
    else
      var placed := Place(g.board, g.current);
      var cleared := clearLines(placed);
      var d := GetNext(g.bag, shuffled);
      g.(board := cleared, current := NewPiece(g.nextQueue[0]),
         nextQueue := g.nextQueue[1..] + [d.piece], bag := d.bag, holdUsed := false)
  }

  /** A piece spawned from the queue has offsets that match its orientation. */
  lemma NewPieceConsistent(k: PieceType)
    ensures Consistent(NewPiece(k))
  {
    assert ClockwiseTimes(Shape(k), 0) == Shape(k);
  }

  /** Hold keeps the session invariant. */
  lemma HoldPreservesValid(g: Game, shuffled: seq<PieceType>)
    requires IsShuffle(shuffled)
    requires Valid(g)
    ensures Valid(Hold(g, shuffled))
  {
    GetNextConserves(g.bag, shuffled);
    if !g.holdUsed {
      if g.holdExists {
        NewPieceConsistent(g.holdPieceType);
      } else {
        NewPieceConsistent(g.nextQueue[0]);
      }
    }
  }

  /** The input step keeps the session invariant. */
  lemma HandleInputPreservesValid(g: Game, keys: Keys, shuffled: seq<PieceType>)
    requires IsShuffle(shuffled)
    requires Valid(g)
    ensures Valid(HandleInput(g, keys, shuffled))
  {
    var g1 := if keys.left then TryMove(g, -1, 0) else g;
    var g2 := if keys.right then TryMove(g1, 1, 0) else g1;
    var g3 := if keys.down then TryMove(g2, 0, 1) else g2;
    var g4 := if keys.rotateLeft then TryRotate(g3, false) else g3;
    if keys.rotateLeft {
      RotatePreservesConsistency(g3.current, g3.board, false);
    }
    var g5 := if keys.rotateRight then TryRotate(g4, true) else g4;
    if keys.rotateRight {
      RotatePreservesConsistency(g4.current, g4.board, true);
    }
    assert Valid(g5);
    if keys.hold {
      HoldPreservesValid(g5, shuffled);
    }
  }

  /** The fall tick keeps the session invariant; in particular the queue stays at five. */
  lemma FallPreservesValid(g: Game, clearLines: Board -> Board, shuffled: seq<PieceType>)
    requires IsShuffle(shuffled)
    requires Valid(g)
    ensures Valid(Fall(g, clearLines, shuffled))
  {
    GetNextConserves(g.bag, shuffled);
    NewPieceConsistent(g.nextQueue[0]);
  }

  /**
   On a lock the queue advances first-in first-out: the old second to fifth
   entries move up one place and the fresh draw takes the last place.
   */
  lemma LockAdvancesQueue(g: Game, clearLines: Board -> Board, shuffled: seq<PieceType>)
    requires IsShuffle(shuffled)
    requires Valid(g)
    requires !CanMove(g.current, g.board, 0, 1)
    ensures var r := Fall(g, clearLines, shuffled);
      && r.current.kind == g.nextQueue[0]
      && (forall i :: 0 <= i < QueueLength - 1 ==> r.nextQueue[i] == g.nextQueue[i + 1])
      && r.nextQueue[QueueLength - 1] == GetNext(g.bag, shuffled).piece
  {
  }

  /**
   A piece that lands collision-free leaves its colour in exactly its four
   cells, and the line clear is applied to that board.
   */
  lemma LockWritesPiece(g: Game, clearLines: Board -> Board, shuffled: seq<PieceType>)
    requires IsShuffle(shuffled)
    requires |g.nextQueue| > 0
    requires CanMove(g.current, g.board, 0, 0)
    requires !CanMove(g.current, g.board, 0, 1)
    ensures var placed := Place(g.board, g.current);
      && Fall(g, clearLines, shuffled).board == clearLines(placed)
      && (forall v :: v in placed.cells <==> v in g.board.cells || v in Cells(g.current))
      && (forall v :: v in Cells(g.current) ==> placed.cells[v] == ColorOf(g.current.kind))
  {
    PlaceFreePiece(g.board, g.current);
  }

  /** What the shell reports for one pass: the keys held down if the move timer has elapsed (none otherwise), and whether the fall timer has elapsed. */
  datatype Event = Event(input: Option<Keys>, fallDue: bool)

  /** One loop pass: the input step if its timer has elapsed, then the fall tick if due. */
  function Pass(g: Game, e: Event, clearLines: Board -> Board, s1: seq<PieceType>, s2: seq<PieceType>): (r: Game)
    requires Valid(g)
    requires IsShuffle(s1) && IsShuffle(s2)
    ensures Valid(r)
    ensures e.input.None? && !e.fallDue ==> r == g
  {
    var g1 :=
      if e.input.Some? then
        HandleInputPreservesValid(g, e.input.value, s1);
        HandleInput(g, e.input.value, s1)
      else g;
    if e.fallDue then
      FallPreservesValid(g1, clearLines, s2);
      Fall(g1, clearLines, s2)
    else g1
  }

  /**
   Plays a sequence of loop passes; pass i hands `shuffles[i].0` to the
   input step and `shuffles[i].1` to the fall tick. The session invariant,
   and with it the five-entry queue, holds after every pass.
   */
  function Play(g: Game, events: seq<Event>, clearLines: Board -> Board,
                shuffles: seq<(seq<PieceType>, seq<PieceType>)>): (r: Game)
    requires Valid(g)
    requires |shuffles| == |events|
    requires forall i :: 0 <= i < |shuffles| ==> IsShuffle(shuffles[i].0) && IsShuffle(shuffles[i].1)
    ensures Valid(r)
    ensures |r.nextQueue| == QueueLength
    decreases |events|
  {
    if |events| == 0 then g
    else
      var g1 := Pass(g, events[0], clearLines, shuffles[0].0, shuffles[0].1);
      Play(g1, events[1..], clearLines, shuffles[1..])
  }
}
