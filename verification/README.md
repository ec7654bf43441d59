# Falling-block rule layer, modelled in Dafny

This project models the rule layer of a small Tetris clone, with the
graphics layer removed. The model covers:

- the seven tetromino kinds and their spawn shapes;
- the two eight-row wall-kick tables and how a kick row is chosen;
- the active piece's collision test, translation, rotation with first-fit kicks and revert-on-failure, and locking;
- the seven-bag randomizer;
- the session logic: the constructor that fills the five-entry next queue, the hold protocol limited to one use per turn, the rest of the input step, and the fall tick.

Everything is immutable data and pure functions. The one exception is the
constructor, which is a method with a loop, as in the source.

Modules, bottom-up:

- `Catalog` (`catalog.dfy`): the `PieceType` and `Rotation` enums, colour tags, shape and kick tables, and the kick-row index.
- `Boards` (`boards.dfy`): the board as an occupancy oracle. It has a width, a height and a map from cell to colour. A cell off the grid always reads as occupied.
- `Pieces` (`pieces.dfy`): `canMove`, `move`, `rotate` and `place`.
- `Randomizer` (`randomizer.dfy`): `getNext`, with the refill-when-empty rule, and runs of draws over whole refill cycles.
- `Session` (`session.dfy`): the `Game` state, the constructor, the input step with hold, and the fall tick.

Modelling choices:

- **Orientation field.** The source uses a `rotation` member but never declares it in `Piece.hpp`. It is modelled as a field that starts at `R0`, as the comment at `Piece.cpp:122-124` asks.
- **rotate's result.** `rotate` returns nothing in the source. Whether a rotation succeeded is the ghost predicate `RotationSucceeds`; it is not a result.
- **Hold state.** The hold slot is `holdExists` plus `holdPieceType`. The declared `holdPiece` member has type `PieceType`, but the code uses it as an optional `Piece`. It only feeds the hold preview, so it is not modelled.
- **Uninitialised hold kind.** The source never initialises `holdPieceType`. `Init` sets it to `T`, and `HoldIgnoresEmptySlot` proves the value is never read before the first hold.
- **Kick rows.** A row is chosen by `2*oldRotation` for a clockwise turn and `2*oldRotation+1` for a counter-clockwise one. The row comments in the source do not match this formula. For example, a counter-clockwise turn from `R0` uses row 1, whose comment says "R->0". The model follows the formula.
- **Kick table data.** The data is kept exactly as written, including the repeated `(-2,1)` in row 3 of the I table.
- **Colours.** Colours follow the code's values, not its comments: J is the orange value (255,165,0) and L is blue.
- **No top-out check.** The code never checks whether a spawned piece overlaps the stack, so the model has no game-over.
- **Spawn anchor.** A new piece spawns at anchor (3,0), as in the code.
- **Randomness.** Every draw takes a `shuffled` argument: the permutation of all seven kinds that a refill would produce. It is read only when the bag is empty. The bag constructor shuffles eagerly (`Piece.cpp:187-189`), so after the game constructor makes six draws, one kind is left in the bag.
- **Board size.** Width and height are parameters. `Board.hpp` is not part of this model.
- **Line clearing.** `clearLines` is an opaque `Board -> Board` argument of the fall tick. `Board.cpp` is not part of this model.

## Model

| member | source | states |
|---|---|---|
| Catalog.AllKindsIndexed | Piece.hpp:9 | the enum order T,S,Z,I,O,J,L indexes the tables, and a fresh bag holds each kind exactly once |
| Catalog.NextRotation | Piece.cpp:143-144 | the orientation advances by +1 clockwise and by +3 counter-clockwise, modulo 4 |
| Catalog.NextRotationInverse | Piece.cpp:144 | a clockwise step and a counter-clockwise step undo each other |
| Catalog.NextRotationFourTimes | Piece.cpp:144 | four steps in one direction restore the orientation |
| Catalog.Shape | Piece.cpp:7-15 | every kind has exactly four offsets, and the first one is the anchor cell (0,0) |
| Catalog.ColorsDistinct | Piece.cpp:18-26 | each kind has its own colour |
| Catalog.KickIndex | Piece.cpp:150-156 | the kick row is 2*old for clockwise and 2*old+1 for counter-clockwise, one of eight rows |
| Catalog.KickRow | Piece.cpp:147-158 | the candidate row has five offsets and always starts with the unkicked (0,0) |
| Catalog.KickRowTable | Piece.cpp:147 | the row comes from the I table exactly when the kind is I, and from the T/J/L/S/Z table otherwise |
| Catalog.KickTablesShape | Piece.cpp:44-68 | both tables have eight rows of five offsets, and every row starts with (0,0) |
| Boards.EmptyBoard | Piece.hpp:50 | a fresh board reads as occupied exactly off the grid |
| Boards.OffBoardIsOccupied | Piece.cpp:107 | every cell outside the grid reads as occupied, whatever the contents |
| Boards.PlaceBlock | Piece.cpp:182 | writing a cell stores the colour there when the cell is on the grid, and changes no other cell |
| Boards.PlaceBlockOccupancy | Piece.cpp:182 | after an in-bounds write that cell is occupied, and every other cell's occupancy is unchanged |
| Pieces.NewPiece | Piece.hpp:22-23 | a new piece has its kind's four spawn offsets, anchor (3,0) and orientation R0 |
| Pieces.Cells | Piece.cpp:106 | the piece's absolute cells are the anchor plus each offset |
| Pieces.AllFree | Piece.cpp:105-109 | the early-exit scan over the offsets is true exactly when no shifted cell is occupied |
| Pieces.CanMove | Piece.cpp:104-110 | canMove(dx,dy) holds exactly when none of the four cells (x+b.x+dx, y+b.y+dy) is occupied |
| Pieces.MoveSpec | Piece.cpp:113-116 | move shifts the anchor by exactly (dx,dy) and changes nothing else; testing a shift equals testing the moved piece in place; moving back restores the piece |
| Pieces.RotateBlocks | Piece.cpp:132-141 | each offset (a,b) becomes (-b,a) on a clockwise turn and (b,-a) on a counter-clockwise one |
| Pieces.RotateFourBlocks | Piece.cpp:132-141 | a four-offset shape turns into the four turned offsets, in order |
| Pieces.RotateBlocksInverse | Piece.cpp:132-141 | the clockwise and counter-clockwise transforms are mutual inverses |
| Pieces.ThreeClockwiseIsCounter | Piece.cpp:132-141 | three clockwise turns equal one counter-clockwise turn |
| Pieces.FourClockwiseIsIdentity | Piece.cpp:132-141 | four clockwise turns give the identity |
| Pieces.TurnAdvancesOrientation | Piece.cpp:132-144 | turning the offsets of one orientation gives the offsets of the next orientation, in either direction |
| Pieces.FirstFit | Piece.cpp:158-165 | the search returns the first kick whose shift is collision-free, and every earlier kick collides; or it returns none when no kick fits |
| Pieces.Rotate | Piece.cpp:127-172 | on success the offsets are turned, the orientation advances and the anchor moves by the first fitting kick; all earlier kicks collide and the result is collision-free; when no kick fits the piece is returned unchanged |
| Pieces.RotatePreservesConsistency | Piece.cpp:128-171 | after a success or a revert, the offsets still match the kind turned to the orientation field |
| Pieces.RotateRoundTrip | Piece.cpp:127-172 | if a free piece's turn fits without a kick, turning it back the other way restores offsets, orientation and anchor |
| Pieces.PlaceCells | Piece.cpp:181-182 | writing a list of cells gives every in-bounds listed cell the colour and leaves every other cell as it was |
| Pieces.Place | Piece.cpp:180-183 | locking writes the piece's colour into its in-bounds cells and changes no other cell, including piece cells off the grid |
| Pieces.PlaceFreePiece | Piece.cpp:180-183 | locking a collision-free piece fills exactly its four cells, which were empty, with its colour |
| Randomizer.ShuffleIsPermutation | Piece.cpp:192-196 | a refill is exactly a permutation of the seven kinds |
| Randomizer.ShuffleDistinct | Piece.cpp:192-196 | a refill holds seven kinds with no kind twice |
| Randomizer.GetNext | Piece.cpp:199-204 | a draw pops the last kind of the bag; an empty bag is first refilled from the shuffle |
| Randomizer.GetNextConserves | Piece.cpp:199-204 | the kind drawn plus the bag left equal the bag before (or the refill), and no kind is ever in the bag twice |
| Randomizer.RefillOnlyWhenEmpty | Piece.cpp:200 | while the bag is not empty the shuffle has no effect |
| Randomizer.DrainWithoutRefill | Piece.cpp:200-203 | drawing n kinds from a bag holding at least n hands out its last n kinds in back-to-front order, with no refill |
| Randomizer.RefillCycle | Piece.cpp:192-204 | from an empty bag, the next seven draws are a permutation of the seven kinds, and the bag ends empty |
| Randomizer.RefillCycles | Piece.cpp:192-204 | over N refill cycles each kind is drawn exactly N times, and each aligned window of seven draws is a permutation |
| Session.Init | Piece.cpp:208-216 | the game starts on an empty board with the first draw active, the next five draws in the queue, hold unused and empty, and the invariant established |
| Session.TryMove | Piece.cpp:240-248 | a directional key moves the piece by its delta only when canMove holds, and otherwise changes nothing |
| Session.TryRotate | Piece.cpp:250-254 | a rotation key replaces the active piece by the result of rotate, so on success the offsets are turned, the orientation advances and the anchor shifts by the first fitting kick, and otherwise the game is unchanged; only the active piece changes, its kind is kept and a collision-free piece stays collision-free |
| Session.ShiftKeys | Piece.cpp:240-248 | the arrow keys change only the active piece, keep its offsets and orientation, move it at most one column either way and at most one row down, keep it collision-free, and each key alone is exactly its guarded move |
| Session.TurnKeys | Piece.cpp:250-254 | the rotation keys change only the active piece, keep its kind and collision-freedom, do nothing when neither is pressed, and each key alone is exactly its rotation |
| Session.Hold | Piece.cpp:258-294 | hold is a no-op once used; the first hold parks the active kind, takes the queue front and appends one draw; later holds swap the active and parked kinds; both paths reset to anchor (3,0) and set holdUsed |
| Session.HoldOncePerTurn | Piece.cpp:258-294 | a second hold in the same turn changes nothing |
| Session.HoldIgnoresEmptySlot | Piece.cpp:259-265 | before the first hold, the value of the parked kind never affects the outcome |
| Session.SwapTwiceRestoresKinds | Piece.cpp:279-285 | the swap branch is its own inverse on the two kinds once the per-turn flag is cleared, and it leaves the queue and the bag alone |
| Session.HoldAcrossLock | Piece.cpp:258-317 | after a hold and a locking fall, hold is available again and the next hold makes the originally active kind active and parks the kind the lock took from the queue |
| Session.HandleInput | Piece.cpp:235-301 | the input step never changes the board and keeps the queue length; each arrow key alone performs exactly its guarded move, each rotation key alone exactly its rotation, and the hold key alone exactly the hold; without rotation or hold the piece keeps its offsets and orientation and moves at most one column and one row down; without hold only the active piece changes and a collision-free piece stays collision-free; pressing hold always leaves hold used; when hold was still available the active kind is parked and the queue front (first hold) or the parked kind (swap) spawns at (3,0) unrotated, the first hold popping the queue and appending one draw and the swap leaving queue and bag alone |
| Session.Fall | Piece.cpp:305-320 | if the piece can drop it moves down one row and nothing else changes; otherwise it locks, lines are cleared, the queue front spawns, one draw refills the back and holdUsed resets |
| Session.NewPieceConsistent | Piece.cpp:75-79 | a freshly built piece's offsets match orientation R0 |
| Session.HoldPreservesValid | Piece.cpp:258-294 | hold keeps a five-entry queue, a valid bag and a piece consistent with its orientation |
| Session.HandleInputPreservesValid | Piece.cpp:235-301 | the whole input step keeps the session invariant |
| Session.FallPreservesValid | Piece.cpp:305-320 | the fall tick keeps the session invariant; in particular the queue stays at five entries |
| Session.LockAdvancesQueue | Piece.cpp:314-316 | on a lock the new active kind is the old queue front, the other entries move up one place, and the new draw goes last |
| Session.LockWritesPiece | Piece.cpp:311-312 | a collision-free landing adds exactly the piece's cells, in its colour, to the board that the line clear receives |
| Session.Pass | Piece.cpp:220-225 | one loop pass, an optional input step then an optional fall tick, keeps the session invariant, and a pass where neither timer has elapsed changes nothing |
| Session.Play | Piece.cpp:219-226 | over any sequence of loop passes, each an optional input step followed by an optional fall tick, the session invariant holds throughout and the queue keeps five entries |

## Left out

- Rendering, windowing, fonts and event polling (`draw`, `drawPreview`, `render`, `handleEvents`): these are pure I/O. Of `run`, only the order of `handleInput` and `handleFall` in each pass is kept, in `Play`.
- Keyboard polling and the `moveInterval`/`fallInterval` timers: a step takes the set of keys held down, and a tick is one call of `Fall`. The timers use floating point and are owned by the shell.
- The internals of `std::mt19937`, `std::random_device` and `std::shuffle`: a refill is any permutation of the seven kinds, given as an argument.
- `sf::Color` values: each kind has one colour tag instead.
- `toString` and the console logging: these are diagnostics only.
- The internals of `Board::isOccupied`, `placeBlock` and `clearLines`: `Board.cpp` is not part of this model. Occupancy is a map plus a bounds test, a write outside the grid is ignored, and line clearing is an opaque function.
- The `holdPiece` member: it only feeds the hold preview.
- The line count that `clearLines` returns: the fall tick ignores it.
- EmptyBoard: `Board.hpp` and `Board.cpp` are not part of this model, so the board the game constructor default-constructs is assumed to start with every cell empty.
