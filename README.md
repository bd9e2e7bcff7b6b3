# Tetris game-state engine

A Dafny model of the game-state engine of a browser Tetris game (`script.js`).
The model keeps the engine and drops the canvas, audio and DOM.

The engine covers these parts:

- the 20 x 10 board of piece types;
- the eleven piece shapes and spawning;
- the collision test `isValidMove`;
- rotation with its wall kick;
- locking a piece into the board;
- the two-phase line clear: detection, then a deferred compaction and scoring;
- score, lines, level and fall interval;
- the ghost-piece drop row;
- the lifecycle flags `gameRunning`, `isPaused`, `gameOver` and
  `isClearingLines`, with `startGame`, `pauseGame`, `resumeGame` and `endGame`;
- the gravity tick `gameLoop`;
- the keyboard handler.

Modules, one per file:

- `Board` (board.dfy): the grid, the shapes, `createBoard`, `getRandomPiece`,
  `isValidMove` and `lockPiece`.
- `Rotation` (rotation.dfy): the quarter turn and the wall kick of
  `rotatePiece`.
- `LineClear` (lineclear.dfy): finding the full rows, and the splice-and-unshift
  compaction.
- `Progression` (progression.dfy): the scoring table and the level and speed
  update.
- `GhostDrop` (ghostdrop.dfy): `calculateGhostY`.
- `Lifecycle` (lifecycle.dfy): the flags as a value, and the guarded
  transitions of every operation that changes them.
- `Tetris` (engine.dfy): the class `Engine`. It holds the globals of the game as
  fields, and its methods are the operations that the timers and the keyboard
  drive.

How the engine stands in for the browser:

- The board is a `seq<seq<int>>` that the methods reassign.
- Each loop of `script.js` is a method with loop invariants. The method is proved
  against a specification function or predicate: `Fits`, `IsLockOf`, `Rotated`,
  `FullRows`, `KeepBelow` and `EmptyRows`. The properties the game relies on are
  lemmas about those functions.
- The interval timer is the boolean `tickerArmed`.
- Every line-clear timeout that has not fired yet is an entry of the queue
  `pendingClears`. `FinishClear` fires the oldest entry.
- The input-cooldown timer is the flag `isProcessingInput` plus the count
  `pendingCooldowns` of cooldown timeouts not yet fired. `CooldownFires` fires
  one.
- `Math.random` is an argument: a piece index in 1..11.

`Engine.Valid()` is the engine invariant. Every operation method keeps it (the
helpers `CompactBoard` and `Credit`, called inside `FinishClear`, have narrower
frames and contracts). It says:

- the board has 20 rows of 10 cells, each cell in 0..11;
- the active piece is rectangular, has a block, and has a type in 1..11;
- the level and the speed agree with the lines cleared;
- the flags are coherent:
  - at most one of running, paused and over holds;
  - a line clear happens only while running;
  - the timer is set exactly when running and not clearing;
- every pending clear is a non-empty, strictly descending list of row indices
  in 0..19;
- while a clear is in progress, the newest pending clear lists exactly the full
  rows of the board.

Some behaviours of `script.js` are kept as written:

- `endGame` does not cancel a pending line-clear timeout, and neither does
  `startGame`. When such a timeout fires, `FinishClear` still compacts the board
  and credits the score, whatever game is current by then.
- The code raises the level to `floor(lines / 3) + 1`. A four-row clear can
  therefore raise it by two levels, not one (`FourRowsCanSkipLevel`).

## Model

| member | source | states |
|---|---|---|
| Board.CreateBoard | script.js:152-154 | The fresh board is well formed (20 rows of 10 cells) and every cell is 0. |
| Board.Shapes | script.js:41-75 | Every one of the eleven shapes is rectangular, has at least one block, and is at most 2 x 4. |
| Board.GetRandomPiece | script.js:155-165 | The piece of type i has shape SHAPES[i] and type i, and is a valid piece. It spawns on row 0 at column floor(COLS/2) - floor(width/2), which lies wholly within the columns. |
| Board.IsValidMove | script.js:166-178 | The scan accepts exactly when every block lands on an open cell: column in 0..COLS-1, row below ROWS, and, when the row is on the board, an empty cell. Rows above the top are accepted. |
| Board.LockPiece | script.js:205-217 | The new board has the same dimensions. Exactly the in-bounds cells under the piece's blocks hold its type, and every other cell keeps its old value. A piece type in 0..11 keeps the board well formed. |
| Board.SpawnFitsEmptyBoard | script.js:472-476 | Every spawned piece fits the empty board, so the game-over branch of startGame is never taken. |
| Rotation.RotatedProperties | script.js:182-190 | The turned r x c shape is c x r and rectangular, and entry (y, x) moves to (x, r-1-y). |
| Rotation.RotatedOccupied | script.js:186-190 | A block is at (y, x) before the turn if and only if one is at (x, r-1-y) after it. |
| Rotation.RotatedHasBlock | script.js:186-190 | A rectangular shape with a block still has a block after the turn. |
| Rotation.HalfTurn | script.js:186-190 | Two quarter turns keep the dimensions and map entry (i, j) to (r-1-i, c-1-j). |
| Rotation.FullTurn | script.js:186-190 | Four quarter turns give back the original shape. |
| Rotation.RotateShape | script.js:182-190 | The nested loop that fills the zero matrix builds exactly the turned shape. |
| Rotation.KickDirection | script.js:193 | The kick is +1 or -1. It is +1 exactly when x + c/2 < COLS/2 holds over the reals, as JavaScript divides, and the integer test 2x + c < COLS decides the same. |
| Rotation.RotateWithKick | script.js:179-204 | The rotation commits if and only if the piece is not type 7 or 8 and the turned shape fits at offset 0, k or 2k. It commits at the first of these that fits, so the result fits. Otherwise the piece is returned unchanged. The row and the type never change, and a valid piece stays valid. |
| LineClear.FullRowsBelowSpec | script.js:221-224 | The indices collected from row n-1 down are strictly descending and lie in 0..n-1. An index is listed if and only if its row has no empty cell. |
| LineClear.FullRowsSpec | script.js:221-224 | The rows clearLines records, taken over the whole board, are descending and in range. A row is recorded if and only if it is full. |
| LineClear.FindFullRows | script.js:221-224 | The detection loop from the bottom row up returns exactly FullRows(b). |
| LineClear.KeepAll | script.js:248-251 | With no index below n removed, the kept rows below n are the first n rows. |
| LineClear.RemoveOne | script.js:248-251 | Splicing out position m is the same as adding m to the removed indices, provided every index removed so far is larger than m. This is why splicing in descending order works. |
| LineClear.KeepBelowRows | script.js:248-251 | Every kept row is a row of the original board. |
| LineClear.EmptyRows | script.js:252-253 | n unshifted rows: n rows, each the empty row. |
| LineClear.CompactRows | script.js:248-253 | For a descending list of in-range rows, splicing them out and unshifting as many empty rows keeps the height. The result is the empty rows on top of the kept rows in their original order. |
| LineClear.NonFullRows | script.js:248-253 | The non-full rows of a board are rows of that board, and none of them is full. |
| LineClear.KeepIsNonFull | script.js:248-253 | Removing exactly the full rows by index leaves the non-full rows in their original order. |
| LineClear.RowsAccountedFor | script.js:221-253 | The rows kept as non-full and the rows recorded as full together number exactly the rows scanned, so n full rows leave ROWS - n kept rows. |
| LineClear.ClearFullRows | script.js:221-253 | Detection followed by compaction yields a well-formed board. Its top n rows are empty, where n is the number of full rows. The rest are the non-full rows in order, and no row is full. |
| LineClear.CompactWellFormed | script.js:248-253 | Compacting any recorded rows keeps a well-formed board well formed. |
| Progression.Points | script.js:255 | The table gives nonnegative points, and positive points exactly for clears of 1 to 4 rows. |
| Progression.SpeedFor | script.js:263-266 | From level 1 on, the interval lies in [120, 850], and it is 850 at level 1. |
| Progression.SpeedNonIncreasing | script.js:263-266 | A higher level never has a longer interval. |
| Progression.Initial | script.js:460-464 | The values startGame installs are consistent, with score 0 and level 1. |
| Progression.ApplyClear | script.js:254-267 | Score grows by the points times the old level, and the line count grows by n. The level never decreases and reaches floor(lines/3)+1. The speed changes only with the level, and only downward. Consistency is preserved. |
| Progression.SmallClearRaisesAtMostOne | script.js:258-260 | A clear of at most three rows raises the level by at most one. |
| Progression.FourRowsCanSkipLevel | script.js:258-267 | From 2 lines at level 1, a four-row clear gives level 3, 1200 points and an interval of 670. |
| GhostDrop.GhostRow | script.js:321-326 | The ghost row g is at or below the piece's row. Every row from y+1 to g is a valid position, and g+1 is not. |
| GhostDrop.GhostOnEmptyBoard | script.js:321-326 | On the empty board, a piece within the columns whose bottom row has a block drops to row ROWS - height. |
| Lifecycle.NotStarted | script.js:145-149 | The flags before the first game are coherent. |
| Lifecycle.Start | script.js:458-482 | startGame acts only when not running, not paused and not clearing. When it acts, the game runs, is not over, and the timer is set. Coherence is preserved. |
| Lifecycle.Pause | script.js:376-385 | pauseGame acts only when running, not paused and not clearing. When it acts, the game is paused and not running, the timer is stopped, and gameOver is kept. Coherence is preserved. |
| Lifecycle.Resume | script.js:386-395 | resumeGame acts only when paused and neither over nor clearing. When it acts, the game runs unpaused with the timer set. Coherence is preserved. |
| Lifecycle.End | script.js:396-413 | endGame acts unless the game is over or nothing is in progress. When it acts, it sets gameOver, clears the other three flags and stops the timer. Coherence is preserved. |
| Lifecycle.BeginClearing | script.js:225-231 | Finding full rows sets isClearingLines and stops the timer. From a running, coherent state the flags stay coherent. |
| Lifecycle.EndClearing | script.js:268-272 | The timeout clears isClearingLines, and the timer is set again exactly when the game is running. |
| Lifecycle.PauseIdempotent | script.js:376-385 | Pausing twice is pausing once. |
| Lifecycle.EndIdempotent | script.js:396-413 | Ending twice is ending once. |
| Lifecycle.ResumeUndoesPause | script.js:376-395 | Pausing a running game and resuming gives back the same flags. |
| Lifecycle.BlurIsPause | script.js:571-573 | On coherent flags, the focus-loss guard acts exactly when pauseGame would. |
| Lifecycle.OverIsFinal | script.js:376-413 | Once over, pause, resume and end change nothing; only startGame leaves the state. |
| Tetris.Engine.constructor | script.js:138-149 | The page starts with an empty board, no piece, no game and no pending timeouts, and the invariant holds. |
| Tetris.Engine.StartGame | script.js:458-482 | The flags become Start(old flags). When startGame acts, the board is empty, the progression is the initial one, and the first piece is the spawned piece, which fits. Pending clears and the cooldown are kept. Otherwise nothing changes. |
| Tetris.Engine.PauseGame | script.js:376-385 | The flags become Pause(old flags), and everything else is unchanged. |
| Tetris.Engine.ResumeGame | script.js:386-395 | The flags become Resume(old flags), and everything else is unchanged. |
| Tetris.Engine.EndGame | script.js:396-413 | The flags become End(old flags). Everything else is unchanged, including pending line clears. |
| Tetris.Engine.ClearLines | script.js:218-231 | When not already clearing and the board has full rows, the flags become BeginClearing and FullRows(board) is queued. Otherwise nothing changes. The board, piece and progression never change here. |
| Tetris.Engine.CompactBoard | script.js:247-253 | The board becomes the empty rows on top of the kept rows, and stays well formed. When the list is the board's full rows, the result has no full row. |
| Tetris.Engine.Credit | script.js:254-267 | The progression becomes ApplyClear(old progression, n) and stays consistent. |
| Tetris.Engine.FinishClear | script.js:247-273 | The oldest pending clear is dequeued and compacted, and the progression is credited for it. The flags become EndClearing(old flags). The piece and the cooldown are kept. For the clear in progress, the result has no full row and keeps the non-full rows in order. |
| Tetris.Engine.GameLoop | script.js:416-455 | A tick, as Ticked says. While clearing, nothing changes. Otherwise: spawn if there is no piece, and end the game if the spawn does not fit; then move down one row if that fits, or else lock, then either begin a clear (no piece) or spawn the next piece, ending the game if it does not fit. Score, lines, level and speed are unchanged. |
| Tetris.Engine.Settle | script.js:431-445 | The board becomes the lock of the piece. With full rows, a clear of exactly those rows begins and no piece remains. Without them, the next piece is spawned, and the game ends if it does not fit. |
| Tetris.Engine.TimerFires | script.js:416-455 | An armed timer runs one tick, as Ticked says, and keeps the input flag and the pending cooldowns; a stopped timer changes nothing. |
| Tetris.Engine.CalculateGhostY | script.js:321-326 | 0 without a piece. Otherwise the drop row, as GhostRow states, read without changing anything. |
| Tetris.Engine.MoveHorizontal | script.js:508-519 | The piece moves by dx exactly when that position fits, and nothing else changes. |
| Tetris.Engine.SoftDrop | script.js:520-530 | If one row down fits, the piece moves down and the score grows by 1, with nothing else changing. Otherwise one tick runs, exactly as GameLoop. |
| Tetris.Engine.RotatePiece | script.js:179-204 | The piece becomes the turned and kicked piece at the first fitting offset 0, k, 2k. It is unchanged for types 7 and 8, without a piece, or when no offset fits. The board, flags and progression are unchanged. |
| Tetris.Engine.CooldownFires | script.js:491-493 | A pending cooldown timeout clears the input flag; with none pending, nothing changes. |
| Tetris.Engine.KeyDown | script.js:485-551 | Nothing changes while clearing, or for an arrow during the cooldown. Space acts as SpacePressed says. On a game that is not running, is paused or over, or has no piece, the flags and all other state are kept except that the input flag is cleared and an arrow leaves one more cooldown pending. On a running game with a piece, the arrows shift, turn or soft-drop as Shifted, Turned and SoftDropped say and arm the cooldown (input flag set, one more pending), and any other key changes nothing. |
| Tetris.Engine.SpaceKey | script.js:495-501 | SpacePressed: when nothing is in progress, a start with an empty board, the spawned piece, the initial progression and the pending timeouts kept; otherwise resume when paused, else pause (a no-op once over), with the board, piece, progression and timeouts kept. The input flag is cleared in every case. |
| Tetris.Engine.MovementKey | script.js:506-543 | ArrowLeft and ArrowRight shift, ArrowUp turns unless the type is 7 or 8, ArrowDown soft-drops, and any other key changes nothing. |

## Left out

- Drawing: the canvas, the block and ghost rendering, colours and colour shading, and the random fragment effect of a line clear. These are presentation only. The `color` field of a piece is dropped for the same reason; `colorIndex` is kept.
- Audio (music, sound effects, volume) and the DOM: score and level labels, button states, the pause overlay and `alert`. These are foreign APIs with no effect on the game state.
- `Math.random`: the drawn piece index is an argument in 1..11 of `GetRandomPiece`, `StartGame`, `GameLoop` and the key handler.
- Real time: the interval period and the 180 ms and 50 ms timeout durations are not modelled. The timers are the flag `tickerArmed` and the queues `pendingClears` and `pendingCooldowns`. The methods `TimerFires`, `FinishClear` and `CooldownFires` fire them in any order the caller chooses.
- Event wiring: the start, pause and end buttons and the blur listener only call the modelled operations. `BlurIsPause` shows that the blur guard adds nothing to pauseGame's own guard.
- Tetris.Engine.constructor: `script.js` leaves score, level, lines and speed undefined until the first `startGame`. The model starts them at startGame's values, which nothing reads before then.
- Tetris.Engine.StartGame: the `endGame()` call for a first piece that does not fit is not modelled, because it is unreachable (`SpawnFitsEmptyBoard`). It would also do nothing, since no flag that `endGame` tests is set at that point.
- Tetris.Engine.Settle: the early `return` when the game is over after `clearLines` is not modelled. Nothing between the lock and that test can end the game.
- Tetris.Engine.KeyDown: redrawing when a move or rotation happened is presentation and is not modelled. The `movedOrRotated` bookkeeping affects only that redraw.
