/**
 * The game-state engine: the board, the active piece, the progression values
 * and the lifecycle flags as fields of one object, and the operations that the
 * timers, the keyboard and the buttons drive. The interval timer is the flag
 * tickerArmed; each pending line-clear timeout is an entry of pendingClears;
 * the random piece draws are arguments.
 */
module Tetris {
  import opened Options
  import opened Board
  import opened Rotation
  import opened LineClear
  import opened Progression
  import opened Lifecycle
  import opened GhostDrop

  datatype Key = ArrowLeft | ArrowRight | ArrowDown | ArrowUp | Space | OtherKey {
    predicate IsArrow() {
      ArrowLeft? || ArrowRight? || ArrowDown? || ArrowUp?
    }
  }

  /** A recorded line clear: distinct board rows, bottom first. */
  predicate ClearList(rows: seq<int>) {
    |rows| > 0 && Descending(rows) && forall i :: 0 <= i < |rows| ==> 0 <= rows[i] < ROWS
  }

  /** Everything in the engine except the lifecycle flags. */
  datatype Snapshot = Snapshot(
    board: Grid, current: Option<Piece>, progress: Progress,
    pendingClears: seq<seq<int>>, isProcessingInput: bool, pendingCooldowns: nat)

  class Engine {
    var board: Grid
    var current: Option<Piece>
    var score: int
    var currentLevel: int
    var totalLinesCleared: int
    var gameSpeed: int
    var gameRunning: bool
    var isPaused: bool
    var gameOver: bool
    var isClearingLines: bool
    /** The interval timer that runs gameLoop every gameSpeed milliseconds is set. */
    var tickerArmed: bool
    /** Rows recorded by line clears whose effect timeout has not fired yet, oldest first. */
    var pendingClears: seq<seq<int>>
    /** Arrow keys are ignored while this is set. */
    var isProcessingInput: bool
    /** Input-cooldown timeouts that have not fired yet. */
    var pendingCooldowns: nat

    function FlagState(): Flags
      reads this
    {
      Flags(gameRunning, isPaused, gameOver, isClearingLines, tickerArmed)
    }

    function ProgressState(): Progress
      reads this
    {
      Progress(score, totalLinesCleared, currentLevel, gameSpeed)
    }

    function Rest(): Snapshot
      reads this
    {
      Snapshot(board, current, ProgressState(), pendingClears, isProcessingInput, pendingCooldowns)
    }

    /**
     * The engine invariant: a well-formed board; a well-formed active piece;
     * consistent progression values; coherent flags; every pending clear names
     * distinct rows; and while a clear is in progress, the latest pending
     * clear is exactly the set of full rows of the board.
     */
    ghost predicate Valid()
      reads this
    {
      && WellFormed(board)
      && (current.Some? ==> ValidPiece(current.value))
      && Consistent(ProgressState())
      && Coherent(FlagState())
      && (forall i :: 0 <= i < |pendingClears| ==> ClearList(pendingClears[i]))
      && (isClearingLines ==> |pendingClears| > 0 && pendingClears[|pendingClears| - 1] == FullRows(board))
    }

    /**
     * The page's initial state: an empty board and no game. script.js leaves
     * score, level, lines and speed unset until startGame; here they start at
     * startGame's values, which nothing reads before startGame.
     */
    constructor ()
      ensures Valid()
      ensures board == CreateBoard() && current == None && pendingClears == []
      ensures FlagState() == NotStarted() && ProgressState() == Initial()
      ensures !isProcessingInput && pendingCooldowns == 0
    {
      board := CreateBoard();
      current := None;
      score, totalLinesCleared, currentLevel, gameSpeed := 0, 0, 1, INITIAL_GAME_SPEED;
      gameRunning, isPaused, gameOver, isClearingLines, tickerArmed := false, false, false, false, false;
      pendingClears := [];
      isProcessingInput, pendingCooldowns := false, 0;
    }

    /**
     * startGame: unless a game is running, paused or clearing lines, installs an
     * empty board, the initial progression, the first piece (of type
     * pieceIndex) and starts the timer. Pending line-clear timeouts of an
     * earlier game are not cancelled.
     */
    method StartGame(pieceIndex: int)
      requires Valid() && 1 <= pieceIndex <= PIECE_TYPES
      modifies this
      ensures Valid()
      ensures FlagState() == Start(old(FlagState()))
      ensures old(gameRunning || isPaused || isClearingLines) ==> unchanged(this)
      ensures !old(gameRunning || isPaused || isClearingLines) ==>
        && board == CreateBoard()
        && current == Some(GetRandomPiece(pieceIndex))
        && Fits(board, current.value.x, current.value.y, current.value.shape)
        && ProgressState() == Initial()
        && pendingClears == old(pendingClears)
        && isProcessingInput == old(isProcessingInput) && pendingCooldowns == old(pendingCooldowns)
    {
      if gameRunning || isPaused || isClearingLines {
        return;
      }
      var p := GetRandomPiece(pieceIndex);
      var ok := IsValidMove(CreateBoard(), p.x, p.y, p.shape);
      // script.js ends the game here when the first piece does not fit; on an
      // empty board it always fits, and that endGame() would return at its own
      // guard since no flag is set yet.
      SpawnFitsEmptyBoard(pieceIndex);
      assert ok;
      board, current := CreateBoard(), Some(p);
      score, totalLinesCleared, currentLevel, gameSpeed := 0, 0, 1, INITIAL_GAME_SPEED;
      gameRunning, isPaused, gameOver, isClearingLines, tickerArmed := true, false, false, false, true;
    }

    /** pauseGame: only the flags change, as Pause says. */
    method PauseGame()
      requires Valid()
      modifies this
      ensures Valid()
      ensures FlagState() == Pause(old(FlagState()))
      ensures Rest() == old(Rest())
    {
      if !gameRunning || isPaused || isClearingLines {
        return;
      }
      isPaused := true;
      gameRunning := false;
      tickerArmed := false;
    }

    /** resumeGame: only the flags change, as Resume says. */
    method ResumeGame()
      requires Valid()
      modifies this
      ensures Valid()
      ensures FlagState() == Resume(old(FlagState()))
      ensures Rest() == old(Rest())
    {
      if !isPaused || gameOver || isClearingLines {
        return;
      }
      isPaused := false;
      gameRunning := true;
      tickerArmed := true;
    }

    /**
     * endGame: only the flags change, as End says. In particular a pending
     * line-clear timeout stays pending.
     */
    method EndGame()
      requires Valid()
      modifies this
      ensures Valid()
      ensures FlagState() == End(old(FlagState()))
      ensures Rest() == old(Rest())
    {
      if gameOver || (!gameRunning && !isPaused && !isClearingLines) {
        return;
      }
      gameOver := true;
      isPaused := false;
      gameRunning := false;
      isClearingLines := false;
      tickerArmed := false;
    }

    /**
     * The first half of clearLines: when the board has full rows, record them
     * (bottom first), suspend the engine and stop the timer. The second half
     * runs when the timeout fires (FinishClear).
     */
    method ClearLines()
      requires Valid() && gameRunning
      modifies this
      ensures Valid()
      ensures board == old(board) && current == old(current) && ProgressState() == old(ProgressState())
      ensures isProcessingInput == old(isProcessingInput) && pendingCooldowns == old(pendingCooldowns)
      ensures old(isClearingLines) || FullRows(board) == [] ==> unchanged(this)
      ensures !old(isClearingLines) && FullRows(board) != [] ==>
        && FlagState() == BeginClearing(old(FlagState()))
        && pendingClears == old(pendingClears) + [FullRows(board)]
    {
      if isClearingLines {
        return;
      }
      var rows := FindFullRows(board);
      FullRowsSpec(board);
      if |rows| > 0 {
        isClearingLines := true;
        tickerArmed := false;
        pendingClears := pendingClears + [rows];
      }
    }

    /** The board part of the line-clear timeout: the rows of one recorded clear are spliced out. */
    method CompactBoard(rows: seq<int>)
      requires WellFormed(board) && ClearList(rows)
      modifies this`board
      ensures WellFormed(board)
      ensures board == EmptyRows(|rows|) + KeepBelow(old(board), Indices(rows), ROWS)
      ensures rows == FullRows(old(board)) ==>
        && board[..|rows|] == EmptyRows(|rows|)
        && board[|rows|..] == NonFull(old(board))
        && forall r :: 0 <= r < ROWS ==> !IsFullRow(board[r])
    {
      ghost var before := board;
      board := CompactRows(board, rows);
      CompactWellFormed(before, rows, board);
      if rows == FullRows(before) {
        ClearFullRows(before);
      }
    }

    /** The scoring part of the line-clear timeout: points, lines, level and speed for n rows. */
    method Credit(n: nat)
      requires Consistent(ProgressState())
      modifies this`score, this`totalLinesCleared, this`currentLevel, this`gameSpeed
      ensures ProgressState() == ApplyClear(old(ProgressState()), n)
      ensures Consistent(ProgressState())
    {
      var next := ApplyClear(ProgressState(), n);
      score, totalLinesCleared, currentLevel, gameSpeed := next.score, next.totalLinesCleared, next.level, next.gameSpeed;
    }

    /**
     * The line-clear timeout firing (the deferred half of clearLines): the
     * oldest recorded rows are spliced out of the current board and as many
     * empty rows pushed on top, the clear is scored, the suspension lifted and
     * the timer restarted if the game is running. When this completes the
     * clear in progress, no full row remains and the non-full rows keep
     * their order.
     */
    method FinishClear()
      requires Valid()
      modifies this
      ensures Valid()
      ensures old(pendingClears) == [] ==> unchanged(this)
      ensures old(pendingClears) != [] ==>
        var rows := old(pendingClears)[0];
        && pendingClears == old(pendingClears)[1..]
        && board == EmptyRows(|rows|) + KeepBelow(old(board), Indices(rows), ROWS)
        && ProgressState() == ApplyClear(old(ProgressState()), |rows|)
        && FlagState() == EndClearing(old(FlagState()))
        && current == old(current)
        && isProcessingInput == old(isProcessingInput) && pendingCooldowns == old(pendingCooldowns)
      ensures old(isClearingLines) && |old(pendingClears)| == 1 ==>
        && board[..|old(pendingClears)[0]|] == EmptyRows(|old(pendingClears)[0]|)
        && board[|old(pendingClears)[0]|..] == NonFull(old(board))
        && forall r :: 0 <= r < ROWS ==> !IsFullRow(board[r])
    {
      if |pendingClears| == 0 {
        return;
      }
      var rows := pendingClears[0];
      pendingClears := pendingClears[1..];
      CompactBoard(rows);
      Credit(|rows|);
      isClearingLines := false;
      if gameRunning && !isPaused && !gameOver {
        tickerArmed := true;
      }
    }

    /**
     * What one run of gameLoop does, from a state in which the game is
     * running: nothing while a clear is in progress (the timer is already
     * stopped); otherwise spawn a piece if there is none (ending the game if it
     * does not fit), then move the piece down one row if it can, and if it
     * cannot, lock it, start a line clear if rows are full (leaving no piece),
     * or else spawn the next piece, ending the game if that one does not fit.
     * Score, lines, level and speed never change here.
     */
    twostate predicate Ticked(spawnIndex: int, nextIndex: int)
      requires old(Valid()) && 1 <= spawnIndex <= PIECE_TYPES && 1 <= nextIndex <= PIECE_TYPES
      reads this
    {
      && ProgressState() == old(ProgressState())
      && (old(isClearingLines) ==> unchanged(this))
      && (!old(isClearingLines) ==>
        var p := if old(current).Some? then old(current).value else GetRandomPiece(spawnIndex);
        if old(current).None? && !Fits(old(board), p.x, p.y, p.shape) then
          && FlagState() == End(old(FlagState()))
          && board == old(board) && current == Some(p) && pendingClears == old(pendingClears)
        else if Fits(old(board), p.x, p.y + 1, p.shape) then
          && FlagState() == old(FlagState())
          && board == old(board) && current == Some(p.(y := p.y + 1)) && pendingClears == old(pendingClears)
        else
          && IsLockOf(board, old(board), p)
          && WellFormed(board)
          && if FullRows(board) != [] then
               && FlagState() == BeginClearing(old(FlagState()))
               && current == None
               && pendingClears == old(pendingClears) + [FullRows(board)]
             else
               var q := GetRandomPiece(nextIndex);
               && current == Some(q)
               && pendingClears == old(pendingClears)
               && FlagState() == if Fits(board, q.x, q.y, q.shape) then old(FlagState()) else End(old(FlagState())))
    }

    /**
     * gameLoop, with the two random draws it may need as arguments: spawnIndex
     * for a spawn when there is no piece, nextIndex for the piece after a lock.
     * Its callers (the interval timer, which is set only while running, and a
     * blocked soft drop) call it only while the game is running.
     */
    method GameLoop(spawnIndex: int, nextIndex: int)
      requires Valid() && gameRunning
      requires 1 <= spawnIndex <= PIECE_TYPES && 1 <= nextIndex <= PIECE_TYPES
      modifies this
      ensures Valid()
      ensures Ticked(spawnIndex, nextIndex)
      ensures isProcessingInput == old(isProcessingInput) && pendingCooldowns == old(pendingCooldowns)
    {
      if isPaused || gameOver || isClearingLines {
        tickerArmed := false;
        return;
      }
      if current.None? {
        var s := GetRandomPiece(spawnIndex);
        current := Some(s);
        var fits := IsValidMove(board, s.x, s.y, s.shape);
        if !fits {
          EndGame();
          return;
        }
      }
      var p := current.value;
      var down := IsValidMove(board, p.x, p.y + 1, p.shape);
      if down {
        current := Some(p.(y := p.y + 1));
      } else {
        Settle(nextIndex);
      }
    }

    /**
     * The blocked branch of gameLoop: lock the piece, then either start a line
     * clear (leaving no piece) or spawn the next piece, ending the game if it
     * does not fit.
     */
    method Settle(nextIndex: int)
      requires Valid() && gameRunning && !isClearingLines && current.Some?
      requires 1 <= nextIndex <= PIECE_TYPES
      modifies this
      ensures Valid()
      ensures ProgressState() == old(ProgressState())
      ensures isProcessingInput == old(isProcessingInput) && pendingCooldowns == old(pendingCooldowns)
      ensures IsLockOf(board, old(board), old(current).value) && WellFormed(board)
      ensures FullRows(board) != [] ==>
        && FlagState() == BeginClearing(old(FlagState()))
        && current == None
        && pendingClears == old(pendingClears) + [FullRows(board)]
      ensures FullRows(board) == [] ==>
        var q := GetRandomPiece(nextIndex);
        && current == Some(q)
        && pendingClears == old(pendingClears)
        && FlagState() == if Fits(board, q.x, q.y, q.shape) then old(FlagState()) else End(old(FlagState()))
    {
      board := LockPiece(board, current.value);
      ClearLines();
      // script.js returns here if the game is over; nothing above can end
      // it, so that check is left out.
      if !isClearingLines {
        var q := GetRandomPiece(nextIndex);
        current := Some(q);
        var fits := IsValidMove(board, q.x, q.y, q.shape);
        if !fits {
          EndGame();
        }
      } else {
        current := None;
      }
    }

    /** The interval timer firing: it runs gameLoop only while it is set. */
    method TimerFires(spawnIndex: int, nextIndex: int)
      requires Valid()
      requires 1 <= spawnIndex <= PIECE_TYPES && 1 <= nextIndex <= PIECE_TYPES
      modifies this
      ensures Valid()
      ensures !old(tickerArmed) ==> unchanged(this)
      ensures old(tickerArmed) ==> Ticked(spawnIndex, nextIndex)
      ensures isProcessingInput == old(isProcessingInput) && pendingCooldowns == old(pendingCooldowns)
    {
      if tickerArmed {
        GameLoop(spawnIndex, nextIndex);
      }
    }

    /** calculateGhostY: 0 without a piece, otherwise the row the piece would drop to. */
    method CalculateGhostY() returns (g: int)
      requires Valid()
      ensures current.None? ==> g == 0
      ensures current.Some? ==>
        var p := current.value;
        g >= p.y && (forall k :: p.y < k <= g ==> Fits(board, p.x, k, p.shape)) && !Fits(board, p.x, g + 1, p.shape)
    {
      if current.None? {
        return 0;
      }
      g := GhostRow(board, current.value);
    }

    /** The piece moved sideways by dx if that position is valid; nothing else changes. */
    twostate predicate Shifted(dx: int)
      requires old(Valid()) && old(current).Some?
      reads this
    {
      var p := old(current).value;
      && current == (if Fits(old(board), p.x + dx, p.y, p.shape) then Some(p.(x := p.x + dx)) else old(current))
      && board == old(board) && ProgressState() == old(ProgressState())
      && FlagState() == old(FlagState()) && pendingClears == old(pendingClears)
    }

    /** The ArrowLeft (dx = -1) and ArrowRight (dx = 1) cases of the key handler. */
    method MoveHorizontal(dx: int)
      requires Valid() && current.Some?
      modifies this`current
      ensures Valid()
      ensures Shifted(dx)
    {
      var p := current.value;
      var ok := IsValidMove(board, p.x + dx, p.y, p.shape);
      if ok {
        current := Some(p.(x := p.x + dx));
      }
    }

    /**
     * The ArrowDown case: one row down and one point if that position is
     * valid; otherwise a forced run of gameLoop, which locks the piece.
     */
    twostate predicate SoftDropped(spawnIndex: int, nextIndex: int)
      requires old(Valid()) && old(current).Some?
      requires 1 <= spawnIndex <= PIECE_TYPES && 1 <= nextIndex <= PIECE_TYPES
      reads this
    {
      var p := old(current).value;
      if Fits(old(board), p.x, p.y + 1, p.shape) then
        && current == Some(p.(y := p.y + 1)) && score == old(score) + 1
        && board == old(board) && FlagState() == old(FlagState()) && pendingClears == old(pendingClears)
        && totalLinesCleared == old(totalLinesCleared) && currentLevel == old(currentLevel) && gameSpeed == old(gameSpeed)
      else
        Ticked(spawnIndex, nextIndex)
    }

    method SoftDrop(spawnIndex: int, nextIndex: int)
      requires Valid() && gameRunning && current.Some?
      requires 1 <= spawnIndex <= PIECE_TYPES && 1 <= nextIndex <= PIECE_TYPES
      modifies this
      ensures Valid()
      ensures SoftDropped(spawnIndex, nextIndex)
      ensures isProcessingInput == old(isProcessingInput) && pendingCooldowns == old(pendingCooldowns)
    {
      var p := current.value;
      var ok := IsValidMove(board, p.x, p.y + 1, p.shape);
      if ok {
        current := Some(p.(y := p.y + 1));
        score := score + 1;
      } else {
        GameLoop(spawnIndex, nextIndex);
      }
    }

    /** The piece after rotatePiece: turned and kicked as RotateWithKick allows, or unchanged. */
    twostate predicate Turned()
      requires old(Valid())
      reads this
    {
      && board == old(board) && ProgressState() == old(ProgressState())
      && FlagState() == old(FlagState()) && pendingClears == old(pendingClears)
      && (old(current).None? || RotationExempt(old(current).value) ==> current == old(current))
      && (old(current).Some? && !RotationExempt(old(current).value) ==>
        var p := old(current).value;
        var nS, k := Rotated(p.shape), KickDirection(p.x, |p.shape[0]|);
        && current.Some? && current.value.y == p.y && current.value.colorIndex == p.colorIndex
        && current == if Fits(board, p.x, p.y, nS) then Some(p.(shape := nS))
                      else if Fits(board, p.x + k, p.y, nS) then Some(p.(shape := nS, x := p.x + k))
                      else if Fits(board, p.x + 2 * k, p.y, nS) then Some(p.(shape := nS, x := p.x + 2 * k))
                      else old(current))
    }

    /** rotatePiece. */
    method RotatePiece()
      requires Valid()
      modifies this`current
      ensures Valid()
      ensures Turned()
    {
      if current.None? {
        return;
      }
      var q, _ := RotateWithKick(board, current.value);
      current := Some(q);
    }

    /** The input-cooldown timeout firing. */
    method CooldownFires()
      requires Valid()
      modifies this`isProcessingInput, this`pendingCooldowns
      ensures Valid()
      ensures old(pendingCooldowns) == 0 ==> unchanged(this)
      ensures old(pendingCooldowns) > 0 ==> !isProcessingInput && pendingCooldowns == old(pendingCooldowns) - 1
    {
      if pendingCooldowns > 0 {
        pendingCooldowns := pendingCooldowns - 1;
        isProcessingInput := false;
      }
    }

    /**
     * The Space key on a state that is not clearing lines: a game that is
     * neither running, paused nor over is started (fresh board, first piece,
     * initial progression); otherwise a paused game resumes and a running one
     * pauses, which leaves all but the flags as they were (and changes nothing
     * once the game is over). The input flag is cleared in every case.
     */
    twostate predicate SpacePressed(spawnIndex: int)
      requires old(Valid()) && 1 <= spawnIndex <= PIECE_TYPES
      reads this
    {
      && !isProcessingInput
      && if !old(gameRunning) && !old(isPaused) && !old(gameOver) then
           && FlagState() == Start(old(FlagState()))
           && board == CreateBoard() && current == Some(GetRandomPiece(spawnIndex))
           && ProgressState() == Initial()
           && pendingClears == old(pendingClears) && pendingCooldowns == old(pendingCooldowns)
         else
           && FlagState() == (if old(isPaused) then Resume(old(FlagState())) else Pause(old(FlagState())))
           && Rest() == old(Rest()).(isProcessingInput := false)
    }

    /**
     * The keydown handler. Nothing happens while a clear is in progress or,
     * for an arrow key, during the input cooldown. Space acts as SpacePressed
     * says. On a game that is not running, is paused or over, or has no piece,
     * any other key only clears the input flag, and an arrow also leaves one
     * cooldown timeout pending. On a running game with a piece, the movement
     * keys shift, turn or soft-drop the piece and arm the cooldown, and any
     * other key changes nothing.
     */
    method KeyDown(key: Key, spawnIndex: int, nextIndex: int)
      requires Valid()
      requires 1 <= spawnIndex <= PIECE_TYPES && 1 <= nextIndex <= PIECE_TYPES
      modifies this
      ensures Valid()
      ensures old(isClearingLines) ==> unchanged(this)
      ensures !old(isClearingLines) && key.IsArrow() && old(isProcessingInput) ==> unchanged(this)
      ensures !old(isClearingLines) && key == Space ==> SpacePressed(spawnIndex)
      ensures var inactive := !old(isClearingLines) && key != Space && !(key.IsArrow() && old(isProcessingInput)) &&
                              (!old(gameRunning) || old(isPaused) || old(gameOver) || old(current).None?);
        inactive ==>
          && FlagState() == old(FlagState())
          && Rest() == old(Rest()).(isProcessingInput := false,
                                    pendingCooldowns := old(pendingCooldowns) + if key.IsArrow() then 1 else 0)
      ensures var active := !old(isClearingLines) && !(key.IsArrow() && old(isProcessingInput)) &&
                            old(gameRunning) && old(current).Some?;
        && (active && key == ArrowLeft ==> Shifted(-1))
        && (active && key == ArrowRight ==> Shifted(1))
        && (active && key == ArrowUp ==> Turned())
        && (active && key == ArrowDown ==> SoftDropped(spawnIndex, nextIndex))
        && (active && key.IsArrow() ==> isProcessingInput && pendingCooldowns == old(pendingCooldowns) + 1)
        && (active && key == OtherKey ==> unchanged(this))
    {
      if isClearingLines || (key.IsArrow() && isProcessingInput) {
        return;
      }
      if key == Space {
        SpaceKey(spawnIndex);
        return;
      }
      if !gameRunning || isPaused || gameOver || current.None? {
        // an arrow key arms the cooldown and clears the flag again at once
        if key.IsArrow() {
          pendingCooldowns := pendingCooldowns + 1;
        }
        isProcessingInput := false;
        return;
      }
      MovementKey(key, spawnIndex, nextIndex);
      if key.IsArrow() {
        isProcessingInput, pendingCooldowns := true, pendingCooldowns + 1;
      }
    }

    /** The Space branch of the key handler: start a fresh game, or toggle pause. */
    method SpaceKey(spawnIndex: int)
      requires Valid() && !isClearingLines && 1 <= spawnIndex <= PIECE_TYPES
      modifies this
      ensures Valid()
      ensures SpacePressed(spawnIndex)
    {
      if !gameRunning && !isPaused && !gameOver {
        StartGame(spawnIndex);
      } else if gameRunning || isPaused {
        if isPaused {
          ResumeGame();
        } else {
          PauseGame();
        }
      }
      isProcessingInput := false;
    }

    /** The switch of the key handler, reached for a running game with a piece. */
    method MovementKey(key: Key, spawnIndex: int, nextIndex: int)
      requires Valid() && gameRunning && current.Some? && !isClearingLines
      requires 1 <= spawnIndex <= PIECE_TYPES && 1 <= nextIndex <= PIECE_TYPES
      modifies this
      ensures Valid()
      ensures isProcessingInput == old(isProcessingInput) && pendingCooldowns == old(pendingCooldowns)
      ensures key == ArrowLeft ==> Shifted(-1)
      ensures key == ArrowRight ==> Shifted(1)
      ensures key == ArrowUp ==> Turned()
      ensures key == ArrowDown ==> SoftDropped(spawnIndex, nextIndex)
      ensures key.Space? || key.OtherKey? ==> unchanged(this)
    {
      match key {
        case ArrowLeft => MoveHorizontal(-1);
        case ArrowRight => MoveHorizontal(1);
        case ArrowDown => SoftDrop(spawnIndex, nextIndex);
        case ArrowUp =>
          if !RotationExempt(current.value) {
            RotatePiece();
          }
        case _ =>
      }
    }
  }
}
