/**
 * The lifecycle flags of the engine and the guarded transitions that the
 * start, pause, resume and end operations, the line-clear suspension and the
 * game loop apply to them.
 */
module Lifecycle {

  /** The four flags of the game, plus whether the gravity interval timer is set. */
  datatype Flags = Flags(gameRunning: bool, isPaused: bool, gameOver: bool, isClearingLines: bool, tickerArmed: bool)

  /**
   * At most one of running, paused and over holds; a line clear is in progress
   * only while running; the interval timer is set exactly while running and
   * not clearing.
   */
  predicate Coherent(f: Flags) {
    && !(f.gameRunning && f.isPaused)
    && !(f.gameOver && (f.gameRunning || f.isPaused))
    && (f.isClearingLines ==> f.gameRunning)
    && (f.tickerArmed <==> f.gameRunning && !f.isClearingLines)
  }

  /** The flags before the first game. */
  function NotStarted(): (f: Flags)
    ensures Coherent(f)
  {
    Flags(false, false, false, false, false)
  }

  /** startGame, given that the first piece fits (it always does: the board is empty). */
  function Start(f: Flags): (g: Flags)
    ensures Coherent(f) ==> Coherent(g)
    ensures g != f ==> !f.gameRunning && !f.isPaused && !f.isClearingLines
    ensures !f.gameRunning && !f.isPaused && !f.isClearingLines ==> g.gameRunning && !g.gameOver && g.tickerArmed
  {
    if f.gameRunning || f.isPaused || f.isClearingLines then f
    else Flags(true, false, false, false, true)
  }

  /** pauseGame: acts only when running and not clearing lines. */
  function Pause(f: Flags): (g: Flags)
    ensures Coherent(f) ==> Coherent(g)
    ensures g != f ==> f.gameRunning && !f.isPaused && !f.isClearingLines
    ensures f.gameRunning && !f.isPaused && !f.isClearingLines ==>
      g.isPaused && !g.gameRunning && !g.tickerArmed && g.gameOver == f.gameOver
  {
    if !f.gameRunning || f.isPaused || f.isClearingLines then f
    else f.(isPaused := true, gameRunning := false, tickerArmed := false)
  }

  /** resumeGame: acts only when paused and neither over nor clearing lines. */
  function Resume(f: Flags): (g: Flags)
    ensures Coherent(f) ==> Coherent(g)
    ensures g != f ==> f.isPaused && !f.gameOver && !f.isClearingLines
    ensures f.isPaused && !f.gameOver && !f.isClearingLines ==>
      !g.isPaused && g.gameRunning && g.tickerArmed
  {
    if !f.isPaused || f.gameOver || f.isClearingLines then f
    else f.(isPaused := false, gameRunning := true, tickerArmed := true)
  }

  /**
   * endGame: unless the game is already over or nothing is in progress, sets
   * gameOver, clears the other three flags and stops the timer.
   */
  function End(f: Flags): (g: Flags)
    ensures Coherent(f) ==> Coherent(g)
    ensures g != f ==> !f.gameOver && (f.gameRunning || f.isPaused || f.isClearingLines)
    ensures !f.gameOver && (f.gameRunning || f.isPaused || f.isClearingLines) ==>
      g.gameOver && !g.isPaused && !g.gameRunning && !g.isClearingLines && !g.tickerArmed
  {
    if f.gameOver || (!f.gameRunning && !f.isPaused && !f.isClearingLines) then f
    else f.(gameOver := true, isPaused := false, gameRunning := false, isClearingLines := false, tickerArmed := false)
  }

  /** clearLines on finding full rows: suspend and stop the timer. */
  function BeginClearing(f: Flags): (g: Flags)
    ensures Coherent(f) && f.gameRunning ==> Coherent(g)
    ensures g.isClearingLines && !g.tickerArmed
  {
    f.(isClearingLines := true, tickerArmed := false)
  }

  /** The line-clear timeout: lift the suspension; restart the timer if the game is running. */
  function EndClearing(f: Flags): (g: Flags)
    ensures Coherent(f) ==> Coherent(g)
    ensures !g.isClearingLines
    ensures Coherent(f) ==> (g.tickerArmed <==> f.gameRunning)
  {
    f.(isClearingLines := false, tickerArmed := if f.gameRunning && !f.isPaused && !f.gameOver then true else f.tickerArmed)
  }

  /** The window losing focus: pauses when running, not over and not clearing. */
  function Blur(f: Flags): Flags
  {
    if f.gameRunning && !f.isPaused && !f.gameOver && !f.isClearingLines then Pause(f) else f
  }

  lemma PauseIdempotent(f: Flags)
    ensures Pause(Pause(f)) == Pause(f)
  {
  }

  lemma EndIdempotent(f: Flags)
    ensures End(End(f)) == End(f)
  {
  }

  /** Pausing a running game and resuming it gives back the same flags. */
  lemma ResumeUndoesPause(f: Flags)
    requires Coherent(f) && f.gameRunning && !f.isClearingLines
    ensures Resume(Pause(f)) == f
  {
  }

  /** The focus-loss guard adds nothing to pauseGame's own guard. */
  lemma BlurIsPause(f: Flags)
    requires Coherent(f)
    ensures Blur(f) == Pause(f)
  {
  }

  /** Once over, only startGame changes the flags. */
  lemma OverIsFinal(f: Flags)
    requires Coherent(f) && f.gameOver
    ensures Pause(f) == f && Resume(f) == f && End(f) == f
    ensures Start(f).gameRunning
  {
  }
}
