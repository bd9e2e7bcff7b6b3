/**
 * Score, lines cleared, level and fall interval, and how one completed
 * line clear updates them.
 */
module Progression {

  const LINES_PER_LEVEL: int := 3
  const INITIAL_GAME_SPEED: int := 850
  const MIN_GAME_SPEED: int := 120
  const SPEED_DECREMENT: int := 90

  /** Points per simultaneous clear, before the level multiplier: 1, 2, 3, 4 rows give 40, 100, 300, 1200; any other count gives 0. */
  function Points(n: int): (p: int)
    ensures p >= 0
    ensures p > 0 <==> 1 <= n <= 4
  {
    if 0 <= n < 5 then [0, 40, 100, 300, 1200][n] else 0
  }

  /** The fall interval in milliseconds at a level, floored at MIN_GAME_SPEED. */
  function SpeedFor(level: int): (ms: int)
    ensures level >= 1 ==> MIN_GAME_SPEED <= ms <= INITIAL_GAME_SPEED
    ensures level == 1 ==> ms == INITIAL_GAME_SPEED
  {
    var s := INITIAL_GAME_SPEED - (level - 1) * SPEED_DECREMENT;
    if s > MIN_GAME_SPEED then s else MIN_GAME_SPEED
  }

  /** A higher level never has a longer fall interval. */
  lemma SpeedNonIncreasing(l1: int, l2: int)
    requires l1 <= l2
    ensures SpeedFor(l2) <= SpeedFor(l1)
  {
  }

  datatype Progress = Progress(score: int, totalLinesCleared: int, level: int, gameSpeed: int)

  /**
   * What the engine keeps true of its progression: nothing negative, the level
   * is one more than the completed groups of LINES_PER_LEVEL lines, and the
   * interval is the one for that level.
   */
  predicate Consistent(p: Progress) {
    && p.score >= 0
    && p.totalLinesCleared >= 0
    && p.level == p.totalLinesCleared / LINES_PER_LEVEL + 1
    && p.gameSpeed == SpeedFor(p.level)
  }

  /** The values startGame installs. */
  function Initial(): (p: Progress)
    ensures Consistent(p) && p.score == 0 && p.level == 1
  {
    Progress(0, 0, 1, INITIAL_GAME_SPEED)
  }

  /**
   * The scoring step after n rows were removed: the points for n times the
   * level before the update; n more lines; the level raised to
   * floor(lines / LINES_PER_LEVEL) + 1 only when that is higher, and then the
   * interval recomputed.
   */
  function ApplyClear(p: Progress, n: int): (r: Progress)
    requires n >= 0
    ensures r.score == p.score + Points(n) * p.level
    ensures r.totalLinesCleared == p.totalLinesCleared + n
    ensures r.level >= p.level && r.level >= r.totalLinesCleared / LINES_PER_LEVEL + 1
    ensures r.level == p.level ==> r.gameSpeed == p.gameSpeed
    ensures Consistent(p) ==> Consistent(r) && r.gameSpeed <= p.gameSpeed
  {
    var score := p.score + Points(n) * p.level;
    var total := p.totalLinesCleared + n;
    var newLevel := total / LINES_PER_LEVEL + 1;
    if newLevel > p.level then
      SpeedNonIncreasing(p.level, newLevel);
      Progress(score, total, newLevel, SpeedFor(newLevel))
    else
      Progress(score, total, p.level, p.gameSpeed)
  }

  /** A clear of at most LINES_PER_LEVEL rows raises the level by at most one. */
  lemma SmallClearRaisesAtMostOne(p: Progress, n: int)
    requires Consistent(p) && 0 <= n <= LINES_PER_LEVEL
    ensures ApplyClear(p, n).level <= p.level + 1
  {
  }

  /**
   * A four-row clear can cross two multiples of LINES_PER_LEVEL: from 2 lines
   * at level 1, it leads straight to level 3 (and 1200 points).
   */
  lemma FourRowsCanSkipLevel()
    ensures var r := ApplyClear(Progress(0, 2, 1, INITIAL_GAME_SPEED), 4);
      r.level == 3 && r.score == 1200 && r.gameSpeed == 670
  {
  }
}
