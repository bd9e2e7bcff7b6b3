/**
 * Rotation of the active piece: a clockwise quarter turn of the shape matrix
 * (transpose and reverse) followed by the wall kick, which tries the turned shape
 * at horizontal offsets 0, k and 2k and either commits or changes nothing.
 */
module Rotation {
  import opened Board

  /**
   * The shape turned a quarter: an r x c shape becomes c x r, and entry (y, x)
   * moves to (x, r - 1 - y).
   */
  function Rotated(s: Shape): (t: Shape)
    requires Rectangular(s)
  {
    seq(|s[0]|, i requires 0 <= i < |s[0]| => seq(|s|, j requires 0 <= j < |s| => s[|s| - 1 - j][i]))
  }

  lemma RotatedProperties(s: Shape)
    requires Rectangular(s)
    ensures Rectangular(Rotated(s))
    ensures |Rotated(s)| == |s[0]| && |Rotated(s)[0]| == |s|
    ensures forall y, x :: 0 <= y < |s| && 0 <= x < |s[0]| ==> Rotated(s)[x][|s| - 1 - y] == s[y][x]
  {
  }

  /** The turn moves blocks but never creates or loses one. */
  lemma RotatedOccupied(s: Shape, y: int, x: int)
    requires Rectangular(s)
    ensures Occupied(s, y, x) <==> Occupied(Rotated(s), x, |s| - 1 - y)
  {
    RotatedProperties(s);
  }

  lemma RotatedHasBlock(s: Shape)
    requires Rectangular(s) && HasBlock(s)
    ensures Rectangular(Rotated(s)) && HasBlock(Rotated(s))
  {
    RotatedProperties(s);
    var y, x :| Occupied(s, y, x);
    RotatedOccupied(s, y, x);
  }

  /** Two quarter turns are a half turn: entry (i, j) comes from (r - 1 - i, c - 1 - j). */
  lemma HalfTurn(s: Shape)
    requires Rectangular(s)
    ensures Rectangular(Rotated(s)) && Rectangular(Rotated(Rotated(s)))
    ensures |Rotated(Rotated(s))| == |s| && |Rotated(Rotated(s))[0]| == |s[0]|
    ensures forall i, j :: 0 <= i < |s| && 0 <= j < |s[0]| ==>
      Rotated(Rotated(s))[i][j] == s[|s| - 1 - i][|s[0]| - 1 - j]
  {
    RotatedProperties(s);
    RotatedProperties(Rotated(s));
  }

  /** Four quarter turns give back the original shape. */
  lemma FullTurn(s: Shape)
    requires Rectangular(s)
    ensures Rectangular(Rotated(s)) && Rectangular(Rotated(Rotated(s))) && Rectangular(Rotated(Rotated(Rotated(s))))
    ensures Rotated(Rotated(Rotated(Rotated(s)))) == s
  {
    HalfTurn(s);
    var h := Rotated(Rotated(s));
    HalfTurn(h);
    RotatedProperties(Rotated(s));
    var f := Rotated(Rotated(h));
    forall i | 0 <= i < |s|
      ensures f[i] == s[i]
    {
      forall j | 0 <= j < |s[i]|
        ensures f[i][j] == s[i][j]
      {
        assert f[i][j] == h[|s| - 1 - i][|s[0]| - 1 - j];
      }
    }
  }

  /** The nested loop of rotatePiece that fills the turned matrix, starting from zeros. */
  method RotateShape(oS: Shape) returns (nS: Shape)
    requires Rectangular(oS)
    ensures nS == Rotated(oS)
  {
    var r, c := |oS|, |oS[0]|;
    nS := seq(c, _ => seq(r, _ => 0));
    var y := 0;
    while y < r
      invariant 0 <= y <= r
      invariant |nS| == c && forall i :: 0 <= i < c ==> |nS[i]| == r
      invariant forall i, j :: 0 <= i < c && 0 <= j < r ==>
        nS[i][j] == if r - 1 - j < y then oS[r - 1 - j][i] else 0
    {
      var x := 0;
      while x < c
        invariant 0 <= x <= c
        invariant |nS| == c && forall i :: 0 <= i < c ==> |nS[i]| == r
        invariant forall i, j :: 0 <= i < c && 0 <= j < r ==>
          nS[i][j] == if Before(r - 1 - j, i, y, x) then oS[r - 1 - j][i] else 0
      {
        nS := nS[x := nS[x][r - 1 - y := oS[y][x]]];
        x := x + 1;
      }
      y := y + 1;
    }
    assert forall i :: 0 <= i < c ==> nS[i] == Rotated(oS)[i];
  }

  /** The square (type 7) and the single cell (type 8) never rotate. */
  predicate RotationExempt(p: Piece) {
    p.colorIndex == 7 || p.colorIndex == 8
  }

  /**
   * Direction of the wall kick, toward the centre: +1 when the piece's centre
   * x + c/2 lies left of COLS/2, written over the integers as 2x + c < COLS.
   */
  function KickDirection(x: int, c: int): (k: int)
    ensures k == 1 || k == -1
    ensures k == 1 <==> 2 * x + c < COLS
    ensures k == 1 <==> (x as real) + (c as real) / 2.0 < (COLS as real) / 2.0
  {
    if 2 * x + c < COLS then 1 else -1
  }

  /**
   * rotatePiece on a piece p over board b. The result is either p itself
   * (committed is false) or p with the turned shape moved by the first offset
   * among 0, k, 2k at which the turned shape fits (committed is true).
   */
  method RotateWithKick(b: Grid, p: Piece) returns (q: Piece, committed: bool)
    requires WellFormed(b) && Rectangular(p.shape)
    ensures !committed ==> q == p
    ensures q.y == p.y && q.colorIndex == p.colorIndex
    ensures committed <==> (!RotationExempt(p) &&
      var nS, k := Rotated(p.shape), KickDirection(p.x, |p.shape[0]|);
      Fits(b, p.x, p.y, nS) || Fits(b, p.x + k, p.y, nS) || Fits(b, p.x + 2 * k, p.y, nS))
    ensures committed ==>
      var nS, k := Rotated(p.shape), KickDirection(p.x, |p.shape[0]|);
      q.shape == nS && Fits(b, q.x, q.y, q.shape) &&
      (q.x == p.x || (q.x == p.x + k && !Fits(b, p.x, p.y, nS)) ||
       (q.x == p.x + 2 * k && !Fits(b, p.x, p.y, nS) && !Fits(b, p.x + k, p.y, nS)))
    ensures ValidPiece(p) ==> ValidPiece(q)
  {
    if RotationExempt(p) {
      return p, false;
    }
    var oS := p.shape;
    var c := |oS[0]|;
    var nS := RotateShape(oS);
    var kX := 0;
    var ok := IsValidMove(b, p.x, p.y, nS);
    if !ok {
      kX := KickDirection(p.x, c);
      ok := IsValidMove(b, p.x + kX, p.y, nS);
      if !ok {
        ok := IsValidMove(b, p.x + kX * 2, p.y, nS);
        if !ok {
          return p, false;
        }
        kX := kX * 2;
      }
    }
    if ValidPiece(p) {
      RotatedHasBlock(oS);
    }
    q := p.(x := p.x + kX, shape := nS);
    committed := true;
  }
}
