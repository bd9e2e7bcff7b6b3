/** The ghost piece: how far the active piece would fall if dropped straight down. */
module GhostDrop {
  import opened Board

  /**
   * calculateGhostY for a present piece: start at the piece's row and step down
   * while the next row down is still a valid position. The result g is the last
   * row reached: every row from y + 1 to g is valid and g + 1 is not.
   */
  method GhostRow(b: Grid, p: Piece) returns (g: int)
    requires WellFormed(b) && HasBlock(p.shape)
    ensures g >= p.y
    ensures forall k :: p.y < k <= g ==> Fits(b, p.x, k, p.shape)
    ensures !Fits(b, p.x, g + 1, p.shape)
  {
    ghost var i, j :| Occupied(p.shape, i, j);
    g := p.y;
    var ok := IsValidMove(b, p.x, g + 1, p.shape);
    while ok
      invariant g >= p.y
      invariant forall k :: p.y < k <= g ==> Fits(b, p.x, k, p.shape)
      invariant ok <==> Fits(b, p.x, g + 1, p.shape)
      decreases ROWS - g
    {
      assert CellOpen(b, p.x + j, g + 1 + i);
      g := g + 1;
      ok := IsValidMove(b, p.x, g + 1, p.shape);
    }
  }

  /**
   * On an empty board, a piece that lies within the columns and has a block (in
   * column j) in its bottom row lands with that row on the bottom of the board: the only
   * row meeting GhostRow's contract is ROWS - height.
   */
  lemma GhostOnEmptyBoard(p: Piece, g: int, j: int)
    requires Rectangular(p.shape)
    requires 0 <= p.x && p.x + |p.shape[0]| <= COLS
    requires Occupied(p.shape, |p.shape| - 1, j)
    requires p.y + |p.shape| <= ROWS
    requires g >= p.y
    requires forall k :: p.y < k <= g ==> Fits(CreateBoard(), p.x, k, p.shape)
    requires !Fits(CreateBoard(), p.x, g + 1, p.shape)
    ensures g == ROWS - |p.shape|
  {
    var s, b := p.shape, CreateBoard();
    if g > p.y {
      assert Fits(b, p.x, g, s);
      assert CellOpen(b, p.x + j, g + |s| - 1);
    }
    var a, c :| Occupied(s, a, c) && !CellOpen(b, p.x + c, g + 1 + a);
    assert |s[a]| == |s[0]|;
  }
}
