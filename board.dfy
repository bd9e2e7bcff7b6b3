/**
 * The playing field: a ROWS x COLS grid of cells (0 = empty, 1..PIECE_TYPES = the
 * type of the piece that was locked there), the piece shapes, spawning, the
 * collision test and locking a piece into the grid.
 */
module Board {

  const ROWS: int := 20
  const COLS: int := 10
  /** Piece types are numbered 1..PIECE_TYPES; the number also selects the colour. */
  const PIECE_TYPES: int := 11

  type Row = seq<int>
  type Grid = seq<Row>
  /** A shape is a small matrix; a nonzero entry is a block of the piece. */
  type Shape = seq<seq<int>>

  /** The active piece: its shape, its type (colour index) and the board position of the shape's origin. */
  datatype Piece = Piece(shape: Shape, colorIndex: int, x: int, y: int)

  predicate IsCell(v: int) {
    0 <= v <= PIECE_TYPES
  }

  predicate RowOk(row: Row) {
    |row| == COLS && forall c :: 0 <= c < |row| ==> IsCell(row[c])
  }

  /** A board has exactly ROWS rows of COLS cells, each empty or a piece type. */
  predicate WellFormed(b: Grid) {
    |b| == ROWS && forall r :: 0 <= r < |b| ==> RowOk(b[r])
  }

  function EmptyRow(): (row: Row)
    ensures RowOk(row)
    ensures forall c :: 0 <= c < |row| ==> row[c] == 0
  {
    seq(COLS, _ => 0)
  }

  /** createBoard: a board whose every cell is empty. */
  function CreateBoard(): (b: Grid)
    ensures WellFormed(b)
    ensures forall r, c :: 0 <= r < ROWS && 0 <= c < COLS ==> b[r][c] == 0
  {
    seq(ROWS, _ => EmptyRow())
  }

  /** Every row has the same nonzero length as the first, and there is at least one row. */
  predicate Rectangular(s: Shape) {
    |s| > 0 && |s[0]| > 0 && forall i :: 0 <= i < |s| ==> |s[i]| == |s[0]|
  }

  /** Entry (i, j) of the shape exists and is a block. */
  predicate Occupied(s: Shape, i: int, j: int) {
    0 <= i < |s| && 0 <= j < |s[i]| && s[i][j] != 0
  }

  ghost predicate HasBlock(s: Shape) {
    exists i, j :: Occupied(s, i, j)
  }

  ghost predicate ValidPiece(p: Piece) {
    Rectangular(p.shape) && HasBlock(p.shape) && 1 <= p.colorIndex <= PIECE_TYPES
  }

  /** The table of shapes; index i is the shape of piece type i. */
  function Shapes(i: int): (s: Shape)
    requires 1 <= i <= PIECE_TYPES
    ensures Rectangular(s) && HasBlock(s)
    ensures |s| <= 2 && |s[0]| <= 4
  {
    var s: Shape :=
      match i
      case 1 => [[1, 1, 1, 1]]
      case 2 => [[1, 0, 0], [1, 1, 1]]
      case 3 => [[0, 0, 1], [1, 1, 1]]
      case 4 => [[0, 1, 0], [1, 1, 1]]
      case 5 => [[0, 1, 1], [1, 1, 0]]
      case 6 => [[1, 1, 0], [0, 1, 1]]
      case 7 => [[1, 1], [1, 1]]
      case 8 => [[1]]
      case 9 => [[1, 1]]
      case 10 => [[1, 1], [1, 0]]
      case _ => [[1, 1, 1]];
    assert Occupied(s, |s| - 1, 0) || Occupied(s, 0, 0);
    s
  }

  /**
   * getRandomPiece with the random draw taken as the argument: the piece of type i,
   * horizontally centred (floor(COLS/2) - floor(width/2)) on the top row.
   */
  function GetRandomPiece(i: int): (p: Piece)
    requires 1 <= i <= PIECE_TYPES
    ensures ValidPiece(p) && p.colorIndex == i && p.shape == Shapes(i) && p.y == 0
    ensures p.x == COLS / 2 - |p.shape[0]| / 2
    ensures 0 <= p.x && p.x + |p.shape[0]| <= COLS
  {
    var s := Shapes(i);
    Piece(s, i, COLS / 2 - |s[0]| / 2, 0)
  }

  /**
   * A block may occupy board cell (bX, bY): the column is on the board, the row is
   * not below the bottom, and a row on the board is empty there. Rows above the
   * top (bY < 0) are allowed.
   */
  predicate CellOpen(b: Grid, bX: int, bY: int)
    requires WellFormed(b)
  {
    0 <= bX < COLS && bY < ROWS && (bY >= 0 ==> b[bY][bX] == 0)
  }

  /** Every block of shape s, placed with its origin at (nx, ny), lands on an open cell. */
  ghost predicate Fits(b: Grid, nx: int, ny: int, s: Shape)
    requires WellFormed(b)
  {
    forall i, j :: Occupied(s, i, j) ==> CellOpen(b, nx + j, ny + i)
  }

  /** isValidMove: scans the shape row by row and rejects at the first block that lands badly. */
  method IsValidMove(b: Grid, nx: int, ny: int, s: Shape) returns (ok: bool)
    requires WellFormed(b)
    ensures ok <==> Fits(b, nx, ny, s)
  {
    var y := 0;
    while y < |s|
      invariant 0 <= y <= |s|
      invariant forall i, j :: 0 <= i < y && Occupied(s, i, j) ==> CellOpen(b, nx + j, ny + i)
    {
      var x := 0;
      while x < |s[y]|
        invariant 0 <= x <= |s[y]|
        invariant forall i, j :: 0 <= i < y && Occupied(s, i, j) ==> CellOpen(b, nx + j, ny + i)
        invariant forall j :: 0 <= j < x && Occupied(s, y, j) ==> CellOpen(b, nx + j, ny + y)
      {
        if s[y][x] != 0 {
          var bX, bY := nx + x, ny + y;
          if bX < 0 || bX >= COLS || bY >= ROWS || (bY >= 0 && b[bY][bX] != 0) {
            assert Occupied(s, y, x) && !CellOpen(b, nx + x, ny + y);
            return false;
          }
        }
        x := x + 1;
      }
      y := y + 1;
    }
    return true;
  }

  /** Board cell (r, c) is covered by a block of piece p. */
  predicate InFootprint(p: Piece, r: int, c: int) {
    Occupied(p.shape, r - p.y, c - p.x)
  }

  /** Shape entry (i, j) comes before entry (y, x) in row-major order. */
  predicate Before(i: int, j: int, y: int, x: int) {
    i < y || (i == y && j < x)
  }

  /**
   * nb is b with piece p locked in: the same dimensions, p's type in every
   * board cell one of its blocks covers, and b's value everywhere else.
   */
  predicate IsLockOf(nb: Grid, b: Grid, p: Piece)
    requires WellFormed(b)
  {
    && |nb| == ROWS
    && (forall r :: 0 <= r < ROWS ==> |nb[r]| == COLS)
    && forall r, c :: 0 <= r < ROWS && 0 <= c < COLS ==>
         nb[r][c] == if InFootprint(p, r, c) then p.colorIndex else b[r][c]
  }

  /**
   * lockPiece: writes the piece's type into every board cell its blocks cover,
   * skipping blocks that lie outside the board (in particular above the top row);
   * every other cell keeps its value.
   */
  method LockPiece(b: Grid, p: Piece) returns (nb: Grid)
    requires WellFormed(b)
    ensures IsLockOf(nb, b, p)
    ensures IsCell(p.colorIndex) ==> WellFormed(nb)
  {
    nb := b;
    var s := p.shape;
    var y := 0;
    while y < |s|
      invariant 0 <= y <= |s|
      invariant |nb| == ROWS && forall r :: 0 <= r < ROWS ==> |nb[r]| == COLS
      invariant forall r, c :: 0 <= r < ROWS && 0 <= c < COLS ==>
        nb[r][c] == if InFootprint(p, r, c) && r - p.y < y then p.colorIndex else b[r][c]
    {
      var x := 0;
      while x < |s[y]|
        invariant 0 <= x <= |s[y]|
        invariant |nb| == ROWS && forall r :: 0 <= r < ROWS ==> |nb[r]| == COLS
        invariant forall r, c :: 0 <= r < ROWS && 0 <= c < COLS ==>
          nb[r][c] == if InFootprint(p, r, c) && Before(r - p.y, c - p.x, y, x) then p.colorIndex else b[r][c]
      {
        if s[y][x] != 0 {
          var bX, bY := p.x + x, p.y + y;
          if bY >= 0 && bY < ROWS && bX >= 0 && bX < COLS {
            nb := nb[bY := nb[bY][bX := p.colorIndex]];
          }
        }
        x := x + 1;
      }
      y := y + 1;
    }
    if IsCell(p.colorIndex) {
      forall r | 0 <= r < ROWS
        ensures RowOk(nb[r])
      {
        assert RowOk(b[r]);
      }
    }
  }

  /** A freshly spawned piece always fits the empty board, so startGame cannot end the game at once. */
  lemma SpawnFitsEmptyBoard(i: int)
    requires 1 <= i <= PIECE_TYPES
    ensures var p := GetRandomPiece(i); Fits(CreateBoard(), p.x, p.y, p.shape)
  {
    var p := GetRandomPiece(i);
    forall a, b | Occupied(p.shape, a, b)
      ensures CellOpen(CreateBoard(), p.x + b, p.y + a)
    {
      assert |p.shape[a]| == |p.shape[0]|;
    }
  }
}
