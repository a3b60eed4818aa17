/**
 * The glass: a GlassH x GlassW matrix of colour indices (0 is empty). This
 * module states, on values, what the engine's collision tests, block commit
 * and full-line removal compute, including the inputs on which the engine
 * would index the glass outside its bounds.
 */
module Glass {
  import opened Tetris
  import opened Pieces

  type Board = seq<seq<int>>

  predicate IsBoard(b: Board)
  {
    |b| == GlassH && forall r :: 0 <= r < |b| ==> |b[r]| == GlassW
  }

  predicate InGlass(r: int, c: int)
  {
    0 <= r < GlassH && 0 <= c < GlassW
  }

  predicate InPiece(r: int, c: int)
  {
    0 <= r < ItemBlocks && 0 <= c < ItemBlocks
  }

  /** Every cell of the glass is a colour index 0..MaxPieceColor. */
  predicate CellsInRange(b: Board)
    requires IsBoard(b)
  {
    forall r, c :: 0 <= r < GlassH && 0 <= c < GlassW ==> 0 <= b[r][c] <= MaxPieceColor
  }

  function EmptyGlass(): (b: Board)
    ensures IsBoard(b)
  {
    seq(GlassH, r => seq(GlassW, c => 0))
  }

  predicate RowEmpty(row: seq<int>)
  {
    forall c :: 0 <= c < |row| ==> row[c] == 0
  }

  predicate RowFull(row: seq<int>)
  {
    forall c :: 0 <= c < |row| ==> row[c] != 0
  }

  /** Two boards that agree on every cell are equal. */
  lemma BoardsEqual(a: Board, b: Board)
    requires IsBoard(a) && IsBoard(b)
    requires forall r, c :: 0 <= r < GlassH && 0 <= c < GlassW ==> a[r][c] == b[r][c]
    ensures a == b
  {
    forall r | 0 <= r < GlassH
      ensures a[r] == b[r]
    {
      assert forall c :: 0 <= c < GlassW ==> a[r][c] == b[r][c];
    }
  }

  lemma EmptyGlassHasNoFullRow(r: int)
    requires 0 <= r < GlassH
    ensures RowEmpty(EmptyGlass()[r]) && !RowFull(EmptyGlass()[r])
  {
    assert EmptyGlass()[r][0] == 0;
  }

  // ---------------------------------------------------------- left contact

  /**
   * Row i of the piece blocks a move to the left: its left margin passes
   * the guard (>= 0, which the empty-row sentinel 4 also passes) and either
   * the margin touches the left wall or the glass cell to its left is occupied.
   */
  predicate LeftHit(b: Board, ml: seq<int>, gx: int, gy: int, i: int)
    requires IsBoard(b) && |ml| == ItemBlocks && 0 <= i < ItemBlocks
  {
    ml[i] >= 0 &&
    (gx + ml[i] <= 0 || (InGlass(gy + i, gx + ml[i] - 1) && b[gy + i][gx + ml[i] - 1] > 0))
  }

  predicate LeftBlocked(b: Board, ml: seq<int>, gx: int, gy: int)
    requires IsBoard(b) && |ml| == ItemBlocks
  {
    exists i :: 0 <= i < ItemBlocks && LeftHit(b, ml, gx, gy, i)
  }

  /**
   * The left test only reads inside the glass: a row whose glass cell it
   * would read outside the bounds is preceded by a row that already stops the scan.
   */
  predicate LeftReadsInGlass(b: Board, ml: seq<int>, gx: int, gy: int)
    requires IsBoard(b) && |ml| == ItemBlocks
  {
    forall i :: 0 <= i < ItemBlocks && ml[i] >= 0 && gx + ml[i] > 0 && !InGlass(gy + i, gx + ml[i] - 1) ==>
      exists j :: 0 <= j < i && LeftHit(b, ml, gx, gy, j)
  }

  // --------------------------------------------------------- right contact

  predicate RightHit(b: Board, mr: seq<int>, gx: int, gy: int, i: int)
    requires IsBoard(b) && |mr| == ItemBlocks && 0 <= i < ItemBlocks
  {
    mr[i] >= 0 &&
    (gx + mr[i] >= GlassW - 1 || (InGlass(gy + i, gx + mr[i] + 1) && b[gy + i][gx + mr[i] + 1] > 0))
  }

  predicate RightBlocked(b: Board, mr: seq<int>, gx: int, gy: int)
    requires IsBoard(b) && |mr| == ItemBlocks
  {
    exists i :: 0 <= i < ItemBlocks && RightHit(b, mr, gx, gy, i)
  }

  predicate RightReadsInGlass(b: Board, mr: seq<int>, gx: int, gy: int)
    requires IsBoard(b) && |mr| == ItemBlocks
  {
    forall i :: 0 <= i < ItemBlocks && mr[i] >= 0 && gx + mr[i] < GlassW - 1 && !InGlass(gy + i, gx + mr[i] + 1) ==>
      exists j :: 0 <= j < i && RightHit(b, mr, gx, gy, j)
  }

  // -------------------------------------------------------- bottom contact

  predicate BottomHit(b: Board, mb: seq<int>, gx: int, gy: int, i: int)
    requires IsBoard(b) && |mb| == ItemBlocks && 0 <= i < ItemBlocks
  {
    mb[i] >= 0 &&
    (gy + mb[i] + 2 > GlassH || (InGlass(gy + mb[i] + 1, gx + i) && b[gy + mb[i] + 1][gx + i] > 0))
  }

  predicate BottomBlocked(b: Board, mb: seq<int>, gx: int, gy: int)
    requires IsBoard(b) && |mb| == ItemBlocks
  {
    exists i :: 0 <= i < ItemBlocks && BottomHit(b, mb, gx, gy, i)
  }

  predicate BottomReadsInGlass(b: Board, mb: seq<int>, gx: int, gy: int)
    requires IsBoard(b) && |mb| == ItemBlocks
  {
    forall i :: 0 <= i < ItemBlocks && mb[i] >= 0 && gy + mb[i] + 2 <= GlassH && !InGlass(gy + mb[i] + 1, gx + i) ==>
      exists j :: 0 <= j < i && BottomHit(b, mb, gx, gy, j)
  }

  /** The floor test itself keeps the row it reads above the floor. */
  lemma BottomReadRowBelowFloor(mb: seq<int>, gy: int, i: int)
    requires |mb| == ItemBlocks && 0 <= i < ItemBlocks
    requires mb[i] >= 0 && !(gy + mb[i] + 2 > GlassH)
    ensures gy + mb[i] + 1 < GlassH
  {
  }

  // ------------------------------------------------- what the contacts mean

  /**
   * A piece for which the left test is false can move one column left and
   * keep every occupied cell right of the left wall.
   */
  lemma LeftMoveStaysInside(b: Board, p: seq<int>, gx: int, gy: int, r: int, c: int)
    requires IsBoard(b) && IsShape(p) && InPiece(r, c)
    requires !LeftBlocked(b, LeftMargins(p), gx, gy)
    requires Cell(p, r, c) != 0
    ensures gx - 1 + c >= 0
  {
    MarginsEncloseCells(p, r, c);
    assert !LeftHit(b, LeftMargins(p), gx, gy, r);
  }

  /** Mirror image: a piece not blocked on the right stays left of the right wall. */
  lemma RightMoveStaysInside(b: Board, p: seq<int>, gx: int, gy: int, r: int, c: int)
    requires IsBoard(b) && IsShape(p) && InPiece(r, c)
    requires !RightBlocked(b, RightMargins(p), gx, gy)
    requires Cell(p, r, c) != 0
    ensures gx + 1 + c < GlassW
  {
    MarginsEncloseCells(p, r, c);
    assert !RightHit(b, RightMargins(p), gx, gy, r);
  }

  /**
   * A piece not blocked at the bottom can fall one row: every occupied cell
   * stays above the floor, and the cell each column's lowest block moves
   * into is free.
   */
  lemma FallStaysAboveFloor(b: Board, p: seq<int>, gx: int, gy: int, r: int, c: int)
    requires IsBoard(b) && IsShape(p) && InPiece(r, c)
    requires !BottomBlocked(b, BottomMargins(p), gx, gy)
    requires Cell(p, r, c) != 0
    ensures gy + 1 + r < GlassH
    ensures InGlass(gy + 1 + BottomMargin(p, c), gx + c) ==> b[gy + 1 + BottomMargin(p, c)][gx + c] <= 0
  {
    MarginsEncloseCells(p, r, c);
    assert !BottomHit(b, BottomMargins(p), gx, gy, c);
  }

  // ------------------------------------------------------------ the commit

  /** Every occupied cell of the piece placed at (gx, gy) falls inside the glass. */
  predicate CommitInGlass(p: seq<int>, gx: int, gy: int)
    requires IsPiece(p)
  {
    forall r, c :: 0 <= r < ItemBlocks && 0 <= c < ItemBlocks && Cell(p, r, c) > 0 ==> InGlass(gy + r, gx + c)
  }

  /**
   * The glass after the piece placed at (gx, gy) is copied into it: each
   * glass cell under an occupied piece cell takes that cell's colour, every
   * other glass cell keeps its value.
   */
  function Committed(b: Board, p: seq<int>, gx: int, gy: int): (b': Board)
    requires IsBoard(b) && IsPiece(p)
    ensures IsBoard(b')
  {
    seq(GlassH, r requires 0 <= r < GlassH =>
      seq(GlassW, c requires 0 <= c < GlassW =>
        if InPiece(r - gy, c - gx) && Cell(p, r - gy, c - gx) > 0 then Cell(p, r - gy, c - gx) else b[r][c]))
  }

  lemma CommittedInRange(b: Board, p: seq<int>, gx: int, gy: int)
    requires IsBoard(b) && CellsInRange(b) && IsShape(p)
    ensures CellsInRange(Committed(b, p, gx, gy))
  {
    var b' := Committed(b, p, gx, gy);
    forall r, c | InGlass(r, c)
      ensures 0 <= b'[r][c] <= MaxPieceColor
    {
      assert b'[r][c] == if InPiece(r - gy, c - gx) && Cell(p, r - gy, c - gx) > 0 then Cell(p, r - gy, c - gx) else b[r][c];
      if InPiece(r - gy, c - gx) && Cell(p, r - gy, c - gx) > 0 {
        var k := (r - gy) * ItemBlocks + (c - gx);
        assert 0 <= k < PieceCells && Cell(p, r - gy, c - gx) == p[k];
        assert 0 <= p[k] <= MaxPieceColor;
      } else {
        assert 0 <= b[r][c] <= MaxPieceColor;
      }
    }
  }

  /** Committing a piece whose cells all lie in the glass adds exactly its occupied cells. */
  lemma CommittedCell(b: Board, p: seq<int>, gx: int, gy: int, r: int, c: int)
    requires IsBoard(b) && IsPiece(p) && InPiece(r, c) && CommitInGlass(p, gx, gy)
    ensures Cell(p, r, c) > 0 ==> Committed(b, p, gx, gy)[gy + r][gx + c] == Cell(p, r, c)
    ensures Cell(p, r, c) <= 0 && InGlass(gy + r, gx + c) ==> Committed(b, p, gx, gy)[gy + r][gx + c] == b[gy + r][gx + c]
  {
  }

  // ----------------------------------------------------- full-line removal

  /**
   * The glass after removeFullLine(line): row line takes row line - 1, and
   * so on upwards, until the row copied in is empty or row 1 has been written.
   */
  function ShiftDown(b: Board, line: int): (r: Board)
    requires IsBoard(b) && 1 <= line < GlassH
    ensures IsBoard(r)
    decreases line
  {
    var b' := b[line := b[line - 1]];
    if RowEmpty(b[line - 1]) || line - 1 == 0 then b' else ShiftDown(b', line - 1)
  }

  /** The last row that removeFullLine(line) writes. */
  function LastShifted(b: Board, line: int): (k: int)
    requires IsBoard(b) && 1 <= line < GlassH
    ensures 1 <= k <= line
    ensures RowEmpty(b[k - 1]) || k == 1
    ensures forall k' :: k <= k' < line ==> !RowEmpty(b[k'])
    decreases line
  {
    if RowEmpty(b[line - 1]) || line == 1 then line else LastShifted(b, line - 1)
  }

  /** LastShifted(b, line) depends only on the rows above line. */
  lemma {:induction false} LastShiftedReadsAbove(b: Board, b': Board, line: int)
    requires IsBoard(b) && IsBoard(b') && 1 <= line < GlassH
    requires forall k :: 0 <= k < line ==> b[k] == b'[k]
    ensures LastShifted(b, line) == LastShifted(b', line)
    decreases line
  {
    if !(RowEmpty(b[line - 1]) || line == 1) {
      LastShiftedReadsAbove(b, b', line - 1);
    }
  }

  /**
   * removeFullLine(line) moves rows LastShifted .. line down by one
   * (row k takes the old row k - 1) and leaves every other row, row 0 among
   * them, unchanged.
   */
  lemma {:induction false} ShiftDownRows(b: Board, line: int, k: int)
    requires IsBoard(b) && 1 <= line < GlassH && 0 <= k < GlassH
    ensures ShiftDown(b, line)[k] == if LastShifted(b, line) <= k <= line then b[k - 1] else b[k]
    decreases line
  {
    var b' := b[line := b[line - 1]];
    if !(RowEmpty(b[line - 1]) || line - 1 == 0) {
      ShiftDownRows(b', line - 1, k);
      LastShiftedReadsAbove(b, b', line - 1);
    }
  }

  lemma ShiftDownKeepsRowZero(b: Board, line: int)
    requires IsBoard(b) && 1 <= line < GlassH
    ensures ShiftDown(b, line)[0] == b[0]
  {
    ShiftDownRows(b, line, 0);
  }

  /**
   * Row 0 is never cleared: when every row above line is occupied the shift
   * reaches row 1, which takes a copy of row 0, and row 0 keeps its cells,
   * so the top row appears twice.
   */
  lemma TopRowDuplicated(b: Board, line: int)
    requires IsBoard(b) && 1 <= line < GlassH
    requires forall k :: 0 <= k < line ==> !RowEmpty(b[k])
    ensures LastShifted(b, line) == 1
    ensures ShiftDown(b, line)[1] == b[0] && ShiftDown(b, line)[0] == b[0]
  {
    ShiftDownRows(b, line, 1);
    ShiftDownKeepsRowZero(b, line);
  }

  lemma ShiftDownInRange(b: Board, line: int)
    requires IsBoard(b) && CellsInRange(b) && 1 <= line < GlassH
    ensures CellsInRange(ShiftDown(b, line))
  {
    forall r, c | InGlass(r, c)
      ensures 0 <= ShiftDown(b, line)[r][c] <= MaxPieceColor
    {
      ShiftDownRows(b, line, r);
    }
  }

  /** The largest row index at most i whose row is full, or -1 if there is none. */
  function ScanFull(b: Board, i: int): (r: int)
    requires IsBoard(b) && -1 <= i < GlassH
    ensures -1 <= r <= i
    ensures r >= 0 ==> RowFull(b[r])
    ensures forall r' :: r < r' <= i ==> !RowFull(b[r'])
    decreases i + 1
  {
    if i < 0 then -1
    else if RowFull(b[i]) then i
    else ScanFull(b, i - 1)
  }

  /** A full row with no full row below it, up to i, is the one the scan finds. */
  lemma {:induction false} ScanFullFinds(b: Board, i: int, k: int)
    requires IsBoard(b) && 0 <= k <= i < GlassH
    requires RowFull(b[k]) && forall r :: k < r <= i ==> !RowFull(b[r])
    ensures ScanFull(b, i) == k
    decreases i
  {
    if i > k {
      ScanFullFinds(b, i - 1, k);
    }
  }

  /** The full row nearest the bottom, or -1. */
  function BottomFullRow(b: Board): int
    requires IsBoard(b)
  {
    ScanFull(b, GlassH - 1)
  }

  /**
   * checkRemoveFullLine: false and the glass unchanged when no row is full;
   * otherwise the full row nearest the bottom is removed and the result is
   * true. Removing row 0 reads row -1, so a glass whose only full row is row
   * 0 is OutOfRange.
   */
  function ClearFullLine(b: Board): (r: Checked<(bool, Board)>)
    requires IsBoard(b)
    ensures r == Ok((false, b)) <==> forall k :: 0 <= k < GlassH ==> !RowFull(b[k])
    ensures r.OutOfRange? <==> RowFull(b[0]) && forall k :: 0 < k < GlassH ==> !RowFull(b[k])
    ensures (exists k :: 1 <= k < GlassH && RowFull(b[k])) ==> r.Ok? && r.value.0
    ensures r.Ok? && r.value.0 ==>
      var k := BottomFullRow(b);
      && 1 <= k && RowFull(b[k])
      && (forall k' :: k < k' < GlassH ==> !RowFull(b[k']))
      && IsBoard(r.value.1) && r.value.1 == ShiftDown(b, k)
  {
    var k := BottomFullRow(b);
    if k < 0 then Ok((false, b))
    else if k == 0 then OutOfRange
    else Ok((true, ShiftDown(b, k)))
  }

  lemma ClearFullLineInRange(b: Board)
    requires IsBoard(b) && CellsInRange(b) && ClearFullLine(b).Ok?
    ensures IsBoard(ClearFullLine(b).value.1) && CellsInRange(ClearFullLine(b).value.1)
  {
    if BottomFullRow(b) >= 1 {
      ShiftDownInRange(b, BottomFullRow(b));
    }
  }

  /**
   * A single full row R >= 1 over an otherwise empty glass is removed by one
   * call, which leaves the glass empty; a second call returns false.
   */
  lemma OneFullRowCleared(b: Board, R: int)
    requires IsBoard(b) && 1 <= R < GlassH
    requires RowFull(b[R]) && forall k :: 0 <= k < GlassH && k != R ==> RowEmpty(b[k])
    ensures ClearFullLine(b) == Ok((true, EmptyGlass()))
    ensures ClearFullLine(EmptyGlass()) == Ok((false, EmptyGlass()))
  {
    forall k | R < k < GlassH
      ensures !RowFull(b[k])
    {
      assert b[k][0] == 0;
    }
    assert BottomFullRow(b) == R;
    var s := ShiftDown(b, R);
    assert LastShifted(b, R) == R;
    forall k | 0 <= k < GlassH
      ensures s[k] == EmptyGlass()[k]
    {
      ShiftDownRows(b, R, k);
      var src := if k == R then b[R - 1] else b[k];
      assert s[k] == src && RowEmpty(src);
      assert src == EmptyGlass()[k];
    }
    assert s == EmptyGlass();
    forall k | 0 <= k < GlassH
      ensures !RowFull(EmptyGlass()[k])
    {
      EmptyGlassHasNoFullRow(k);
    }
  }

  /**
   * Two adjacent full rows R - 1 and R over an otherwise empty glass need
   * two calls, each returning true; the third returns false, and the glass
   * is then empty.
   */
  lemma TwoFullRowsCleared(b: Board, R: int)
    requires IsBoard(b) && 2 <= R < GlassH
    requires RowFull(b[R - 1]) && RowFull(b[R])
    requires forall k :: 0 <= k < GlassH && k != R && k != R - 1 ==> RowEmpty(b[k])
    ensures ClearFullLine(b).Ok? && ClearFullLine(b).value.0
    ensures var b1 := ClearFullLine(b).value.1;
      ClearFullLine(b1) == Ok((true, EmptyGlass())) &&
      ClearFullLine(EmptyGlass()) == Ok((false, EmptyGlass()))
  {
    forall k | R < k < GlassH
      ensures !RowFull(b[k])
    {
      assert b[k][0] == 0;
    }
    assert BottomFullRow(b) == R;
    var b1 := ShiftDown(b, R);
    assert !RowEmpty(b[R - 1]) by { assert b[R - 1][0] != 0; }
    assert LastShifted(b, R) == R - 1;
    assert ClearFullLine(b) == Ok((true, b1));
    ShiftDownRows(b, R, R);
    assert RowFull(b1[R]);
    forall k | 0 <= k < GlassH && k != R
      ensures RowEmpty(b1[k])
    {
      ShiftDownRows(b, R, k);
      if k == R - 1 {
        assert b1[k] == b[R - 2];
      } else {
        assert b1[k] == b[k];
      }
    }
    OneFullRowCleared(b1, R);
  }
}
