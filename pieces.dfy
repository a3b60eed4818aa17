/**
 * The piece catalogue: a piece is a row-major 4x4 matrix of colour indices
 * (0 is an empty cell). This module holds the seven reference shapes, the
 * quarter-turn performed by the rotation, the per-row and per-column margins
 * and the four-value minimum and maximum helpers.
 */
module Pieces {
  import opened Tetris

  /** The largest colour index a shape uses. */
  const MaxPieceColor := 5

  predicate IsPiece(p: seq<int>)
  {
    |p| == PieceCells
  }

  /** A piece whose cells are colour indices 0..MaxPieceColor. */
  predicate IsShape(p: seq<int>)
  {
    IsPiece(p) && forall k :: 0 <= k < |p| ==> 0 <= p[k] <= MaxPieceColor
  }

  /** The cell in row r, column c of a piece. */
  function Cell(p: seq<int>, r: int, c: int): int
    requires IsPiece(p) && 0 <= r < ItemBlocks && 0 <= c < ItemBlocks
  {
    p[r * ItemBlocks + c]
  }

  /** The seven shapes as the program initialises them: I, O, L, J, S, Z and T. */
  const Shapes: seq<seq<int>> := [
    [0, 1, 0, 0,
     0, 1, 0, 0,
     0, 1, 0, 0,
     0, 1, 0, 0],
    [0, 0, 0, 0,
     0, 2, 2, 0,
     0, 2, 2, 0,
     0, 0, 0, 0],
    [0, 0, 0, 0,
     0, 3, 0, 0,
     0, 3, 0, 0,
     0, 3, 3, 0],
    [0, 0, 0, 0,
     0, 0, 3, 0,
     0, 0, 3, 0,
     0, 3, 3, 0],
    [0, 0, 0, 0,
     0, 4, 0, 0,
     0, 4, 4, 0,
     0, 0, 4, 0],
    [0, 0, 0, 0,
     0, 0, 4, 0,
     0, 4, 4, 0,
     0, 4, 0, 0],
    [0, 0, 0, 0,
     0, 5, 0, 0,
     5, 5, 5, 0,
     0, 0, 0, 0]
  ]

  predicate IsCatalogue(items: seq<seq<int>>)
  {
    |items| == MaxItems && forall i :: 0 <= i < |items| ==> IsShape(items[i])
  }

  lemma ShapesAreCatalogue()
    ensures IsCatalogue(Shapes)
  {
    assert IsShape(Shapes[0]) && IsShape(Shapes[1]) && IsShape(Shapes[2]) && IsShape(Shapes[3]);
    assert IsShape(Shapes[4]) && IsShape(Shapes[5]) && IsShape(Shapes[6]);
  }

  // ---------------------------------------------------------------- rotation

  /**
   * The result of the ring rotation: cell (r, c) takes the old cell
   * (c, 3 - r), so the old right column becomes the top row, a quarter turn
   * to the left.
   */
  function Rotated(p: seq<int>): (q: seq<int>)
    requires IsPiece(p)
    ensures IsPiece(q)
  {
    seq(PieceCells, k requires 0 <= k < PieceCells => p[(k % ItemBlocks) * ItemBlocks + (ItemBlocks - 1 - k / ItemBlocks)])
  }

  lemma RotatedCell(p: seq<int>, r: int, c: int)
    requires IsPiece(p) && 0 <= r < ItemBlocks && 0 <= c < ItemBlocks
    ensures Cell(Rotated(p), r, c) == Cell(p, c, ItemBlocks - 1 - r)
  {
    var k := r * ItemBlocks + c;
    assert k / ItemBlocks == r && k % ItemBlocks == c;
  }

  /** Four rotations restore the piece. */
  lemma RotateFourTimes(p: seq<int>)
    requires IsPiece(p)
    ensures Rotated(Rotated(Rotated(Rotated(p)))) == p
  {
    var p1 := Rotated(p);
    var p2 := Rotated(p1);
    var p3 := Rotated(p2);
    var p4 := Rotated(p3);
    forall k | 0 <= k < PieceCells
      ensures p4[k] == p[k]
    {
      var r, c := k / ItemBlocks, k % ItemBlocks;
      assert k == r * ItemBlocks + c;
      RotatedCell(p3, r, c);
      RotatedCell(p2, c, 3 - r);
      RotatedCell(p1, 3 - r, 3 - c);
      RotatedCell(p, 3 - c, r);
    }
  }

  /** Rotation keeps the colour indices of a shape in range. */
  lemma RotatedShape(p: seq<int>)
    requires IsShape(p)
    ensures IsShape(Rotated(p))
  {
    forall k | 0 <= k < PieceCells
      ensures 0 <= Rotated(p)[k] <= MaxPieceColor
    {
      var r, c := k / ItemBlocks, k % ItemBlocks;
      assert k == r * ItemBlocks + c;
      RotatedCell(p, r, c);
    }
  }

  /** The piece after n quarter turns. */
  function RotatedN(p: seq<int>, n: nat): (q: seq<int>)
    requires IsPiece(p)
    ensures IsPiece(q)
    decreases n
  {
    if n == 0 then p else Rotated(RotatedN(p, n - 1))
  }

  /** The piece is one of the four orientations of shape s. */
  predicate IsRotationOf(p: seq<int>, s: seq<int>)
    requires IsPiece(s)
  {
    exists n :: 0 <= n < 4 && p == RotatedN(s, n)
  }

  /** Turning an orientation of s gives an orientation of s; the fourth turn gives s back. */
  lemma RotationOfRotation(p: seq<int>, s: seq<int>)
    requires IsPiece(s) && IsRotationOf(p, s)
    ensures IsRotationOf(Rotated(p), s)
  {
    var n :| 0 <= n < 4 && p == RotatedN(s, n);
    if n == 3 {
      RotateFourTimes(s);
      assert Rotated(p) == RotatedN(s, 0);
    } else {
      assert Rotated(p) == RotatedN(s, n + 1);
    }
  }

  /** Every orientation of a shape is a shape. */
  lemma {:induction false} RotatedNShape(s: seq<int>, n: nat)
    requires IsShape(s)
    ensures IsShape(RotatedN(s, n))
    decreases n
  {
    if n > 0 {
      RotatedNShape(s, n - 1);
      RotatedShape(RotatedN(s, n - 1));
    }
  }

  lemma RotationOfShapeIsShape(p: seq<int>, s: seq<int>)
    requires IsShape(s) && IsRotationOf(p, s)
    ensures IsShape(p)
  {
    var n :| 0 <= n < 4 && p == RotatedN(s, n);
    RotatedNShape(s, n);
  }

  // ----------------------------------------------------------------- margins

  /** The first column at or after c in row i holding a cell > 0, or 4 if there is none. */
  function LeftMarginFrom(p: seq<int>, i: int, c: int): (m: int)
    requires IsPiece(p) && 0 <= i < ItemBlocks && 0 <= c <= ItemBlocks
    ensures c <= m <= ItemBlocks
    ensures m < ItemBlocks ==> Cell(p, i, m) > 0
    ensures forall c' :: c <= c' < m ==> Cell(p, i, c') <= 0
    decreases ItemBlocks - c
  {
    if c == ItemBlocks then ItemBlocks
    else if Cell(p, i, c) > 0 then c
    else LeftMarginFrom(p, i, c + 1)
  }

  /** The last column at or before c in row i holding a cell > 0, or -1 if there is none. */
  function RightMarginFrom(p: seq<int>, i: int, c: int): (m: int)
    requires IsPiece(p) && 0 <= i < ItemBlocks && -1 <= c < ItemBlocks
    ensures -1 <= m <= c
    ensures m >= 0 ==> Cell(p, i, m) > 0
    ensures forall c' :: m < c' <= c ==> Cell(p, i, c') <= 0
    decreases c + 1
  {
    if c < 0 then -1
    else if Cell(p, i, c) > 0 then c
    else RightMarginFrom(p, i, c - 1)
  }

  /** The last row at or above r in column i holding a cell > 0, or -1 if there is none. */
  function BottomMarginFrom(p: seq<int>, i: int, r: int): (m: int)
    requires IsPiece(p) && 0 <= i < ItemBlocks && -1 <= r < ItemBlocks
    ensures -1 <= m <= r
    ensures m >= 0 ==> Cell(p, m, i) > 0
    ensures forall r' :: m < r' <= r ==> Cell(p, r', i) <= 0
    decreases r + 1
  {
    if r < 0 then -1
    else if Cell(p, r, i) > 0 then r
    else BottomMarginFrom(p, i, r - 1)
  }

  function LeftMargin(p: seq<int>, i: int): int
    requires IsPiece(p) && 0 <= i < ItemBlocks
  {
    LeftMarginFrom(p, i, 0)
  }

  function RightMargin(p: seq<int>, i: int): int
    requires IsPiece(p) && 0 <= i < ItemBlocks
  {
    RightMarginFrom(p, i, ItemBlocks - 1)
  }

  function BottomMargin(p: seq<int>, i: int): int
    requires IsPiece(p) && 0 <= i < ItemBlocks
  {
    BottomMarginFrom(p, i, ItemBlocks - 1)
  }

  function LeftMargins(p: seq<int>): (m: seq<int>)
    requires IsPiece(p)
    ensures |m| == ItemBlocks
  {
    seq(ItemBlocks, i requires 0 <= i < ItemBlocks => LeftMargin(p, i))
  }

  function RightMargins(p: seq<int>): (m: seq<int>)
    requires IsPiece(p)
    ensures |m| == ItemBlocks
  {
    seq(ItemBlocks, i requires 0 <= i < ItemBlocks => RightMargin(p, i))
  }

  function BottomMargins(p: seq<int>): (m: seq<int>)
    requires IsPiece(p)
    ensures |m| == ItemBlocks
  {
    seq(ItemBlocks, i requires 0 <= i < ItemBlocks => BottomMargin(p, i))
  }

  /**
   * For a shape, the margins enclose every occupied cell: every cell left of
   * a row's left margin, right of its right margin or below a column's
   * bottom margin is 0.
   */
  lemma MarginsEncloseCells(p: seq<int>, r: int, c: int)
    requires IsShape(p) && 0 <= r < ItemBlocks && 0 <= c < ItemBlocks
    ensures Cell(p, r, c) != 0 ==> LeftMargin(p, r) <= c <= RightMargin(p, r) && r <= BottomMargin(p, c)
  {
    assert 0 <= r * ItemBlocks + c < PieceCells;
  }

  /**
   * The two row sentinels agree: a row has left margin 4 exactly when it
   * has right margin -1, and otherwise its left margin is at most its right margin.
   */
  lemma RowSentinelsAgree(p: seq<int>, i: int)
    requires IsPiece(p) && 0 <= i < ItemBlocks
    ensures LeftMargin(p, i) == ItemBlocks <==> RightMargin(p, i) == -1
    ensures LeftMargin(p, i) < ItemBlocks ==> LeftMargin(p, i) <= RightMargin(p, i)
  {
    var l, r := LeftMargin(p, i), RightMargin(p, i);
    if l < ItemBlocks {
      assert Cell(p, i, l) > 0;
      assert r >= l;
    }
  }

  // --------------------------------------------------------- min4 and max4

  function Min4(a: int, b: int, c: int, d: int): (m: int)
    ensures m <= a && m <= b && m <= c && m <= d
    ensures m == a || m == b || m == c || m == d
  {
    var m1 := if b < a then b else a;
    var m2 := if c < m1 then c else m1;
    if d < m2 then d else m2
  }

  function Max4(a: int, b: int, c: int, d: int): (m: int)
    ensures m >= a && m >= b && m >= c && m >= d
    ensures m == a || m == b || m == c || m == d
  {
    var m1 := if b > a then b else a;
    var m2 := if c > m1 then c else m1;
    if d > m2 then d else m2
  }

  /** The unit-test cases of the repository. */
  lemma Min4Max4Cases()
    ensures Min4(-7, 4, 5, 2) == -7 && Min4(0, -4, 5, 2) == -4
    ensures Min4(0, -4, -5, 2) == -5 && Min4(0, -4, 5, -12) == -12
    ensures Max4(7, -2, 0, 5) == 7 && Max4(-1, 8, 0, 5) == 8
    ensures Max4(1, -2, 9, 5) == 9 && Max4(1, -2, 0, 15) == 15
  {
  }
}
