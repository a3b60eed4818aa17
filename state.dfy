/**
 * The engine's state record as the program holds it: the glass, the piece
 * catalogue and the margins are fixed-size arrays updated in place, the
 * rest are fields. Each method implements one engine routine with the
 * routine's own loops and is proved to compute the corresponding function
 * of the Engine module on the value of the record.
 */
module EngineState {
  import opened Tetris
  import opened Pieces
  import opened Glass
  import opened Engine

  /** The record before the main program starts its timers: every field it does not name is zero. */
  function InitialWorld(): (w: World)
    ensures WellFormed(w)
  {
    World(Shapes, -1, EmptyGlass(), 0, 0, 0, 0, [0, 0, 0, 0], [0, 0, 0, 0], [0, 0, 0, 0],
          GameWelcome, Timer(0, FrameMs), Timer(0, SlowFallMs), Timer(0, FastFallMs))
  }

  /**
   * The in-place quarter turn moves the cells in 4-cycles: ring i (the
   * outer ring 0 and the inner ring 1) has cycles j = i .. 2 - i, and
   * cycle (i, j) moves the four cells below, in that order.
   */
  predicate IsCycle(i: int, j: int)
  {
    0 <= i < ItemBlocks / 2 && i <= j < ItemBlocks - i - 1
  }

  function Index1(i: int, j: int): int { i * ItemBlocks + j }
  function Index2(i: int, j: int): int { j * ItemBlocks + (ItemBlocks - 1 - i) }
  function Index3(i: int, j: int): int { (ItemBlocks - 1 - i) * ItemBlocks + (ItemBlocks - 1 - j) }
  function Index4(i: int, j: int): int { (ItemBlocks - 1 - j) * ItemBlocks + i }

  /** The four cells of a cycle are distinct cells of the piece. */
  lemma CycleIndices(i: int, j: int)
    requires IsCycle(i, j)
    ensures 0 <= Index1(i, j) < PieceCells && 0 <= Index2(i, j) < PieceCells
    ensures 0 <= Index3(i, j) < PieceCells && 0 <= Index4(i, j) < PieceCells
    ensures Index1(i, j) != Index2(i, j) && Index1(i, j) != Index3(i, j) && Index1(i, j) != Index4(i, j)
    ensures Index2(i, j) != Index3(i, j) && Index2(i, j) != Index4(i, j) && Index3(i, j) != Index4(i, j)
  {
  }

  /** The piece once cycle (i, j) has moved: the first cell takes the second's value, and so on round. */
  function CycleMoved(q: seq<int>, i: int, j: int): (q': seq<int>)
    requires IsPiece(q) && IsCycle(i, j)
    ensures IsPiece(q')
  {
    CycleIndices(i, j);
    var k1, k2, k3, k4 := Index1(i, j), Index2(i, j), Index3(i, j), Index4(i, j);
    q[k1 := q[k2]][k2 := q[k3]][k3 := q[k4]][k4 := q[k1]]
  }

  /**
   * The piece once the cycles (i, i) .. (i, j - 1) of ring i have moved, in
   * that order. With four cells a side a ring has at most three cycles, so
   * the moves are written out rather than by recursion on j.
   */
  function RingMoved(q: seq<int>, i: int, j: int): (q': seq<int>)
    requires IsPiece(q) && 0 <= i < ItemBlocks / 2 && i <= j <= ItemBlocks - i - 1
    ensures IsPiece(q')
  {
    if j == i then q
    else if j == i + 1 then CycleMoved(q, i, i)
    else if j == i + 2 then CycleMoved(CycleMoved(q, i, i), i, i + 1)
    else CycleMoved(CycleMoved(CycleMoved(q, i, i), i, i + 1), i, i + 2)
  }

  /** One more cycle of ring i moved within the whole catalogue. */
  lemma RingAdvance(all0: seq<seq<int>>, mid: seq<seq<int>>, after: seq<seq<int>>, id: int, q0: seq<int>, i: int, j: int)
    requires IsPiece(q0) && IsCycle(i, j) && 0 <= id < |all0|
    requires mid == all0[id := RingMoved(q0, i, j)] && after == mid[id := CycleMoved(mid[id], i, j)]
    ensures after == all0[id := RingMoved(q0, i, j + 1)]
  {
  }

  /** The piece once rings 0 .. n - 1 have moved in full: the outer ring first, then the inner one. */
  function RingsMoved(q: seq<int>, n: int): (q': seq<int>)
    requires IsPiece(q) && 0 <= n <= ItemBlocks / 2
    ensures IsPiece(q')
  {
    if n == 0 then q
    else if n == 1 then RingMoved(q, 0, ItemBlocks - 1)
    else RingMoved(RingMoved(q, 0, ItemBlocks - 1), 1, ItemBlocks - 2)
  }

  /** Both rings moved cycle by cycle give the quarter turn to the left. */
  lemma AllCyclesRotated(p: seq<int>)
    requires IsPiece(p)
    ensures RingsMoved(p, ItemBlocks / 2) == Rotated(p)
  {
    var q1 := CycleMoved(p, 0, 0);
    Cycle00Moved(p);
    var q2 := CycleMoved(q1, 0, 1);
    Cycle01Moved(q1);
    var q3 := CycleMoved(q2, 0, 2);
    Cycle02Moved(q2);
    var q4 := CycleMoved(q3, 1, 1);
    Cycle11Moved(q3);
    assert q4 == [p[3], p[7], p[11], p[15], p[2], p[6], p[10], p[14], p[1], p[5], p[9], p[13], p[0], p[4], p[8], p[12]];
    assert RingsMoved(p, 1) == q3;
    assert RingsMoved(p, 2) == q4;
    RotatedDisplay(p);
  }

  /** The quarter turn, cell by cell. */
  lemma RotatedDisplay(p: seq<int>)
    requires IsPiece(p)
    ensures Rotated(p) == [p[3], p[7], p[11], p[15], p[2], p[6], p[10], p[14], p[1], p[5], p[9], p[13], p[0], p[4], p[8], p[12]]
  {
  }

  lemma Cycle00Moved(q: seq<int>)
    requires IsPiece(q)
    ensures CycleMoved(q, 0, 0) == [q[3], q[1], q[2], q[15], q[4], q[5], q[6], q[7], q[8], q[9], q[10], q[11], q[0], q[13], q[14], q[12]]
  {
  }

  lemma Cycle01Moved(q: seq<int>)
    requires IsPiece(q)
    ensures CycleMoved(q, 0, 1) == [q[0], q[7], q[2], q[3], q[4], q[5], q[6], q[14], q[1], q[9], q[10], q[11], q[12], q[13], q[8], q[15]]
  {
  }

  lemma Cycle02Moved(q: seq<int>)
    requires IsPiece(q)
    ensures CycleMoved(q, 0, 2) == [q[0], q[1], q[11], q[3], q[2], q[5], q[6], q[7], q[8], q[9], q[10], q[13], q[12], q[4], q[14], q[15]]
  {
  }

  lemma Cycle11Moved(q: seq<int>)
    requires IsPiece(q)
    ensures CycleMoved(q, 1, 1) == [q[0], q[1], q[2], q[3], q[4], q[6], q[10], q[7], q[8], q[5], q[9], q[11], q[12], q[13], q[14], q[15]]
  {
  }

  /**
   * Glass cell (r, c) once the first n piece cells, counted column by
   * column, have been copied in.
   */
  function CommittedCellBefore(b: Board, p: seq<int>, gx: int, gy: int, n: int, r: int, c: int): int
    requires IsBoard(b) && IsPiece(p) && InGlass(r, c)
  {
    if InPiece(r - gy, c - gx) && (c - gx) * ItemBlocks + (r - gy) < n && Cell(p, r - gy, c - gx) > 0
    then Cell(p, r - gy, c - gx) else b[r][c]
  }

  /** Copying piece cell (row j, column i) changes only the glass cell under it, and only if it is occupied. */
  lemma CommitStep(b: Board, p: seq<int>, gx: int, gy: int, i: int, j: int)
    requires IsBoard(b) && IsPiece(p) && InPiece(j, i)
    ensures forall r, c :: InGlass(r, c) ==>
      CommittedCellBefore(b, p, gx, gy, i * ItemBlocks + j + 1, r, c) ==
        if r == gy + j && c == gx + i && Cell(p, j, i) > 0 then Cell(p, j, i)
        else CommittedCellBefore(b, p, gx, gy, i * ItemBlocks + j, r, c)
  {
  }

  lemma CommitDone(b: Board, p: seq<int>, gx: int, gy: int)
    requires IsBoard(b) && IsPiece(p)
    ensures CommittedBefore(b, p, gx, gy, ItemBlocks * ItemBlocks) == Committed(b, p, gx, gy)
  {
    BoardsEqual(CommittedBefore(b, p, gx, gy, ItemBlocks * ItemBlocks), Committed(b, p, gx, gy));
  }

  /** The whole glass once the first n piece cells have been copied in. */
  function CommittedBefore(b: Board, p: seq<int>, gx: int, gy: int, n: int): (b': Board)
    requires IsBoard(b) && IsPiece(p)
    ensures IsBoard(b')
  {
    seq(GlassH, r requires 0 <= r < GlassH =>
      seq(GlassW, c requires 0 <= c < GlassW => CommittedCellBefore(b, p, gx, gy, n, r, c)))
  }

  lemma CommitNone(b: Board, p: seq<int>, gx: int, gy: int)
    requires IsBoard(b) && IsPiece(p)
    ensures CommittedBefore(b, p, gx, gy, 0) == b
  {
    BoardsEqual(CommittedBefore(b, p, gx, gy, 0), b);
  }

  /** Copying piece cell (row j, column i) writes the glass cell under it when it is occupied. */
  lemma CommitStepBoard(b: Board, p: seq<int>, gx: int, gy: int, i: int, j: int)
    requires IsBoard(b) && IsPiece(p) && InPiece(j, i)
    requires Cell(p, j, i) > 0 ==> InGlass(gy + j, gx + i)
    ensures var before := CommittedBefore(b, p, gx, gy, i * ItemBlocks + j);
      CommittedBefore(b, p, gx, gy, i * ItemBlocks + j + 1) ==
        if Cell(p, j, i) > 0 then before[gy + j := before[gy + j][gx + i := Cell(p, j, i)]] else before
  {
    var before := CommittedBefore(b, p, gx, gy, i * ItemBlocks + j);
    var after := CommittedBefore(b, p, gx, gy, i * ItemBlocks + j + 1);
    var expected := if Cell(p, j, i) > 0 then before[gy + j := before[gy + j][gx + i := Cell(p, j, i)]] else before;
    CommitStep(b, p, gx, gy, i, j);
    forall r, c | 0 <= r < GlassH && 0 <= c < GlassW
      ensures after[r][c] == expected[r][c]
    {
      assert InGlass(r, c);
    }
    BoardsEqual(after, expected);
  }

  class State {
    const glass: array2<int>
    const items: array2<int>
    const margLeft: array<int>
    const margRight: array<int>
    const margBottom: array<int>
    var itemId: int
    var x: int
    var y: int
    var gx: int
    var gy: int
    var gameState: GameState
    var timerFps: Timer
    var timer1: Timer
    var timer2: Timer

    ghost predicate Valid()
    {
      && glass.Length0 == GlassH && glass.Length1 == GlassW
      && items.Length0 == MaxItems && items.Length1 == PieceCells
      && margLeft.Length == ItemBlocks && margRight.Length == ItemBlocks && margBottom.Length == ItemBlocks
      && glass != items
      && margLeft != margRight && margLeft != margBottom && margRight != margBottom
    }

    ghost function GlassValue(): (b: Board)
      requires Valid()
      reads glass
      ensures IsBoard(b)
      ensures forall r, c :: 0 <= r < GlassH && 0 <= c < GlassW ==> b[r][c] == glass[r, c]
    {
      seq(GlassH, r requires 0 <= r < GlassH reads glass =>
        seq(GlassW, c requires 0 <= c < GlassW reads glass => glass[r, c]))
    }

    ghost function ItemValue(i: int): (p: seq<int>)
      requires Valid() && 0 <= i < MaxItems
      reads items
      ensures IsPiece(p)
      ensures forall k :: 0 <= k < PieceCells ==> p[k] == items[i, k]
    {
      seq(PieceCells, k requires 0 <= k < PieceCells reads items => items[i, k])
    }

    ghost function ItemsValue(): (s: seq<seq<int>>)
      requires Valid()
      reads items
      ensures |s| == MaxItems && forall i :: 0 <= i < MaxItems ==> s[i] == ItemValue(i)
    {
      seq(MaxItems, i requires 0 <= i < MaxItems reads items => ItemValue(i))
    }

    /** The value of the whole record. */
    ghost function Value(): (w: World)
      requires Valid()
      reads this, glass, items, margLeft, margRight, margBottom
      ensures WellFormed(w)
    {
      World(ItemsValue(), itemId, GlassValue(), x, y, gx, gy, margLeft[..], margRight[..], margBottom[..],
            gameState, timerFps, timer1, timer2)
    }

    /** The record's initializer. */
    constructor ()
      ensures Valid() && Value() == InitialWorld()
      ensures fresh(glass) && fresh(items) && fresh(margLeft) && fresh(margRight) && fresh(margBottom)
    {
      glass := new int[GlassH, GlassW]((r, c) => 0);
      items := new int[MaxItems, PieceCells]((i, k) =>
        if 0 <= i < MaxItems && 0 <= k < PieceCells then Shapes[i][k] else 0);
      margLeft := new int[ItemBlocks](_ => 0);
      margRight := new int[ItemBlocks](_ => 0);
      margBottom := new int[ItemBlocks](_ => 0);
      itemId := -1;
      x, y, gx, gy := 0, 0, 0, 0;
      gameState := GameWelcome;
      timerFps := Timer(0, FrameMs);
      timer1 := Timer(0, SlowFallMs);
      timer2 := Timer(0, FastFallMs);
      new;
      BoardsEqual(GlassValue(), EmptyGlass());
      assert forall i :: 0 <= i < MaxItems ==> ItemValue(i) == Shapes[i];
      assert ItemsValue() == Shapes;
    }

    /** updState. */
    method UpdState()
      requires Valid()
      modifies this
      ensures Valid() && Value() == AfterUpdState(old(Value()))
    {
      gx := TruncDiv(x - GlassLeft, BlockSize);
      gy := TruncDiv(y - GlassTop, BlockSize);
    }

    /** clearGlass. */
    method ClearGlass()
      requires Valid()
      modifies glass
      ensures Valid() && Value() == AfterClearGlass(old(Value()))
    {
      for i := 0 to GlassH
        invariant forall r, c :: 0 <= r < i && 0 <= c < GlassW ==> glass[r, c] == 0
      {
        for j := 0 to GlassW
          invariant forall r, c :: 0 <= r < i && 0 <= c < GlassW ==> glass[r, c] == 0
          invariant forall c :: 0 <= c < j ==> glass[i, c] == 0
        {
          glass[i, j] := 0;
        }
      }
      BoardsEqual(GlassValue(), EmptyGlass());
    }

    /** getLeftMargins: for each row, the first occupied column, or 4 when the row is empty. */
    method GetLeftMargins()
      requires Valid() && HasItem(Value())
      modifies margLeft
      ensures Valid() && Value() == old(Value()).(margLeft := LeftMargins(Piece(old(Value()))))
    {
      ghost var p := ItemValue(itemId);
      for i := 0 to ItemBlocks
        invariant forall i' :: 0 <= i' < i ==> margLeft[i'] == LeftMargin(p, i')
      {
        ScanLeftMargin(i);
      }
      assert margLeft[..] == LeftMargins(p);
    }

    /** The inner loop of getLeftMargins, with the margin entry itself as the loop variable. */
    method ScanLeftMargin(i: int)
      requires Valid() && 0 <= itemId < MaxItems && 0 <= i < ItemBlocks
      modifies margLeft
      ensures margLeft[i] == LeftMargin(ItemValue(itemId), i)
      ensures forall i' :: 0 <= i' < ItemBlocks && i' != i ==> margLeft[i'] == old(margLeft[i'])
    {
      ghost var p := ItemValue(itemId);
      margLeft[i] := 0;
      while margLeft[i] < ItemBlocks
        invariant 0 <= margLeft[i] <= ItemBlocks
        invariant LeftMarginFrom(p, i, margLeft[i]) == LeftMargin(p, i)
        invariant forall i' :: 0 <= i' < ItemBlocks && i' != i ==> margLeft[i'] == old(margLeft[i'])
        decreases ItemBlocks - margLeft[i]
      {
        if items[itemId, i * ItemBlocks + margLeft[i]] > 0 {
          break;
        }
        margLeft[i] := margLeft[i] + 1;
      }
    }

    /** getRightMargins: for each row, the last occupied column, or -1 when the row is empty. */
    method GetRightMargins()
      requires Valid() && HasItem(Value())
      modifies margRight
      ensures Valid() && Value() == old(Value()).(margRight := RightMargins(Piece(old(Value()))))
    {
      ghost var p := ItemValue(itemId);
      for i := 0 to ItemBlocks
        invariant forall i' :: 0 <= i' < i ==> margRight[i'] == RightMargin(p, i')
      {
        ScanRightMargin(i);
      }
      assert margRight[..] == RightMargins(p);
    }

    /** The inner loop of getRightMargins. */
    method ScanRightMargin(i: int)
      requires Valid() && 0 <= itemId < MaxItems && 0 <= i < ItemBlocks
      modifies margRight
      ensures margRight[i] == RightMargin(ItemValue(itemId), i)
      ensures forall i' :: 0 <= i' < ItemBlocks && i' != i ==> margRight[i'] == old(margRight[i'])
    {
      ghost var p := ItemValue(itemId);
      margRight[i] := ItemBlocks - 1;
      while margRight[i] >= 0
        invariant -1 <= margRight[i] < ItemBlocks
        invariant RightMarginFrom(p, i, margRight[i]) == RightMargin(p, i)
        invariant forall i' :: 0 <= i' < ItemBlocks && i' != i ==> margRight[i'] == old(margRight[i'])
        decreases margRight[i] + 1
      {
        if items[itemId, i * ItemBlocks + margRight[i]] > 0 {
          break;
        }
        margRight[i] := margRight[i] - 1;
      }
    }

    /** getBottomMargins: for each column, the lowest occupied row, or -1 when the column is empty. */
    method GetBottomMargins()
      requires Valid() && HasItem(Value())
      modifies margBottom
      ensures Valid() && Value() == old(Value()).(margBottom := BottomMargins(Piece(old(Value()))))
    {
      ghost var p := ItemValue(itemId);
      for i := 0 to ItemBlocks
        invariant forall i' :: 0 <= i' < i ==> margBottom[i'] == BottomMargin(p, i')
      {
        ScanBottomMargin(i);
      }
      assert margBottom[..] == BottomMargins(p);
    }

    /** The inner loop of getBottomMargins. */
    method ScanBottomMargin(i: int)
      requires Valid() && 0 <= itemId < MaxItems && 0 <= i < ItemBlocks
      modifies margBottom
      ensures margBottom[i] == BottomMargin(ItemValue(itemId), i)
      ensures forall i' :: 0 <= i' < ItemBlocks && i' != i ==> margBottom[i'] == old(margBottom[i'])
    {
      ghost var p := ItemValue(itemId);
      margBottom[i] := ItemBlocks - 1;
      while margBottom[i] >= 0
        invariant -1 <= margBottom[i] < ItemBlocks
        invariant BottomMarginFrom(p, i, margBottom[i]) == BottomMargin(p, i)
        invariant forall i' :: 0 <= i' < ItemBlocks && i' != i ==> margBottom[i'] == old(margBottom[i'])
        decreases margBottom[i] + 1
      {
        if items[itemId, margBottom[i] * ItemBlocks + i] > 0 {
          break;
        }
        margBottom[i] := margBottom[i] - 1;
      }
    }

    /** checkItemLeft: some row's left margin touches the left wall or an occupied cell. */
    method CheckItemLeft() returns (blocked: bool)
      requires Valid() && LeftReadsInGlass(GlassValue(), margLeft[..], gx, gy)
      ensures blocked == LeftBlocked(GlassValue(), margLeft[..], gx, gy)
    {
      ghost var b, ml := GlassValue(), margLeft[..];
      for i := 0 to ItemBlocks
        invariant forall i' :: 0 <= i' < i ==> !LeftHit(b, ml, gx, gy, i')
      {
        if margLeft[i] >= 0 {
          if gx + margLeft[i] <= 0 || glass[gy + i, gx + margLeft[i] - 1] > 0 {
            assert LeftHit(b, ml, gx, gy, i);
            return true;
          }
        }
      }
      return false;
    }

    /** checkItemRight: some row's right margin touches the right wall or an occupied cell. */
    method CheckItemRight() returns (blocked: bool)
      requires Valid() && RightReadsInGlass(GlassValue(), margRight[..], gx, gy)
      ensures blocked == RightBlocked(GlassValue(), margRight[..], gx, gy)
    {
      ghost var b, mr := GlassValue(), margRight[..];
      for i := 0 to ItemBlocks
        invariant forall i' :: 0 <= i' < i ==> !RightHit(b, mr, gx, gy, i')
      {
        if margRight[i] >= 0 {
          if gx + margRight[i] >= GlassW - 1 || glass[gy + i, gx + margRight[i] + 1] > 0 {
            assert RightHit(b, mr, gx, gy, i);
            return true;
          }
        }
      }
      return false;
    }

    /** checkItemBottom: some column's bottom margin touches the floor or an occupied cell. */
    method CheckItemBottom() returns (blocked: bool)
      requires Valid() && BottomReadsInGlass(GlassValue(), margBottom[..], gx, gy)
      ensures blocked == BottomBlocked(GlassValue(), margBottom[..], gx, gy)
    {
      ghost var b, mb := GlassValue(), margBottom[..];
      for i := 0 to ItemBlocks
        invariant forall i' :: 0 <= i' < i ==> !BottomHit(b, mb, gx, gy, i')
      {
        if margBottom[i] >= 0 {
          if gy + margBottom[i] + 2 > GlassH || glass[gy + margBottom[i] + 1, gx + i] > 0 {
            assert BottomHit(b, mb, gx, gy, i);
            return true;
          }
        }
      }
      return false;
    }

    /** One 4-cycle of the quarter turn: k1 takes k2, k2 takes k3, k3 takes k4 and k4 takes k1. */
    method MoveCycle(k1: int, k2: int, k3: int, k4: int)
      requires Valid() && 0 <= itemId < MaxItems
      requires 0 <= k1 < PieceCells && 0 <= k2 < PieceCells && 0 <= k3 < PieceCells && 0 <= k4 < PieceCells
      requires k1 != k2 && k1 != k3 && k1 != k4 && k2 != k3 && k2 != k4 && k3 != k4
      modifies items
      ensures items[itemId, k1] == old(items[itemId, k2]) && items[itemId, k2] == old(items[itemId, k3])
      ensures items[itemId, k3] == old(items[itemId, k4]) && items[itemId, k4] == old(items[itemId, k1])
      ensures forall i, k :: 0 <= i < MaxItems && 0 <= k < PieceCells && (i != itemId || (k != k1 && k != k2 && k != k3 && k != k4)) ==>
        items[i, k] == old(items[i, k])
    {
      var temp := items[itemId, k1];
      items[itemId, k1] := items[itemId, k2];
      items[itemId, k2] := items[itemId, k3];
      items[itemId, k3] := items[itemId, k4];
      items[itemId, k4] := temp;
    }

    /** The inner loop of rotateItem: the cycles of ring i, one after another. */
    method TurnRing(i: int)
      requires Valid() && 0 <= itemId < MaxItems && 0 <= i < ItemBlocks / 2
      modifies items
      ensures ItemsValue() == old(ItemsValue())[itemId := RingMoved(old(ItemValue(itemId)), i, ItemBlocks - i - 1)]
    {
      ghost var all0 := ItemsValue();
      ghost var q0 := ItemValue(itemId);
      for j := i to ItemBlocks - i - 1
        invariant ItemsValue() == all0[itemId := RingMoved(q0, i, j)]
      {
        ghost var mid := ItemsValue();
        TurnCycle(i, j);
        RingAdvance(all0, mid, ItemsValue(), itemId, q0, i, j);
      }
    }

    /** One pass of the inner loop: the four cells of cycle (i, j) move one place round. */
    method TurnCycle(i: int, j: int)
      requires Valid() && 0 <= itemId < MaxItems && IsCycle(i, j)
      modifies items
      ensures ItemsValue() == old(ItemsValue())[itemId := CycleMoved(old(ItemsValue())[itemId], i, j)]
    {
      CycleIndices(i, j);
      var index1 := i * ItemBlocks + j;
      var index2 := j * ItemBlocks + (ItemBlocks - 1 - i);
      var index3 := (ItemBlocks - 1 - i) * ItemBlocks + (ItemBlocks - 1 - j);
      var index4 := (ItemBlocks - 1 - j) * ItemBlocks + i;
      ghost var all := ItemsValue();
      ghost var before := ItemValue(itemId);
      ghost var after := CycleMoved(before, i, j);
      MoveCycle(index1, index2, index3, index4);
      forall i' | 0 <= i' < MaxItems
        ensures ItemValue(i') == all[itemId := after][i']
      {
        if i' == itemId {
          forall k | 0 <= k < PieceCells
            ensures ItemValue(i')[k] == after[k]
          {
            if k != index1 && k != index2 && k != index3 && k != index4 {
              assert items[itemId, k] == before[k];
            }
          }
        } else {
          forall k | 0 <= k < PieceCells
            ensures ItemValue(i')[k] == all[i'][k]
          {
            assert items[i', k] == old(items[i', k]);
          }
        }
      }
    }

    /** The two ring loops of rotateItem: the current catalogue entry is turned a quarter to the left. */
    method TurnItem()
      requires Valid() && 0 <= itemId < MaxItems
      modifies items
      ensures ItemsValue() == old(ItemsValue())[itemId := Rotated(old(ItemValue(itemId)))]
    {
      ghost var all0 := ItemsValue();
      ghost var p0 := ItemValue(itemId);
      AllCyclesRotated(p0);
      for i := 0 to ItemBlocks / 2
        invariant ItemsValue() == all0[itemId := RingsMoved(p0, i)]
      {
        TurnRing(i);
      }
    }

    /**
     * rotateItem: the current catalogue entry is turned in place, the
     * margins are recomputed, and the diagnostic loop evaluates the left and
     * right tests for each non-empty row.
     */
    method RotateItem()
      requires Valid() && AfterRotate(Value()).Ok?
      modifies items, margLeft, margRight, margBottom
      ensures Valid() && Value() == AfterRotate(old(Value())).value
    {
      ghost var w0 := Value();
      ghost var p0 := ItemValue(itemId);
      TurnItem();
      GetLeftMargins();
      GetRightMargins();
      GetBottomMargins();
      ghost var w1 := Value();
      assert w1 == WithMargins(w0.(items := w0.items[w0.itemId := Rotated(Piece(w0))]));
      for i := 0 to ItemBlocks
        invariant Value() == w1
      {
        if margLeft[i] != ItemBlocks && margRight[i] != -1 {
          assert HasMarginRow(w1);
          var blockedLeft := CheckItemLeft();
          var blockedRight := CheckItemRight();
        }
      }
    }

    /** copyBlocksToGlass: column by column, every occupied cell of the piece is written into the glass. */
    method CopyBlocksToGlass()
      requires Valid() && AfterCommit(Value()).Ok?
      modifies glass
      ensures Valid() && Value() == AfterCommit(old(Value())).value
    {
      ghost var b0 := GlassValue();
      ghost var p := ItemValue(itemId);
      assert CommitInGlass(p, gx, gy);
      CommitNone(b0, p, gx, gy);
      for i := 0 to ItemBlocks
        invariant Valid() && GlassValue() == CommittedBefore(b0, p, gx, gy, i * ItemBlocks)
      {
        for j := 0 to ItemBlocks
          invariant Valid() && GlassValue() == CommittedBefore(b0, p, gx, gy, i * ItemBlocks + j)
        {
          CopyBlock(i, j, b0, p);
        }
      }
      CommitDone(b0, p, gx, gy);
    }

    /** The body of copyBlocksToGlass's loops: piece cell (row j, column i) is copied if it is occupied. */
    method CopyBlock(i: int, j: int, ghost b0: Board, ghost p: seq<int>)
      requires Valid() && 0 <= itemId < MaxItems && IsBoard(b0) && p == ItemValue(itemId)
      requires InPiece(j, i) && CommitInGlass(p, gx, gy)
      requires GlassValue() == CommittedBefore(b0, p, gx, gy, i * ItemBlocks + j)
      modifies glass
      ensures Valid() && GlassValue() == CommittedBefore(b0, p, gx, gy, i * ItemBlocks + j + 1)
    {
      var v := items[itemId, j * ItemBlocks + i];
      assert v == Cell(p, j, i);
      CommitStepBoard(b0, p, gx, gy, i, j);
      if v > 0 {
        SetGlassCell(gy + j, gx + i, v);
      }
    }

    /** One write to the glass. */
    method SetGlassCell(r: int, c: int, v: int)
      requires Valid() && InGlass(r, c)
      modifies glass
      ensures Valid() && GlassValue() == old(GlassValue())[r := old(GlassValue())[r][c := v]]
    {
      ghost var b := GlassValue();
      glass[r, c] := v;
      BoardsEqual(GlassValue(), b[r := b[r][c := v]]);
    }

    /**
     * removeFullLine: starting at row line, each row takes the row above it,
     * until the row copied in is empty or row 1 has been written.
     */
    method RemoveFullLine(line: int)
      requires Valid() && 1 <= line < GlassH
      modifies glass
      ensures Valid() && Value() == old(Value()).(glass := ShiftDown(old(GlassValue()), line))
    {
      ghost var b0 := GlassValue();
      var l := line;
      while true
        invariant 1 <= l < GlassH
        invariant ShiftDown(GlassValue(), l) == ShiftDown(b0, line)
        decreases l
      {
        var fullCells := CopyRowDown(l);
        l := l - 1;
        if !(fullCells != 0 && l > 0) {
          break;
        }
      }
    }

    /** One pass of removeFullLine: row l - 1 is copied over row l, counting its occupied cells. */
    method CopyRowDown(l: int) returns (fullCells: int)
      requires Valid() && 1 <= l < GlassH
      modifies glass
      ensures Valid() && GlassValue() == old(GlassValue())[l := old(GlassValue())[l - 1]]
      ensures fullCells == 0 <==> RowEmpty(old(GlassValue())[l - 1])
    {
      ghost var b := GlassValue();
      ghost var row := b[l - 1];
      fullCells := 0;
      for j := 0 to GlassW
        invariant forall r, c :: 0 <= r < GlassH && 0 <= c < GlassW ==> glass[r, c] == if r == l && c < j then row[c] else b[r][c]
        invariant 0 <= fullCells && (fullCells == 0 <==> forall c :: 0 <= c < j ==> row[c] == 0)
      {
        glass[l, j] := glass[l - 1, j];
        assert glass[l, j] == row[j];
        fullCells := fullCells + (if glass[l, j] != 0 then 1 else 0);
      }
      BoardsEqual(GlassValue(), b[l := row]);
    }

    /**
     * checkRemoveFullLine: the rows are scanned from the bottom; the first
     * one without an empty cell is removed and the result is true.
     */
    method CheckRemoveFullLine() returns (removed: bool)
      requires Valid() && AfterClearLine(Value()).Ok?
      modifies glass
      ensures Valid() && (removed, Value()) == AfterClearLine(old(Value())).value
    {
      ghost var b0 := GlassValue();
      for i := GlassH downto 0
        invariant GlassValue() == b0
        invariant forall r :: i <= r < GlassH ==> !RowFull(b0[r])
      {
        var emptyCells := 0;
        for j := 0 to GlassW
          invariant 0 <= emptyCells && (emptyCells == 0 <==> forall c :: 0 <= c < j ==> glass[i, c] != 0)
        {
          emptyCells := emptyCells + (if glass[i, j] == 0 then 1 else 0);
        }
        if emptyCells == 0 {
          assert RowFull(b0[i]);
          ScanFullFinds(b0, GlassH - 1, i);
          RemoveFullLine(i);
          return true;
        }
      }
      return false;
    }

    /** fallStep: a piece blocked below is copied into the glass and stops; otherwise it moves down one block. */
    method FallStep()
      requires Valid() && AfterFallStep(Value()).Ok?
      modifies this, glass
      ensures Valid() && Value() == AfterFallStep(old(Value())).value
    {
      var blocked := CheckItemBottom();
      if blocked {
        CopyBlocksToGlass();
        gameState := ItemStopped;
      } else {
        y := y + BlockSize;
        UpdState();
      }
    }
  }
}
