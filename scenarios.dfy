/**
 * Move sequences on an empty glass: repeated sideways presses end against
 * a wall, a piece dropped from the top row falls to the floor, and the O
 * piece moved three columns left and one right lands as a 2 x 2 block.
 * Each press is a separate key press, released before the next one, so
 * that the edge-triggered key handling acts on every one of them.
 */
module Scenarios {
  import opened Tetris
  import opened Pieces
  import opened Glass
  import opened Engine
  import opened Game

  /** A fresh left press and a fresh right press; no other key is down. */
  const LeftPress := InitialKeys.(leftPressed := true)
  const RightPress := InitialKeys.(rightPressed := true)

  /** The piece is on the block grid with the margins of its piece, and the glass is empty. */
  predicate OnEmptyGlass(w: World)
  {
    HasItem(w) && MarginsOf(w) && OnGrid(w) && w.glass == EmptyGlass()
  }

  /**
   * The left action of n frames, each with one fresh left press. With no
   * other key down this is the whole key handling of the frame
   * (LeftPressStep).
   */
  function LeftPresses(w: World, n: nat): (r: Checked<World>)
    requires WellFormed(w)
    ensures r.Ok? ==> WellFormed(r.value)
    decreases n
  {
    if n == 0 then Ok(w)
    else
      var w1 :- LeftPresses(w, n - 1);
      var r :- LeftKey(w1, LeftPress);
      Ok(r.0)
  }

  /** The right action of n frames, each with one fresh right press (RightPressStep). */
  function RightPresses(w: World, n: nat): (r: Checked<World>)
    requires WellFormed(w)
    ensures r.Ok? ==> WellFormed(r.value)
    decreases n
  {
    if n == 0 then Ok(w)
    else
      var w1 :- RightPresses(w, n - 1);
      var r :- RightKey(w1, RightPress);
      Ok(r.0)
  }

  /** n fall steps. */
  function FallSteps(w: World, n: nat): (r: Checked<World>)
    requires WellFormed(w)
    ensures r.Ok? ==> WellFormed(r.value)
    decreases n
  {
    if n == 0 then Ok(w)
    else
      var w1 :- FallSteps(w, n - 1);
      AfterFallStep(w1)
  }

  // ------------------------------------------------- the tests on an empty glass

  lemma LeftMarginsRange(p: seq<int>, i: int)
    requires IsPiece(p) && 0 <= i < ItemBlocks
    ensures 0 <= LeftMargins(p)[i] <= ItemBlocks
  {
  }

  lemma RightMarginsRange(p: seq<int>, i: int)
    requires IsPiece(p) && 0 <= i < ItemBlocks
    ensures -1 <= RightMargins(p)[i] < ItemBlocks
  {
  }

  /**
   * On an empty glass, at the top four rows, the left test reads inside the
   * glass and is true exactly when some row's margin (the sentinel 4
   * included) reaches the left wall.
   */
  lemma EmptyLeftCheck(ml: seq<int>, gx: int)
    requires |ml| == ItemBlocks && forall i :: 0 <= i < ItemBlocks ==> 0 <= ml[i] <= ItemBlocks
    requires gx <= GlassW - ItemBlocks
    ensures LeftReadsInGlass(EmptyGlass(), ml, gx, 0)
    ensures LeftBlocked(EmptyGlass(), ml, gx, 0) <==> exists i :: 0 <= i < ItemBlocks && gx + ml[i] <= 0
  {
    var b := EmptyGlass();
    forall i | 0 <= i < ItemBlocks
      ensures LeftHit(b, ml, gx, 0, i) <==> gx + ml[i] <= 0
    {
      if gx + ml[i] > 0 {
        assert InGlass(i, gx + ml[i] - 1) && b[i][gx + ml[i] - 1] == 0;
      }
    }
  }

  /**
   * Mirror image: the right test reads inside the glass and is true exactly
   * when some non-empty row's margin reaches the right wall.
   */
  lemma EmptyRightCheck(mr: seq<int>, gx: int)
    requires |mr| == ItemBlocks && forall i :: 0 <= i < ItemBlocks ==> -1 <= mr[i] < ItemBlocks
    requires -1 <= gx
    ensures RightReadsInGlass(EmptyGlass(), mr, gx, 0)
    ensures RightBlocked(EmptyGlass(), mr, gx, 0) <==>
      exists i :: 0 <= i < ItemBlocks && mr[i] >= 0 && gx + mr[i] >= GlassW - 1
  {
    var b := EmptyGlass();
    forall i | 0 <= i < ItemBlocks
      ensures RightHit(b, mr, gx, 0, i) <==> mr[i] >= 0 && gx + mr[i] >= GlassW - 1
    {
      if mr[i] >= 0 && gx + mr[i] < GlassW - 1 {
        assert InGlass(i, gx + mr[i] + 1) && b[i][gx + mr[i] + 1] == 0;
      }
    }
  }

  // --------------------------------------------------------- positions

  /** The piece moved to column g, on the block grid. */
  function AtColumn(w: World, g: int): World
  {
    w.(x := GlassLeft + g * BlockSize, gx := g)
  }

  /** The piece moved to row g, on the block grid. */
  function AtRow(w: World, g: int): World
  {
    w.(y := GlassTop + g * BlockSize, gy := g)
  }

  /**
   * The column at which the left test becomes true on an empty glass: the
   * smallest left margin (the sentinel 4 included) touches the left wall there.
   */
  function LeftStop(w: World): int
    requires WellFormed(w)
  {
    -Min4(w.margLeft[0], w.margLeft[1], w.margLeft[2], w.margLeft[3])
  }

  /** The column at which the right test becomes true on an empty glass. */
  function RightStop(w: World): int
    requires WellFormed(w)
  {
    GlassW - 1 - Max4(w.margRight[0], w.margRight[1], w.margRight[2], w.margRight[3])
  }

  lemma AtColumnTwice(w: World, g: int, h: int)
    ensures AtColumn(AtColumn(w, g), h) == AtColumn(w, h)
  {
  }

  lemma AtColumnOnEmptyGlass(w: World, g: int)
    requires OnEmptyGlass(w) && w.gy == 0
    ensures OnEmptyGlass(AtColumn(w, g)) && AtColumn(w, g).gy == 0
    ensures LeftStop(AtColumn(w, g)) == LeftStop(w) && RightStop(AtColumn(w, g)) == RightStop(w)
    ensures Piece(AtColumn(w, g)) == Piece(w)
  {
  }

  // ------------------------------------------------------------ one press

  /** A left press at the top of an empty glass: one column left unless the left test is true. */
  lemma LeftPressStep(w: World)
    requires OnEmptyGlass(w) && w.gy == 0 && w.gx <= GlassW - ItemBlocks
    ensures LeftCheck(w) == Ok(w.gx <= LeftStop(w))
    ensures LeftKey(w, LeftPress).Ok?
    ensures LeftKey(w, LeftPress).value.0 == if w.gx <= LeftStop(w) then w else AtColumn(w, w.gx - 1)
    ensures HandleKeys(w, LeftPress) == Ok((LeftKey(w, LeftPress).value.0, LeftPress.(leftProcessed := true)))
  {
    forall i | 0 <= i < ItemBlocks
      ensures 0 <= w.margLeft[i] <= ItemBlocks
    {
      LeftMarginsRange(Piece(w), i);
    }
    EmptyLeftCheck(w.margLeft, w.gx);
    var blocked := LeftCheck(w).value;
    var w1 := if blocked then w else AfterUpdState(w.(x := w.x - BlockSize));
    if !blocked {
      UpdStateOnGrid(w.(x := w.x - BlockSize), w.gx - 1, 0);
    }
    assert LeftKey(w, LeftPress) == Ok((w1, LeftPress.(leftProcessed := true)));
  }

  /** A right press at the top of an empty glass: one column right unless the right test is true. */
  lemma RightPressStep(w: World)
    requires OnEmptyGlass(w) && w.gy == 0 && -1 <= w.gx
    requires Max4(w.margRight[0], w.margRight[1], w.margRight[2], w.margRight[3]) >= 0
    ensures RightCheck(w) == Ok(w.gx >= RightStop(w))
    ensures RightKey(w, RightPress).Ok?
    ensures RightKey(w, RightPress).value.0 == if w.gx >= RightStop(w) then w else AtColumn(w, w.gx + 1)
    ensures HandleKeys(w, RightPress) == Ok((RightKey(w, RightPress).value.0, RightPress.(rightProcessed := true)))
  {
    forall i | 0 <= i < ItemBlocks
      ensures -1 <= w.margRight[i] < ItemBlocks
    {
      RightMarginsRange(Piece(w), i);
    }
    EmptyRightCheck(w.margRight, w.gx);
    var blocked := RightCheck(w).value;
    var w1 := if blocked then w else AfterUpdState(w.(x := w.x + BlockSize));
    if !blocked {
      UpdStateOnGrid(w.(x := w.x + BlockSize), w.gx + 1, 0);
    }
    assert LeftKey(w, RightPress) == Ok((w, RightPress));
    assert RightKey(w, RightPress) == Ok((w1, RightPress.(rightProcessed := true)));
  }

  // ------------------------------------------------------- wall containment

  /** The column n left presses reach: max(gx - n, LeftStop). */
  function LeftColumn(w: World, n: nat): int
    requires WellFormed(w)
  {
    if w.gx - n < LeftStop(w) then LeftStop(w) else w.gx - n
  }

  /** The column n right presses reach: min(gx + n, RightStop). */
  function RightColumn(w: World, n: nat): int
    requires WellFormed(w)
  {
    if w.gx + n > RightStop(w) then RightStop(w) else w.gx + n
  }

  lemma LeftPressesUnfold(w: World, n: nat, w1: World)
    requires WellFormed(w) && n > 0 && LeftPresses(w, n - 1) == Ok(w1) && LeftKey(w1, LeftPress).Ok?
    ensures LeftPresses(w, n) == Ok(LeftKey(w1, LeftPress).value.0)
  {
  }

  lemma RightPressesUnfold(w: World, n: nat, w1: World)
    requires WellFormed(w) && n > 0 && RightPresses(w, n - 1) == Ok(w1) && RightKey(w1, RightPress).Ok?
    ensures RightPresses(w, n) == Ok(RightKey(w1, RightPress).value.0)
  {
  }

  /**
   * Left presses from a column of the top row of an empty glass move the
   * piece one column per press until it reaches the column at which the
   * left test is true, and no further: n presses leave it at column
   * max(gx - n, LeftStop). That column is at least -4, so after gx + 4
   * presses the left test is true and every later press leaves the piece
   * where it is.
   */
  lemma LeftPressesReachWall(w: World, n: nat)
    requires OnEmptyGlass(w) && w.gy == 0 && 0 <= w.gx <= GlassW - ItemBlocks
    ensures -ItemBlocks <= LeftStop(w) <= 0
    ensures LeftPresses(w, n) == Ok(AtColumn(w, LeftColumn(w, n)))
    ensures n >= w.gx + ItemBlocks ==> LeftCheck(LeftPresses(w, n).value) == Ok(true)
  {
    LeftStopBlocks(w);
    LeftPressesColumn(w, n);
  }

  /** The left test is true at column LeftStop, which lies in -4..0. */
  lemma LeftStopBlocks(w: World)
    requires OnEmptyGlass(w) && w.gy == 0
    ensures -ItemBlocks <= LeftStop(w) <= 0
    ensures LeftCheck(AtColumn(w, LeftStop(w))) == Ok(true)
  {
    forall i | 0 <= i < ItemBlocks
      ensures 0 <= w.margLeft[i] <= ItemBlocks
    {
      LeftMarginsRange(Piece(w), i);
    }
    AtColumnOnEmptyGlass(w, LeftStop(w));
    LeftPressStep(AtColumn(w, LeftStop(w)));
  }

  /** n left presses reach column LeftColumn(w, n). */
  lemma {:induction false} LeftPressesColumn(w: World, n: nat)
    requires OnEmptyGlass(w) && w.gy == 0 && 0 <= w.gx <= GlassW - ItemBlocks
    ensures LeftPresses(w, n) == Ok(AtColumn(w, LeftColumn(w, n)))
    decreases n
  {
    if n > 0 {
      LeftPressesColumn(w, n - 1);
      var g1 := LeftColumn(w, n - 1);
      var w1 := AtColumn(w, g1);
      assert LeftPresses(w, n - 1) == Ok(w1);
      LeftPressAt(w, g1);
      assert LeftKey(w1, LeftPress).Ok?;
      LeftPressesUnfold(w, n, w1);
      assert (if g1 <= LeftStop(w) then g1 else g1 - 1) == LeftColumn(w, n);
    }
  }

  /** A left press with the piece moved to column g, stated on the piece's original position. */
  lemma LeftPressAt(w: World, g: int)
    requires OnEmptyGlass(w) && w.gy == 0 && g <= GlassW - ItemBlocks
    ensures LeftKey(AtColumn(w, g), LeftPress).Ok?
    ensures LeftKey(AtColumn(w, g), LeftPress).value.0 == AtColumn(w, if g <= LeftStop(w) then g else g - 1)
  {
    AtColumnOnEmptyGlass(w, g);
    LeftPressStep(AtColumn(w, g));
    AtColumnTwice(w, g, g - 1);
  }

  /** A piece with an occupied cell has a non-empty row: its largest right margin is at least 0. */
  lemma OccupiedRightMargin(w: World, r: int, c: int)
    requires HasItem(w) && MarginsOf(w) && InPiece(r, c) && Cell(Piece(w), r, c) > 0
    ensures Max4(w.margRight[0], w.margRight[1], w.margRight[2], w.margRight[3]) >= c
  {
    assert w.margRight[r] == RightMarginFrom(Piece(w), r, ItemBlocks - 1);
  }

  /**
   * Mirror image for a piece with an occupied cell (r, c): n right presses
   * leave it at column min(gx + n, RightStop), and RightStop is at most
   * GlassW - 1, so after GlassW - 1 - gx presses the right test is true.
   */
  lemma RightPressesReachWall(w: World, n: nat, r: int, c: int)
    requires OnEmptyGlass(w) && w.gy == 0 && 0 <= w.gx <= GlassW - ItemBlocks
    requires InPiece(r, c) && Cell(Piece(w), r, c) > 0
    ensures GlassW - ItemBlocks <= RightStop(w) <= GlassW - 1
    ensures RightPresses(w, n) == Ok(AtColumn(w, RightColumn(w, n)))
    ensures n >= GlassW - 1 - w.gx ==> RightCheck(RightPresses(w, n).value) == Ok(true)
  {
    RightStopBlocks(w, r, c);
    RightPressesColumn(w, n, r, c);
  }

  /** For a piece with an occupied cell, the right test is true at column RightStop, in 10..13. */
  lemma RightStopBlocks(w: World, r: int, c: int)
    requires OnEmptyGlass(w) && w.gy == 0
    requires InPiece(r, c) && Cell(Piece(w), r, c) > 0
    ensures GlassW - ItemBlocks <= RightStop(w) <= GlassW - 1
    ensures RightCheck(AtColumn(w, RightStop(w))) == Ok(true)
  {
    forall i | 0 <= i < ItemBlocks
      ensures -1 <= w.margRight[i] < ItemBlocks
    {
      RightMarginsRange(Piece(w), i);
    }
    OccupiedRightMargin(w, r, c);
    AtColumnOnEmptyGlass(w, RightStop(w));
    RightPressStep(AtColumn(w, RightStop(w)));
  }

  /** n right presses reach column RightColumn(w, n). */
  lemma {:induction false} RightPressesColumn(w: World, n: nat, r: int, c: int)
    requires OnEmptyGlass(w) && w.gy == 0 && 0 <= w.gx <= GlassW - ItemBlocks
    requires InPiece(r, c) && Cell(Piece(w), r, c) > 0
    ensures RightPresses(w, n) == Ok(AtColumn(w, RightColumn(w, n)))
    decreases n
  {
    if n > 0 {
      RightPressesColumn(w, n - 1, r, c);
      var g1 := RightColumn(w, n - 1);
      var w1 := AtColumn(w, g1);
      assert RightPresses(w, n - 1) == Ok(w1);
      RightPressAt(w, g1, r, c);
      assert RightKey(w1, RightPress).Ok?;
      RightPressesUnfold(w, n, w1);
      assert (if g1 >= RightStop(w) then g1 else g1 + 1) == RightColumn(w, n);
    }
  }

  /** A right press with the piece moved to column g, stated on the piece's original position. */
  lemma RightPressAt(w: World, g: int, r: int, c: int)
    requires OnEmptyGlass(w) && w.gy == 0 && -1 <= g
    requires InPiece(r, c) && Cell(Piece(w), r, c) > 0
    ensures RightKey(AtColumn(w, g), RightPress).Ok?
    ensures RightKey(AtColumn(w, g), RightPress).value.0 == AtColumn(w, if g >= RightStop(w) then g else g + 1)
  {
    OccupiedRightMargin(w, r, c);
    AtColumnOnEmptyGlass(w, g);
    RightPressStep(AtColumn(w, g));
    AtColumnTwice(w, g, g + 1);
  }

  // ------------------------------------------------------- falling to the floor

  /**
   * On an empty glass a piece whose occupied columns lie in the glass falls
   * one row per step, the glass untouched, as long as its lowest block stays
   * above the floor: n steps take it from row gy to row gy + n.
   */
  lemma {:induction false} FallsFreely(w: World, n: nat)
    requires OnEmptyGlass(w)
    requires forall i :: 0 <= i < ItemBlocks && w.margBottom[i] >= 0 ==>
      0 <= w.gx + i < GlassW && w.gy + n + w.margBottom[i] + 1 <= GlassH
    ensures FallSteps(w, n) == Ok(AtRow(w, w.gy + n))
    decreases n
  {
    if n > 0 {
      FallsFreely(w, n - 1);
      var w1 := AtRow(w, w.gy + n - 1);
      FallStepOnEmptyGlass(w1);
      assert AfterUpdState(w1.(y := w1.y + BlockSize)) == AtRow(w, w.gy + n);
    }
  }

  /** One free fall step on an empty glass. */
  lemma FallStepOnEmptyGlass(w: World)
    requires OnEmptyGlass(w)
    requires forall i :: 0 <= i < ItemBlocks && w.margBottom[i] >= 0 ==>
      0 <= w.gx + i < GlassW && w.gy + w.margBottom[i] + 2 <= GlassH
    ensures AfterFallStep(w) == Ok(AfterUpdState(w.(y := w.y + BlockSize)))
    ensures AfterUpdState(w.(y := w.y + BlockSize)) == AtRow(w, w.gy + 1)
  {
    var b := EmptyGlass();
    forall i | 0 <= i < ItemBlocks
      ensures !BottomHit(b, w.margBottom, w.gx, w.gy, i)
    {
      if w.margBottom[i] >= 0 {
        assert InGlass(w.gy + w.margBottom[i] + 1, w.gx + i);
      }
    }
    assert BottomCheck(w) == Ok(false);
    UpdStateOnGrid(w.(y := w.y + BlockSize), w.gx, w.gy + 1);
  }

  // ------------------------------------------------------- the O scenario

  /** The colour of the O piece. */
  const OColor := 2

  lemma OPieceMargins()
    ensures LeftMargins(Shapes[1]) == [4, 1, 1, 4]
    ensures RightMargins(Shapes[1]) == [-1, 2, 2, -1]
    ensures BottomMargins(Shapes[1]) == [-1, 2, 2, -1]
  {
    OLeft();
    ORight();
    OBottom();
  }

  lemma OLeft() ensures LeftMargins(Shapes[1]) == [4, 1, 1, 4] { }
  lemma ORight() ensures RightMargins(Shapes[1]) == [-1, 2, 2, -1] { }
  lemma OBottom() ensures BottomMargins(Shapes[1]) == [-1, 2, 2, -1] { }

  /**
   * The O piece spawned at column 5 of an empty glass, pressed left three
   * times and right once, ends in column 3 = 5 - 2. It then falls 25 free
   * steps to row 25, and the next step lands it: the glass then holds a
   * 2 x 2 block of its colour at rows 26-27, columns 4-5, and nothing else.
   */
  lemma OPieceScenario(w: World)
    requires OnEmptyGlass(w) && w.gx == 5 && w.gy == 0
    requires w.itemId == 1 && w.items[1] == Shapes[1]
    ensures LeftPresses(w, 3).Ok?
    ensures var w3 := LeftPresses(w, 3).value;
      && RightPresses(w3, 1).Ok?
      && var w4 := RightPresses(w3, 1).value;
      && w4.gx == w.gx - 2 && w4.gy == 0
      && FallSteps(w4, 25).Ok?
      && var w5 := FallSteps(w4, 25).value;
      && w5.gx == 3 && w5.gy == 25 && w5.glass == EmptyGlass() && w5.gameState == w.gameState
      && AfterFallStep(w5).Ok?
      && var w6 := AfterFallStep(w5).value;
      && w6.gameState == ItemStopped && w6.gx == 3 && w6.gy == 25
      && forall r, c :: 0 <= r < GlassH && 0 <= c < GlassW ==>
           w6.glass[r][c] == if 26 <= r <= 27 && 4 <= c <= 5 then OColor else 0
  {
    OPieceMargins();
    LeftPressesReachWall(w, 3);
    var w3 := LeftPresses(w, 3).value;
    assert w3.gx == 2;
    assert Cell(Piece(w3), 1, 1) > 0;
    RightPressesReachWall(w3, 1, 1, 1);
    var w4 := RightPresses(w3, 1).value;
    assert w4.gx == 3;
    FallsFreely(w4, 25);
    var w5 := FallSteps(w4, 25).value;
    OLands(w5);
  }

  /** The O piece at cell (3, 25) of an empty glass lands as a 2 x 2 block at rows 26-27, columns 4-5. */
  lemma OLands(w: World)
    requires OnEmptyGlass(w) && w.gx == 3 && w.gy == 25 && Piece(w) == Shapes[1]
    ensures AfterFallStep(w).Ok?
    ensures var w' := AfterFallStep(w).value;
      && w'.gameState == ItemStopped && w'.gx == 3 && w'.gy == 25
      && forall r, c :: 0 <= r < GlassH && 0 <= c < GlassW ==>
           w'.glass[r][c] == if 26 <= r <= 27 && 4 <= c <= 5 then OColor else 0
  {
    OPieceMargins();
    var b := EmptyGlass();
    assert BottomHit(b, w.margBottom, 3, 25, 1);
    assert BottomReadsInGlass(b, w.margBottom, 3, 25);
    assert CommitInGlass(Piece(w), 3, 25) by {
      forall r, c | 0 <= r < ItemBlocks && 0 <= c < ItemBlocks && Cell(Shapes[1], r, c) > 0
        ensures InGlass(25 + r, 3 + c)
      {
        OCell(r, c);
      }
    }
    assert AfterFallStep(w) == Ok(w.(glass := Committed(b, Shapes[1], 3, 25), gameState := ItemStopped));
    forall r, c | 0 <= r < GlassH && 0 <= c < GlassW
      ensures Committed(b, Shapes[1], 3, 25)[r][c] == if 26 <= r <= 27 && 4 <= c <= 5 then OColor else 0
    {
      CommittedOnEmptyGlass(Shapes[1], 3, 25, r, c);
      if InPiece(r - 25, c - 3) {
        OCell(r - 25, c - 3);
      }
    }
  }

  /** The cells of the O piece: colour 2 in rows 1-2, columns 1-2, empty elsewhere. */
  lemma OCell(r: int, c: int)
    requires InPiece(r, c)
    ensures Cell(Shapes[1], r, c) == if 1 <= r <= 2 && 1 <= c <= 2 then OColor else 0
  {
    assert Shapes[1] == [0, 0, 0, 0, 0, 2, 2, 0, 0, 2, 2, 0, 0, 0, 0, 0];
  }

  /** A glass cell after a piece is committed to an empty glass. */
  lemma CommittedOnEmptyGlass(p: seq<int>, gx: int, gy: int, r: int, c: int)
    requires IsPiece(p) && InGlass(r, c)
    ensures Committed(EmptyGlass(), p, gx, gy)[r][c] ==
      if InPiece(r - gy, c - gx) && Cell(p, r - gy, c - gx) > 0 then Cell(p, r - gy, c - gx) else 0
  {
  }
}
