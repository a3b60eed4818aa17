/**
 * The engine: the state record the game runs on and the operations that
 * update it. World is the value of that record; each After* function states
 * what one engine routine does to it, with OutOfRange for the inputs on
 * which the routine would index an array outside its bounds. The class
 * State below holds the same record in arrays and fields and implements each
 * routine with the loops of the original, proved against these functions.
 */
module Engine {
  import opened Tetris
  import opened Pieces
  import opened Glass

  /** The game state record, without the colour table and the fixed geometry. */
  datatype World = World(
    items: seq<seq<int>>,   // the piece catalogue, rotated in place
    itemId: int,            // index of the current piece (-1 before the first one)
    glass: Board,
    x: int, y: int,         // pixel position of the piece's bounding box
    gx: int, gy: int,       // the same position in glass cells
    margLeft: seq<int>, margRight: seq<int>, margBottom: seq<int>,
    gameState: GameState,
    timerFps: Timer, timer1: Timer, timer2: Timer)

  predicate WellFormed(w: World)
  {
    && |w.items| == MaxItems
    && (forall i :: 0 <= i < |w.items| ==> IsPiece(w.items[i]))
    && IsBoard(w.glass)
    && |w.margLeft| == ItemBlocks && |w.margRight| == ItemBlocks && |w.margBottom| == ItemBlocks
  }

  /** The current piece index selects an entry of the catalogue. */
  predicate HasItem(w: World)
  {
    WellFormed(w) && 0 <= w.itemId < MaxItems
  }

  function Piece(w: World): (p: seq<int>)
    requires HasItem(w)
    ensures IsPiece(p)
  {
    w.items[w.itemId]
  }

  // ------------------------------------------------------------------ timers

  /** The milliseconds since the timer was restarted, as a 32-bit unsigned difference. */
  function Elapsed(now: int, t: Timer): (d: int)
    ensures IsTick(d)
  {
    (now - t.last) % TickModulus
  }

  /** is_timer_tick: the unsigned elapsed time has reached the interval (converted to unsigned). */
  predicate IsTimerTick(now: int, t: Timer)
  {
    Elapsed(now, t) >= t.ms % TickModulus
  }

  /** timer_start: the timer now counts from the given tick. */
  function TimerStart(now: int, t: Timer): (t': Timer)
    ensures t'.ms == t.ms && Elapsed(now, t') == 0
  {
    t.(last := now)
  }

  /**
   * The elapsed time is right across the wrap-around of the tick counter: a
   * timer restarted at tick last fires at the tick d milliseconds later
   * exactly when d reaches its interval.
   */
  lemma TimerTickAcrossWrap(last: int, d: int, ms: int)
    requires IsTick(last) && IsTick(d) && IsTick(ms)
    ensures IsTimerTick((last + d) % TickModulus, Timer(last, ms)) <==> d >= ms
  {
    var now := (last + d) % TickModulus;
    if last + d < TickModulus {
      assert now == last + d;
    } else {
      assert now == last + d - TickModulus;
      assert now - last == d - TickModulus;
    }
  }

  // --------------------------------------------------------- phase names

  /** getGameState: the enumerator's name as it is spelled in the declaration. */
  function GameStateName(s: GameState): string
  {
    match s
    case GameWelcome => "GAME_WELCOME"
    case GameStarted => "GAME_STARTED"
    case ItemStarted => "ITEM_STARTED"
    case ItemFalling => "ITEM_FALLING"
    case ItemFallingFast => "ITEM_FALLING_FAST"
    case ItemStopped => "ITEM_STOPPED"
    case GameFinished => "GAME_FINISHED"
  }

  /** Every phase has its own name, and none is the fallback "invalid status". */
  lemma GameStateNamesDistinct(s: GameState, t: GameState)
    ensures GameStateName(s) == GameStateName(t) ==> s == t
    ensures GameStateName(s) != "invalid status"
  {
  }

  // ------------------------------------------------------------- updState

  /** C's integer division on a positive divisor: the quotient is truncated toward zero. */
  function TruncDiv(a: int, b: int): (q: int)
    requires b > 0
    ensures a >= 0 ==> q * b <= a < q * b + b
    ensures a < 0 ==> q * b - b < a <= q * b
  {
    if a >= 0 then a / b else -((-a) / b)
  }

  /** updState: the glass cell of the piece's pixel position. */
  function AfterUpdState(w: World): (w': World)
    ensures WellFormed(w) ==> WellFormed(w')
  {
    w.(gx := TruncDiv(w.x - GlassLeft, BlockSize), gy := TruncDiv(w.y - GlassTop, BlockSize))
  }

  /** A pixel position on the block grid gives back its cell; nothing else changes. */
  lemma UpdStateOnGrid(w: World, n: int, m: int)
    requires w.x == GlassLeft + n * BlockSize && w.y == GlassTop + m * BlockSize
    ensures AfterUpdState(w) == w.(gx := n, gy := m)
  {
    TruncDivExact(n);
    TruncDivExact(m);
  }

  /** Division of a multiple of the block size is exact, whatever its sign. */
  lemma TruncDivExact(q: int)
    ensures TruncDiv(q * BlockSize, BlockSize) == q
  {
    if q < 0 {
      assert -(q * BlockSize) == (-q) * BlockSize;
    }
  }

  /** Off the grid the truncation shows: one pixel left of the glass is still cell 0. */
  lemma UpdStateTruncates(w: World)
    requires w.x == GlassLeft - 1
    ensures AfterUpdState(w).gx == 0
    ensures (w.x - GlassLeft) / BlockSize == -1
  {
  }

  // -------------------------------------------------------------- margins

  /** getLeftMargins, getRightMargins and getBottomMargins for the current piece. */
  function WithMargins(w: World): (w': World)
    requires HasItem(w)
    ensures HasItem(w')
  {
    var p := Piece(w);
    w.(margLeft := LeftMargins(p), margRight := RightMargins(p), margBottom := BottomMargins(p))
  }

  /** The margins of a world describe its current piece. */
  predicate MarginsOf(w: World)
    requires HasItem(w)
  {
    w.margLeft == LeftMargins(Piece(w)) && w.margRight == RightMargins(Piece(w))
    && w.margBottom == BottomMargins(Piece(w))
  }

  // -------------------------------------------------------------- contact

  /** checkItemLeft: the blocked flag, or OutOfRange when the scan reads outside the glass. */
  function LeftCheck(w: World): Checked<bool>
    requires WellFormed(w)
  {
    if LeftReadsInGlass(w.glass, w.margLeft, w.gx, w.gy) then Ok(LeftBlocked(w.glass, w.margLeft, w.gx, w.gy))
    else OutOfRange
  }

  /** checkItemRight. */
  function RightCheck(w: World): Checked<bool>
    requires WellFormed(w)
  {
    if RightReadsInGlass(w.glass, w.margRight, w.gx, w.gy) then Ok(RightBlocked(w.glass, w.margRight, w.gx, w.gy))
    else OutOfRange
  }

  /** checkItemBottom. */
  function BottomCheck(w: World): Checked<bool>
    requires WellFormed(w)
  {
    if BottomReadsInGlass(w.glass, w.margBottom, w.gx, w.gy) then Ok(BottomBlocked(w.glass, w.margBottom, w.gx, w.gy))
    else OutOfRange
  }

  // ------------------------------------------------------------- rotation

  /** Some row of the piece is non-empty by both margins. */
  predicate HasMarginRow(w: World)
    requires WellFormed(w)
  {
    exists i :: 0 <= i < ItemBlocks && w.margLeft[i] != ItemBlocks && w.margRight[i] != -1
  }

  /**
   * rotateItem: the current catalogue entry is turned a quarter to the left
   * in place and the margins are recomputed; the trailing diagnostic loop
   * still evaluates the left and right tests once there is a non-empty row,
   * so their out-of-range reads count too.
   */
  function AfterRotate(w: World): (r: Checked<World>)
    requires WellFormed(w)
    ensures r.Ok? ==> HasItem(r.value)
  {
    if !HasItem(w) then OutOfRange
    else
      var w1 := WithMargins(w.(items := w.items[w.itemId := Rotated(Piece(w))]));
      if HasMarginRow(w1) && (LeftCheck(w1).OutOfRange? || RightCheck(w1).OutOfRange?) then OutOfRange
      else Ok(w1)
  }

  // ------------------------------------------------------------ fall step

  /** copyBlocksToGlass: OutOfRange when an occupied cell of the piece lies outside the glass. */
  function AfterCommit(w: World): (r: Checked<World>)
    requires WellFormed(w)
    ensures r.Ok? ==> WellFormed(r.value)
  {
    if HasItem(w) && CommitInGlass(Piece(w), w.gx, w.gy) then Ok(w.(glass := Committed(w.glass, Piece(w), w.gx, w.gy)))
    else OutOfRange
  }

  /** fallStep: a blocked piece is committed and stops; otherwise it moves one block down. */
  function AfterFallStep(w: World): (r: Checked<World>)
    requires WellFormed(w)
    ensures r.Ok? ==> WellFormed(r.value)
  {
    var blocked :- BottomCheck(w);
    if blocked then
      var w1 :- AfterCommit(w);
      Ok(w1.(gameState := ItemStopped))
    else
      Ok(AfterUpdState(w.(y := w.y + BlockSize)))
  }

  // ---------------------------------------------------- glass maintenance

  /** checkRemoveFullLine on the world. */
  function AfterClearLine(w: World): (r: Checked<(bool, World)>)
    requires WellFormed(w)
    ensures r.Ok? ==> WellFormed(r.value.1)
  {
    var res :- ClearFullLine(w.glass);
    Ok((res.0, w.(glass := res.1)))
  }

  /** clearGlass. */
  function AfterClearGlass(w: World): (w': World)
    ensures WellFormed(w) ==> WellFormed(w')
  {
    w.(glass := EmptyGlass())
  }

  // ------------------------------------------------------------ properties

  /**
   * A rotation turns the current catalogue entry, leaves the other entries
   * and the position alone, and installs the margins of the turned piece.
   */
  lemma RotateTurnsPiece(w: World)
    requires WellFormed(w) && AfterRotate(w).Ok?
    ensures var w' := AfterRotate(w).value;
      && HasItem(w) && w'.itemId == w.itemId && Piece(w') == Rotated(Piece(w))
      && (forall i :: 0 <= i < MaxItems && i != w.itemId ==> w'.items[i] == w.items[i])
      && MarginsOf(w')
      && w' == w.(items := w'.items, margLeft := w'.margLeft, margRight := w'.margRight, margBottom := w'.margBottom)
  {
  }

  /** Four successful rotations give back the catalogue and the margins of the original piece. */
  lemma FourRotationsRestore(w: World)
    requires HasItem(w) && AfterRotate(w).Ok?
    requires AfterRotate(AfterRotate(w).value).Ok?
    requires AfterRotate(AfterRotate(AfterRotate(w).value).value).Ok?
    requires AfterRotate(AfterRotate(AfterRotate(AfterRotate(w).value).value).value).Ok?
    ensures var w4 := AfterRotate(AfterRotate(AfterRotate(AfterRotate(w).value).value).value).value;
      w4.items == w.items && Piece(w4) == Piece(w) && MarginsOf(w4)
  {
    var w1 := AfterRotate(w).value;
    var w2 := AfterRotate(w1).value;
    var w3 := AfterRotate(w2).value;
    var w4 := AfterRotate(w3).value;
    RotateTurnsPiece(w);
    RotateTurnsPiece(w1);
    RotateTurnsPiece(w2);
    RotateTurnsPiece(w3);
    RotateFourTimes(Piece(w));
    assert w4.items == w.items;
  }

  /**
   * The turn is done on the catalogue entry itself, not on a copy: the next
   * time that entry is chosen, its piece starts in the turned orientation.
   */
  lemma RotationPersistsInCatalogue(w: World)
    requires WellFormed(w) && AfterRotate(w).Ok?
    ensures HasItem(w) && AfterRotate(w).value.items[w.itemId] == Rotated(w.items[w.itemId])
  {
  }

  /**
   * A fall step on the block grid: a piece blocked below is copied into the
   * glass and stops where it is; otherwise it moves one cell down and the
   * glass is unchanged.
   */
  lemma FallStepOutcome(w: World, n: int, m: int)
    requires WellFormed(w) && w.x == GlassLeft + n * BlockSize && w.y == GlassTop + m * BlockSize
    requires AfterFallStep(w).Ok?
    ensures var w' := AfterFallStep(w).value;
      && BottomReadsInGlass(w.glass, w.margBottom, w.gx, w.gy)
      && (BottomBlocked(w.glass, w.margBottom, w.gx, w.gy) ==>
            HasItem(w) && CommitInGlass(Piece(w), w.gx, w.gy)
            && w' == w.(glass := Committed(w.glass, Piece(w), w.gx, w.gy), gameState := ItemStopped))
      && (!BottomBlocked(w.glass, w.margBottom, w.gx, w.gy) ==>
            w' == w.(y := w.y + BlockSize, gx := n, gy := m + 1))
  {
    if !BottomBlocked(w.glass, w.margBottom, w.gx, w.gy) {
      UpdStateOnGrid(w.(y := w.y + BlockSize), n, m + 1);
    }
  }

  /** Exactly the inputs whose scans stay in the glass and whose commit lands in it have a fall step. */
  lemma FallStepDefined(w: World)
    requires WellFormed(w)
    ensures AfterFallStep(w).Ok? <==>
      BottomReadsInGlass(w.glass, w.margBottom, w.gx, w.gy)
      && (BottomBlocked(w.glass, w.margBottom, w.gx, w.gy) ==> HasItem(w) && CommitInGlass(Piece(w), w.gx, w.gy))
  {
  }
}
