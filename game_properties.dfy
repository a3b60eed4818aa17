/**
 * What the main loop promises: the phase variable moves along the
 * documented diagram and never reaches GameFinished; every key press acts
 * at most once; the fall timers act only in their phases and restart
 * without catching up; a new game starts from an empty glass with a piece
 * at the spawn cell. The last lemmas exhibit inputs the loop accepts on
 * which the engine indexes outside the glass.
 */
module GameProperties {
  import opened Tetris
  import opened Pieces
  import opened Glass
  import opened Engine
  import opened Game

  // ---------------------------------------------------------- the diagram

  /** A change of phase that follows the diagram and does not finish the game. */
  predicate Moves(a: GameState, b: GameState)
  {
    StepAllowed(a, b) && (b == GameFinished ==> a == GameFinished)
  }

  /** The events of one pass can only start the game from the welcome screen. */
  lemma {:induction false} EventsFollowDiagram(w: World, k: Keys, es: seq<Event>)
    ensures var s := AfterEvents(w, k, es).0.gameState;
      s == w.gameState || (w.gameState == GameWelcome && s == GameStarted)
    decreases |es|
  {
    if |es| > 0 {
      EventsFollowDiagram(w, k, es[..|es| - 1]);
      var r := AfterEvents(w, k, es[..|es| - 1]);
      EventOnlyStarts(r.0, r.1, es[|es| - 1]);
    }
  }

  lemma FallStepFollowsDiagram(w: World)
    requires WellFormed(w) && AfterFallStep(w).Ok?
    ensures var s := AfterFallStep(w).value.gameState; s == w.gameState || s == ItemStopped
  {
  }

  lemma Timer1FollowsDiagram(w: World, now: int)
    requires WellFormed(w) && Timer1Branch(w, now).Ok?
    ensures Moves(w.gameState, Timer1Branch(w, now).value.gameState)
  {
    if IsTimerTick(now, w.timer1) && w.gameState == ItemFalling {
      FallStepFollowsDiagram(w);
    }
  }

  lemma Timer2FollowsDiagram(w: World, now: int)
    requires WellFormed(w) && Timer2Branch(w, now).Ok?
    ensures Moves(w.gameState, Timer2Branch(w, now).value.gameState)
  {
    if IsTimerTick(now, w.timer2) && w.gameState == ItemFallingFast {
      FallStepFollowsDiagram(w);
    }
  }

  lemma HandleKeysFollowsDiagram(w: World, k: Keys)
    requires WellFormed(w) && (w.gameState == ItemFalling || w.gameState == ItemFallingFast)
    requires HandleKeys(w, k).Ok?
    ensures var s := HandleKeys(w, k).value.0.gameState; s == w.gameState || s == ItemFallingFast
  {
    var r1 := LeftKey(w, k).value;
    assert r1.0.gameState == w.gameState;
    var r2 := RightKey(r1.0, r1.1).value;
    assert r2.0.gameState == w.gameState;
    var r3 := UpKey(r2.0, r2.1).value;
    assert r3.0.gameState == w.gameState;
  }

  lemma PhaseFollowsDiagram(w: World, k: Keys, pick: int)
    requires WellFormed(w) && 0 <= pick < MaxItems && PhaseBranch(w, k, pick).Ok?
    ensures Moves(w.gameState, PhaseBranch(w, k, pick).value.0.gameState)
  {
    if w.gameState == ItemFalling || w.gameState == ItemFallingFast {
      HandleKeysFollowsDiagram(w, k);
    }
  }

  /**
   * A frame moves the phase along at most three edges of the diagram (a
   * piece can stop, be replaced and start falling within one frame) and
   * never into GameFinished.
   */
  lemma FrameFollowsDiagram(w: World, k: Keys, now: int, pick: int)
    requires WellFormed(w) && 0 <= pick < MaxItems && AfterFrame(w, k, now, pick).Ok?
    ensures var s := AfterFrame(w, k, now, pick).value.0.gameState;
      Path(w.gameState, s, 3) && (s == GameFinished ==> w.gameState == GameFinished)
  {
    if IsTimerTick(now, w.timerFps) {
      var w1 := Timer1Branch(w, now).value;
      var w2 := Timer2Branch(w1, now).value;
      var w3 := PhaseBranch(w2, k, pick).value.0;
      Timer1FollowsDiagram(w, now);
      Timer2FollowsDiagram(w1, now);
      PhaseFollowsDiagram(w2, k, pick);
      StepIsPath(w2.gameState, w3.gameState);
      PathStep(w1.gameState, w2.gameState, w3.gameState, 1);
      PathStep(w.gameState, w1.gameState, w3.gameState, 2);
    } else {
      assert Path(w.gameState, w.gameState, 3);
    }
  }

  /** No pass of the main loop enters GameFinished: the program never assigns it. */
  lemma IterationNeverFinishes(w: World, k: Keys, es: seq<Event>, now: int, pick: int)
    requires WellFormed(w) && w.gameState != GameFinished && 0 <= pick < MaxItems
    requires AfterIteration(w, k, es, now, pick).Ok?
    ensures AfterIteration(w, k, es, now, pick).value.0.gameState != GameFinished
  {
    EventsFollowDiagram(w, k, es);
    var (w1, k1) := AfterEvents(w, k, es);
    AfterEventsWellFormed(w, k, es);
    FrameFollowsDiagram(w1, k1, now, pick);
  }

  // ------------------------------------------------------------ key flags

  /**
   * The frame logic leaves the running and pressed flags alone and only
   * ever sets a processed flag, and only for a pressed key.
   */
  predicate KeysAdvance(k: Keys, k': Keys)
  {
    && k'.running == k.running
    && k'.putPressed == k.putPressed && k'.leftPressed == k.leftPressed
    && k'.rightPressed == k.rightPressed && k'.upPressed == k.upPressed
    && (k.putProcessed ==> k'.putProcessed) && (k'.putProcessed && !k.putProcessed ==> k.putPressed)
    && (k.leftProcessed ==> k'.leftProcessed) && (k'.leftProcessed && !k.leftProcessed ==> k.leftPressed)
    && (k.rightProcessed ==> k'.rightProcessed) && (k'.rightProcessed && !k.rightProcessed ==> k.rightPressed)
    && (k.upProcessed ==> k'.upProcessed) && (k'.upProcessed && !k.upProcessed ==> k.upPressed)
  }

  lemma KeysAdvanceTrans(k1: Keys, k2: Keys, k3: Keys)
    requires KeysAdvance(k1, k2) && KeysAdvance(k2, k3)
    ensures KeysAdvance(k1, k3)
  {
  }

  /** The flags after the left action: the press is marked processed when it was pending. */
  lemma LeftKeyFlags(w: World, k: Keys)
    requires WellFormed(w) && LeftKey(w, k).Ok?
    ensures KeysAdvance(k, LeftKey(w, k).value.1)
    ensures LeftKey(w, k).value.1 == if k.leftPressed && !k.leftProcessed then k.(leftProcessed := true) else k
  {
  }

  lemma RightKeyFlags(w: World, k: Keys)
    requires WellFormed(w) && RightKey(w, k).Ok?
    ensures KeysAdvance(k, RightKey(w, k).value.1)
    ensures RightKey(w, k).value.1 == if k.rightPressed && !k.rightProcessed then k.(rightProcessed := true) else k
  {
  }

  lemma UpKeyFlags(w: World, k: Keys)
    requires WellFormed(w) && UpKey(w, k).Ok?
    ensures KeysAdvance(k, UpKey(w, k).value.1)
    ensures UpKey(w, k).value.1 == if k.upPressed && !k.upProcessed then k.(upProcessed := true) else k
  {
  }

  lemma HandleKeysAdvance(w: World, k: Keys)
    requires WellFormed(w) && HandleKeys(w, k).Ok?
    ensures KeysAdvance(k, HandleKeys(w, k).value.1)
  {
    var r1 := LeftKey(w, k).value;
    LeftKeyFlags(w, k);
    var r2 := RightKey(r1.0, r1.1).value;
    RightKeyFlags(r1.0, r1.1);
    var r3 := UpKey(r2.0, r2.1).value;
    UpKeyFlags(r2.0, r2.1);
    var r4 := PutKey(r3.0, r3.1);
    assert HandleKeys(w, k).value == r4;
    KeysAdvanceTrans(k, r1.1, r2.1);
    KeysAdvanceTrans(k, r2.1, r3.1);
    assert KeysAdvance(r3.1, r4.1);
    KeysAdvanceTrans(k, r3.1, r4.1);
  }

  lemma PhaseAdvancesKeys(w: World, k: Keys, pick: int)
    requires WellFormed(w) && 0 <= pick < MaxItems && PhaseBranch(w, k, pick).Ok?
    ensures KeysAdvance(k, PhaseBranch(w, k, pick).value.1)
  {
    if w.gameState == ItemFalling || w.gameState == ItemFallingFast {
      HandleKeysAdvance(w, k);
    }
  }

  lemma FrameAdvancesKeys(w: World, k: Keys, now: int, pick: int)
    requires WellFormed(w) && 0 <= pick < MaxItems && AfterFrame(w, k, now, pick).Ok?
    ensures KeysAdvance(k, AfterFrame(w, k, now, pick).value.1)
  {
    if IsTimerTick(now, w.timerFps) {
      var w1 := Timer1Branch(w, now).value;
      var w2 := Timer2Branch(w1, now).value;
      PhaseAdvancesKeys(w2, k, pick);
      assert AfterFrame(w, k, now, pick).value.1 == PhaseBranch(w2, k, pick).value.1;
    }
  }

  /**
   * Only the release of its key clears a processed flag: a press that has
   * acted cannot act again until the key goes up.
   */
  lemma OnlyReleaseClearsProcessed(w: World, k: Keys, e: Event)
    ensures var k' := AfterEvent(w, k, e).1;
      && (k.putProcessed && !k'.putProcessed ==> e == KeyUp(ScanSpace))
      && (k.leftProcessed && !k'.leftProcessed ==> e == KeyUp(ScanA) || e == KeyUp(ScanLeft))
      && (k.rightProcessed && !k'.rightProcessed ==> e == KeyUp(ScanD) || e == KeyUp(ScanRight))
      && (k.upProcessed && !k'.upProcessed ==> e == KeyUp(ScanW) || e == KeyUp(ScanUp))
  {
    match e {
      case KeyUp(code) => KeyUpClears(k, code);
      case KeyDown(code) => KeyDownFlags(k, code);
      case _ =>
    }
  }

  /** A press never touches a processed flag and clears running only for Q. */
  lemma KeyDownFlags(k: Keys, code: Scancode)
    ensures KeyDownKeys(k, code).putProcessed == k.putProcessed
    ensures KeyDownKeys(k, code).leftProcessed == k.leftProcessed
    ensures KeyDownKeys(k, code).rightProcessed == k.rightProcessed
    ensures KeyDownKeys(k, code).upProcessed == k.upProcessed
    ensures KeyDownKeys(k, code).running == (k.running && !code.ScanQ?)
  {
  }

  /** A release clears the processed flag of its own action only, and never touches running. */
  lemma KeyUpClears(k: Keys, code: Scancode)
    ensures k.putProcessed && !KeyUpKeys(k, code).putProcessed ==> code == ScanSpace
    ensures k.leftProcessed && !KeyUpKeys(k, code).leftProcessed ==> code == ScanA || code == ScanLeft
    ensures k.rightProcessed && !KeyUpKeys(k, code).rightProcessed ==> code == ScanD || code == ScanRight
    ensures k.upProcessed && !KeyUpKeys(k, code).upProcessed ==> code == ScanW || code == ScanUp
    ensures KeyUpKeys(k, code).running == k.running
  {
  }

  /** The running flag is cleared by Q and by the quit event, and nothing sets it again. */
  lemma RunningOnlyCleared(w: World, k: Keys, e: Event)
    ensures var k' := AfterEvent(w, k, e).1;
      && (k'.running ==> k.running)
      && (k.running && !k'.running <==> k.running && (e == Quit || e == KeyDown(ScanQ)))
  {
    match e {
      case KeyUp(code) => KeyUpClears(k, code);
      case KeyDown(code) => KeyDownFlags(k, code);
      case _ =>
    }
  }

  // ------------------------------------------------------- the key actions

  /**
   * A pending left press moves the piece one column (one block of pixels)
   * left exactly when the left test is false, and marks the press
   * processed; no pending press changes nothing.
   */
  lemma LeftKeyOutcome(w: World, k: Keys)
    requires WellFormed(w) && OnGrid(w) && LeftKey(w, k).Ok?
    ensures var (w', k') := LeftKey(w, k).value;
      && (!(k.leftPressed && !k.leftProcessed) ==> w' == w && k' == k)
      && (k.leftPressed && !k.leftProcessed ==>
            && k' == k.(leftProcessed := true)
            && LeftReadsInGlass(w.glass, w.margLeft, w.gx, w.gy)
            && (LeftBlocked(w.glass, w.margLeft, w.gx, w.gy) ==> w' == w)
            && (!LeftBlocked(w.glass, w.margLeft, w.gx, w.gy) ==> w' == w.(x := w.x - BlockSize, gx := w.gx - 1)))
  {
    UpdStateOnGrid(w.(x := w.x - BlockSize), w.gx - 1, w.gy);
  }

  lemma RightKeyOutcome(w: World, k: Keys)
    requires WellFormed(w) && OnGrid(w) && RightKey(w, k).Ok?
    ensures var (w', k') := RightKey(w, k).value;
      && (!(k.rightPressed && !k.rightProcessed) ==> w' == w && k' == k)
      && (k.rightPressed && !k.rightProcessed ==>
            && k' == k.(rightProcessed := true)
            && RightReadsInGlass(w.glass, w.margRight, w.gx, w.gy)
            && (RightBlocked(w.glass, w.margRight, w.gx, w.gy) ==> w' == w)
            && (!RightBlocked(w.glass, w.margRight, w.gx, w.gy) ==> w' == w.(x := w.x + BlockSize, gx := w.gx + 1)))
  {
    UpdStateOnGrid(w.(x := w.x + BlockSize), w.gx + 1, w.gy);
  }

  /** After a move to the left every occupied cell of the piece is still right of the left wall. */
  lemma LeftMoveKeepsPieceInside(w: World, k: Keys, r: int, c: int)
    requires Consistent(w) && PiecePhase(w.gameState) && LeftKey(w, k).Ok?
    requires k.leftPressed && !k.leftProcessed && !LeftBlocked(w.glass, w.margLeft, w.gx, w.gy)
    requires InPiece(r, c) && Cell(Piece(w), r, c) != 0
    ensures LeftKey(w, k).value.0.gx == w.gx - 1 && LeftKey(w, k).value.0.gx + c >= 0
  {
    LeftKeyOutcome(w, k);
    CurrentPieceIsShape(w);
    LeftMoveStaysInside(w.glass, Piece(w), w.gx, w.gy, r, c);
  }

  /** After a move to the right every occupied cell of the piece is still left of the right wall. */
  lemma RightMoveKeepsPieceInside(w: World, k: Keys, r: int, c: int)
    requires Consistent(w) && PiecePhase(w.gameState) && RightKey(w, k).Ok?
    requires k.rightPressed && !k.rightProcessed && !RightBlocked(w.glass, w.margRight, w.gx, w.gy)
    requires InPiece(r, c) && Cell(Piece(w), r, c) != 0
    ensures RightKey(w, k).value.0.gx == w.gx + 1 && RightKey(w, k).value.0.gx + c < GlassW
  {
    RightKeyOutcome(w, k);
    CurrentPieceIsShape(w);
    RightMoveStaysInside(w.glass, Piece(w), w.gx, w.gy, r, c);
  }

  /**
   * A pending up press turns the current piece a quarter to the left in
   * place, keeps its cell and installs the new margins.
   */
  lemma UpKeyOutcome(w: World, k: Keys)
    requires WellFormed(w) && OnGrid(w) && UpKey(w, k).Ok?
    ensures var (w', k') := UpKey(w, k).value;
      && (!(k.upPressed && !k.upProcessed) ==> w' == w && k' == k)
      && (k.upPressed && !k.upProcessed ==>
            && k' == k.(upProcessed := true)
            && HasItem(w) && HasItem(w') && Piece(w') == Rotated(Piece(w)) && MarginsOf(w')
            && w'.gx == w.gx && w'.gy == w.gy && w'.x == w.x && w'.y == w.y
            && w'.glass == w.glass && w'.gameState == w.gameState)
  {
    if k.upPressed && !k.upProcessed {
      RotateTurnsPiece(w);
      var w1 := AfterRotate(w).value;
      UpdStateOnGrid(w1, w.gx, w.gy);
    }
  }

  /** A pending space press switches the piece to fast fall and marks the press processed. */
  lemma PutKeyOutcome(w: World, k: Keys)
    ensures var (w', k') := PutKey(w, k);
      && (k.putPressed && !k.putProcessed ==>
            w' == w.(gameState := ItemFallingFast) && k' == k.(putProcessed := true))
      && (!(k.putPressed && !k.putProcessed) ==> w' == w && k' == k)
  {
  }

  /**
   * An action whose press was already processed does nothing in a later
   * frame, whatever the other keys do; when all four are processed, the key
   * handling as a whole changes nothing.
   */
  lemma ProcessedKeysAreIdle(w: World, k: Keys)
    requires WellFormed(w)
    ensures k.leftProcessed ==> LeftKey(w, k) == Ok((w, k))
    ensures k.rightProcessed ==> RightKey(w, k) == Ok((w, k))
    ensures k.upProcessed ==> UpKey(w, k) == Ok((w, k))
    ensures k.putProcessed ==> PutKey(w, k) == (w, k)
    ensures k.leftProcessed && k.rightProcessed && k.upProcessed && k.putProcessed ==>
      HandleKeys(w, k) == Ok((w, k))
  {
  }

  // ---------------------------------------------------------------- timers

  /**
   * TIMER_1 acts only on a tick; then it moves only a slowly falling piece
   * and restarts at the current tick, so a late tick is not made up for.
   */
  lemma Timer1Outcome(w: World, now: int)
    requires WellFormed(w) && Timer1Branch(w, now).Ok?
    ensures var w' := Timer1Branch(w, now).value;
      && (!IsTimerTick(now, w.timer1) ==> w' == w)
      && (IsTimerTick(now, w.timer1) ==> w'.timer1 == Timer(now, w.timer1.ms))
      && (IsTimerTick(now, w.timer1) && w.gameState != ItemFalling ==> w' == w.(timer1 := Timer(now, w.timer1.ms)))
      && (IsTimerTick(now, w.timer1) && w.gameState == ItemFalling ==>
            w' == AfterFallStep(w).value.(timer1 := Timer(now, w.timer1.ms)))
      && (w.timer1.ms % TickModulus > 0 && IsTimerTick(now, w.timer1) ==> !IsTimerTick(now, w'.timer1))
  {
  }

  /** TIMER_2 moves only a fast falling piece and clears lines only for a stopped one. */
  lemma Timer2Outcome(w: World, now: int)
    requires WellFormed(w) && Timer2Branch(w, now).Ok?
    ensures var w' := Timer2Branch(w, now).value;
      && (!IsTimerTick(now, w.timer2) ==> w' == w)
      && (IsTimerTick(now, w.timer2) ==> w'.timer2 == Timer(now, w.timer2.ms))
      && (IsTimerTick(now, w.timer2) && w.gameState != ItemFallingFast && w.gameState != ItemStopped ==>
            w' == w.(timer2 := Timer(now, w.timer2.ms)))
      && (IsTimerTick(now, w.timer2) && w.gameState == ItemFallingFast ==>
            w' == AfterFallStep(w).value.(timer2 := Timer(now, w.timer2.ms)))
      && (IsTimerTick(now, w.timer2) && w.gameState == ItemStopped ==>
            w' == StoppedStep(w).value.(timer2 := Timer(now, w.timer2.ms)))
      && (w.timer2.ms % TickModulus > 0 && IsTimerTick(now, w.timer2) ==> !IsTimerTick(now, w'.timer2))
  {
  }

  /**
   * A stopped piece: when the glass has a full row one row is removed and
   * the piece stays stopped; otherwise the glass is kept and the next piece is due.
   */
  lemma StoppedStepOutcome(w: World)
    requires WellFormed(w) && w.gameState == ItemStopped && StoppedStep(w).Ok?
    ensures var w' := StoppedStep(w).value;
      && ((forall r :: 0 <= r < GlassH ==> !RowFull(w.glass[r])) <==> w' == w.(gameState := ItemStarted))
      && ((exists r :: 0 <= r < GlassH && RowFull(w.glass[r])) ==>
            ClearFullLine(w.glass) == Ok((true, w'.glass)) && w' == w.(glass := w'.glass))
  {
  }

  /** Nothing changes until the frame timer fires; then it restarts at the current tick. */
  lemma FrameWaitsForFrameTimer(w: World, k: Keys, now: int, pick: int)
    requires WellFormed(w) && 0 <= pick < MaxItems && AfterFrame(w, k, now, pick).Ok?
    ensures !IsTimerTick(now, w.timerFps) ==> AfterFrame(w, k, now, pick) == Ok((w, k))
    ensures IsTimerTick(now, w.timerFps) ==> AfterFrame(w, k, now, pick).value.0.timerFps == Timer(now, w.timerFps.ms)
  {
    if IsTimerTick(now, w.timerFps) {
      BranchesKeepFrameTimer(w, k, now, pick);
      var w1 := Timer1Branch(w, now).value;
      BranchesKeepFrameTimer(w1, k, now, pick);
      var w2 := Timer2Branch(w1, now).value;
      BranchesKeepFrameTimer(w2, k, now, pick);
      var r3 := PhaseBranch(w2, k, pick).value;
      assert AfterFrame(w, k, now, pick).value.0 == r3.0.(timerFps := TimerStart(now, r3.0.timerFps));
    }
  }

  /** The two fall timers and the phase switch leave the frame timer alone. */
  lemma BranchesKeepFrameTimer(w: World, k: Keys, now: int, pick: int)
    requires WellFormed(w) && 0 <= pick < MaxItems
    ensures Timer1Branch(w, now).Ok? ==> Timer1Branch(w, now).value.timerFps == w.timerFps
    ensures Timer2Branch(w, now).Ok? ==> Timer2Branch(w, now).value.timerFps == w.timerFps
    ensures PhaseBranch(w, k, pick).Ok? ==> PhaseBranch(w, k, pick).value.0.timerFps == w.timerFps
  {
    SlowBranchKeepsFrameTimer(w, now);
    FastBranchKeepsFrameTimer(w, now);
    PhaseKeepsFrameTimer(w, k, pick);
  }

  lemma SlowBranchKeepsFrameTimer(w: World, now: int)
    requires WellFormed(w)
    ensures Timer1Branch(w, now).Ok? ==> Timer1Branch(w, now).value.timerFps == w.timerFps
  {
    FallStepKeepsTimers(w);
  }

  lemma FastBranchKeepsFrameTimer(w: World, now: int)
    requires WellFormed(w)
    ensures Timer2Branch(w, now).Ok? ==> Timer2Branch(w, now).value.timerFps == w.timerFps
  {
    FallStepKeepsTimers(w);
    if StoppedStep(w).Ok? {
      assert StoppedStep(w).value.timerFps == w.timerFps;
    }
  }

  lemma PhaseKeepsFrameTimer(w: World, k: Keys, pick: int)
    requires WellFormed(w) && 0 <= pick < MaxItems
    ensures PhaseBranch(w, k, pick).Ok? ==> PhaseBranch(w, k, pick).value.0.timerFps == w.timerFps
  {
    if PhaseBranch(w, k, pick).Ok? && (w.gameState == ItemFalling || w.gameState == ItemFallingFast) {
      HandleKeysKeepTimers(w, k);
    }
  }

  lemma FallStepKeepsTimers(w: World)
    requires WellFormed(w)
    ensures AfterFallStep(w).Ok? ==> AfterFallStep(w).value.timerFps == w.timerFps
    ensures AfterFallStep(w).Ok? ==> AfterFallStep(w).value.timer1 == w.timer1 && AfterFallStep(w).value.timer2 == w.timer2
  {
    if AfterFallStep(w).Ok? && BottomCheck(w).value {
      assert AfterFallStep(w).value == AfterCommit(w).value.(gameState := ItemStopped);
    }
  }

  lemma HandleKeysKeepTimers(w: World, k: Keys)
    requires WellFormed(w) && HandleKeys(w, k).Ok?
    ensures var w' := HandleKeys(w, k).value.0;
      w'.timerFps == w.timerFps && w'.timer1 == w.timer1 && w'.timer2 == w.timer2
  {
    var r1 := LeftKey(w, k).value;
    assert r1.0.timerFps == w.timerFps && r1.0.timer1 == w.timer1 && r1.0.timer2 == w.timer2;
    var r2 := RightKey(r1.0, r1.1).value;
    assert r2.0.timerFps == w.timerFps && r2.0.timer1 == w.timer1 && r2.0.timer2 == w.timer2;
    var r3 := UpKey(r2.0, r2.1).value;
    assert r3.0.timerFps == w.timerFps && r3.0.timer1 == w.timer1 && r3.0.timer2 == w.timer2;
  }

  /** In a frame in which neither fall timer fires, both keep their restart tick. */
  lemma QuietFrameKeepsFallTimers(w: World, k: Keys, now: int, pick: int)
    requires WellFormed(w) && 0 <= pick < MaxItems && AfterFrame(w, k, now, pick).Ok?
    requires !IsTimerTick(now, w.timer1) && !IsTimerTick(now, w.timer2)
    ensures AfterFrame(w, k, now, pick).value.0.timer1 == w.timer1
    ensures AfterFrame(w, k, now, pick).value.0.timer2 == w.timer2
  {
    if IsTimerTick(now, w.timerFps) && (w.gameState == ItemFalling || w.gameState == ItemFallingFast) {
      HandleKeysKeepTimers(w, k);
    }
  }

  // ------------------------------------------------------------ a new game

  /** Space on the welcome screen starts the game and leaves a drop request pending. */
  lemma SpaceStartsGame(w: World, k: Keys)
    requires w.gameState == GameWelcome
    ensures AfterEvent(w, k, KeyDown(ScanSpace)) == (w.(gameState := GameStarted), k.(putPressed := true))
  {
  }

  /** The first frame of a started game empties the glass and makes a piece due. */
  lemma StartedFrameClearsGlass(w: World, k: Keys, now: int, pick: int)
    requires WellFormed(w) && w.gameState == GameStarted && IsTimerTick(now, w.timerFps) && 0 <= pick < MaxItems
    ensures AfterFrame(w, k, now, pick).Ok?
    ensures var (w', k') := AfterFrame(w, k, now, pick).value;
      w'.glass == EmptyGlass() && w'.gameState == ItemStarted && w'.items == w.items && k' == k
  {
  }

  /**
   * A frame with a piece due places the chosen catalogue entry at the
   * spawn cell (column 5, row 0) with its margins, and lets it fall.
   */
  lemma ItemStartedFrameSpawns(w: World, k: Keys, now: int, pick: int)
    requires WellFormed(w) && w.gameState == ItemStarted && IsTimerTick(now, w.timerFps) && 0 <= pick < MaxItems
    ensures AfterFrame(w, k, now, pick).Ok?
    ensures var (w', k') := AfterFrame(w, k, now, pick).value;
      && HasItem(w') && w'.itemId == pick && MarginsOf(w') && OnGrid(w')
      && w'.x == SpawnX && w'.y == SpawnY && w'.gx == 5 && w'.gy == 0
      && w'.gameState == ItemFalling && w'.glass == w.glass && w'.items == w.items && k' == k
  {
    var w1 := Timer2Branch(Timer1Branch(w, now).value, now).value;
    UpdStateOnGrid(WithMargins(w1.(itemId := pick, x := SpawnX, y := SpawnY)), 5, 0);
  }

  /**
   * The space press that starts the game is never released before the
   * first piece appears, so, unless the player lets go, the first piece
   * switches to fast fall in the frame after it appears: three frames after
   * the start it is falling fast, still in row 0.
   */
  lemma HeldSpaceDropsFirstPiece(t0: int, pick: int)
    requires IsTick(t0) && t0 + 3 * FrameMs < TickModulus && 0 <= pick < MaxItems
    ensures var (w0, k0) := AfterEvents(StartedWorld(t0), InitialKeys, [KeyDown(ScanSpace)]);
      var f1 := AfterFrame(w0, k0, t0 + FrameMs, pick);
      && f1.Ok? && f1.value.0.gameState == ItemStarted
      && var f2 := AfterFrame(f1.value.0, f1.value.1, t0 + 2 * FrameMs, pick);
      && f2.Ok? && f2.value.0.gameState == ItemFalling
      && var f3 := AfterFrame(f2.value.0, f2.value.1, t0 + 3 * FrameMs, pick);
      && f3.Ok? && f3.value.0.gameState == ItemFallingFast && f3.value.0.gy == 0 && f3.value.1.putProcessed
  {
    var w0, k0 := SpacePressed(t0);
    var w2, k2 := FirstFrames(w0, k0, t0, pick);
    var w3, k3 := DropFrame(w2, k2, t0, pick);
  }

  /** The space press on the welcome screen: the game starts, the three timers as they were started at t0. */
  lemma SpacePressed(t0: int) returns (w0: World, k0: Keys)
    requires IsTick(t0)
    ensures AfterEvents(StartedWorld(t0), InitialKeys, [KeyDown(ScanSpace)]) == (w0, k0)
    ensures WellFormed(w0) && w0.gameState == GameStarted && k0 == InitialKeys.(putPressed := true)
    ensures w0.timerFps == Timer(t0, FrameMs) && w0.timer1 == Timer(t0, SlowFallMs) && w0.timer2 == Timer(t0, FastFallMs)
  {
    SpaceOnStartedWorld(t0);
    w0, k0 := StartedWorld(t0).(gameState := GameStarted), InitialKeys.(putPressed := true);
  }

  /** The third frame: the held space switches the new piece to fast fall before any fall timer fires. */
  lemma DropFrame(w2: World, k2: Keys, t0: int, pick: int) returns (w3: World, k3: Keys)
    requires WellFormed(w2) && w2.gameState == ItemFalling && 0 <= pick < MaxItems
    requires IsTick(t0) && t0 + 3 * FrameMs < TickModulus
    requires w2.timerFps == Timer(t0 + 2 * FrameMs, FrameMs)
    requires w2.timer1 == Timer(t0, SlowFallMs) && w2.timer2 == Timer(t0, FastFallMs)
    requires k2 == InitialKeys.(putPressed := true)
    ensures AfterFrame(w2, k2, t0 + 3 * FrameMs, pick) == Ok((w3, k3))
    ensures w3.gameState == ItemFallingFast && w3.gy == w2.gy && k3.putProcessed
  {
    var t3 := t0 + 3 * FrameMs;
    ShortElapsed(t3, t0 + 2 * FrameMs, FrameMs);
    ShortElapsed(t3, t0, SlowFallMs);
    ShortElapsed(t3, t0, FastFallMs);
    ThirdFrame(w2, k2, t3, pick);
    w3, k3 := AfterFrame(w2, k2, t3, pick).value.0, AfterFrame(w2, k2, t3, pick).value.1;
  }

  lemma SpaceOnStartedWorld(t0: int)
    ensures AfterEvents(StartedWorld(t0), InitialKeys, [KeyDown(ScanSpace)])
      == (StartedWorld(t0).(gameState := GameStarted), InitialKeys.(putPressed := true))
  {
    assert [KeyDown(ScanSpace)][..0] == [];
  }

  /** The two frames after the start: the glass is cleared, then the first piece appears at row 0. */
  lemma FirstFrames(w0: World, k0: Keys, t0: int, pick: int) returns (w2: World, k2: Keys)
    requires WellFormed(w0) && w0.gameState == GameStarted && 0 <= pick < MaxItems
    requires IsTick(t0) && t0 + 3 * FrameMs < TickModulus
    requires w0.timerFps == Timer(t0, FrameMs) && w0.timer1 == Timer(t0, SlowFallMs) && w0.timer2 == Timer(t0, FastFallMs)
    ensures var f1 := AfterFrame(w0, k0, t0 + FrameMs, pick);
      && f1.Ok? && f1.value.0.gameState == ItemStarted
      && AfterFrame(f1.value.0, f1.value.1, t0 + 2 * FrameMs, pick) == Ok((w2, k2))
    ensures WellFormed(w2) && w2.gameState == ItemFalling && w2.gy == 0 && k2 == k0
    ensures w2.timerFps == Timer(t0 + 2 * FrameMs, FrameMs) && w2.timer1 == w0.timer1 && w2.timer2 == w0.timer2
  {
    var w1, k1 := StartFrame(w0, k0, t0, pick);
    w2, k2 := SpawnFrame(w1, k1, t0, pick);
  }

  /** The elapsed time of a timer restarted at tick last is now - last while it is below 2^32. */
  lemma ShortElapsed(now: int, last: int, ms: int)
    requires 0 <= now - last < TickModulus
    ensures Elapsed(now, Timer(last, ms)) == now - last
  {
  }

  /** The first frame after the start clears the glass; the fall timers stay where they were started. */
  lemma StartFrame(w0: World, k0: Keys, t0: int, pick: int) returns (w1: World, k1: Keys)
    requires WellFormed(w0) && w0.gameState == GameStarted && 0 <= pick < MaxItems
    requires IsTick(t0) && t0 + 3 * FrameMs < TickModulus
    requires w0.timerFps == Timer(t0, FrameMs) && w0.timer1 == Timer(t0, SlowFallMs) && w0.timer2 == Timer(t0, FastFallMs)
    ensures AfterFrame(w0, k0, t0 + FrameMs, pick) == Ok((w1, k1))
    ensures WellFormed(w1) && w1.gameState == ItemStarted && k1 == k0
    ensures w1.timerFps == Timer(t0 + FrameMs, FrameMs) && w1.timer1 == w0.timer1 && w1.timer2 == w0.timer2
  {
    var t1 := t0 + FrameMs;
    ShortElapsed(t1, t0, FrameMs);
    ShortElapsed(t1, t0, SlowFallMs);
    ShortElapsed(t1, t0, FastFallMs);
    StartedFrameClearsGlass(w0, k0, t1, pick);
    FrameWaitsForFrameTimer(w0, k0, t1, pick);
    QuietFrameKeepsFallTimers(w0, k0, t1, pick);
    w1, k1 := AfterFrame(w0, k0, t1, pick).value.0, AfterFrame(w0, k0, t1, pick).value.1;
  }

  /** The second frame places the first piece at row 0; the fall timers still have not fired. */
  lemma SpawnFrame(w1: World, k1: Keys, t0: int, pick: int) returns (w2: World, k2: Keys)
    requires WellFormed(w1) && w1.gameState == ItemStarted && 0 <= pick < MaxItems
    requires IsTick(t0) && t0 + 3 * FrameMs < TickModulus
    requires w1.timerFps == Timer(t0 + FrameMs, FrameMs)
    requires w1.timer1 == Timer(t0, SlowFallMs) && w1.timer2 == Timer(t0, FastFallMs)
    ensures AfterFrame(w1, k1, t0 + 2 * FrameMs, pick) == Ok((w2, k2))
    ensures WellFormed(w2) && w2.gameState == ItemFalling && w2.gy == 0 && k2 == k1
    ensures w2.timerFps == Timer(t0 + 2 * FrameMs, FrameMs) && w2.timer1 == w1.timer1 && w2.timer2 == w1.timer2
  {
    var t2 := t0 + 2 * FrameMs;
    ShortElapsed(t2, t0 + FrameMs, FrameMs);
    ShortElapsed(t2, t0, SlowFallMs);
    ShortElapsed(t2, t0, FastFallMs);
    ItemStartedFrameSpawns(w1, k1, t2, pick);
    FrameWaitsForFrameTimer(w1, k1, t2, pick);
    QuietFrameKeepsFallTimers(w1, k1, t2, pick);
    w2, k2 := AfterFrame(w1, k1, t2, pick).value.0, AfterFrame(w1, k1, t2, pick).value.1;
  }

  /** A frame in a slow fall with no fall timer firing and a drop pending switches to fast fall. */
  lemma ThirdFrame(w: World, k: Keys, now: int, pick: int)
    requires WellFormed(w) && w.gameState == ItemFalling && 0 <= pick < MaxItems
    requires IsTimerTick(now, w.timerFps) && !IsTimerTick(now, w.timer1) && !IsTimerTick(now, w.timer2)
    requires k.putPressed && !k.putProcessed && !k.leftPressed && !k.rightPressed && !k.upPressed
    ensures AfterFrame(w, k, now, pick).Ok?
    ensures var (w', k') := AfterFrame(w, k, now, pick).value;
      w'.gameState == ItemFallingFast && w'.gy == w.gy && k'.putProcessed
  {
    assert HandleKeys(w, k) == Ok(PutKey(w, k));
  }

  // ---------------------------------------------- reads outside the glass

  /**
   * The empty-row sentinel 4 passes the left test's guard: an O piece that
   * has just fallen to row 25 of an empty glass lies wholly inside it, yet
   * a left press makes the test read row 28, below the glass.
   */
  lemma LeftSentinelReadsBelowGlass(w: World, k: Keys)
    requires WellFormed(w) && OnGrid(w) && w.glass == EmptyGlass()
    requires w.itemId == 1 && w.items[1] == Shapes[1] && MarginsOf(w)
    requires w.gx == 5 && w.gy == 24 && w.gameState == ItemFalling
    requires k.leftPressed && !k.leftProcessed
    ensures AfterFallStep(w).Ok?
    ensures var w' := AfterFallStep(w).value;
      && w'.gy == 25 && w'.gameState == ItemFalling && CommitInGlass(Piece(w'), w'.gx, w'.gy)
      && LeftKey(w', k) == OutOfRange
  {
    OMargins();
    OFallsFreely();
    FallStepOutcome(w, 5, 24);
    var w' := AfterFallStep(w).value;
    assert w'.glass == EmptyGlass() && w'.margLeft == [4, 1, 1, 4] && w'.gx == 5 && w'.gy == 25;
    OInsideAtRow25();
    OLeftReadsBelow();
  }

  lemma OMargins()
    ensures LeftMargins(Shapes[1]) == [4, 1, 1, 4]
    ensures BottomMargins(Shapes[1]) == [-1, 2, 2, -1]
  {
    OLeftMargins();
    OBottomMargins();
  }

  lemma OLeftMargins()
    ensures LeftMargins(Shapes[1]) == [4, 1, 1, 4]
  {
  }

  lemma OBottomMargins()
    ensures BottomMargins(Shapes[1]) == [-1, 2, 2, -1]
  {
  }

  /** The O piece at cell (5, 24) of an empty glass is not blocked and its bottom test reads inside. */
  lemma OFallsFreely()
    ensures BottomReadsInGlass(EmptyGlass(), [-1, 2, 2, -1], 5, 24)
    ensures !BottomBlocked(EmptyGlass(), [-1, 2, 2, -1], 5, 24)
  {
    var b := EmptyGlass();
    forall i | 0 <= i < ItemBlocks
      ensures !BottomHit(b, [-1, 2, 2, -1], 5, 24, i)
    {
    }
  }

  /** The O piece at cell (5, 25) lies wholly inside the glass. */
  lemma OInsideAtRow25()
    ensures CommitInGlass(Shapes[1], 5, 25)
  {
    forall r, c | 0 <= r < ItemBlocks && 0 <= c < ItemBlocks && Cell(Shapes[1], r, c) > 0
      ensures InGlass(25 + r, 5 + c)
    {
      assert r * ItemBlocks + c in {5, 6, 9, 10};
    }
  }

  /** With left margins [4, 1, 1, 4] at cell (5, 25) of an empty glass the left test reaches row 28. */
  lemma OLeftReadsBelow()
    ensures !LeftReadsInGlass(EmptyGlass(), [4, 1, 1, 4], 5, 25)
  {
    var b, ml := EmptyGlass(), [4, 1, 1, 4];
    forall j | 0 <= j < 3
      ensures !LeftHit(b, ml, 5, 25, j)
    {
      assert InGlass(25 + j, 5 + ml[j] - 1) && b[25 + j][5 + ml[j] - 1] == 0;
    }
    assert !InGlass(25 + 3, 5 + ml[3] - 1);
  }

  /**
   * A turn can push the piece out of the glass: an I piece moved into
   * column -1 (its cells are all in column 0) and turned lies across
   * column -1, and its next fall step reads outside the glass.
   */
  lemma RotationPushesPieceOutOfGlass(w: World)
    requires WellFormed(w) && w.glass == EmptyGlass()
    requires w.itemId == 0 && w.items[0] == Shapes[0] && MarginsOf(w)
    requires w.gx == -1 && w.gy == 0
    ensures CommitInGlass(Piece(w), w.gx, w.gy)
    ensures AfterRotate(w).Ok?
    ensures var w' := AfterRotate(w).value;
      !CommitInGlass(Piece(w'), w'.gx, w'.gy) && AfterFallStep(w') == OutOfRange
  {
    TurnedIPiece();
    var turned := TurnedI;
    EmptyGlassHasNoFullRow(0);
    EmptyGlassHasNoFullRow(1);
    EmptyGlassHasNoFullRow(2);
    EmptyGlassHasNoFullRow(3);
    var w1 := WithMargins(w.(items := w.items[w.itemId := turned]));
    assert w1.margLeft == [4, 4, 0, 4] && w1.margRight == [-1, -1, 3, -1] && w1.margBottom == [2, 2, 2, 2];
    assert LeftReadsInGlass(w1.glass, w1.margLeft, w1.gx, w1.gy);
    assert RightReadsInGlass(w1.glass, w1.margRight, w1.gx, w1.gy);
    assert AfterRotate(w) == Ok(w1);
    assert Cell(turned, 2, 0) == 1;
    assert !BottomReadsInGlass(w1.glass, w1.margBottom, w1.gx, w1.gy) by {
      assert !InGlass(w1.gy + w1.margBottom[0] + 1, w1.gx + 0);
    }
  }

  /** The I piece as first turned: its cells fill row 2. */
  lemma TurnedIPiece()
    ensures Rotated(Shapes[0]) == TurnedI
    ensures LeftMargins(TurnedI) == [4, 4, 0, 4]
    ensures RightMargins(TurnedI) == [-1, -1, 3, -1]
    ensures BottomMargins(TurnedI) == [2, 2, 2, 2]
    ensures LeftMargins(Shapes[0]) == [1, 1, 1, 1]
  {
    RotatedI();
    TurnedIMargins();
    IMargins();
  }

  lemma RotatedI()
    ensures Rotated(Shapes[0]) == TurnedI
  {
    var p := Shapes[0];
    assert p == [0, 1, 0, 0, 0, 1, 0, 0, 0, 1, 0, 0, 0, 1, 0, 0];
    forall k | 0 <= k < PieceCells
      ensures Rotated(p)[k] == TurnedI[k]
    {
    }
  }

  lemma IMargins()
    ensures LeftMargins(Shapes[0]) == [1, 1, 1, 1]
  {
  }

  const TurnedI: seq<int> := [0, 0, 0, 0, 0, 0, 0, 0, 1, 1, 1, 1, 0, 0, 0, 0]

  lemma TurnedIMargins()
    ensures LeftMargins(TurnedI) == [4, 4, 0, 4]
    ensures RightMargins(TurnedI) == [-1, -1, 3, -1]
    ensures BottomMargins(TurnedI) == [2, 2, 2, 2]
  {
    TurnedILeftMargins();
    TurnedIRightMargins();
    TurnedIBottomMargins();
  }

  lemma TurnedILeftMargins()
    ensures LeftMargins(TurnedI) == [4, 4, 0, 4]
  {
  }

  lemma TurnedIRightMargins()
    ensures RightMargins(TurnedI) == [-1, -1, 3, -1]
  {
  }

  lemma TurnedIBottomMargins()
    ensures BottomMargins(TurnedI) == [2, 2, 2, 2]
  {
    forall i | 0 <= i < ItemBlocks
      ensures BottomMargins(TurnedI)[i] == 2
    {
      assert Cell(TurnedI, 3, i) == 0 && Cell(TurnedI, 2, i) == 1;
    }
  }
}
