/**
 * The main loop on values: the effect of one input event, the key flags
 * that make every key press act once, and one pass of the frame logic
 * driven by the three timers. Time enters as the tick count of the frame
 * and the random piece choice as a parameter.
 */
module Game {
  import opened Tetris
  import opened Pieces
  import opened Glass
  import opened Engine
  import opened EngineState

  // ------------------------------------------------------------------ input

  /** The key codes the loop distinguishes. */
  datatype Scancode = ScanQ | ScanSpace | ScanA | ScanLeft | ScanD | ScanRight | ScanW | ScanUp | ScanOther

  datatype Event = Quit | KeyDown(code: Scancode) | KeyUp(code: Scancode) | OtherEvent

  /** The loop's flags: running, and for each action a pressed and a processed flag. */
  datatype Keys = Keys(
    running: bool,
    putPressed: bool, leftPressed: bool, rightPressed: bool, upPressed: bool,
    putProcessed: bool, leftProcessed: bool, rightProcessed: bool, upProcessed: bool)

  const InitialKeys := Keys(true, false, false, false, false, false, false, false, false)

  /** A key is never processed without being pressed. */
  predicate KeysConsistent(k: Keys)
  {
    && (k.putProcessed ==> k.putPressed) && (k.leftProcessed ==> k.leftPressed)
    && (k.rightProcessed ==> k.rightPressed) && (k.upProcessed ==> k.upPressed)
  }

  /** The keys of each action, grouped as the event loop's switch groups them. */
  predicate IsPutKey(code: Scancode) { code.ScanSpace? }
  predicate IsLeftKey(code: Scancode) { code.ScanA? || code.ScanLeft? }
  predicate IsRightKey(code: Scancode) { code.ScanD? || code.ScanRight? }
  predicate IsUpKey(code: Scancode) { code.ScanW? || code.ScanUp? }

  /**
   * A key press: Q stops the loop, an action key sets its pressed flag.
   * Written flag by flag: each flag is set by its own keys and kept
   * otherwise, and no processed flag changes.
   */
  function KeyDownKeys(k: Keys, code: Scancode): Keys
  {
    Keys(k.running && !code.ScanQ?,
      k.putPressed || IsPutKey(code), k.leftPressed || IsLeftKey(code),
      k.rightPressed || IsRightKey(code), k.upPressed || IsUpKey(code),
      k.putProcessed, k.leftProcessed, k.rightProcessed, k.upProcessed)
  }

  /** A key release clears both flags of its action and keeps every other flag. */
  function KeyUpKeys(k: Keys, code: Scancode): Keys
  {
    Keys(k.running,
      k.putPressed && !IsPutKey(code), k.leftPressed && !IsLeftKey(code),
      k.rightPressed && !IsRightKey(code), k.upPressed && !IsUpKey(code),
      k.putProcessed && !IsPutKey(code), k.leftProcessed && !IsLeftKey(code),
      k.rightProcessed && !IsRightKey(code), k.upProcessed && !IsUpKey(code))
  }

  /** The press table, case by case as the event loop's switch sets the flags. */
  lemma KeyDownCases(k: Keys)
    ensures KeyDownKeys(k, ScanQ) == k.(running := false)
    ensures KeyDownKeys(k, ScanSpace) == k.(putPressed := true)
    ensures KeyDownKeys(k, ScanA) == KeyDownKeys(k, ScanLeft) == k.(leftPressed := true)
    ensures KeyDownKeys(k, ScanD) == KeyDownKeys(k, ScanRight) == k.(rightPressed := true)
    ensures KeyDownKeys(k, ScanW) == KeyDownKeys(k, ScanUp) == k.(upPressed := true)
    ensures KeyDownKeys(k, ScanOther) == k
  {
    KeyDownQ(k);
    KeyDownSpace(k);
    KeyDownLeft(k);
    KeyDownRight(k);
    KeyDownUp(k);
    KeyDownOther(k);
  }

  // One lemma per key: proving the six cases together, as one query over
  // the nine-flag record, costs the solver far more than six small ones.
  lemma KeyDownQ(k: Keys) ensures KeyDownKeys(k, ScanQ) == k.(running := false) { }
  lemma KeyDownSpace(k: Keys) ensures KeyDownKeys(k, ScanSpace) == k.(putPressed := true) { }
  lemma KeyDownLeft(k: Keys) ensures KeyDownKeys(k, ScanA) == KeyDownKeys(k, ScanLeft) == k.(leftPressed := true) { }
  lemma KeyDownRight(k: Keys) ensures KeyDownKeys(k, ScanD) == KeyDownKeys(k, ScanRight) == k.(rightPressed := true) { }
  lemma KeyDownUp(k: Keys) ensures KeyDownKeys(k, ScanW) == KeyDownKeys(k, ScanUp) == k.(upPressed := true) { }
  lemma KeyDownOther(k: Keys) ensures KeyDownKeys(k, ScanOther) == k { }

  /** The release table, case by case. */
  lemma KeyUpCases(k: Keys)
    ensures KeyUpKeys(k, ScanSpace) == k.(putPressed := false, putProcessed := false)
    ensures KeyUpKeys(k, ScanA) == KeyUpKeys(k, ScanLeft) == k.(leftPressed := false, leftProcessed := false)
    ensures KeyUpKeys(k, ScanD) == KeyUpKeys(k, ScanRight) == k.(rightPressed := false, rightProcessed := false)
    ensures KeyUpKeys(k, ScanW) == KeyUpKeys(k, ScanUp) == k.(upPressed := false, upProcessed := false)
    ensures KeyUpKeys(k, ScanQ) == KeyUpKeys(k, ScanOther) == k
  {
    KeyUpSpace(k);
    KeyUpLeft(k);
    KeyUpRight(k);
    KeyUpUp(k);
    KeyUpOther(k);
  }

  // Split per key for the same reason as the press cases.
  lemma KeyUpSpace(k: Keys) ensures KeyUpKeys(k, ScanSpace) == k.(putPressed := false, putProcessed := false) { }
  lemma KeyUpLeft(k: Keys) ensures KeyUpKeys(k, ScanA) == KeyUpKeys(k, ScanLeft) == k.(leftPressed := false, leftProcessed := false) { }
  lemma KeyUpRight(k: Keys) ensures KeyUpKeys(k, ScanD) == KeyUpKeys(k, ScanRight) == k.(rightPressed := false, rightProcessed := false) { }
  lemma KeyUpUp(k: Keys) ensures KeyUpKeys(k, ScanW) == KeyUpKeys(k, ScanUp) == k.(upPressed := false, upProcessed := false) { }
  lemma KeyUpOther(k: Keys) ensures KeyUpKeys(k, ScanQ) == KeyUpKeys(k, ScanOther) == k { }

  /** One event of the event loop; space on the welcome screen also starts the game. */
  function AfterEvent(w: World, k: Keys, e: Event): (World, Keys)
  {
    match e
    case Quit => (w, k.(running := false))
    case KeyDown(code) =>
      (if code == ScanSpace && w.gameState == GameWelcome then w.(gameState := GameStarted) else w, KeyDownKeys(k, code))
    case KeyUp(code) => (w, KeyUpKeys(k, code))
    case OtherEvent => (w, k)
  }

  /** The events of one pass of the loop, in order. */
  function AfterEvents(w: World, k: Keys, es: seq<Event>): (World, Keys)
    decreases |es|
  {
    if |es| == 0 then (w, k)
    else
      var r := AfterEvents(w, k, es[..|es| - 1]);
      AfterEvent(r.0, r.1, es[|es| - 1])
  }

  // --------------------------------------------------------------- timers

  /** The TIMER_1 branch: on a tick a slowly falling piece takes a fall step; the timer restarts. */
  function Timer1Branch(w: World, now: int): (r: Checked<World>)
    requires WellFormed(w)
    ensures r.Ok? ==> WellFormed(r.value)
  {
    if !IsTimerTick(now, w.timer1) then Ok(w)
    else
      var w1 :- if w.gameState == ItemFalling then AfterFallStep(w) else Ok(w);
      Ok(w1.(timer1 := TimerStart(now, w1.timer1)))
  }

  /** A stopped piece: one full line is removed, or, when there is none, the next piece is due. */
  function StoppedStep(w: World): (r: Checked<World>)
    requires WellFormed(w)
    ensures r.Ok? ==> WellFormed(r.value)
  {
    var res :- AfterClearLine(w);
    if !res.0 then Ok(res.1.(gameState := ItemStarted)) else Ok(res.1)
  }

  /** The TIMER_2 branch: a fast falling piece takes a fall step, a stopped one clears lines. */
  function Timer2Branch(w: World, now: int): (r: Checked<World>)
    requires WellFormed(w)
    ensures r.Ok? ==> WellFormed(r.value)
  {
    if !IsTimerTick(now, w.timer2) then Ok(w)
    else
      var w1 :- (
        if w.gameState == ItemFallingFast then AfterFallStep(w)
        else if w.gameState == ItemStopped then StoppedStep(w)
        else Ok(w));
      Ok(w1.(timer2 := TimerStart(now, w1.timer2)))
  }

  // ---------------------------------------------------------- phase branch

  /** A new piece: the chosen catalogue entry at the spawn position, with its margins, falling. */
  function Spawn(w: World, pick: int): (w': World)
    requires WellFormed(w) && 0 <= pick < MaxItems
    ensures HasItem(w')
  {
    AfterUpdState(WithMargins(w.(itemId := pick, x := SpawnX, y := SpawnY))).(gameState := ItemFalling)
  }

  /** A pending left press: the piece moves one block left unless blocked; the press is consumed. */
  function LeftKey(w: World, k: Keys): (r: Checked<(World, Keys)>)
    requires WellFormed(w)
    ensures r.Ok? ==> WellFormed(r.value.0)
  {
    if k.leftPressed && !k.leftProcessed then
      var blocked :- LeftCheck(w);
      Ok((if !blocked then AfterUpdState(w.(x := w.x - BlockSize)) else w, k.(leftProcessed := true)))
    else Ok((w, k))
  }

  function RightKey(w: World, k: Keys): (r: Checked<(World, Keys)>)
    requires WellFormed(w)
    ensures r.Ok? ==> WellFormed(r.value.0)
  {
    if k.rightPressed && !k.rightProcessed then
      var blocked :- RightCheck(w);
      Ok((if !blocked then AfterUpdState(w.(x := w.x + BlockSize)) else w, k.(rightProcessed := true)))
    else Ok((w, k))
  }

  function UpKey(w: World, k: Keys): (r: Checked<(World, Keys)>)
    requires WellFormed(w)
    ensures r.Ok? ==> WellFormed(r.value.0)
  {
    if k.upPressed && !k.upProcessed then
      var w1 :- AfterRotate(w);
      Ok((AfterUpdState(w1), k.(upProcessed := true)))
    else Ok((w, k))
  }

  function PutKey(w: World, k: Keys): (World, Keys)
  {
    if k.putPressed && !k.putProcessed then (w.(gameState := ItemFallingFast), k.(putProcessed := true))
    else (w, k)
  }

  /** The falling phases: left, right, rotate and drop, in that order. */
  function HandleKeys(w: World, k: Keys): (r: Checked<(World, Keys)>)
    requires WellFormed(w)
    ensures r.Ok? ==> WellFormed(r.value.0)
  {
    var r1 :- LeftKey(w, k);
    var r2 :- RightKey(r1.0, r1.1);
    var r3 :- UpKey(r2.0, r2.1);
    Ok(PutKey(r3.0, r3.1))
  }

  /** The switch on the phase after the timer branches. */
  function PhaseBranch(w: World, k: Keys, pick: int): (r: Checked<(World, Keys)>)
    requires WellFormed(w) && 0 <= pick < MaxItems
    ensures r.Ok? ==> WellFormed(r.value.0)
  {
    match w.gameState
    case GameStarted => Ok((AfterClearGlass(w).(gameState := ItemStarted), k))
    case ItemStarted => Ok((Spawn(w, pick), k))
    case ItemFalling => HandleKeys(w, k)
    case ItemFallingFast => HandleKeys(w, k)
    case _ => Ok((w, k))
  }

  /**
   * One pass of the frame logic at tick now: nothing happens until the frame
   * timer fires; then the two fall timers, the phase switch and the restart
   * of the frame timer.
   */
  function AfterFrame(w: World, k: Keys, now: int, pick: int): (r: Checked<(World, Keys)>)
    requires WellFormed(w) && 0 <= pick < MaxItems
    ensures r.Ok? ==> WellFormed(r.value.0)
  {
    if !IsTimerTick(now, w.timerFps) then Ok((w, k))
    else
      var w1 :- Timer1Branch(w, now);
      var w2 :- Timer2Branch(w1, now);
      var r3 :- PhaseBranch(w2, k, pick);
      Ok((r3.0.(timerFps := TimerStart(now, r3.0.timerFps)), r3.1))
  }

  /** One pass of the main loop: the pending events, then the frame logic at tick now. */
  function AfterIteration(w: World, k: Keys, es: seq<Event>, now: int, pick: int): (r: Checked<(World, Keys)>)
    requires WellFormed(w) && 0 <= pick < MaxItems
    ensures r.Ok? ==> WellFormed(r.value.0)
  {
    var (w1, k1) := AfterEvents(w, k, es);
    AfterEventsWellFormed(w, k, es);
    AfterFrame(w1, k1, now, pick)
  }

  /**
   * The inputs of one pass of the main loop: the queued events, the tick
   * count of the frame and the value rand() returns if a piece is due.
   */
  datatype Pass = Pass(events: seq<Event>, now: int, rand: nat)

  /** The main loop over a sequence of passes; it ends once the running flag is false. */
  function AfterRun(w: World, k: Keys, ps: seq<Pass>): (r: Checked<(World, Keys)>)
    requires WellFormed(w)
    ensures r.Ok? ==> WellFormed(r.value.0)
    decreases |ps|
  {
    if |ps| == 0 || !k.running then Ok((w, k))
    else
      var r1 :- AfterIteration(w, k, ps[0].events, ps[0].now, ps[0].rand % MaxItems);
      AfterRun(r1.0, r1.1, ps[1..])
  }

  lemma {:induction false} AfterEventsWellFormed(w: World, k: Keys, es: seq<Event>)
    requires WellFormed(w)
    ensures WellFormed(AfterEvents(w, k, es).0)
    decreases |es|
  {
    if |es| > 0 {
      AfterEventsWellFormed(w, k, es[..|es| - 1]);
    }
  }

  /** The record once the main program has started the three timers at tick now. */
  function StartedWorld(now: int): (w: World)
    ensures WellFormed(w)
  {
    var w0 := InitialWorld();
    w0.(timerFps := TimerStart(now, w0.timerFps), timer1 := TimerStart(now, w0.timer1),
        timer2 := TimerStart(now, w0.timer2))
  }

  // ------------------------------------------------------- the invariant

  /** Every catalogue entry is an orientation of the shape it started as. */
  predicate CatalogueRotations(items: seq<seq<int>>)
  {
    |items| == MaxItems && forall i :: 0 <= i < MaxItems ==> IsPiece(items[i]) && IsRotationOf(items[i], Shapes[i])
  }

  /** The pixel position lies on the block grid and matches the cell position. */
  predicate OnGrid(w: World)
  {
    w.x == GlassLeft + w.gx * BlockSize && w.y == GlassTop + w.gy * BlockSize && 0 <= w.gy
  }

  /** The phases in which there is a current piece. */
  predicate PiecePhase(s: GameState)
  {
    s == ItemFalling || s == ItemFallingFast || s == ItemStopped
  }

  /** What every reachable record satisfies. */
  predicate Consistent(w: World)
  {
    && WellFormed(w)
    && CatalogueRotations(w.items)
    && CellsInRange(w.glass)
    && w.gameState != GameFinished
    && w.timerFps.ms == FrameMs && w.timer1.ms == SlowFallMs && w.timer2.ms == FastFallMs
    && (PiecePhase(w.gameState) ==> HasItem(w) && MarginsOf(w) && OnGrid(w))
  }

  lemma CurrentPieceIsShape(w: World)
    requires Consistent(w) && HasItem(w)
    ensures IsShape(Piece(w))
  {
    ShapesAreCatalogue();
    RotationOfShapeIsShape(Piece(w), Shapes[w.itemId]);
  }

  /** The record the main program starts from is consistent, and so are the initial flags. */
  lemma StartedWorldConsistent(now: int)
    ensures Consistent(StartedWorld(now)) && KeysConsistent(InitialKeys)
  {
    var w := StartedWorld(now);
    forall i | 0 <= i < MaxItems
      ensures IsRotationOf(w.items[i], Shapes[i])
    {
      assert w.items[i] == RotatedN(Shapes[i], 0);
    }
    forall r, c | 0 <= r < GlassH && 0 <= c < GlassW
      ensures 0 <= w.glass[r][c] <= MaxPieceColor
    {
      EmptyGlassHasNoFullRow(r);
    }
  }

  /** An event keeps the record consistent and never marks a key processed. */
  lemma EventConsistent(w: World, k: Keys, e: Event)
    requires Consistent(w) && KeysConsistent(k)
    ensures Consistent(AfterEvent(w, k, e).0) && KeysConsistent(AfterEvent(w, k, e).1)
  {
    EventOnlyStarts(w, k, e);
    EventKeysConsistent(w, k, e);
    var w' := AfterEvent(w, k, e).0;
    if w' != w {
      assert w'.items == w.items && w'.glass == w.glass && w'.gameState == GameStarted;
    }
  }

  /** The only effect of an event on the record is the start of a game from the welcome screen. */
  lemma EventOnlyStarts(w: World, k: Keys, e: Event)
    ensures AfterEvent(w, k, e).0 == w
      || (w.gameState == GameWelcome && e == KeyDown(ScanSpace) && AfterEvent(w, k, e).0 == w.(gameState := GameStarted))
  {
  }

  lemma EventKeysConsistent(w: World, k: Keys, e: Event)
    requires KeysConsistent(k)
    ensures KeysConsistent(AfterEvent(w, k, e).1)
  {
    match e {
      case KeyDown(code) => KeyDownConsistent(k, code);
      case KeyUp(code) => KeyUpConsistent(k, code);
      case _ =>
    }
  }

  lemma KeyDownConsistent(k: Keys, code: Scancode)
    requires KeysConsistent(k)
    ensures KeysConsistent(KeyDownKeys(k, code))
  {
  }

  lemma KeyUpConsistent(k: Keys, code: Scancode)
    requires KeysConsistent(k)
    ensures KeysConsistent(KeyUpKeys(k, code))
  {
  }

  lemma {:induction false} EventsConsistent(w: World, k: Keys, es: seq<Event>)
    requires Consistent(w) && KeysConsistent(k)
    ensures Consistent(AfterEvents(w, k, es).0) && KeysConsistent(AfterEvents(w, k, es).1)
    decreases |es|
  {
    if |es| > 0 {
      var r := AfterEvents(w, k, es[..|es| - 1]);
      EventsConsistent(w, k, es[..|es| - 1]);
      EventConsistent(r.0, r.1, es[|es| - 1]);
    }
  }

  /** A fall step of a falling piece keeps the record consistent. */
  lemma FallStepConsistent(w: World)
    requires Consistent(w) && (w.gameState == ItemFalling || w.gameState == ItemFallingFast)
    requires AfterFallStep(w).Ok?
    ensures Consistent(AfterFallStep(w).value)
  {
    var w' := AfterFallStep(w).value;
    if BottomCheck(w).value {
      CurrentPieceIsShape(w);
      CommittedInRange(w.glass, Piece(w), w.gx, w.gy);
    } else {
      UpdStateOnGrid(w.(y := w.y + BlockSize), w.gx, w.gy + 1);
    }
  }

  lemma Timer1Consistent(w: World, now: int)
    requires Consistent(w) && Timer1Branch(w, now).Ok?
    ensures Consistent(Timer1Branch(w, now).value)
  {
    if IsTimerTick(now, w.timer1) && w.gameState == ItemFalling {
      FallStepConsistent(w);
    }
  }

  lemma StoppedStepConsistent(w: World)
    requires Consistent(w) && StoppedStep(w).Ok?
    ensures Consistent(StoppedStep(w).value)
  {
    ClearFullLineInRange(w.glass);
  }

  lemma Timer2Consistent(w: World, now: int)
    requires Consistent(w) && Timer2Branch(w, now).Ok?
    ensures Consistent(Timer2Branch(w, now).value)
  {
    if IsTimerTick(now, w.timer2) {
      if w.gameState == ItemFallingFast {
        FallStepConsistent(w);
      } else if w.gameState == ItemStopped {
        StoppedStepConsistent(w);
      }
    }
  }

  lemma SpawnConsistent(w: World, pick: int)
    requires Consistent(w) && 0 <= pick < MaxItems
    ensures Consistent(Spawn(w, pick))
  {
    var w1 := WithMargins(w.(itemId := pick, x := SpawnX, y := SpawnY));
    UpdStateOnGrid(w1, 5, 0);
  }

  lemma LeftKeyConsistent(w: World, k: Keys)
    requires Consistent(w) && PiecePhase(w.gameState) && KeysConsistent(k) && LeftKey(w, k).Ok?
    ensures Consistent(LeftKey(w, k).value.0) && KeysConsistent(LeftKey(w, k).value.1)
    ensures LeftKey(w, k).value.0.gameState == w.gameState
  {
    UpdStateOnGrid(w.(x := w.x - BlockSize), w.gx - 1, w.gy);
  }

  lemma RightKeyConsistent(w: World, k: Keys)
    requires Consistent(w) && PiecePhase(w.gameState) && KeysConsistent(k) && RightKey(w, k).Ok?
    ensures Consistent(RightKey(w, k).value.0) && KeysConsistent(RightKey(w, k).value.1)
    ensures RightKey(w, k).value.0.gameState == w.gameState
  {
    UpdStateOnGrid(w.(x := w.x + BlockSize), w.gx + 1, w.gy);
  }

  lemma RotateConsistent(w: World)
    requires Consistent(w) && HasItem(w) && AfterRotate(w).Ok?
    ensures Consistent(AfterRotate(w).value) && MarginsOf(AfterRotate(w).value)
    ensures AfterRotate(w).value.gameState == w.gameState
  {
    var w1 := AfterRotate(w).value;
    ShapesAreCatalogue();
    RotationOfRotation(Piece(w), Shapes[w.itemId]);
    assert CatalogueRotations(w1.items);
  }

  lemma UpKeyConsistent(w: World, k: Keys)
    requires Consistent(w) && PiecePhase(w.gameState) && KeysConsistent(k) && UpKey(w, k).Ok?
    ensures Consistent(UpKey(w, k).value.0) && KeysConsistent(UpKey(w, k).value.1)
    ensures UpKey(w, k).value.0.gameState == w.gameState
  {
    if k.upPressed && !k.upProcessed {
      RotateConsistent(w);
      var w1 := AfterRotate(w).value;
      UpdStateOnGrid(w1, w1.gx, w1.gy);
    }
  }

  lemma HandleKeysConsistent(w: World, k: Keys)
    requires Consistent(w) && (w.gameState == ItemFalling || w.gameState == ItemFallingFast)
    requires KeysConsistent(k) && HandleKeys(w, k).Ok?
    ensures Consistent(HandleKeys(w, k).value.0) && KeysConsistent(HandleKeys(w, k).value.1)
  {
    LeftKeyConsistent(w, k);
    var r1 := LeftKey(w, k).value;
    assert RightKey(r1.0, r1.1).Ok?;
    RightKeyConsistent(r1.0, r1.1);
    var r2 := RightKey(r1.0, r1.1).value;
    assert UpKey(r2.0, r2.1).Ok?;
    UpKeyConsistent(r2.0, r2.1);
    var r3 := UpKey(r2.0, r2.1).value;
    PutKeyConsistent(r3.0, r3.1);
    assert HandleKeys(w, k).value == PutKey(r3.0, r3.1);
  }

  lemma PutKeyConsistent(w: World, k: Keys)
    requires Consistent(w) && PiecePhase(w.gameState) && KeysConsistent(k)
    ensures Consistent(PutKey(w, k).0) && KeysConsistent(PutKey(w, k).1)
  {
    if k.putPressed && !k.putProcessed {
      var w1 := w.(gameState := ItemFallingFast);
      assert HasItem(w1) && MarginsOf(w1) && OnGrid(w1);
    }
  }

  lemma PhaseConsistent(w: World, k: Keys, pick: int)
    requires Consistent(w) && KeysConsistent(k) && 0 <= pick < MaxItems && PhaseBranch(w, k, pick).Ok?
    ensures Consistent(PhaseBranch(w, k, pick).value.0) && KeysConsistent(PhaseBranch(w, k, pick).value.1)
  {
    match w.gameState
    case GameStarted =>
      forall r, c | 0 <= r < GlassH && 0 <= c < GlassW
        ensures 0 <= EmptyGlass()[r][c] <= MaxPieceColor
      {
        EmptyGlassHasNoFullRow(r);
      }
    case ItemStarted => SpawnConsistent(w, pick);
    case ItemFalling => HandleKeysConsistent(w, k);
    case ItemFallingFast => HandleKeysConsistent(w, k);
    case _ =>
  }

  /** A frame that stays in bounds keeps the record and the flags consistent. */
  lemma FrameConsistent(w: World, k: Keys, now: int, pick: int)
    requires Consistent(w) && KeysConsistent(k) && 0 <= pick < MaxItems && AfterFrame(w, k, now, pick).Ok?
    ensures Consistent(AfterFrame(w, k, now, pick).value.0) && KeysConsistent(AfterFrame(w, k, now, pick).value.1)
  {
    if IsTimerTick(now, w.timerFps) {
      Timer1Consistent(w, now);
      var w1 := Timer1Branch(w, now).value;
      Timer2Consistent(w1, now);
      var w2 := Timer2Branch(w1, now).value;
      PhaseConsistent(w2, k, pick);
    }
  }

  /** A pass of the main loop that stays in bounds keeps the record and the flags consistent. */
  lemma IterationConsistent(w: World, k: Keys, es: seq<Event>, now: int, pick: int)
    requires Consistent(w) && KeysConsistent(k) && 0 <= pick < MaxItems && AfterIteration(w, k, es, now, pick).Ok?
    ensures Consistent(AfterIteration(w, k, es, now, pick).value.0)
    ensures KeysConsistent(AfterIteration(w, k, es, now, pick).value.1)
  {
    EventsConsistent(w, k, es);
    var (w1, k1) := AfterEvents(w, k, es);
    FrameConsistent(w1, k1, now, pick);
  }

  /** Every record the main loop reaches from a consistent one is consistent. */
  lemma {:induction false} RunConsistent(w: World, k: Keys, ps: seq<Pass>)
    requires Consistent(w) && KeysConsistent(k) && AfterRun(w, k, ps).Ok?
    ensures Consistent(AfterRun(w, k, ps).value.0) && KeysConsistent(AfterRun(w, k, ps).value.1)
    decreases |ps|
  {
    if |ps| > 0 && k.running {
      var p := ps[0];
      IterationConsistent(w, k, p.events, p.now, p.rand % MaxItems);
      var r1 := AfterIteration(w, k, p.events, p.now, p.rand % MaxItems).value;
      RunConsistent(r1.0, r1.1, ps[1..]);
    }
  }
}
