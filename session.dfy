/**
 * The main program as it runs: the engine record in a State object, the
 * loop's running, pressed and processed flags as fields, the event loop,
 * the frame logic with its three timers and the outer loop over passes.
 * Each method is proved to compute the function on values in module Game,
 * so everything proved there holds of the running program.
 */
module GameSession {
  import opened Tetris
  import opened Pieces
  import opened Glass
  import opened Engine
  import opened EngineState
  import opened Game

  class Session {
    const st: State
    var running: bool
    var putPressed: bool
    var leftPressed: bool
    var rightPressed: bool
    var upPressed: bool
    var putProcessed: bool
    var leftProcessed: bool
    var rightProcessed: bool
    var upProcessed: bool

    ghost predicate Valid()
      reads this, st
    {
      st.Valid()
    }

    /** The flags as a value. */
    function Flags(): Keys
      reads this
    {
      Keys(running, putPressed, leftPressed, rightPressed, upPressed,
           putProcessed, leftProcessed, rightProcessed, upProcessed)
    }

    /** The engine record as a value. */
    ghost function Value(): World
      requires Valid()
      reads this, st, st.glass, st.items, st.margLeft, st.margRight, st.margBottom
    {
      st.Value()
    }

    /** The state before the loop: the record initialised and the three timers started at tick now. */
    constructor (now: int)
      ensures Valid() && Value() == StartedWorld(now) && Flags() == InitialKeys
      ensures fresh(st) && fresh(st.glass) && fresh(st.items)
      ensures fresh(st.margLeft) && fresh(st.margRight) && fresh(st.margBottom)
    {
      st := new State();
      running := true;
      putPressed, leftPressed, rightPressed, upPressed := false, false, false, false;
      putProcessed, leftProcessed, rightProcessed, upProcessed := false, false, false, false;
      new;
      st.timerFps := TimerStart(now, st.timerFps);
      st.timer1 := TimerStart(now, st.timer1);
      st.timer2 := TimerStart(now, st.timer2);
    }

    // ---------------------------------------------------------- events

    /** One event of the event loop. */
    method HandleEvent(e: Event)
      requires Valid()
      modifies this, st
      ensures Valid() && (Value(), Flags()) == AfterEvent(old(Value()), old(Flags()), e)
    {
      match e {
        case Quit =>
          running := false;
        case KeyDown(code) =>
          if code == ScanSpace && st.gameState == GameWelcome {
            st.gameState := GameStarted;
          }
          KeyDown(code);
        case KeyUp(code) =>
          KeyUp(code);
        case OtherEvent =>
      }
    }

    /**
     * The flags on a key press. The switch's cases are disjoint, so it is
     * written as one test per flag, each on the keys that set it.
     */
    method KeyDown(code: Scancode)
      modifies this
      ensures Flags() == KeyDownKeys(old(Flags()), code)
    {
      if code.ScanQ? { running := false; }
      if IsPutKey(code) { putPressed := true; }
      if IsLeftKey(code) { leftPressed := true; }
      if IsRightKey(code) { rightPressed := true; }
      if IsUpKey(code) { upPressed := true; }
    }

    /** The flags on a key release: the released action's two flags are cleared. */
    method KeyUp(code: Scancode)
      modifies this
      ensures Flags() == KeyUpKeys(old(Flags()), code)
    {
      if IsPutKey(code) { putPressed, putProcessed := false, false; }
      if IsLeftKey(code) { leftPressed, leftProcessed := false, false; }
      if IsRightKey(code) { rightPressed, rightProcessed := false, false; }
      if IsUpKey(code) { upPressed, upProcessed := false, false; }
    }

    /** The queued events of one pass, in order. */
    method HandleEvents(es: seq<Event>)
      requires Valid()
      modifies this, st
      ensures Valid() && (Value(), Flags()) == AfterEvents(old(Value()), old(Flags()), es)
    {
      ghost var w0, k0 := Value(), Flags();
      for i := 0 to |es|
        invariant Valid() && (Value(), Flags()) == AfterEvents(w0, k0, es[..i])
      {
        assert es[..i + 1][..i] == es[..i];
        HandleEvent(es[i]);
      }
      assert es[..|es|] == es;
    }

    // ---------------------------------------------------------- timers

    /** The TIMER_1 branch. */
    method SlowTimer(now: int)
      requires Valid() && Timer1Branch(Value(), now).Ok?
      modifies st, st.glass
      ensures Valid() && Value() == Timer1Branch(old(Value()), now).value
    {
      if IsTimerTick(now, st.timer1) {
        if st.gameState == ItemFalling {
          st.FallStep();
        }
        st.timer1 := TimerStart(now, st.timer1);
      }
    }

    /** The TIMER_2 branch. */
    method FastTimer(now: int)
      requires Valid() && Timer2Branch(Value(), now).Ok?
      modifies st, st.glass
      ensures Valid() && Value() == Timer2Branch(old(Value()), now).value
    {
      if IsTimerTick(now, st.timer2) {
        if st.gameState == ItemFallingFast {
          st.FallStep();
        } else if st.gameState == ItemStopped {
          var removed := st.CheckRemoveFullLine();
          if !removed {
            st.gameState := ItemStarted;
          }
        }
        st.timer2 := TimerStart(now, st.timer2);
      }
    }

    // ------------------------------------------------------------ keys

    method HandleLeft()
      requires Valid() && LeftKey(Value(), Flags()).Ok?
      modifies this, st
      ensures Valid() && (Value(), Flags()) == LeftKey(old(Value()), old(Flags())).value
    {
      if leftPressed && !leftProcessed {
        var blocked := st.CheckItemLeft();
        if !blocked {
          st.x := st.x - BlockSize;
          st.UpdState();
        }
        leftProcessed := true;
      }
    }

    method HandleRight()
      requires Valid() && RightKey(Value(), Flags()).Ok?
      modifies this, st
      ensures Valid() && (Value(), Flags()) == RightKey(old(Value()), old(Flags())).value
    {
      if rightPressed && !rightProcessed {
        var blocked := st.CheckItemRight();
        if !blocked {
          st.x := st.x + BlockSize;
          st.UpdState();
        }
        rightProcessed := true;
      }
    }

    method HandleUp()
      requires Valid() && UpKey(Value(), Flags()).Ok?
      modifies this, st, st.items, st.margLeft, st.margRight, st.margBottom
      ensures Valid() && (Value(), Flags()) == UpKey(old(Value()), old(Flags())).value
    {
      if upPressed && !upProcessed {
        st.RotateItem();
        st.UpdState();
        upProcessed := true;
      }
    }

    method HandlePut()
      requires Valid()
      modifies this, st
      ensures Valid() && (Value(), Flags()) == PutKey(old(Value()), old(Flags()))
    {
      if putPressed && !putProcessed {
        st.gameState := ItemFallingFast;
        putProcessed := true;
      }
    }

    method HandleKeyActions()
      requires Valid() && HandleKeys(Value(), Flags()).Ok?
      modifies this, st, st.items, st.margLeft, st.margRight, st.margBottom
      ensures Valid() && (Value(), Flags()) == HandleKeys(old(Value()), old(Flags())).value
    {
      HandleLeft();
      HandleRight();
      HandleUp();
      HandlePut();
    }

    // ----------------------------------------------------------- frame

    /** A new piece at the spawn position. */
    method SpawnItem(pick: int)
      requires Valid() && 0 <= pick < MaxItems
      modifies st, st.margLeft, st.margRight, st.margBottom
      ensures Valid() && Value() == Spawn(old(Value()), pick)
    {
      st.itemId := pick;
      st.x := SpawnX;
      st.y := SpawnY;
      st.GetLeftMargins();
      st.GetRightMargins();
      st.GetBottomMargins();
      st.UpdState();
      st.gameState := ItemFalling;
    }

    /** The switch on the phase. */
    method Phase(pick: int)
      requires Valid() && 0 <= pick < MaxItems && PhaseBranch(Value(), Flags(), pick).Ok?
      modifies this, st, st.glass, st.items, st.margLeft, st.margRight, st.margBottom
      ensures Valid() && (Value(), Flags()) == PhaseBranch(old(Value()), old(Flags()), pick).value
    {
      match st.gameState {
        case GameStarted =>
          st.ClearGlass();
          st.gameState := ItemStarted;
        case ItemStarted =>
          SpawnItem(pick);
        case ItemFalling =>
          HandleKeyActions();
        case ItemFallingFast =>
          HandleKeyActions();
        case _ =>
      }
    }

    /** The frame logic at tick now, with pick as the choice of a new piece. */
    method Frame(now: int, pick: int)
      requires Valid() && 0 <= pick < MaxItems && AfterFrame(Value(), Flags(), now, pick).Ok?
      modifies this, st, st.glass, st.items, st.margLeft, st.margRight, st.margBottom
      ensures Valid() && (Value(), Flags()) == AfterFrame(old(Value()), old(Flags()), now, pick).value
    {
      if IsTimerTick(now, st.timerFps) {
        SlowTimer(now);
        FastTimer(now);
        Phase(pick);
        st.timerFps := TimerStart(now, st.timerFps);
      }
    }

    // ------------------------------------------------------------ loop

    /** One pass: the queued events, then the frame logic. */
    method Iterate(p: Pass)
      requires Valid() && AfterIteration(Value(), Flags(), p.events, p.now, p.rand % MaxItems).Ok?
      modifies this, st, st.glass, st.items, st.margLeft, st.margRight, st.margBottom
      ensures Valid()
      ensures (Value(), Flags()) == AfterIteration(old(Value()), old(Flags()), p.events, p.now, p.rand % MaxItems).value
    {
      HandleEvents(p.events);
      AfterEventsWellFormed(old(Value()), old(Flags()), p.events);
      Frame(p.now, p.rand % MaxItems);
    }

    /** The main loop: passes run while the running flag is set and input remains. */
    method Run(ps: seq<Pass>)
      requires Valid() && AfterRun(Value(), Flags(), ps).Ok?
      modifies this, st, st.glass, st.items, st.margLeft, st.margRight, st.margBottom
      ensures Valid() && Ok((Value(), Flags())) == AfterRun(old(Value()), old(Flags()), ps)
    {
      var i := 0;
      while i < |ps| && running
        invariant 0 <= i <= |ps| && Valid()
        invariant AfterRun(Value(), Flags(), ps[i..]) == AfterRun(old(Value()), old(Flags()), ps)
        decreases |ps| - i
      {
        assert ps[i..][0] == ps[i] && ps[i..][1..] == ps[i + 1..];
        Iterate(ps[i]);
        i := i + 1;
      }
    }
  }
}
