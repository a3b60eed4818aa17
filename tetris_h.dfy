/**
 * Declarations shared by the engine and the main loop: the board and piece
 * dimensions, the reference configuration installed by the main program,
 * the timer record, the game phases and the documented phase diagram.
 */
module Tetris {

  // Dimensions of the piece catalogue and of the glass.
  const MaxItems := 7
  const MaxColors := 7
  const ItemBlocks := 4
  const PieceCells := ItemBlocks * ItemBlocks
  const GlassW := 14
  const GlassH := 28

  // Reference configuration: frame rate, block size in pixels and window size.
  const Fps := 60
  const BlockSize := 25
  const WindowW := 1200
  const WindowH := 800

  // Derived pixel geometry of the glass, centred in the window.
  const GlassPixelW := GlassW * BlockSize
  const GlassPixelH := GlassH * BlockSize
  const GlassLeft := (WindowW - GlassPixelW) / 2
  const GlassTop := (WindowH - GlassPixelH) / 2

  // Pixel position at which every new piece's bounding box is placed.
  const SpawnX := (WindowW - ItemBlocks * BlockSize) / 2
  const SpawnY := ItemBlocks * BlockSize / 2

  // Timer intervals in milliseconds.
  const FrameMs := 1000 / Fps
  const SlowFallMs := 1000
  const FastFallMs := 75

  /** Tick counts are 32-bit unsigned (DWORD) values. */
  const TickModulus := 0x1_0000_0000

  predicate IsTick(t: int) { 0 <= t < TickModulus }

  /** A repeating timer: the tick count at which it was last restarted and its interval. */
  datatype Timer = Timer(last: int, ms: int)

  /** The phases of a game. */
  datatype GameState =
    | GameWelcome       // welcome screen
    | GameStarted       // the player started a game
    | ItemStarted       // a piece is about to fall
    | ItemFalling       // the piece falls slowly
    | ItemFallingFast   // the piece falls fast (the player pressed space)
    | ItemStopped       // the piece landed
    | GameFinished      // the glass is full

  /** The enumerator's value in the declaration order. */
  function Ordinal(s: GameState): (n: nat)
    ensures n < 7
    ensures n == 0 <==> s == GameWelcome
    ensures n == 6 <==> s == GameFinished
  {
    match s
    case GameWelcome => 0
    case GameStarted => 1
    case ItemStarted => 2
    case ItemFalling => 3
    case ItemFallingFast => 4
    case ItemStopped => 5
    case GameFinished => 6
  }

  /** The enumerator with a given value; the inverse of Ordinal. */
  function FromOrdinal(n: nat): (s: GameState)
    requires n < 7
    ensures Ordinal(s) == n
  {
    if n == 0 then GameWelcome
    else if n == 1 then GameStarted
    else if n == 2 then ItemStarted
    else if n == 3 then ItemFalling
    else if n == 4 then ItemFallingFast
    else if n == 5 then ItemStopped
    else GameFinished
  }

  /** There are exactly seven phases: Ordinal is a bijection onto 0..6. */
  lemma ExactlySevenStates(s: GameState, t: GameState)
    ensures Ordinal(s) == Ordinal(t) ==> s == t
    ensures FromOrdinal(Ordinal(s)) == s
  {
  }

  /** The edges of the documented phase diagram (the initial arrow goes to GameWelcome). */
  predicate Edge(a: GameState, b: GameState)
  {
    || (a == GameWelcome && b == GameStarted)
    || (a == GameStarted && b == ItemStarted)
    || (a == ItemStarted && b == ItemFalling)
    || (a == ItemFalling && b == ItemFallingFast)
    || (a == ItemFalling && b == ItemFalling)
    || (a == ItemFalling && b == ItemStopped)
    || (a == ItemFallingFast && b == ItemStopped)
    || (a == ItemFallingFast && b == ItemFallingFast)
    || (a == ItemStopped && b == ItemStarted)
    || (a == ItemStopped && b == GameFinished)
    || (a == GameFinished && b == GameWelcome)
  }

  /** A phase variable either keeps its value or follows one edge of the diagram. */
  predicate StepAllowed(a: GameState, b: GameState)
  {
    a == b || Edge(a, b)
  }

  /** Reachability along at most n edges of the diagram. */
  predicate Path(a: GameState, b: GameState, n: nat)
    decreases n
  {
    a == b || (n > 0 && exists m: GameState :: Edge(a, m) && Path(m, b, n - 1))
  }

  /** A longer bound admits every shorter path. */
  lemma {:induction false} PathLonger(a: GameState, b: GameState, n: nat)
    requires Path(a, b, n)
    ensures Path(a, b, n + 1)
    decreases n
  {
    if a != b {
      var m :| Edge(a, m) && Path(m, b, n - 1);
      PathLonger(m, b, n - 1);
    }
  }

  /** A step of the phase variable in front of a path lengthens it by at most one edge. */
  lemma PathStep(a: GameState, b: GameState, c: GameState, n: nat)
    requires StepAllowed(a, b) && Path(b, c, n)
    ensures Path(a, c, n + 1)
  {
    if a == b {
      PathLonger(b, c, n);
    }
  }

  /** A single allowed step is a path of length at most one. */
  lemma StepIsPath(a: GameState, b: GameState)
    requires StepAllowed(a, b)
    ensures Path(a, b, 1)
  {
    if a != b {
      assert Edge(a, b) && Path(b, b, 0);
    }
  }

  /** The only way into GameFinished is from ItemStopped; nothing leaves GameFinished but the reset. */
  lemma FinishedEdges(a: GameState, b: GameState)
    ensures Edge(a, GameFinished) <==> a == ItemStopped
    ensures Edge(GameFinished, b) <==> b == GameWelcome
  {
  }

  /**
   * The outcome of an operation whose C counterpart may index an array out
   * of its bounds: OutOfRange marks the inputs on which the C code has
   * undefined behaviour, Ok carries the result everywhere else.
   */
  datatype Checked<+T> = Ok(value: T) | OutOfRange
  {
    predicate IsFailure() { OutOfRange? }

    function PropagateFailure<U>(): Checked<U>
      requires OutOfRange?
    {
      OutOfRange
    }

    function Extract(): T
      requires Ok?
    {
      value
    }
  }
}
