# A verified model of the tetris engine and main loop

This project models the core of a small SDL falling-block game written in C. The core has three parts:

- the engine in `src/tetris.c`: piece rotation, piece margins, contact tests, committing a landed piece and removing full rows;
- the per-frame game logic of the main loop in `src/main.c`;
- the declarations in `src/tetris.h`.

The model is layered the way the program is:

- `tetris_h.dfy` (module `Tetris`) holds the constants, the timer record and the seven game phases. It also holds the documented phase diagram as an edge relation, and the outcome type `Checked`. `OutOfRange` marks the inputs on which the C code indexes an array outside its bounds.
- `pieces.dfy` (module `Pieces`) holds the seven reference shapes and the quarter turn the rotation performs. It also holds the left, right and bottom margins with their sentinels 4 and -1, and `min4`/`max4`.
- `glass.dfy` (module `Glass`) models the 28 x 14 glass on values. It has the three contact tests with the exact cells they read, committing a piece, the row shift of `removeFullLine` and the bottom-up scan of `checkRemoveFullLine`.
- `engine.dfy` (module `Engine`) holds `World`, the value of the `tState` record without the colour table. Each engine routine becomes an `After*` function on it, returning `OutOfRange` where the routine would read or write outside an array.
- `state.dfy` (module `EngineState`) holds the class `State`. It keeps the glass and the catalogue in `array2`s and the margins in arrays. Each engine routine is implemented with the loops of the original and proved to compute its `After*` function:
  - rotation by the in-place four-cycles;
  - margin loops whose loop variable is the array element itself;
  - the do-while shift of `removeFullLine`.
- `game.dfy` (module `Game`) models the main loop on values:
  - the effect of one SDL event on the flags;
  - the two fall-timer branches and the phase switch;
  - one frame, one pass (events, then frame), and the loop over passes.
  It also defines the invariant `Consistent` and proves that every step preserves it.
- `game_properties.dfy` (module `GameProperties`) states what the main loop promises:
  - the phase follows the diagram and never reaches `GAME_FINISHED`;
  - each key press acts at most once;
  - the fall timers act only in their phases and restart without catching up;
  - a new game starts from an empty glass with a piece at cell (5, 0);
  - two concrete inputs on which the engine reads outside the glass.
- `scenarios.dfy` (module `Scenarios`) follows a piece through concrete moves on an empty glass:
  - repeated left or right presses move it one column per press until the contact test holds at the wall, and no further;
  - a piece falls one row per fall step until its lowest block is above the floor;
  - the O piece spawned at column 5, pressed left three times and right once, ends in column 3 and lands as a 2 x 2 block at rows 26-27, columns 4-5.
- `session.dfy` (module `GameSession`) holds the class `Session`. It is the main program itself: the `State` object, the nine flag variables as fields, the event loop, the frame logic and the `while (running)` loop. Each method is proved to compute the corresponding function of `Game`.

Time is a parameter: every frame receives one tick count `now`. Tick differences are taken modulo 2^32, as `DWORD` subtraction is. The piece choice is the value `rand()` returned, reduced `% 7` as the program does.

Three behaviours the code has and a reader might not expect are modelled as written:

- `removeFullLine` never writes row 0. When every row above the removed one is occupied, row 0 is copied into row 1 and also stays in place (`Glass.TopRowDuplicated`). The rows above the shift are not zero-filled.
- Within one frame the program runs both fall-timer branches (`src/main.c:204-261`) before the key handling (`src/main.c:294-324`), and the model keeps that order (`Game.AfterFrame`). A key pressed in a frame therefore affects the next fall step, not the one in the same frame.
- The rotation turns the piece a quarter to the *left*: the new cell (r, c) is the old cell (c, 3 - r). This agrees with the header's comment, not with the "clockwise" comment above `rotateItem`.

## Model

| member | source | states |
|---|---|---|
| Tetris.ExactlySevenStates | src/tetris.h:85-91 | the phase enumeration has exactly seven values: the ordinal is a bijection onto 0..6 |
| Tetris.FromOrdinal | src/tetris.h:85-91 | the enumerator with ordinal n is the inverse of the declaration order |
| Tetris.FinishedEdges | src/tetris.h:80-82 | in the diagram, GAME_FINISHED is entered only from ITEM_STOPPED and left only to GAME_WELCOME |
| Tetris.PathStep | src/tetris.h:70-83 | a step along the diagram followed by a path of at most n edges is a path of at most n + 1 edges |
| Tetris.PathLonger | src/tetris.h:70-83 | a path of at most n edges is one of at most n + 1 edges |
| Tetris.StepIsPath | src/tetris.h:70-83 | keeping the phase or following one edge is a path of at most one edge |
| Pieces.ShapesAreCatalogue | src/main.c:61-88 | the seven initial shapes are 16-cell pieces with colours 0..5 |
| Pieces.RotatedCell | src/tetris.c:246-272 | after the rotation, cell (r, c) holds the old cell (c, 3 - r) |
| Pieces.RotateFourTimes | src/tetris.c:246-272 | four rotations give back the original piece |
| Pieces.RotatedShape | src/tetris.c:246-272 | a rotation keeps every colour index in range |
| Pieces.RotationOfRotation | src/tetris.c:246-272 | turning an orientation of a shape gives an orientation of that shape |
| Pieces.RotatedNShape | src/tetris.c:246-272 | every orientation of a shape is a shape |
| Pieces.RotationOfShapeIsShape | src/tetris.c:246-272 | a piece that is an orientation of a shape has colours in range |
| Pieces.LeftMarginFrom | src/tetris.c:151-157 | the first column holding a cell > 0, or 4 when there is none; every column before it is empty |
| Pieces.RightMarginFrom | src/tetris.c:169-175 | the last column holding a cell > 0, or -1 when there is none; every column after it is empty |
| Pieces.BottomMarginFrom | src/tetris.c:133-139 | the last row of a column holding a cell > 0, or -1 when there is none; every row below it is empty |
| Pieces.MarginsEncloseCells | src/tetris.c:129-177 | every occupied cell lies between its row's left and right margins and at or above its column's bottom margin |
| Pieces.RowSentinelsAgree | src/tetris.c:147-177 | a row's left margin is 4 exactly when its right margin is -1; otherwise left <= right |
| Pieces.Min4 | src/tetris.c:67-85 | the result is at most each argument and equal to one of them |
| Pieces.Max4 | src/tetris.c:95-113 | the result is at least each argument and equal to one of them |
| Pieces.Min4Max4Cases | tests/tests.c:4-27 | the eight minimum and maximum cases of the unit tests |
| Glass.EmptyGlassHasNoFullRow | src/tetris.c:465-474 | every row of the cleared glass is empty and not full |
| Glass.BottomReadRowBelowFloor | src/tetris.c:231 | the floor test's short circuit keeps the row the bottom test reads inside the glass |
| Glass.LeftMoveStaysInside | src/tetris.c:184-197 | when the left test is false, moving one column left keeps every occupied cell of a shape right of the wall |
| Glass.RightMoveStaysInside | src/tetris.c:204-218 | when the right test is false, moving one column right keeps every occupied cell left of the wall |
| Glass.FallStaysAboveFloor | src/tetris.c:225-238 | when the bottom test is false, moving one row down keeps every occupied cell above the floor, and the cell under each column's bottom margin is empty |
| Glass.CommittedCell | src/tetris.c:308-321 | committing sets the glass cell under every occupied piece cell to its colour and keeps the cells under empty piece cells |
| Glass.CommittedInRange | src/tetris.c:308-321 | committing a shape keeps every glass colour in range |
| Glass.LastShifted | src/tetris.c:345-358 | the last row the shift writes: every row of the shift copies in a non-empty row, and the shift stops at an empty row or at row 1 |
| Glass.ShiftDownRows | src/tetris.c:345-358 | rows LastShifted..line take the row above them; every other row, row 0 included, is unchanged |
| Glass.ShiftDownKeepsRowZero | src/tetris.c:345-358 | row 0 is never written |
| Glass.TopRowDuplicated | src/tetris.c:345-358 | when every row above line is occupied, row 1 becomes a copy of row 0 and row 0 keeps its cells |
| Glass.ShiftDownInRange | src/tetris.c:345-358 | the shift keeps every glass colour in range |
| Glass.ScanFull | src/tetris.c:368-384 | the scan returns the largest full row index up to i, or -1 when none of those rows is full |
| Glass.ScanFullFinds | src/tetris.c:368-384 | the scan finds the full row k when no row below it up to i is full |
| Glass.ClearFullLine | src/tetris.c:365-386 | returns false with the glass unchanged iff no row is full; it is out of range iff row 0 is the only full row; otherwise it shifts at the bottom-most full row and returns true |
| Glass.ClearFullLineInRange | src/tetris.c:365-386 | removing a row keeps every glass colour in range |
| Glass.OneFullRowCleared | src/tetris.c:365-386 | a glass whose only occupied row is full becomes empty, and then nothing is left to remove |
| Glass.TwoFullRowsCleared | src/tetris.c:365-386 | with two adjacent full rows, one call removes the lower one and leaves the upper one, now full, in its place |
| Engine.Elapsed | src/tetris.h:13-17 | the elapsed time is a 32-bit unsigned tick difference |
| Engine.TimerStart | src/tetris.c:7-10 | a restarted timer keeps its interval and shows zero elapsed time |
| Engine.TimerTickAcrossWrap | src/tetris.c:27-30 | a timer restarted at tick last fires d milliseconds later iff d >= its interval, across the wrap of the tick counter |
| Engine.GameStateNamesDistinct | src/tetris.c:37-57 | every phase has its own name, none of which is the fallback "invalid status" |
| Engine.TruncDiv | src/tetris.c:121-122 | C division by a positive block size truncates toward zero, for either sign of the offset |
| Engine.UpdStateOnGrid | src/tetris.c:119-123 | on the block grid updState gives back the cell of the pixel position and changes nothing else |
| Engine.TruncDivExact | src/tetris.c:121-122 | a signed multiple of the block size divides exactly |
| Engine.UpdStateTruncates | src/tetris.c:121-122 | one pixel left of the glass is still cell 0, where floor division would give -1 |
| Engine.RotateTurnsPiece | src/tetris.c:244-275 | rotation turns the current piece, keeps the other six, the position and the glass, and installs the margins of the turned piece |
| Engine.FourRotationsRestore | src/tetris.c:244-275 | four rotations give back the catalogue and the original margins |
| Engine.RotationPersistsInCatalogue | src/tetris.c:246 | the catalogue entry itself is turned, so the shape keeps its orientation the next time it is chosen |
| Engine.FallStepOutcome | src/tetris.c:480-492 | a blocked piece is committed and stops where it is; otherwise it moves one row down (one block of pixels) and the glass is unchanged |
| Engine.FallStepDefined | src/tetris.c:480-492 | a fall step is defined iff the bottom test reads inside the glass and, when it is blocked, the piece lands inside the glass |
| EngineState.CycleIndices | src/tetris.c:252-255 | the four indices of cycle (i, j) are distinct cells of the 4x4 piece |
| EngineState.AllCyclesRotated | src/tetris.c:247-272 | moving cycles (0, 0), (0, 1), (0, 2) and then (1, 1), each as the loop body moves it, yields exactly the quarter turn `Pieces.Rotated` |
| EngineState.State.constructor | src/main.c:54-95 | the record starts as the initial record |
| EngineState.State.UpdState | src/tetris.c:119-123 | recomputes the cell position from the pixel position |
| EngineState.State.ClearGlass | src/tetris.c:465-474 | zeroes the whole glass |
| EngineState.State.GetLeftMargins | src/tetris.c:147-159 | computes the left margins of the current piece, using the array element as the loop variable |
| EngineState.State.GetRightMargins | src/tetris.c:165-177 | computes the right margins of the current piece |
| EngineState.State.GetBottomMargins | src/tetris.c:129-141 | computes the bottom margins of the current piece |
| EngineState.State.CheckItemLeft | src/tetris.c:184-197 | returns true iff some row's left margin passes >= 0 (the sentinel 4 included) and touches the left wall or an occupied cell; it reads only inside the glass and changes nothing |
| EngineState.State.CheckItemRight | src/tetris.c:204-218 | the mirror-image test on the right margins and the right wall |
| EngineState.State.CheckItemBottom | src/tetris.c:225-238 | returns true iff some column's bottom margin touches the floor or an occupied cell |
| EngineState.State.MoveCycle | src/tetris.c:252-270 | one four-cycle of cells moves through a temporary; nothing else changes |
| EngineState.State.TurnRing | src/tetris.c:249-271 | the inner loop moves the cycles (i, i) .. (i, 2 - i) of ring i in order, and touches no other catalogue entry |
| EngineState.State.TurnCycle | src/tetris.c:252-270 | one pass of the inner loop leaves the piece as `CycleMoved` gives it, and touches no other catalogue entry |
| EngineState.State.TurnItem | src/tetris.c:246-272 | the in-place loops turn the current piece and leave the other entries alone |
| EngineState.State.RotateItem | src/tetris.c:244-285 | rotates the piece, recomputes its margins and runs the diagnostic contact tests |
| EngineState.State.CopyBlocksToGlass | src/tetris.c:308-321 | writes every occupied piece cell into the glass and nothing else |
| EngineState.State.CopyBlock | src/tetris.c:314-317 | one pass of the loops copies piece cell (row j, column i) exactly when it is occupied, so the glass takes one more step towards `Glass.Committed` |
| EngineState.CommitStepBoard | src/tetris.c:310-319 | copying cells in column-major order one at a time changes only the glass cell under the copied cell |
| EngineState.State.RemoveFullLine | src/tetris.c:345-358 | the do-while loop performs the row shift for line >= 1 |
| EngineState.State.CopyRowDown | src/tetris.c:350-355 | one pass copies row l - 1 over row l and reports a zero count exactly when the copied row is empty |
| EngineState.State.CheckRemoveFullLine | src/tetris.c:365-386 | the bottom-up scan finds the lowest full row and removes it, reporting whether it did |
| EngineState.State.FallStep | src/tetris.c:480-492 | one fall step on the record |
| Game.StartedWorldConsistent | src/main.c:54-95 | the record before the loop satisfies the invariant: each catalogue entry is its own shape, glass colours are in range, the intervals are 16, 1000 and 75 ms; the initial flags are consistent |
| Game.EventOnlyStarts | src/main.c:149-153 | the only effect of an event on the record is Welcome to Started on Space |
| Game.EventsConsistent | src/main.c:136-200 | the event loop keeps the record consistent and never marks a key processed without its press |
| Game.FallStepConsistent | src/tetris.c:480-492 | a fall step keeps the invariant: catalogue, colours in range, grid position, margins |
| Game.Timer1Consistent | src/main.c:206-231 | the TIMER_1 branch keeps the invariant |
| Game.Timer2Consistent | src/main.c:234-261 | the TIMER_2 branch keeps the invariant |
| Game.SpawnConsistent | src/main.c:280-293 | a new piece sits on the grid with its margins |
| Game.UpKeyConsistent | src/main.c:314-319 | a rotation keeps every catalogue entry an orientation of its own shape |
| Game.PhaseConsistent | src/main.c:268-332 | the phase switch keeps the invariant |
| Game.FrameConsistent | src/main.c:202-338 | a frame keeps the invariant and the key flags consistent |
| Game.IterationConsistent | src/main.c:134-338 | a pass of the loop keeps the invariant |
| Game.RunConsistent | src/main.c:134-343 | every record the loop reaches is consistent |
| GameProperties.EventsFollowDiagram | src/main.c:149-153 | the events of a pass only take Welcome to Started |
| GameProperties.FrameFollowsDiagram | src/main.c:202-338 | a frame moves the phase along at most three diagram edges and never into GAME_FINISHED |
| GameProperties.IterationNeverFinishes | src/main.c:134-338 | no pass of the loop enters GAME_FINISHED |
| GameProperties.HandleKeysFollowsDiagram | src/main.c:295-325 | the key actions keep the phase or switch to fast fall |
| GameProperties.FrameAdvancesKeys | src/main.c:295-325 | a frame keeps running and every pressed flag, and only sets processed flags of pressed keys |
| GameProperties.OnlyReleaseClearsProcessed | src/main.c:171-196 | a processed flag is cleared only by the release of its own key |
| GameProperties.RunningOnlyCleared | src/main.c:141-148 | the running flag is cleared by Q or the quit event and never set again |
| Game.KeyDownCases | src/main.c:145-170 | each case of the press switch: Q clears running; Space, A/Left, D/Right and W/Up set their own pressed flag; any other key changes nothing |
| Game.KeyUpCases | src/main.c:171-196 | each case of the release switch clears both flags of its own action; Q and any other key change nothing |
| GameProperties.KeyDownFlags | src/main.c:145-170 | a press never touches a processed flag and clears running exactly for Q |
| GameProperties.KeyUpClears | src/main.c:171-196 | a release clears a processed flag only for its own key and leaves running alone |
| GameProperties.HandleKeysAdvance | src/main.c:295-325 | the four key actions only set processed flags of keys that are pressed |
| GameProperties.FallStepFollowsDiagram | src/tetris.c:480-492 | a fall step keeps the phase or switches to ITEM_STOPPED |
| GameProperties.Timer1FollowsDiagram | src/main.c:206-231 | the TIMER_1 branch keeps the phase or follows one diagram edge, never into GAME_FINISHED |
| GameProperties.Timer2FollowsDiagram | src/main.c:234-261 | the TIMER_2 branch keeps the phase or follows one diagram edge, never into GAME_FINISHED |
| GameProperties.PhaseFollowsDiagram | src/main.c:268-332 | the phase switch keeps the phase or follows one diagram edge, never into GAME_FINISHED |
| GameProperties.LeftKeyOutcome | src/main.c:297-305 | a pending left press moves one column (25 px) left iff the left test is false, and marks the press processed |
| GameProperties.RightKeyOutcome | src/main.c:306-313 | a pending right press moves one column right iff the right test is false |
| GameProperties.LeftMoveKeepsPieceInside | src/main.c:297-305 | after a left move every occupied cell is still right of the left wall |
| GameProperties.RightMoveKeepsPieceInside | src/main.c:306-313 | after a right move every occupied cell is still left of the right wall |
| GameProperties.UpKeyOutcome | src/main.c:314-319 | a pending up press turns the piece in place with no contact test, keeping the position, the glass and the phase |
| GameProperties.PutKeyOutcome | src/main.c:320-324 | a pending space press sets fast fall and touches neither position nor glass |
| GameProperties.ProcessedKeysAreIdle | src/main.c:295-325 | a key whose press was processed does nothing in later frames |
| GameProperties.Timer1Outcome | src/main.c:206-231 | TIMER_1 runs iff it ticks, moves only a slowly falling piece, and restarts at now, so missed intervals are not made up |
| GameProperties.Timer2Outcome | src/main.c:234-261 | TIMER_2 moves only a fast falling piece, clears rows only for a stopped one, and restarts at now |
| GameProperties.StoppedStepOutcome | src/main.c:250-256 | a stopped piece becomes ItemStarted iff no row is full; otherwise one row is removed and it stays stopped |
| GameProperties.FrameWaitsForFrameTimer | src/main.c:202-341 | nothing changes until the frame timer ticks; then it restarts at now |
| GameProperties.QuietFrameKeepsFallTimers | src/main.c:206-261 | a fall timer that does not tick keeps its restart tick |
| GameProperties.SpaceStartsGame | src/main.c:149-153 | Space on the welcome screen starts the game and leaves a drop request pending |
| GameProperties.StartedFrameClearsGlass | src/main.c:276-279 | the first frame of a started game empties the glass and makes a piece due |
| GameProperties.ItemStartedFrameSpawns | src/main.c:280-293 | a due piece appears at cell (5, 0), pixel (550, 50), with its margins, falling slowly |
| GameProperties.HeldSpaceDropsFirstPiece | src/main.c:149-153 | an unreleased Space that started the game sends the first piece into fast fall one frame after it appears |
| GameProperties.LeftSentinelReadsBelowGlass | src/tetris.c:188-190 | an O piece at row 25, wholly inside an empty glass, makes a left press read row 28 through the sentinel 4 |
| GameProperties.RotationPushesPieceOutOfGlass | src/main.c:314-319 | an I piece in column -1 turned with no contact test lies across column -1, and its next fall step reads outside the glass |
| GameProperties.TurnedIPiece | src/tetris.c:244-275 | the turned I piece fills row 2, with margins [4, 4, 0, 4], [-1, -1, 3, -1] and [2, 2, 2, 2] |
| Scenarios.LeftPressStep | src/main.c:297-305 | on an empty glass at the top row, the left test is true iff the smallest left margin reaches the wall; a left press otherwise moves one column left, and is the frame's whole key handling |
| Scenarios.RightPressStep | src/main.c:306-313 | the mirror image: the right test is true iff the largest right margin reaches the wall; a right press otherwise moves one column right |
| Scenarios.LeftStopBlocks | src/tetris.c:184-197 | the column where the left test first holds on an empty glass lies in -4..0, and the test holds there |
| Scenarios.RightStopBlocks | src/tetris.c:204-218 | for a piece with an occupied cell, the column where the right test first holds lies in 10..13, and the test holds there |
| Scenarios.LeftPressesReachWall | src/main.c:297-305 | n left presses leave the piece at column max(gx - n, stop column), so after gx + 4 presses it is against the wall and further presses do nothing |
| Scenarios.RightPressesReachWall | src/main.c:306-313 | n right presses leave the piece at column min(gx + n, stop column), so after 13 - gx presses the right test holds |
| Scenarios.FallsFreely | src/tetris.c:480-492 | on an empty glass, n fall steps move the piece n rows down and leave the glass empty while its lowest block stays above the floor |
| Scenarios.OLands | src/tetris.c:308-321 | the O piece at column 3, row 25 of an empty glass stops, and the glass then holds its colour exactly at rows 26-27, columns 4-5 |
| Scenarios.OPieceScenario | src/main.c:297-313 | the O piece at column 5, pressed left three times and right once, ends in column 3; 25 fall steps take it to row 25 and the next lands it as a 2 x 2 block at rows 26-27, columns 4-5 |
| GameSession.Session.constructor | src/main.c:118-131 | the flags start cleared with running set, and the three timers start at now |
| GameSession.Session.HandleEvent | src/main.c:141-199 | one event updates the flags and the phase as the event switch does |
| GameSession.Session.KeyDown | src/main.c:145-170 | a key press sets its pressed flag, or clears running for Q |
| GameSession.Session.KeyUp | src/main.c:171-196 | a key release clears its pressed and processed flags |
| GameSession.Session.HandleEvents | src/main.c:138-200 | the event loop applies the queued events in order |
| GameSession.Session.SlowTimer | src/main.c:206-231 | the object ends in the state Game.Timer1Branch gives for its old state |
| GameSession.Session.FastTimer | src/main.c:234-261 | the object ends in the state Game.Timer2Branch gives, the row removal done by CheckRemoveFullLine |
| GameSession.Session.HandleLeft | src/main.c:297-305 | record and flags end as Game.LeftKey gives them |
| GameSession.Session.HandleRight | src/main.c:306-313 | record and flags end as Game.RightKey gives them |
| GameSession.Session.HandleUp | src/main.c:314-319 | record and flags end as Game.UpKey gives them |
| GameSession.Session.HandlePut | src/main.c:320-324 | record and flags end as Game.PutKey gives them |
| GameSession.Session.SpawnItem | src/main.c:280-293 | places the chosen piece at the spawn position with its margins |
| GameSession.Session.Phase | src/main.c:268-332 | record and flags end as Game.PhaseBranch gives them |
| GameSession.Session.Frame | src/main.c:202-338 | record and flags end as Game.AfterFrame gives them |
| GameSession.Session.Iterate | src/main.c:136-338 | one pass of the loop: events, then the frame |
| GameSession.Session.Run | src/main.c:134-343 | the while (running) loop over a sequence of passes; it ends once running is false |

## Left out

- SDL and TTF setup and teardown, the display-mode enumeration, window and renderer creation (`src/main.c:13-116`, `345-350`): platform I/O with no effect on the game state.
- Rendering: `drawItem`, `drawGlass`, the welcome screen, the screen clear and `SDL_RenderPresent`. These are pure output.
- Debug output: `printItem`, `printGlass`, the trace prints and the `printf` inside `rotateItem`. The diagnostic loop in `rotateItem` still calls `checkItemLeft` and `checkItemRight`, so their out-of-range reads are part of `AfterRotate`. Only the printing is dropped.
- SDL event polling: the events a pass sees are an input sequence.
- `GetTickCount` is a parameter. One tick count serves a whole frame, where the C code reads the clock again for each timer test and restart.
- `SDL_Delay(1)` in an idle pass: waiting there has no effect on the state.
- `SDL_Delay(500)` after a spawn (`src/main.c:291`) is not modelled. In the program it runs before the frame timer is restarted (`src/main.c:337`), so after a spawn frame the frame timer restarts at least 500 ms after the frame's tick. The model restarts it at the frame's tick `now`, as for every other frame. A frame sequence that follows a spawn within 500 ms, such as the one in `GameProperties.HeldSpaceDropsFirstPiece`, therefore has no counterpart in the program with those tick values, though its outcome does not depend on them.
- `rand()`: its value is a pass input, reduced `% 7` as the program does.
- The colour table, `fps`, the window position and the glass pixel geometry are constants here, not record fields. So are `block_size`, `glass_x` and `glass_y`, which the program never changes.
- Argument parsing, which the header only declares.
- `EngineState.InitialWorld`: the frame timer's interval is `1000 / ST.fps` inside the initializer of `ST` itself. C does not settle whether `ST.fps` already holds 60 there. The model takes the evident 16 ms.
- Integer widths: margins and piece cells are `int8_t`, glass cells `uint8_t`, in C. Every value the game stores (-1..5) fits, so the model uses unbounded integers. The `DWORD` tick difference is the one width modelled.
- Out-of-bounds accesses are not given a meaning. The C code reads a neighbouring row of the same array, or memory outside it. The model yields `OutOfRange`, and every `State`/`Session` method requires the in-range case.
- `GAME_FINISHED` is never assigned by the code, so the model never reaches it (`GameProperties.IterationNeverFinishes`). The diagram's GAME_FINISHED edges exist only in `Tetris.Edge`.
- `Game.AfterFrame`: its own ensures states only well-formedness. What a frame does is stated by the lemmas of `GameProperties` and by the invariant lemma `Game.FrameConsistent`.
- `Scenarios.OPieceScenario`, `Scenarios.LeftPressesReachWall`, `Scenarios.RightPressesReachWall`, `Scenarios.FallsFreely`: the sequences apply the key action of each press and each fall step directly, not whole frames with their events and timers. `Scenarios.LeftPressStep` and `Scenarios.RightPressStep` show that a lone press is the frame's whole key handling; the events that release the key between presses and the timer ticks that drive the fall are not composed in.
- The minunit test runner itself. Its eight cases are stated by `Pieces.Min4Max4Cases`.
