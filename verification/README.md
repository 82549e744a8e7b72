# Sokoban puzzle engine in Dafny

A model of the puzzle engine of `SokobanGame.py`, a single-file box-pushing game written with
pygame. The player walks on a grid and pushes boxes onto target cells; a level is won when every
target is covered by a box and lost when a box that is not on a target has a wall or box beside
it on both axes, so it cannot be pushed for now. A neighbouring box may later be pushed away, so
the test can call a level lost that is still solvable.
Three hand-authored levels are played in order. After a win the game waits 3000 ms and then
advances. After a loss it waits 3000 ms and then lets any key restart the level.

The model has five modules, one per part of the engine:

- `Blueprint` (`blueprint.dfy`): positions, boards, and the row-major scan of a text grid.
  - `Parse` is the scan as a fold over rows and characters. `ParseMap` is the parser as the game
    runs it, two nested loops that append to lists, and is proved equal to `Parse`.
  - The lemmas characterise the result. A cell is in the wall, box or target list exactly when
    it holds `#`, `B` or `O`. Each list is in row-major order, so it has no duplicates. The
    player is the last `P` in scan order, or (0, 0) when there is none.
- `Catalog` (`catalog.dfy`): the three levels, the index of the last one, and the cell-size helper.
- `Rules` (`rules.dfy`): the board-level rules, on board values.
  - One player step with box pushing (`Step`).
  - Python's `list.remove`, which removes the first occurrence (`RemoveFirst`).
  - The win test (`Won`) and the stuck test (`IsBoxStuck`, `Lost`).
  - The board invariant `BoardValid`: the player is on no wall and no box, the boxes are
    pairwise distinct, and no box is on a wall.
- `StateMachine` (`statemachine.dfy`): everything the game object keeps, as a value `Session`.
  Functions give level (re)initialisation, the evaluation after a move, a move request, a batch
  of window events, the timed progression and one main-loop pass. `SessionValid` is the
  invariant the game keeps, and the lemmas prove that every operation preserves it.
- `Game` (`game.dfy`): the class `SokobanGame`. The board and the flags are fields updated in
  place. Each method is proved to change the fields exactly as the matching `StateMachine`
  function changes a `Session`.

Clock readings (`pygame.time.get_ticks()`) are a parameter `now`. The win and failure timestamps
are fields, as in the game object.

The parser does no validation: with no `P` the player stays at (0, 0), and with several the last
one wins. The model follows the code. Every level in the catalog has a player cell (`LevelHasPlayer`), so the invariant holds from the start.

The victory flag and the final-victory flag are tied together. The session invariant states that
`finalVictory` holds exactly when `victory` holds on the last level. The check after the winning
move sets both (SokobanGame.py:209-215). So the branch of the main loop that would set
`final_victory` for a win on the last level (SokobanGame.py:302-303) is never reached. The
function `StateMachine.Tick` keeps that branch. The method `Game.SokobanGame.Tick` marks it
unreachable with a proof (`LastLevelWinIsFinal`).

## Model

| member | source | states |
|---|---|---|
| `Blueprint.ParseMap` | SokobanGame.py:68-86 | The nested loops build exactly the scan's board. Walls, boxes and targets are exactly the `#`/`B`/`O` cells, each list in row-major order. The player is the last `P`, or (0, 0) with none. |
| `Blueprint.Parse` | SokobanGame.py:68-86 | The definition of the scan, as a fold over rows and characters. Its properties are stated by `ParseItems`, `ParseRowMajor` and `ParsePlayer`, and `ParseMap` is proved equal to it. |
| `Blueprint.ParseItems` | SokobanGame.py:76-85 | A position is in the wall / box / target list of a parsed grid iff row `y`, column `x` holds `#` / `B` / `O`. |
| `Blueprint.ParseRowMajor` | SokobanGame.py:76-85 | Each list of a parsed grid is strictly increasing in row-major order, hence duplicate-free. |
| `Blueprint.ParsePlayer` | SokobanGame.py:71-81 | With a `P` in the grid the player is a `P` cell with no `P` after it in scan order; with none it is (0, 0). |
| `Blueprint.ScanRowItems` | SokobanGame.py:77-85 | Scanning one row adds exactly that row's cells of a glyph to the matching list. |
| `Blueprint.ScanRowsItems` | SokobanGame.py:76-85 | Scanning the rows adds exactly the grid's cells of a glyph to the matching list. |
| `Blueprint.ScanRowRowMajor` | SokobanGame.py:77-85 | Scanning one row appends positions of that row, at columns inside it, after everything already collected, keeping the list sorted. |
| `Blueprint.ScanRowsRowMajor` | SokobanGame.py:76-85 | Scanning the rows yields lists in row-major order whose row numbers all lie in 0 .. rows - 1. |
| `Blueprint.ScanRowPlayer` | SokobanGame.py:77-81 | After a row, the player is that row's last `P`, or unchanged when the row has none. |
| `Blueprint.ScanRowsPlayer` | SokobanGame.py:71-81 | After all rows, the player is the grid's last `P` in scan order, or (0, 0). |
| `Catalog.LevelHasPlayer` | SokobanGame.py:20-42 | Every level of the catalog has a player cell. |
| `Catalog.LevelSizable` | SokobanGame.py:20-42 | Every level has at least one row and a row of positive length. |
| `Catalog.MaxCols` | SokobanGame.py:90 | The result bounds every row's length and is the length of some row. |
| `Catalog.CellSize` | SokobanGame.py:88-92 | The cell size fits the widest row in the width and all rows in the height, and is the largest such size. |
| `Catalog.FloorDivFits` | SokobanGame.py:92 | Proof step for `CellSize`: on naturals `/` is Python's `//`, the largest count of divisors that fits. |
| `Rules.ParsedBoardValid` | SokobanGame.py:68-86 | A grid with a player cell parses to a board satisfying the invariant: player on no wall or box, boxes distinct and off walls. |
| `Rules.FirstIndex` | SokobanGame.py:200 | The index returned holds the value, and no earlier index does. |
| `Rules.RemoveFirst` | SokobanGame.py:200 | Removal shortens the list by one and removes exactly one copy of the value, as a multiset. |
| `Rules.RemoveFirstDistinct` | SokobanGame.py:200 | On a duplicate-free list, removal keeps it duplicate-free and drops exactly that value. |
| `Rules.Step` | SokobanGame.py:189-203 | Blocked iff the destination is a wall, or a box whose far cell is a wall or box. On success the player is at the destination and walls and targets are kept. Boxes are unchanged, or exactly the pushed box moved one cell further. |
| `Rules.StepPreservesValid` | SokobanGame.py:192-203 | A successful step keeps the board invariant and the number of boxes. |
| `Rules.Won` | SokobanGame.py:208 | The definition of the win test: every target is covered by some box. `MoveOutcome` states its use after a move. |
| `Rules.IsBoxStuck` | SokobanGame.py:228-242 | The definition of the stuck test: no entry of the four-entry direction list has both neighbours free of walls and boxes. `StuckOnBothAxes` characterises it and `StuckBoxCannotBePushed` states what it guarantees. |
| `Rules.Lost` | SokobanGame.py:221-226 | The definition of the loss test: some box off every target is stuck. `MoveOutcome` states its use after a move. |
| `Rules.StuckOnBothAxes` | SokobanGame.py:228-242 | A box is stuck iff a wall or box sits left or right of it, and another sits above or below it. The four-entry direction list tests only the two axes. |
| `Rules.StuckBoxCannotBePushed` | SokobanGame.py:228-242 | A box the stuck test flags stays in place under any successful single step along the four directions. The cell it would enter is a wall or box, or the cell the player would push from is, and the player never stands there. |
| `StateMachine.Restart` | SokobanGame.py:59-66 | Re-initialising keeps the level and timestamps, sets the board to the level's parsed blueprint and clears all three flags; the result satisfies the invariant. |
| `StateMachine.Start` | SokobanGame.py:46-57 | The game starts on level 0 with its freshly parsed board, no outcome and both timestamps 0, satisfying the invariant. |
| `StateMachine.Move` | SokobanGame.py:185-204 | After a win or loss, or on a blocked step, nothing changes: board, flags and timestamps. The level never changes. |
| `StateMachine.MoveOutcome` | SokobanGame.py:204-226 | After a successful move, victory iff all targets are covered. Final victory iff that happens on the last level. Lost iff not won and a box off target is stuck. Timestamps are set accordingly. |
| `StateMachine.MovePreservesValid` | SokobanGame.py:185-226 | Every move keeps the session invariant: board invariant, box count, walls and targets of the level, and flags consistent with the board. |
| `StateMachine.Evaluate` | SokobanGame.py:206-226 | The definition of the check after a move: win sets victory (and final victory on the last level) with its timestamp, otherwise a stuck box off target sets game over with its timestamp. `MoveOutcome` states it, and `CheckGameState` is proved equal to it. |
| `StateMachine.Dispatch` | SokobanGame.py:244-273 | The definition of one batch of window events. `DispatchLevel`, `DispatchPreservesValid`, `RestartAfterLoss` and `LostIgnoresKeys` state its properties, and `HandleEvents` is proved equal to it. |
| `StateMachine.DispatchLevel` | SokobanGame.py:244-273 | Handling events never changes the level index. |
| `StateMachine.DispatchPreservesValid` | SokobanGame.py:244-273 | Any batch of events keeps the session invariant. |
| `StateMachine.RestartAfterLoss` | SokobanGame.py:250-254 | After a loss older than 3000, a key restarts the same level: fresh board, flags cleared, rest of the batch dropped. |
| `StateMachine.LostIgnoresKeys` | SokobanGame.py:185-187 | Within 3000 of a loss, every key but Escape leaves the session as it was. |
| `StateMachine.Tick` | SokobanGame.py:290-303 | The definition of the timed progression of the main loop. `TickProgress` and `LastLevelWinIsFinal` state its properties, and `Game.SokobanGame.Tick` is proved equal to it. |
| `StateMachine.TickProgress` | SokobanGame.py:290-303 | Final victory ends the program. A win older than 3000 moves to the next level with a fresh board and cleared flags. Otherwise nothing changes, and the invariant (level in range) holds throughout. |
| `StateMachine.LastLevelWinIsFinal` | SokobanGame.py:298-303 | A win not yet marked final is never on the last level. |
| `StateMachine.Frame` | SokobanGame.py:285-305 | The definition of one main-loop pass: the event batch, then the timed progression unless the events quit. `FramePreservesValid` states its invariant. |
| `StateMachine.Run` | SokobanGame.py:285-305 | The definition of a finite sequence of main-loop passes, stopping at the first that quits. `RunPreservesValid` states its invariant. |
| `StateMachine.FramePreservesValid` | SokobanGame.py:285-305 | One pass of the main loop keeps the session invariant. |
| `StateMachine.RunPreservesValid` | SokobanGame.py:285-305 | Any sequence of main-loop passes keeps the session invariant. |
| `Game.SokobanGame.constructor` | SokobanGame.py:46-57 | The new object holds the starting session and satisfies the invariant. |
| `Game.SokobanGame.InitGame` | SokobanGame.py:59-66 | The fields become the re-initialised session of the current level. |
| `Game.SokobanGame.CheckGameState` | SokobanGame.py:206-226 | The loop over the boxes sets the flags and timestamps exactly as the evaluation does. |
| `Game.SokobanGame.MovePlayer` | SokobanGame.py:185-204 | The in-place update, including `remove` and `append` on the box list, yields the session `Move` gives, and keeps the invariant. |
| `Game.SokobanGame.HandleEvents` | SokobanGame.py:244-273 | The event loop yields the session and quit flag `Dispatch` gives, and keeps the invariant. |
| `Game.SokobanGame.Tick` | SokobanGame.py:290-303 | The timed progression yields the session and exit flag `Tick` gives, and keeps the invariant. |
| `Game.SokobanGame.RunFrame` | SokobanGame.py:285-305 | One pass of the main loop yields what `Frame` gives, and keeps the invariant. |

## Left out

- Drawing and messages (`draw`, `draw_player`, `draw_target`, `show_message`, the colour constants): pygame rendering with no game logic.
- The `last_state` bookkeeping: it only decides when to clear the screen.
- Window management (`set_mode`, `toggle_fullscreen`, `set_caption`, resize handling): calls into pygame. The `f` key and resize events are modelled as leaving the puzzle unchanged.
- The `cell_size` field: `CellSize` models the computation, with the window size as parameters, but no method stores it.
- `pygame.quit`, `sys.exit`, `clock.tick(60)` and `pygame.time.wait(3000)`: process control and timing. Ending the program is the `quit`/`exit` result.
- `pygame.time.get_ticks`: replaced by the parameter `now`. One reading serves a whole pass of the main loop, whereas the game reads the clock anew at each call.
- The endless `while True` of `run`: modelled one pass at a time (`RunFrame`, `Frame`) and as a finite sequence of passes (`Run`).
- Game.SokobanGame.Tick: the branch that sets `final_victory` for a win on the last level (SokobanGame.py:302-303) is proved unreachable and carries no assignment. `StateMachine.Tick` keeps it.
