# 2048 of Life: the game model

This project models `GameModel`, the game-state object of the iOS puzzle game
"2048 of Life", and proves properties of it. The model covers:

- the square board of cells, each `Empty` or `Tile(value)`;
- the score;
- the first-in first-out queue of swipe commands, guarded by `maxCommands`;
- the move delay timer, reduced to whether it is scheduled;
- tile insertion at a given cell, and at a random open spot.

Modules:

- `Tiles` (`tiles.dfy`): cells, positions, and boards as values.
- `MoveQueue` (`move_queue.dfy`): move commands, the completion calls they
  cause, and the game's move taken as an oracle. `Drain` specifies one firing
  of the timer as a function. `RunAll` is an independent reference: it runs
  every command without stopping. The lemmas connect the two.
- `Placement` (`placement.dfy`): `arc4random_uniform`, and the index chosen
  among the open spots, both as written and corrected (see Findings).
- `Game` (`game_model.dfy`): the class `GameModel`. Its fields are the score,
  a `const` board `array2<TileObject>` whose cells the methods change in
  place, the `queue` sequence and the `timerValid` flag. Two logs record the
  callbacks the object makes: `completions` for each completion callback
  invocation, and `notices` for the delegate notifications `scoreChanged`
  and `insertTile`. `TimerFired` is the source's `while` loop, proved against
  `Drain`.

Object invariants: `Valid()` says the board is `dimension` by `dimension`
and the queue has at most `maxCommands + 1` = 101 entries. `Live()` says that
whenever commands are queued, the timer is scheduled, so queued commands never
stall. Every public method preserves both.

Outside inputs become parameters:

- The game's merge-and-slide move (`performMove`, whose code is not part of
  this model) is a parameter `move: (Direction, Grid, int) -> MoveOutcome`.
  It returns whether the board changed, plus the new board and score. The
  methods that run moves require that `move` keeps an n-by-n board n-by-n.
- The random source is a parameter `draw`.
- A completion closure is represented by its identity, a `nat`.

Two details of the source matter for what is proved:

- The queue guard admits one command more than `maxCommands`. `maxCommands`
  is 100 (`GameModel.swift:36`), and the guard `queue.count <= maxCommands`
  (`GameModel.swift:59`) still appends when 100 commands are queued. The
  model keeps that guard, so the queue can hold 101 commands.
- The choice of an open spot does not match its comment. The comment says
  "Randomly select an open spot" (`GameModel.swift:116`). The draw
  `arc4random_uniform(UInt32(openSpots.count-1))` (`GameModel.swift:117`)
  never picks the last listed spot when there are two or more.
  `Placement.SpotIndexAsWritten` follows the code.
  `Game.GameModel.InsertTileAtRandomLocation` does not: it uses the corrected
  index `Placement.SpotIndex`, which can pick any open spot (see Findings).
  For example, with 3 open spots and draw 2, the class method fills the last
  listed spot, which the code never can.

`TimerExpired` models the run loop delivering the scheduled non-repeating timer
(`repeats: false`) as two steps: the timer stops being valid, then `timerFired`
runs. The run loop actually invalidates a one-shot timer after its callback
returns. The net `timerValid` is the same in both orders, under two
conditions: `timerFired` never reads `isValid`, and completions do not call
back into the model (see Left out).

## Model

| member | source | states |
|---|---|---|
| `Game.GameModel.constructor` | 2048_of_Life/Models/GameModel.swift:39-47 | a new model has the given dimension and threshold, an all-empty board, score 0, an empty queue and no timer scheduled |
| `Game.GameModel.Reset` | 2048_of_Life/Models/GameModel.swift:50-55 | afterwards the score is 0 (the delegate is told so), every cell is empty, the queue is empty and the timer is not valid; no completion is called |
| `Game.GameModel.QueueMove` | 2048_of_Life/Models/GameModel.swift:58-68 | with more than `maxCommands` queued, nothing changes and no completion is called; otherwise the command is appended; if no timer was scheduled, it runs at once, its completion gets its move's result, and the timer is valid exactly when that move changed the board; the queue never exceeds 101 entries |
| `Game.GameModel.TimerFired` | 2048_of_Life/Models/GameModel.swift:72-96 | on an empty queue nothing changes; otherwise the new board, score, queue and completion calls are those of `Drain` on the old queue and state, and the timer is re-armed exactly when the last move run changed the board |
| `Game.GameModel.TimerExpired` | 2048_of_Life/Models/GameModel.swift:90-94 | when the scheduled timer goes off, the state becomes that of `Drain`, and the timer is valid afterwards exactly when the drain's last move changed the board |
| `Game.GameModel.PerformMove` | 2048_of_Life/Models/GameModel.swift:82 | the board and score become the move's outcome, and the result is the move's changed flag |
| `Game.GameModel.InsertTile` | 2048_of_Life/Models/GameModel.swift:101-107 | the cell becomes `Tile(value)` if it was empty and is left as it was otherwise; no other cell changes; the delegate is notified exactly when a tile was placed |
| `Game.GameModel.EmptySpots` | 2048_of_Life/Models/GameModel.swift:111 | the list holds exactly the empty cells of the board, each once |
| `Game.GameModel.InsertTileAtRandomLocation` | 2048_of_Life/Models/GameModel.swift:110-119 | with no empty cell nothing changes; otherwise exactly one previously empty cell becomes `Tile(value)`, the delegate is told which one, and every other cell is unchanged; the spot is picked with the corrected index `Placement.SpotIndex`, not the as-written bound |
| `MoveQueue.DrainFifo` | 2048_of_Life/Models/GameModel.swift:79-81 | a drain runs commands from the front in queue order, at least one if any is queued, with one completion call per command run; the unrun commands stay queued in their original order |
| `MoveQueue.DrainStopsAtFirstChange` | 2048_of_Life/Models/GameModel.swift:79-88 | every move before the last one run left the board unchanged; the drain reports a change exactly when its last move made one; when no move changed the board, the queue ends empty |
| `MoveQueue.DrainFollowsRunAll` | 2048_of_Life/Models/GameModel.swift:78-88 | the state and calls of a drain are those of running the first k commands unconditionally, where k is the number run, and the rest of the queue is untouched |
| `MoveQueue.DrainReportsEachMove` | 2048_of_Life/Models/GameModel.swift:80-83 | the i-th completion called goes to the i-th queued command and receives that command's move result, computed on the state the earlier commands left |
| `MoveQueue.RunAllReportsEachMove` | 2048_of_Life/Models/GameModel.swift:80-83 | running commands one after another makes one call per command, and the i-th call carries the i-th command's move result on the state the first i commands left |
| `MoveQueue.RunAllLength` | 2048_of_Life/Models/GameModel.swift:79-83 | running a list of commands makes exactly one completion call per command |
| `Placement.Arc4RandomUniform` | 2048_of_Life/Models/GameModel.swift:117 | the random value is below its bound, and is 0 when the bound is 0 or 1 |
| `Placement.Arc4RandomUniformCovers` | 2048_of_Life/Models/GameModel.swift:117 | every value below the bound can come out of the random source |
| `Placement.SpotIndexAsWritten` | 2048_of_Life/Models/GameModel.swift:117 | the index chosen as written lies below max(1, count - 1), so it is a valid index into the open spots |
| `Placement.LastSpotNeverChosen` | 2048_of_Life/Models/GameModel.swift:117 | as written, with two or more open spots, the last one listed is never chosen |
| `Placement.TwoSpotsAlwaysFirst` | 2048_of_Life/Models/GameModel.swift:117 | as written, with exactly two open spots, the first is chosen whatever the draw |
| `Placement.SpotIndex` | 2048_of_Life/Models/GameModel.swift:116-118 | the corrected index is a valid index into the open spots |
| `Placement.EverySpotReachable` | 2048_of_Life/Models/GameModel.swift:116-118 | under the corrected index, every open spot can be chosen |

## Left out

- `performMove`, the merge-and-slide routine, is not part of this model. It is taken as the `move` parameter, and no merge or slide rule is assumed. The delegate notifications it sends (`moveOneTile`, `moveTwoTile`, and `scoreChanged` for the score changes it causes) are therefore not in the `notices` log.
- `gameboardEmptySpots` and `SquareGameboard` are not part of this model. `EmptySpots` lists the empty cells row by row, but its contract leaves the order open, as the source does.
- Timer scheduling with its 0.3 second delay and the run loop are reduced to the `timerValid` flag. A timer created by `Timer()` in `init` is taken as not scheduled.
- `arc4random_uniform`'s randomness is the `draw` parameter. The trap that `UInt32(...)` would raise on more than 2^32 open spots cannot occur on a board of practical size and is not modelled.
- Completions are assumed not to touch the model while a drain runs. A command's completion is only an identity, and calling it only appends to `completions`. In the source, `command.completion(changed)` (`GameModel.swift:83`) runs arbitrary caller code in the middle of the `timerFired` loop. That code could call back into the model with `queueMove`, `timerFired` or `insertTileAtRandomLocation`. The model excludes such re-entry, in particular a nested `queueMove` or `timerFired` while the timer is still invalid. `TimerFired`'s final state equal to `Drain`, `QueueMove`'s empty queue after an immediate run, and `TimerExpired`'s ordering of invalidation all hold only under this assumption.
- The delegate is not modelled as an object. Its notifications are only recorded, in `notices`.
- `Game.GameModel.InsertTileAtRandomLocation` uses the corrected index `SpotIndex`, not the as-written bound `count - 1`. The as-written behaviour is modelled and proved by `SpotIndexAsWritten`, `LastSpotNeverChosen` and `TwoSpotsAlwaysFirst` (see Findings).
- `Game.GameModel.InsertTile` requires the position to be on the board. The source's board subscript does not accept other positions.
- `threshold` is stored but not used by any modelled operation.
- `Tile.swift`, a view that colours a tile, and `ViewController.swift`, storyboard glue, are presentation code and not part of this model.

## Findings

| source | as written | input that shows it | evidently intended | confidence | as-written member | corrected member |
|---|---|---|---|---|---|---|
| 2048_of_Life/Models/GameModel.swift:117 | `arc4random_uniform(UInt32(openSpots.count-1))` draws below count - 1 | two open spots: the index is always 0, so the second spot never gets a tile | draw below `openSpots.count`, so every open spot can be chosen ("Randomly select an open spot") | high; not executed | `Placement.LastSpotNeverChosen` | `Placement.EverySpotReachable` |
