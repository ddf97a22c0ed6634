# Retro arcade rules, modelled in Dafny

This project models the rule layer of a React "retro arcade" site: a simulated cabinet
that takes coins, a paged game menu, and sixteen game components (Tetris, Snake,
Tempest, Q*bert, Pac-Man, Centipede, Space Invaders, Galaga, Defender, Mortal Kombat,
Street Fighter, Frogger, Paperboy, Pitfall, Donkey Kong and Pong).

Each component is a Dafny `class` whose fields are the component's `useState` hooks.
Its key handler is a method `Key(key, playing)` and one firing of its game-loop interval
is a method `Tick(playing, ...)`; `playing` stands for `gameState === 'playing'`, and
every `Math.random()` draw or `Date.now()` value the tick consumes is a parameter.
The rules inside those handlers — clamps, wraps, damage tables, the collision passes,
the jump physics, line clearing — are pure functions with contracts, and the properties
the games promise are lemmas about those functions. Each method's `ensures` ties the new
state to those functions of the old state, and a `Valid()` invariant (positions inside
the field, ids below their counters and, where the game keeps one, a score that agrees
with the board) is kept by every method; where the source's own rule would break such an
invariant, the method uses the corrected rule named under Findings.

Two conventions run through every game:

- **Stale snapshots.** A tick body reads the `score` captured by its closure and calls
  `setScore(score + points)` once per hit, so several hits in one tick leave
  snapshot + points, not snapshot + k·points. The models reproduce this (the
  `TickScore`/`ScoreStep` functions).
- **Captured closures.** A handler or interval sees the state of the render at which
  its dependency list last changed. Where that differs from the current state, the class
  keeps the captured value as a field of its own: Paperboy's `seen` (the rider the bump
  test reads) and Tetris's `keyBoard` (the board the key handler tests moves against).
- **State updates in program order.** A `setState` called from inside another
  `setState` updater is applied in the order the statements appear.

The "first bullet wins" collision pass, repeated in Tempest, Centipede, Space Invaders,
Galaga, Defender and Paperboy, is written once in the `Collision` module. It is a pure
specification `Resolve` and an imperative `FirstHitPass` that does the source's
`find` + `splice` loop. Both are generic in the proximity predicate. The lemmas about
`Resolve` prove three things: a projectile is consumed at most once, each target is hit
by at most one projectile, and the number of removed projectiles equals the number of hits.

Files: `common.dfy` (arithmetic helpers, Option, key names), `collision.dfy`, then one
file per component.

## Model

| member | source | states |
|---|---|---|
| Tetris.EmptyRow | src/components/games/TetrisGame.tsx:42-47 | an empty row has the board's 10 columns, every cell the empty colour |
| Tetris.EmptyRows | src/components/games/TetrisGame.tsx:166-170 | the refill block of n rows, each an empty row |
| Tetris.EmptyBoard | src/components/games/TetrisGame.tsx:42-47 | the initial board is 20 rows of 10 empty cells |
| Tetris.CanMovePiece | src/components/games/TetrisGame.tsx:121-139 | the loops return true exactly when every filled cell, moved by (dx, dy), is inside the side walls, above the floor, and either above the board or on an empty cell |
| Tetris.Fits | src/components/games/TetrisGame.tsx:121-139 | every filled cell, moved by (dx, dy), is inside the side walls, above the floor and on an empty cell or above the board; a piece that fits is never below the floor |
| Tetris.Moved | src/components/games/TetrisGame.tsx:78-101 | a move shifts the piece by exactly (dx, dy) when the shifted piece fits (and the result then fits where it stands); otherwise the piece is unchanged |
| Tetris.Rotate | src/components/games/TetrisGame.tsx:141-151 | the clockwise turn of an r×c shape is c×r, with new[i][j] = old[r-1-j][i] |
| Tetris.RotateTwice | src/components/games/TetrisGame.tsx:141-151 | two turns are the half turn: cell (i, j) comes from (r-1-i, c-1-j) |
| Tetris.RotateFour | src/components/games/TetrisGame.tsx:141-151 | four turns give back the shape |
| Tetris.TurnedSize | src/components/games/TetrisGame.tsx:141-151 | the cell map of a quarter turn is one-to-one, so the set of filled cells keeps its size |
| Tetris.RotateKeepsFilled | src/components/games/TetrisGame.tsx:141-151 | a rotation keeps the number of filled cells |
| Tetris.RotationUnchecked | src/components/games/TetrisGame.tsx:102-117 | rotation is taken without a collision test: a vertical I that fits at the right wall turns into a horizontal I that does not fit |
| Tetris.KeyPiece | src/components/games/TetrisGame.tsx:74-119 | the arrows move left, right and down through the fit test, Space and ArrowUp both rotate clockwise, any other key leaves the piece alone |
| Tetris.MovesKeepFit | src/components/games/TetrisGame.tsx:78-101 | a piece that fits still fits after any key other than the two rotation keys |
| Tetris.Locked | src/components/games/TetrisGame.tsx:195-203 | locking writes the piece colour into exactly the board cells under a filled cell (y ≥ 0 and inside the board) and leaves every other cell unchanged |
| Tetris.Lock | src/components/games/TetrisGame.tsx:195-203 | the forEach over the shape produces exactly the locked board, unless a filled cell lies below the floor: that write indexes a missing row and throws, and the board is left as it was |
| Tetris.RotationBelowFloor | src/components/games/TetrisGame.tsx:106-117 | the unchecked rotation turns a horizontal I resting on the bottom row into a vertical one reaching below the floor, which cannot drop, so the next tick's lock throws |
| Tetris.FullRows | src/components/games/TetrisGame.tsx:159-164 | the listed row indices are exactly the full rows |
| Tetris.FullRowsAscending | src/components/games/TetrisGame.tsx:159-164 | the loop over y lists the full rows in ascending order |
| Tetris.Kept | src/components/games/TetrisGame.tsx:166-167 | the rows kept by the filter are rows of the board, none of them full, and no more than the board has |
| Tetris.Cleared | src/components/games/TetrisGame.tsx:166-171 | the filter and the unshift keep the board height, and no row of the result is full |
| Tetris.KeepUnlistedIsKept | src/components/games/TetrisGame.tsx:166-167 | filtering out the listed indices keeps exactly the rows that are not full, in order |
| Tetris.ClearedShape | src/components/games/TetrisGame.tsx:158-184 | after clearing the board is still 20×10, has no full row, ends with the kept rows in their order, and is unchanged when no row was full |
| Tetris.KeptAll | src/components/games/TetrisGame.tsx:183 | with no full row the filter keeps every row |
| Tetris.ClearingScores | src/components/games/TetrisGame.tsx:172-178 | k cleared lines add k·100·level (never negative); the level never drops, and stays the same while the line count does not cross a multiple of 10 |
| Tetris.LevelFor | src/components/games/TetrisGame.tsx:174 | the level is one more than the tens of cleared lines: at least 1, and the line count lies in [10·(level-1), 10·level) |
| Tetris.LineScore | src/components/games/TetrisGame.tsx:175 | clearing no row, or clearing at level 0, scores nothing; at level 1 or more k rows score at least 100·k |
| Tetris.FindFullRows | src/components/games/TetrisGame.tsx:159-164 | the loop collects exactly the indices of the full rows |
| Tetris.Refill | src/components/games/TetrisGame.tsx:168-170 | the unshift loop puts 20 minus the kept count of empty rows on top of the kept rows |
| Tetris.ClearLines | src/components/games/TetrisGame.tsx:158-184 | the number of cleared rows is the number of full rows and the number dropped by the filter; the board is the cleared board when some row was full and the same board otherwise; it stays 20×10 |
| Tetris.KeptCount | src/components/games/TetrisGame.tsx:159-167 | the kept rows and the full rows together account for every row |
| Tetris.AfterLock | src/components/games/TetrisGame.tsx:195-204 | the locked-and-cleared board is still 20×10 |
| Tetris.LockAndClear | src/components/games/TetrisGame.tsx:195-204 | the game loop's lock step yields the locked-and-cleared board and the number of rows it completed, or reports the throw of a piece below the floor with the board unchanged |
| Tetris.Spawned | src/components/games/TetrisGame.tsx:51-65 | a new piece starts at y = 0, centred by the width of the freshly drawn piece, with the waiting piece's shape and colour when there is one and the drawn piece's otherwise |
| Tetris.TetrominosShape | src/components/games/TetrisGame.tsx:23-31 | every one of the seven pieces is a rectangle 2 to 4 wide and at most 2 high |
| Tetris.InsideFitsEmpty | src/components/games/TetrisGame.tsx:121-139 | a piece inside the walls and above the floor fits on an empty board |
| Tetris.SpawnFitsEmpty | src/components/games/TetrisGame.tsx:51-65 | whatever is drawn and whatever piece waits, the spawned piece is inside the walls and fits on an empty board |
| Tetris.DropInterval | src/components/games/TetrisGame.tsx:217 | the loop interval max(100, 1000 - (level-1)·100) is between 100 and 1000 ms: 1000 at level 1, 100 from level 10 on |
| Tetris.Game.constructor | src/components/games/TetrisGame.tsx:42-49 | the mount effect leaves an empty board, score 0, level 1, no lines, a spawned piece and a next piece; the key handler's board is that empty board |
| Tetris.Game.Key | src/components/games/TetrisGame.tsx:74-119 | keys act only while playing with a falling piece (and not after a crash), and change only the piece, as the key rule says against the board the handler captured; a key that hands React a new piece object re-renders, and the handler then captures the current board |
| Tetris.Game.Settle | src/components/games/TetrisGame.tsx:195-215 | a piece that cannot drop is locked and its full rows cleared, with k lines, k·100·level points and the new level; a new piece is spawned only when the locked piece was below the top (y > 0); a piece with a filled cell below the floor crashes the component and changes nothing else; only a spawn refreshes the key handler's board |
| Tetris.Renews | src/components/games/TetrisGame.tsx:74-119 | the key handler hands React a new piece object exactly when the key rotates or the move is taken; a refused move returns the same object |
| Tetris.TopOutKeyDiffers | src/components/games/TetrisGame.tsx:74-119 | after a lock at the top the piece stays, so the handler keeps the board from before the lock: an O piece at (4, 0) over a filled (2, 4) cannot drop, yet ArrowLeft still moves it, where the locked board would refuse |
| Tetris.LockKeepsBlocked | src/components/games/TetrisGame.tsx:186-217 | locking a coloured piece only fills cells, so a move the board refused stays refused on the locked board |
| Tetris.Game.Commit | src/components/games/TetrisGame.tsx:158-215 | after a lock that went through, the cleared board is written back, its k rows score k·100·level and move the level, and the next piece is spawned, with a fresh key-handler board, only when asked |
| Tetris.Game.Tick | src/components/games/TetrisGame.tsx:187-220 | a tick drops the piece one row when it fits there and otherwise settles it, crashing when the piece reaches below the floor; after a crash, when not playing, or without a piece nothing changes; a drop refreshes the key handler's board |
| Snake.Turn | src/components/games/SnakeGame.tsx:42-53 | a vertical arrow is taken only when the snake is not moving vertically, a horizontal arrow only when it is not moving horizontally; any other key keeps the direction |
| Snake.TurnNeverReverses | src/components/games/SnakeGame.tsx:42-53 | a turn keeps the direction one of still or the four unit steps, never sends a moving snake straight back, and either keeps the direction or turns it by a right angle |
| Snake.Wrap | src/components/games/SnakeGame.tsx:77-80 | a coordinate one step past an edge comes back at the other edge; inside the grid it is kept |
| Snake.NextHead | src/components/games/SnakeGame.tsx:74-80 | the new head is always inside the 20×20 grid and is one step along the direction, modulo 20 on each axis |
| Snake.HeadAfter | src/components/games/SnakeGame.tsx:74-80 | the tick's head computation yields the wrapped next head |
| Snake.FoodAvoiding | src/components/games/SnakeGame.tsx:18-28 | the food is the first draw not on the avoided cells; no food exactly when every draw is on them |
| Snake.GenerateFood | src/components/games/SnakeGame.tsx:18-28 | the do-while over the draws returns exactly the first draw off the snake |
| Snake.RespawnAsWritten | src/components/games/SnakeGame.tsx:25 | as written, the new food only avoids the snake captured before the move |
| Snake.StaleSnakeFood | src/components/games/SnakeGame.tsx:25 | a one-cell snake at (10, 10) moving right eats at (11, 10), and the draw (11, 10) is accepted although the head now stands there; reset can likewise drop food on (10, 10) |
| Snake.Respawn | src/components/games/SnakeGame.tsx:18-28 | the corrected placement: the new food is never on the snake it is placed for, is inside the grid whenever the draws are, and is missing only when every draw is on the snake |
| Snake.Game.constructor | src/components/games/SnakeGame.tsx:12-16 | the initial state: the snake [(10, 10)], food (15, 15), standing still, score 0, not over |
| Snake.Game.Reset | src/components/games/SnakeGame.tsx:30-36 | reset restores the one-cell snake at (10, 10), direction (0, 0), score 0 and not over, and places the food off that snake |
| Snake.Game.Key | src/components/games/SnakeGame.tsx:38-55 | keys are ignored unless playing and not over, and otherwise change only the direction, by the turn rule |
| Snake.Game.Tick | src/components/games/SnakeGame.tsx:63-105 | standing still, not playing or over change nothing; a head on any segment, the tail included, ends the game with the snake unchanged; eating adds a segment, 10 points and new food; otherwise the snake moves, with body[i+1] = old[i] and the same length |
| Snake.Game.Step | src/components/games/SnakeGame.tsx:67-101 | the tick of a running game with a direction, with the same outcomes, keeping the snake in the grid and free of overlaps |
| Selector.CatalogueIds | src/data/games.ts:3-190 | the catalogue holds 21 games with ids 1 to 21 in order |
| Selector.SliceIndex | src/components/GameSelector.tsx:17-20 | slice's reading of an index: clipped into [0, n], a negative index counting from the end |
| Selector.Slice | src/components/GameSelector.tsx:17-20 | the slice of an in-range window is exactly that subsequence, and never longer than the list |
| Selector.CurrentGames | src/components/GameSelector.tsx:14-20 | the current page is games[6p .. 6p+6) clipped to the catalogue, at most 6 games |
| Selector.TotalPages | src/components/GameSelector.tsx:15 | totalPages is the ceiling of n/6: the last page holds between 1 and 6 games |
| Selector.PagesPartition | src/components/GameSelector.tsx:14-20 | every game is on exactly one existing page: game k is entry k mod 6 of page k div 6 |
| Selector.PagesNonEmpty | src/components/GameSelector.tsx:14-20 | every page that exists holds between 1 and 6 games |
| Selector.CataloguePages | src/components/GameSelector.tsx:14-20 | the shipped catalogue fills four pages, the last with three games, and a fifth page is empty |
| Selector.CyclePrev | src/components/GameSelector.tsx:22-24 | one step back within [0, count): the previous entry, or the last from the first |
| Selector.CycleNext | src/components/GameSelector.tsx:26-28 | one step forward within [0, count): the next entry, or the first from the last |
| Selector.CycleInverse | src/components/GameSelector.tsx:22-38 | a step forward and a step back undo each other |
| Selector.CycleNextAdd | src/components/GameSelector.tsx:26-28 | a steps and then b steps forward are a+b steps forward |
| Selector.CycleNextClimbs | src/components/GameSelector.tsx:26-28 | below the end of the range each forward step adds one |
| Selector.CycleNextFullTurn | src/components/GameSelector.tsx:26-28 | count forward steps come back to the same entry |
| Selector.Chosen | src/components/GameSelector.tsx:40-45 | a game is chosen exactly when the highlighted entry exists on the page and there is a credit, and it is that entry's game |
| Selector.Menu.constructor | src/components/GameSelector.tsx:12-13 | the menu starts on the first entry of the first page |
| Selector.Menu.Key | src/components/GameSelector.tsx:22-71 | Up/Down cycle the highlight within the page; Left/Right cycle the page within [0, totalPages) and reset the highlight to 0; Space and Enter report the chosen game; other keys change nothing |
| Selector.Menu.Click | src/components/GameSelector.tsx:97 | clicking an entry highlights it and keeps the page |
| Cabinet.Shown | src/components/ArcadeMachine.tsx:40-97 | the screen is the power button exactly when off, and the game screen exactly when on with a (non-zero) game selected and playing |
| Cabinet.Machine.constructor | src/components/ArcadeMachine.tsx:8-11 | the cabinet starts powered on, with 3 credits, no game and the menu on screen |
| Cabinet.Machine.InsertCoin | src/components/ArcadeMachine.tsx:13-16 | inserting a coin adds exactly one credit and changes nothing else |
| Cabinet.Machine.StartGame | src/components/ArcadeMachine.tsx:18-25 | with a credit, starting spends exactly one and selects and plays the game; with none nothing changes, so credits never go negative |
| Cabinet.Machine.BackToMenu | src/components/ArcadeMachine.tsx:27-31 | back-to-menu clears the game and the playing flag and keeps the credits |
| Cabinet.Machine.PowerToggle | src/components/ArcadeMachine.tsx:33-39 | the toggle flips the power and keeps the credits; switching off clears the game and the playing flag |
| Collision.Remaining | src/components/games/TempestGame.tsx:96-120 | the copy after the splices holds exactly the projectiles whose indices are still live, in their order |
| Collision.FirstNear | src/components/games/TempestGame.tsx:100-103 | find returns the first live projectile near the target, and none exactly when no live projectile is near it |
| Collision.Hits | src/components/games/TempestGame.tsx:98-117 | the number of struck targets is at most the number of targets |
| Collision.StrikePos | src/components/games/TempestGame.tsx:100-107 | the position find reports, when there is one, lies inside the copy |
| Collision.Step | src/components/games/TempestGame.tsx:99-116 | one target decides one hit or none |
| Collision.Pass | src/components/games/TempestGame.tsx:98-118 | the pass decides one entry for each target |
| Collision.Resolve | src/components/games/TempestGame.tsx:96-120 | the pass over a full projectile list decides one entry per target, and the projectiles left plus the targets struck are as many as the projectiles |
| Collision.PassSplit | src/components/games/TempestGame.tsx:98-118 | the pass over two target lists in a row is the pass over their concatenation, the second starting from what the first left |
| Collision.PassCount | src/components/games/TempestGame.tsx:105-107 | the number of projectiles spliced out equals the number of targets struck |
| Collision.PassAt | src/components/games/TempestGame.tsx:98-117 | first bullet wins: target i is struck exactly when it is eligible and some projectile still left is near it, and then by the first such one |
| Collision.ResolveBelow | src/components/games/TempestGame.tsx:96-120 | what the pass leaves are indices into the projectile list |
| Collision.StepLive | src/components/games/TempestGame.tsx:100-107 | a single target takes out at most the one projectile it reports, and nothing else |
| Collision.PassLive | src/components/games/TempestGame.tsx:96-120 | what the pass leaves is a repeat-free part of what it was given |
| Collision.PassUsed | src/components/games/TempestGame.tsx:105-107 | every projectile reported as striking was in the copy and is gone from it afterwards |
| Collision.PassUsedOnce | src/components/games/TempestGame.tsx:105-107 | no projectile strikes two targets |
| Collision.PassKeepsOthers | src/components/games/TempestGame.tsx:96-120 | a projectile leaves the copy only by striking a target |
| Collision.PassConsumesOnce | src/components/games/TempestGame.tsx:95-121 | each projectile is consumed at most once, every consumed one was in play and is gone, and nothing else disappears |
| Collision.FindStrike | src/components/games/TempestGame.tsx:100-103 | the find loop returns the position of the first near projectile in the copy, for an eligible target |
| Collision.FirstHitPass | src/components/games/TempestGame.tsx:95-121 | the imperative find-and-splice loop over the targets yields the hits and the remaining projectiles the pass specifies |
| Collision.Unhit | src/components/games/TempestGame.tsx:98-117 | the filter keeps the targets nobody struck, in order: one fewer per hit, and all of them when nothing was struck |
| Collision.UnhitExactly | src/components/games/TempestGame.tsx:98-117 | with no two targets equal, a target survives the filter exactly when nothing struck it |
| Collision.LastHit | src/components/games/GalagaGame.tsx:93-114 | the last struck target, the one whose setScore wins: some exactly when there was a hit, and no later target was struck |
| Tempest.LaneLeft | src/components/games/TempestGame.tsx:37-39 | a left step keeps the lane in [0, 15]: one lane down, or 15 from lane 0 |
| Tempest.LaneRight | src/components/games/TempestGame.tsx:40-42 | a right step keeps the lane in [0, 15]: one lane up, or 0 from lane 15 |
| Tempest.LanesInverse | src/components/games/TempestGame.tsx:37-42 | a left step and a right step undo each other on the rim |
| Tempest.HitRule | src/components/games/TempestGame.tsx:95-121 | an enemy is destroyed exactly when some bullet still left is in its lane and less than 10 away, and the bullet it uses destroys no other enemy |
| Tempest.TickScore | src/components/games/TempestGame.tsx:109-111 | one or more hits in a tick report the snapshot score plus 150, no hit the snapshot |
| Tempest.TickKeepsBounds | src/components/games/TempestGame.tsx:83-121 | what survives the move and the pass keeps its lane, stays inside the tunnel, and keeps an id below the counter |
| Tempest.TickLists | src/components/games/TempestGame.tsx:83-121 | each hit spends exactly one bullet still in the tunnel and removes exactly one enemy still in it |
| Tempest.MoveAndCollide | src/components/games/TempestGame.tsx:83-121 | bullets fly out 5 and leave at 120, enemies come in 1 and leave at 0, then the collision pass, and the bounds still hold |
| Tempest.Game.constructor | src/components/games/TempestGame.tsx:14-19 | the game starts in lane 0 with no bullets, no enemies, score 0 and both counters at 0 |
| Tempest.Game.Key | src/components/games/TempestGame.tsx:33-52 | while playing, the arrows step round the rim and Space adds one bullet in the player's lane at distance 0 with an id no bullet has; other keys and not playing change nothing |
| Tempest.Game.Spawn | src/components/games/TempestGame.tsx:60-75 | with the random roll, one enemy appears on the drawn lane at the rim with a fresh id; otherwise nothing changes |
| Tempest.Game.Tick | src/components/games/TempestGame.tsx:78-125 | a tick while playing leaves the moved and collided lists and the snapshot score; otherwise nothing changes |
| Tempest.Game.Step | src/components/games/TempestGame.tsx:81-122 | the tick of a running game, keeping every bullet and enemy inside its bounds |
| Tempest.Game.Apply | src/components/games/TempestGame.tsx:83-121 | the tick's lists and score are written back and nothing else changes |
| QBert.InitialCubes | src/components/games/QBertGame.tsx:17-22 | row r of the pyramid has 7 - r cubes, all unflipped |
| QBert.Move | src/components/games/QBertGame.tsx:24-53 | Up and Left floor both coordinates at 0; Down and Right cap x at 7 - y - 2 for the row Q*bert stands on; Down caps y at 6; other keys do nothing |
| QBert.MoveReachable | src/components/games/QBertGame.tsx:24-53 | every key keeps Q*bert among the places he can be |
| QBert.ReachableOnCube | src/components/games/QBertGame.tsx:24-53 | of the places he can be, the only one off the pyramid is (-1, 6), where the cap 7 - 6 - 2 is -1 |
| QBert.MovesReachable | src/components/games/QBertGame.tsx:24-53 | any sequence of keys keeps him among those places |
| QBert.CornerUnreached | src/components/games/QBertGame.tsx:34-51 | from the start no key sequence reaches the last cube of the top row, because the cap for row 0 is 5 |
| QBert.SevenDowns | src/components/games/QBertGame.tsx:34-38 | seven Downs from the start leave the pyramid at (-1, 6) |
| QBert.DownsTo | src/components/games/QBertGame.tsx:34-38 | the seven-Downs path runs down the middle to (3, 3) and then off the left edge |
| QBert.RowCount | src/components/games/QBertGame.tsx:66-77 | a row never holds more flipped cubes than cubes |
| QBert.RowCountFlip | src/components/games/QBertGame.tsx:69-70 | flipping an unflipped cube raises its row's count by one |
| QBert.CountReplace | src/components/games/QBertGame.tsx:69 | replacing one row changes the total by the difference of the row counts |
| QBert.ReadsFlipped | src/components/games/QBertGame.tsx:68 | `newCubes[y][x]` reads a cube, or, off the row, an extra property once written, else undefined |
| QBert.RowExtra | src/components/games/QBertGame.tsx:69 | the extra properties held by one row, as the `[...row]` copy drops them |
| QBert.TickAsWritten | src/components/games/QBertGame.tsx:66-77 | the tick as written adds 25 exactly when the row exists and the read cell is falsy, and otherwise changes nothing; a rewritten row loses its extra properties, and other rows keep theirs |
| QBert.PhantomCube | src/components/games/QBertGame.tsx:68-74 | at (-1, 6) the tick as written awards 25 although no cube is flipped |
| QBert.PhantomAgain | src/components/games/QBertGame.tsx:24-53 | from (-1, 6) Left reaches (0, 6) and Down leads back; the tick at (0, 6) copies row 6 and drops the extra property, so the next tick at (-1, 6) pays again: three ticks pay 75 for one flipped cube |
| QBert.InitialZero | src/components/games/QBertGame.tsx:17-22 | the fresh pyramid has its shape and no flipped cube, and the start is a place Q*bert can be |
| QBert.Pyramid | src/components/games/QBertGame.tsx:17-22 | the mount effect's pyramid, shaped and with no cube flipped |
| QBert.InitialCount | src/components/games/QBertGame.tsx:18-20 | an unflipped pyramid counts no flipped cube |
| QBert.NoneFlipped | src/components/games/QBertGame.tsx:18-20 | an unflipped row counts no flipped cube |
| QBert.Flip | src/components/games/QBertGame.tsx:66-77 | the tick flips a cube exactly when Q*bert is on an existing unflipped cube; it flips that cube only, keeps the shape and raises the count by one |
| QBert.FlippedStays | src/components/games/QBertGame.tsx:68-74 | flipped cubes never revert, so each cube pays at most once |
| QBert.Game.constructor | src/components/games/QBertGame.tsx:12-22 | the game starts at (0, 0), on the unflipped pyramid, with score 0 |
| QBert.Game.Key | src/components/games/QBertGame.tsx:24-53 | while playing a key moves Q*bert by the move rule and changes nothing else |
| QBert.Game.Tick | src/components/games/QBertGame.tsx:60-81 | a tick on an existing unflipped cube flips it and adds 25, else nothing changes; the score stays 25 times the number of flipped cubes |
| PacMan.InitialDots | src/components/games/PacManGame.tsx:20-26 | the nested loops push 8 × 9 uneaten dots, column by column |
| PacMan.DotAtIndex | src/components/games/PacManGame.tsx:21-23 | dot c·9 + r is at (40 + 40c, 40 + 40r) |
| PacMan.DotGrid | src/components/games/PacManGame.tsx:21-23 | every dot has x in {40, .., 320} and y in {40, .., 360}, multiples of 40 |
| PacMan.GridCovered | src/components/games/PacManGame.tsx:21-23 | every point of that grid holds a dot |
| PacMan.KeyDirection | src/components/games/PacManGame.tsx:40-53 | the arrows set one of four vectors of length 4, other keys keep the direction |
| PacMan.WrapAxis | src/components/games/PacManGame.tsx:72-75 | below 0 goes to the far edge, beyond it goes to 0, and inside the value is kept |
| PacMan.Wrapped | src/components/games/PacManGame.tsx:67-78 | the step with the wrap keeps Pac-Man in [0, 360] × [0, 400] |
| PacMan.WrappedInside | src/components/games/PacManGame.tsx:67-78 | a step that stays in the field moves by exactly the direction |
| PacMan.Collect | src/components/games/PacManGame.tsx:81-91 | an uneaten dot within 15 on both axes becomes eaten, every other dot is kept |
| PacMan.CollectMonotone | src/components/games/PacManGame.tsx:81-91 | eaten dots stay eaten and no dot moves |
| PacMan.CollectCount | src/components/games/PacManGame.tsx:81-91 | the eaten count rises by the number of dots eaten in the tick |
| PacMan.EatsCountUnique | src/components/games/PacManGame.tsx:81-91 | when no two dots are eaten together, a tick eats one dot or none |
| PacMan.OneDotAtATime | src/components/games/PacManGame.tsx:20-26 | two grid dots are never both within 15 of Pac-Man |
| PacMan.GridApart | src/components/games/PacManGame.tsx:21-23 | two different grid dots are at least 40 apart on some axis |
| PacMan.CollectOne | src/components/games/PacManGame.tsx:81-91 | a tick keeps the dots on the grid and eats at most one: the count rises by one exactly when it eats |
| PacMan.DotScore | src/components/games/PacManGame.tsx:83-86 | the reported score is the snapshot plus 10 when a dot is eaten |
| PacMan.GhostStep | src/components/games/PacManGame.tsx:95-117 | a ghost that would leave [20, 340] × [20, 380], or rolls a turn, takes the drawn direction, otherwise keeps its own; it then steps with the wrap, keeps its colour, and stays in the field |
| PacMan.MoveGhosts | src/components/games/PacManGame.tsx:94-118 | every ghost takes its own step |
| PacMan.Game.constructor | src/components/games/PacManGame.tsx:12-35 | Pac-Man starts at (180, 300), standing still, score 0, with the four ghosts and every dot uneaten |
| PacMan.Game.Key | src/components/games/PacManGame.tsx:37-54 | while playing a key sets the direction by the key rule and changes nothing else |
| PacMan.Game.Tick | src/components/games/PacManGame.tsx:62-122 | a tick while playing steps and wraps Pac-Man, eats the dots near his old position with the snapshot score, and moves the ghosts; otherwise nothing changes |
| PacMan.Game.Step | src/components/games/PacManGame.tsx:65-119 | the tick of a running game, with the same outcome, keeping every invariant |
| PacMan.WrapStep | src/components/games/PacManGame.tsx:67-78 | the imperative step with its four wrap tests is the wrapped position |
| PacMan.NoneEaten | src/components/games/PacManGame.tsx:20-26 | a fresh dot list has no eaten dot |
| Centipede.PlayerMove | src/components/games/CentipedeGame.tsx:47-59 | the arrows step 5 with x clamped to [0, 380] and y to [300, 480]; other keys leave the shooter |
| Centipede.PlayerStaysInZone | src/components/games/CentipedeGame.tsx:47-59 | the shooter never leaves x in [0, 380], y in [300, 480] |
| Centipede.Crawl | src/components/games/CentipedeGame.tsx:85-111 | a segment moves 2 along its direction; at x ≤ 0 or x ≥ 380 it turns and drops 20, and then a mushroom near the new place turns it and drops it 20 again |
| Centipede.CrawlBounds | src/components/games/CentipedeGame.tsx:85-111 | a segment keeps heading one way or the other and drops 0, 20 or 40; it drops 40, keeping its heading, exactly when both bounces apply, and stays level exactly when neither does |
| Centipede.DoubleBounce | src/components/games/CentipedeGame.tsx:91-105 | both bounces can apply in one tick: the head at x = 2 heading left meets the wall and a mushroom just below and drops 40 |
| Centipede.CrawlAll | src/components/games/CentipedeGame.tsx:84-113 | every segment takes its own step |
| Centipede.InitialCentipede | src/components/games/CentipedeGame.tsx:22-30 | the mount effect builds ten segments 20 apart on y = 50, heading right |
| Centipede.SegmentHitRule | src/components/games/CentipedeGame.tsx:115-146 | a segment is struck exactly when some bullet left after the segments before it is within 15 on both axes, and the first such bullet strikes no other segment |
| Centipede.Fallen | src/components/games/CentipedeGame.tsx:134 | each struck segment leaves one mushroom with no hits at its place, one per hit |
| Centipede.Struck | src/components/games/CentipedeGame.tsx:153-170 | a struck mushroom gains exactly one hit, every other one is kept |
| Centipede.Standing | src/components/games/CentipedeGame.tsx:171 | the mushrooms left are exactly those with fewer than 4 hits |
| Centipede.TickScore | src/components/games/CentipedeGame.tsx:136-165 | the reported score is the snapshot plus 1 after a mushroom hit, plus 10 after only segment hits, and the snapshot without hits |
| Centipede.SpliceShifts | src/components/games/CentipedeGame.tsx:120-133 | as written, when the first two segments are struck the splices remove segments 0 and 2: the struck segment 1 survives and the unstruck segment 2 is lost |
| Centipede.SpliceAsWritten | src/components/games/CentipedeGame.tsx:120-133 | the splices as written never lengthen the centipede and remove at most one segment per struck segment |
| Centipede.StandingOk | src/components/games/CentipedeGame.tsx:167-171 | the mushrooms left on the field have between 0 and 3 hits |
| Centipede.TickLists | src/components/games/CentipedeGame.tsx:78-175 | every bullet still flying is spent on at most one segment or mushroom; each segment hit leaves the centipede, and at most one mushroom grows per segment hit |
| Centipede.MoveAndCollide | src/components/games/CentipedeGame.tsx:78-175 | the bullets fly, the segments crawl, the segment pass and then the mushroom pass, with the segment and mushroom bounds kept |
| Centipede.Game.constructor | src/components/games/CentipedeGame.tsx:12-42 | the shooter starts at (200, 450) with no bullets and score 0, the ten-segment centipede, and 30 mushrooms with no hits at the given places |
| Centipede.Game.Key | src/components/games/CentipedeGame.tsx:44-65 | while playing the arrows move the shooter and Space fires a bullet from 10 right of it with a fresh id; otherwise nothing changes |
| Centipede.Game.Tick | src/components/games/CentipedeGame.tsx:73-179 | a tick while playing leaves the moved and collided lists and the snapshot score; otherwise nothing changes |
| Centipede.Game.Step | src/components/games/CentipedeGame.tsx:76-176 | the tick of a running game, keeping the shooter, segments and mushrooms within bounds |
| Centipede.Game.Apply | src/components/games/CentipedeGame.tsx:78-175 | the tick's lists and score are written back and nothing else changes |
| SpaceInvaders.InitialInvaders | src/components/games/SpaceInvadersGame.tsx:21-33 | the mount effect's loops build 50 invaders, row by row, invader k at its formation place |
| SpaceInvaders.FormationInside | src/components/games/SpaceInvadersGame.tsx:22-32 | the formation is live invaders at (35c + 50, 30r + 50), inside the band where none is at an edge or has landed |
| SpaceInvaders.CannonMove | src/components/games/SpaceInvadersGame.tsx:39-44 | the arrows step 10 kept in [20, 380]; other keys leave the cannon |
| SpaceInvaders.March | src/components/games/SpaceInvadersGame.tsx:75-95 | an invader steps half a pixel along the direction, or at an edge keeps its x and drops 20; it stays alive or dead as it was |
| SpaceInvaders.MarchAll | src/components/games/SpaceInvadersGame.tsx:74-97 | every invader takes its own march step |
| SpaceInvaders.EdgeCount | src/components/games/SpaceInvadersGame.tsx:80-81 | the number of reversals requested is zero exactly when no invader is at an edge |
| SpaceInvaders.NegatedParity | src/components/games/SpaceInvadersGame.tsx:81 | n reversals in one tick leave the direction reversed exactly when n is odd |
| SpaceInvaders.Shooter | src/components/games/SpaceInvadersGame.tsx:100-103 | the invader that fires is the first live one whose draw comes up, and none fires exactly when no live invader's draw comes up |
| SpaceInvaders.Shots | src/components/games/SpaceInvadersGame.tsx:104-106 | a tick adds at most one invader bullet |
| SpaceInvaders.InvaderHitRule | src/components/games/SpaceInvadersGame.tsx:110-139 | only a live invader can be hit; it is hit exactly when some bullet still left is within 15 on both axes, and that first bullet hits no other invader |
| SpaceInvaders.Killed | src/components/games/SpaceInvadersGame.tsx:114-135 | a struck invader is marked dead, not removed; every other invader is kept |
| SpaceInvaders.Missed | src/components/games/SpaceInvadersGame.tsx:142-151 | the invader bullets kept are exactly those that do not reach the cannon |
| SpaceInvaders.HitsCannon | src/components/games/SpaceInvadersGame.tsx:144 | an invader bullet hits the cannon when it is within 15 of it sideways and at y 420 or lower on the screen |
| SpaceInvaders.Landed | src/components/games/SpaceInvadersGame.tsx:86-89 | the game ends when some moved invader is at y 400 or more |
| SpaceInvaders.TickScore | src/components/games/SpaceInvadersGame.tsx:127-129 | the reported score is the snapshot plus 10 after any hit |
| SpaceInvaders.StruckIff | src/components/games/SpaceInvadersGame.tsx:141-151 | a bullet is removed at the cannon exactly when some falling bullet is within 15 of it at y ≥ 420, and that ends the game |
| SpaceInvaders.AliveAfterTick | src/components/games/SpaceInvadersGame.tsx:74-139 | a tick never revives or removes an invader: it is alive afterwards exactly when it was alive and no bullet struck it |
| SpaceInvaders.TickLists | src/components/games/SpaceInvadersGame.tsx:60-152 | the formation keeps its size; each hit spends one rising bullet; at most one invader bullet is added; a landed formation ends the game |
| SpaceInvaders.MoveAndCollide | src/components/games/SpaceInvadersGame.tsx:60-152 | both bullet streams move, the formation marches, one invader may fire, the collision passes run, and the direction is still 1 or -1 |
| SpaceInvaders.Game.constructor | src/components/games/SpaceInvadersGame.tsx:12-33 | the cannon starts at 200 with no bullets, score 0, direction 1, not over, and the full formation |
| SpaceInvaders.Game.Key | src/components/games/SpaceInvadersGame.tsx:35-49 | while playing and not over, the arrows move the cannon and Space fires a bullet from (cannon, 420); otherwise nothing changes |
| SpaceInvaders.Game.Tick | src/components/games/SpaceInvadersGame.tsx:57-155 | a tick while playing and not over leaves the tick's lists, direction, game-over flag and snapshot score; otherwise nothing changes |
| SpaceInvaders.Game.Step | src/components/games/SpaceInvadersGame.tsx:60-152 | the body of the loop, keeping the state valid |
| SpaceInvaders.Game.Apply | src/components/games/SpaceInvadersGame.tsx:60-152 | the tick's lists, direction, flag and score are written back and nothing else changes |
| Galaga.InitialEnemies | src/components/games/GalagaGame.tsx:20-35 | the mount effect's loops build 32 enemies, row by row, enemy k at its formation place |
| Galaga.FormationKinds | src/components/games/GalagaGame.tsx:22-34 | the formation is 4×8 at (45c + 50, 40r + 50) with ids 0 to 31; rows 0 and 1 are galagas and the rest bees |
| Galaga.ShipMove | src/components/games/GalagaGame.tsx:41-46 | the arrows step 8 kept in [20, 380]; other keys leave the ship |
| Galaga.FireKeepsNumbers | src/components/games/GalagaGame.tsx:47-49 | a shot from (ship, 440) takes the counter's number, which no bullet in flight has, and the counter moves past it |
| Galaga.Drift | src/components/games/GalagaGame.tsx:71-86 | dead enemies are never moved; a live one moves by a tenth of its wave offset sideways and by a twentieth of the vertical offset plus 0.2 down |
| Galaga.DriftAll | src/components/games/GalagaGame.tsx:71-86 | every enemy takes its own drift |
| Galaga.DriftBounded | src/components/games/GalagaGame.tsx:76-83 | with the offsets a sine gives, a live enemy moves at most 2 sideways and between -0.3 and 0.7 down in a tick |
| Galaga.Points | src/components/games/GalagaGame.tsx:105 | a galaga is worth 50 and a bee 30 |
| Galaga.Killed | src/components/games/GalagaGame.tsx:92-115 | a struck enemy is marked dead, not removed; every other enemy is kept |
| Galaga.TickScore | src/components/games/GalagaGame.tsx:102-108 | the tick's score: the snapshot plus the points of the last enemy hit, since every hit writes from the same snapshot; its bounds are the next row |
| Galaga.ScoreStep | src/components/games/GalagaGame.tsx:105-108 | the score moves exactly when something is hit, and then by 30 or 50, whatever the number of hits |
| Galaga.TickLists | src/components/games/GalagaGame.tsx:63-119 | a tick keeps every enemy and decides one entry per enemy |
| Galaga.EnemyHitRule | src/components/games/GalagaGame.tsx:89-118 | an enemy is alive after a tick exactly when it was alive and no bullet still left was within 20 of its drifted place on both axes |
| Galaga.BulletsSpent | src/components/games/GalagaGame.tsx:101-103 | each hit consumes its own bullet: the bullets left are those in flight less one per hit |
| Galaga.BulletsFromFlight | src/components/games/GalagaGame.tsx:65-118 | every bullet left after a tick was in flight and moved up 8, so the numbers in flight stay below the counter |
| Galaga.MoveAndCollide | src/components/games/GalagaGame.tsx:63-119 | the tick's list work, with the score of the last hit against the snapshot |
| Galaga.Game.constructor | src/components/games/GalagaGame.tsx:12-35 | the ship starts at 200 with no bullets and score 0, the full formation, and the enemy counter at 32 |
| Galaga.Game.Key | src/components/games/GalagaGame.tsx:37-52 | while playing the arrows move the ship and Space fires a bullet with a fresh number; otherwise nothing changes |
| Galaga.Game.Tick | src/components/games/GalagaGame.tsx:60-122 | a tick while playing leaves the tick's lists and score; otherwise nothing changes |
| Galaga.Game.Step | src/components/games/GalagaGame.tsx:63-119 | the tick of a running game, keeping the state valid |
| Galaga.Game.Apply | src/components/games/GalagaGame.tsx:63-119 | the tick's lists and score are written back and nothing else changes |
| Defender.InitialObjects | src/components/games/DefenderGame.tsx:20-43 | the mount effect places five landers at the drawn places with ids 0 to 4, and eight humanoids at (25 + 50i, 270) |
| Defender.ShipMove | src/components/games/DefenderGame.tsx:49-60 | the arrows step 5 with x kept in [0, 370] and y in [0, 270]; other keys leave the ship |
| Defender.ShipStaysInField | src/components/games/DefenderGame.tsx:49-60 | the ship never leaves x in [0, 370], y in [0, 270] |
| Defender.LanderHitRule | src/components/games/DefenderGame.tsx:94-120 | a lander is shot down exactly when some bullet still left is within 20 on both axes, and that bullet shoots down no other lander |
| Defender.TickScore | src/components/games/DefenderGame.tsx:108-110 | one or more hits in a tick report the snapshot score plus 150, no hit the snapshot |
| Defender.TickLists | src/components/games/DefenderGame.tsx:79-120 | the tick's list specification: bullets fly 8 right, landers drift, then the first-bullet-wins pass; its counts are the next row |
| Defender.TickCounts | src/components/games/DefenderGame.tsx:79-120 | each hit removes exactly one bullet and one lander |
| Defender.MoveAndCollide | src/components/games/DefenderGame.tsx:79-120 | bullets fly 8 right and leave at x ≥ 400, landers move 1 left and leave at x ≤ -50, then the collision pass |
| Defender.Game.constructor | src/components/games/DefenderGame.tsx:12-43 | the ship starts at (50, 150) with no bullets and score 0, with the initial landers and humanoids |
| Defender.Game.Key | src/components/games/DefenderGame.tsx:45-66 | while playing the arrows move the ship and Space fires from (x + 15, y + 10) with a fresh id; otherwise nothing changes |
| Defender.Game.Tick | src/components/games/DefenderGame.tsx:74-124 | a tick while playing leaves the tick's lists and snapshot score, and the ship and the humanoids keep their places; otherwise nothing changes |
| Defender.Game.Step | src/components/games/DefenderGame.tsx:77-121 | the tick of a running game, keeping the state valid |
| Defender.Game.Apply | src/components/games/DefenderGame.tsx:79-120 | the tick's lists and score are written back and nothing else changes |
| MortalKombat.Hurt | src/components/games/MortalKombatGame.tsx:53-122 | a blow takes the damage off the health, clamped at 0, and changes nothing else; health stays in [0, 100] and never rises |
| MortalKombat.Walked | src/components/games/MortalKombatGame.tsx:33-48 | the arrows walk 4 with x kept in [0, 350], facing the way walked |
| MortalKombat.Strike | src/components/games/MortalKombatGame.tsx:49-80 | an attack lands exactly when the fighters are closer than its reach, doing its damage and paying its points on the snapshot score; otherwise only the pose changes |
| MortalKombat.AttacksRanked | src/components/games/MortalKombatGame.tsx:49-80 | punch (reach 60, 12 damage, 10 points), kick (70, 18, 15) and special (80, 25, 25): the longer the reach, the harder the blow and the more it pays |
| MortalKombat.AiApproaches | src/components/games/MortalKombatGame.tsx:96-103 | far apart (over 100) the AI closes the distance by exactly 2, faces player 1, and nobody is hurt |
| MortalKombat.Ai | src/components/games/MortalKombatGame.tsx:93-129 | one AI firing never moves player 1, changes nothing of it but its health, and never changes its own health; player 1 is hurt only within 70 after a first draw over 0.6 |
| MortalKombat.AiDamage | src/components/games/MortalKombatGame.tsx:104-125 | the AI hurts player 1 only from closer than 70 after a draw over 0.6, by 10, 15 or 20 (clamped at 0); it never moves while attacking and keeps health in [0, 100] |
| MortalKombat.AiSpecialAlwaysLands | src/components/games/MortalKombatGame.tsx:107-111 | the special always lands when the AI attacks, since it attacks only within 70, inside the special's reach of 80 |
| MortalKombat.BonusRepeats | src/components/games/MortalKombatGame.tsx:134-144 | as written, every run of the winner effect after player 2 goes down pays 1000 again, and the effect re-runs because it depends on the score it sets |
| MortalKombat.WinnerEffectAsWritten | src/components/games/MortalKombatGame.tsx:134-144 | one run as written declares the same winner as the corrected effect and differs from it exactly when player 1 was already declared the winner and player 2 is still down |
| MortalKombat.EffectRunsAsWritten | src/components/games/MortalKombatGame.tsx:134-144 | repeated runs never lower the score, and leave it alone unless player 2 is down while player 1 stands |
| MortalKombat.Decide | src/components/games/MortalKombatGame.tsx:135-143 | player 1 down declares player 2 the winner; otherwise player 2 down declares player 1 the winner and pays 1000 once, when first declared; otherwise nothing changes |
| MortalKombat.DecideIdempotent | src/components/games/MortalKombatGame.tsx:134-144 | running the corrected effect again changes nothing, so the bonus is paid at most once |
| MortalKombat.Game.constructor | src/components/games/MortalKombatGame.tsx:12-27 | the fighters start at 100 and 300 with full health, idle and facing each other; score 0, no winner |
| MortalKombat.Game.Key | src/components/games/MortalKombatGame.tsx:29-82 | keys act only while playing with no winner: the arrows walk player 1 and the three attack keys strike by the table; other keys change nothing |
| MortalKombat.Game.Recover | src/components/games/MortalKombatGame.tsx:58-124 | a timeout puts one fighter back on guard and changes nothing else |
| MortalKombat.Game.AiTick | src/components/games/MortalKombatGame.tsx:89-132 | while playing with no winner, one AI firing moves or strikes by the AI rule; otherwise nothing changes |
| MortalKombat.Game.CheckWinner | src/components/games/MortalKombatGame.tsx:134-144 | the winner effect, with the bonus paid once |
| StreetFighter.Hurt | src/components/games/StreetFighterGame.tsx:30-73 | a blow takes the damage off the health, clamped at 0, and health stays in [0, 100] |
| StreetFighter.Walked | src/components/games/StreetFighterGame.tsx:20-25 | the arrows walk 5 with x kept in [0, 350] |
| StreetFighter.Strike | src/components/games/StreetFighterGame.tsx:26-46 | a punch within 60 does 10 damage and pays 10, a kick within 70 does 15 and pays 15, on the snapshot score; out of reach only the pose changes |
| StreetFighter.KnockedOutStillPays | src/components/games/StreetFighterGame.tsx:26-46 | nothing ends the bout: a blow on a knocked-out player 2 leaves its health at 0 and still pays |
| StreetFighter.Ai | src/components/games/StreetFighterGame.tsx:59-79 | one AI firing never moves player 1 or changes its pose, never changes its own health, and hurts player 1 only within 50 after a draw over 0.7 |
| StreetFighter.AiRules | src/components/games/StreetFighterGame.tsx:59-79 | far (over 80) the AI closes the distance by exactly 2; it hurts player 1 exactly when closer than 50 with a draw over 0.7, and then by 8 clamped at 0 |
| StreetFighter.Game.constructor | src/components/games/StreetFighterGame.tsx:12-14 | the fighters start at 100 and 300 with full health, idle; score 0 |
| StreetFighter.Game.Key | src/components/games/StreetFighterGame.tsx:16-48 | keys act only while playing: the arrows walk player 1, Space punches and ArrowUp kicks; other keys change nothing |
| StreetFighter.Game.Recover | src/components/games/StreetFighterGame.tsx:35-75 | a timeout puts one fighter back on guard and changes nothing else |
| StreetFighter.Game.AiTick | src/components/games/StreetFighterGame.tsx:55-82 | while playing, one AI firing acts by the AI rule; otherwise nothing changes |
| Frogger.InitialTraffic | src/components/games/FroggerGame.tsx:21-51 | the mount effect builds 15 cars (three per road lane, 150 apart) and 8 logs (two per river lane, 200 apart), each from its own Math.random draws |
| Frogger.CarStep | src/components/games/FroggerGame.tsx:89-96 | a car keeps its lane, speed and direction; a right-going car wraps modulo 450 and a left-going one reappears at 400 once it passes -50 |
| Frogger.LogStep | src/components/games/FroggerGame.tsx:99-104 | a log keeps its lane, speed and width and wraps modulo 400 plus its width |
| Frogger.CarStaysOnRoad | src/components/games/FroggerGame.tsx:89-96 | a step keeps every in-range car in range: same lane, speed in [2, 4), x between -50 and 450 |
| Frogger.LogStaysOnRiver | src/components/games/FroggerGame.tsx:99-104 | a step keeps every in-range log in range: speed in [1, 2), width in [80, 120), x in [0, 400 + width) |
| Frogger.InitialTrafficOk | src/components/games/FroggerGame.tsx:26-47 | every car and log the mount effect can create, for any draws in [0, 1), is in range |
| Frogger.MoveCars | src/components/games/FroggerGame.tsx:89-96 | the loop moves every car by its own step and keeps their number and order |
| Frogger.MoveLogs | src/components/games/FroggerGame.tsx:99-104 | the loop moves every log by its own step and keeps their number and order |
| Frogger.Hop | src/components/games/FroggerGame.tsx:53-76 | each arrow moves the frog one 25-pixel cell, y clamped to [0, 450] and x to [0, 375]; other keys leave it; y stays on the board |
| Frogger.LogUnder | src/components/games/FroggerGame.tsx:114-119 | the result is the first log the frog stands on, and none means no log carries it |
| Frogger.FrogRules | src/components/games/FroggerGame.tsx:107-142 | on water without a log the frog goes back to the start; on a log away from cars it rides by the log's speed; off the water it stays unless a car hits it; its row is kept or reset to the start row |
| Frogger.TickFrog | src/components/games/FroggerGame.tsx:107-142 | a tick keeps the frog on its row or sends it to the start row, and away from cars and water leaves it in place |
| Frogger.StartIsSafe | src/components/games/FroggerGame.tsx:107-119 | no car and no water threatens the start position, so a tick leaves the frog there |
| Frogger.Game.constructor | src/components/games/FroggerGame.tsx:13-18 | the game starts at the start position with 3 lives, score 0 and not over |
| Frogger.Game.Key | src/components/games/FroggerGame.tsx:53-76 | nothing while paused or over; ArrowUp from the goal rows scores 100 and resets the frog; other arrows hop; traffic, lives and the over flag never change |
| Frogger.Game.Tick | src/components/games/FroggerGame.tsx:84-146 | a playing tick moves the traffic, carries or resets the frog, costs a life exactly when the frog was hit or drowned and ends the game when the lives reach 0; the validity invariant holds |
| Frogger.Game.Step | src/components/games/FroggerGame.tsx:87-143 | the same new state for one tick of play, with lives and game over kept consistent |
| Paperboy.InitialStreet | src/components/games/PaperboyGame.tsx:21-44 | the mount effect lays out 10 houses 80 apart from x 100, each a subscriber when its draw exceeds 0.3, and 15 obstacles from their three draws |
| Paperboy.Ride | src/components/games/PaperboyGame.tsx:46-61 | each arrow moves the rider 3, x clamped to [0, 370] and y to [100, 250]; other keys leave it; the rider never leaves the street |
| Paperboy.FlightArc | src/components/games/PaperboyGame.tsx:89-98 | after n ticks a paper has moved n times its horizontal speed, its vertical speed has grown by 0.2 n and it has dropped by the closed-form parabola |
| Paperboy.ThrownPaperTurns | src/components/games/PaperboyGame.tsx:62-70 | a paper thrown with vertical speed -2 rises for exactly ten ticks and falls from then on |
| Paperboy.Served | src/components/games/PaperboyGame.tsx:105-133 | houses hit are marked delivered, the rest are unchanged, and none is removed |
| Paperboy.Delivery | src/components/games/PaperboyGame.tsx:118-127 | a delivery to a subscriber writes the snapshot plus 250, to anyone else the snapshot less 100 but never below 0 |
| Paperboy.TickScore | src/components/games/PaperboyGame.tsx:118-127 | the tick's score: the delivery of the last house served, written from the same snapshot; its bounds are the next row |
| Paperboy.ScoreStep | src/components/games/PaperboyGame.tsx:105-133 | a tick's score stays at or above 0, is unchanged without deliveries, and moves by one delivery at most, since every delivery writes from the same snapshot |
| Paperboy.TickLists | src/components/games/PaperboyGame.tsx:89-137 | one house per house and one hit slot per house, in order |
| Paperboy.DeliveryRule | src/components/games/PaperboyGame.tsx:105-116 | a served house stays served and takes no paper; an unserved one is served exactly when a paper still left after the houses before it is within 30 of its scrolled place |
| Paperboy.MoveAndCollide | src/components/games/PaperboyGame.tsx:89-137 | the papers fly, leave the view and hit the houses as the tick's specification says, and the score is the tick score, never negative |
| Paperboy.Game.constructor | src/components/games/PaperboyGame.tsx:12-44 | the rider starts at (50, 200) with no papers, score 0 and no scroll, on the street the mount effect lays out; the bump test's rider is the start position |
| Paperboy.Game.Key | src/components/games/PaperboyGame.tsx:46-74 | nothing while paused; Space throws a paper from the rider with a fresh id; the arrows ride; houses, obstacles, score, scroll and the rider captured by the loop never change |
| Paperboy.Game.Tick | src/components/games/PaperboyGame.tsx:82-152 | a playing tick scrolls on by 1, moves and delivers the papers as the tick's specification says, and sends the rider home when an obstacle bumps the rider as it stood at the previous tick (the player position is not in the loop's dependencies, and the scroll restarts the loop every tick); every tick captures the rider for the next; the score never goes negative |
| Paperboy.Game.Step | src/components/games/PaperboyGame.tsx:85-152 | the same new state for one tick of play, the bump tested against the captured rider |
| Paperboy.StaleRiderBump | src/components/games/PaperboyGame.tsx:139-152 | the bump test reads the captured rider: with an obstacle at (250, 240) and scroll 200, the rider at (50, 215) is not bumped, but the one an ArrowDown moves to (50, 218) is |
| Paperboy.Bumps | src/components/games/PaperboyGame.tsx:139-143 | an obstacle bumps the rider when it is within 25 of the rider on both axes, at its scrolled place |
| Paperboy.Game.Deliver | src/components/games/PaperboyGame.tsx:89-137 | papers, houses and score follow the tick's specification; the rider and scroll are untouched |
| Paperboy.Game.Apply | src/components/games/PaperboyGame.tsx:89-137 | the state takes the tick's papers, houses and score and nothing else changes |
| Pitfall.Walk | src/components/games/PitfallGame.tsx:43-49 | ArrowLeft steps 3 left but not below 0, ArrowRight steps 3 right with no bound, other keys leave the runner |
| Pitfall.FirstTickLanding | src/components/games/PitfallGame.tsx:70-80 | as written the landing test reads the height before the move, so a jump from the ground lands on its first tick, at 200 and at rest |
| Pitfall.JumpAsWritten | src/components/games/PitfallGame.tsx:70-80 | a runner on the ground is left alone, and the step as written agrees with the intended step exactly when the height before and the height after the move are on the same side of the ground |
| Pitfall.JumpsAsWritten | src/components/games/PitfallGame.tsx:70-80 | any number of steps as written leave a runner on the ground where it is |
| Pitfall.AsWrittenStaysOnGround | src/components/games/PitfallGame.tsx:70-98 | as written the runner's height is 200 after any number of ticks, so no treasure (all at 180 or above) is ever within 20 of it |
| Pitfall.JumpStep | src/components/games/PitfallGame.tsx:70-80 | with the landing test on the new height: not jumping leaves the jump; a move reaching the ground lands at 200 and at rest; otherwise the runner rises by the velocity and the velocity grows by 1 |
| Pitfall.ArcBelowGround | src/components/games/PitfallGame.tsx:70-80 | the arc 200 - 12k + k(k-1)/2 is above the ground from tick 1 to tick 24 and back on it at tick 25 |
| Pitfall.JumpStepOk | src/components/games/PitfallGame.tsx:70-80 | a step keeps the jump standing or on its arc; in flight it moves one tick along the arc, and from tick 24 it lands at rest |
| Pitfall.FullJump | src/components/games/PitfallGame.tsx:50-80 | a jump from the ground is in flight for 24 ticks with velocity k - 12 at tick k and lands on the 25th |
| Pitfall.FirstTreasureReachable | src/components/games/PitfallGame.tsx:30-34 | the treasure at (200, 180) is within reach of a runner one tick into a jump at x 200 and out of reach on the ground |
| Pitfall.ArcPeak | src/components/games/PitfallGame.tsx:70-80 | the top of the arc is 122, reached at ticks 12 and 13, and the runner never goes higher |
| Pitfall.Collect | src/components/games/PitfallGame.tsx:86-98 | every uncollected treasure within 20 of the runner on both axes is marked collected, the rest are unchanged and none is removed |
| Pitfall.CollectOnce | src/components/games/PitfallGame.tsx:86-98 | a collected treasure stays collected, collecting twice is collecting once, and nothing is left to collect after a pass |
| Pitfall.PitsUnreachable | src/components/games/PitfallGame.tsx:22-28 | a runner at or above the ground is never at or below a pit's top at 220, so the pit reset never fires in this level |
| Pitfall.Game.constructor | src/components/games/PitfallGame.tsx:12-38 | the runner starts at (50, 200) standing, score 0, camera 0, with the five obstacles and three treasures of the level |
| Pitfall.Game.Key | src/components/games/PitfallGame.tsx:40-57 | nothing while paused; Space starts a jump with velocity -12 only when not jumping; the arrows walk; the level, the score and the camera never change |
| Pitfall.Game.Tick | src/components/games/PitfallGame.tsx:68-113 | a playing tick steps the jump with the intended landing test, moves the camera to the old x less 200, collects the reachable treasures for the snapshot plus 2000 once, and sends the runner home from a pit when not jumping |
| DonkeyKong.Walk | src/components/games/DonkeyKongGame.tsx:31-37 | the arrows move Mario 5 across with x clamped to [0, 380], never changing his height; other keys leave him; he stays on the board |
| DonkeyKong.PlatformUnder | src/components/games/DonkeyKongGame.tsx:63-68 | the result is the first girder whose span and 30-pixel band above its top hold Mario, and none means no girder holds him |
| DonkeyKong.JumpStep | src/components/games/DonkeyKongGame.tsx:58-75 | a jumping Mario lands, at rest 30 above the girder, exactly when he is falling and a girder held the height he had; otherwise he moves by the velocity and the velocity grows by 1 |
| DonkeyKong.RisingNeverLands | src/components/games/DonkeyKongGame.tsx:70-74 | a Mario still rising keeps jumping whatever girder is near |
| DonkeyKong.NoBandNearPeak | src/components/games/DonkeyKongGame.tsx:21-26 | between ticks 16 and 19 of a jump from the bottom girder Mario is in no girder's band, at any x |
| DonkeyKong.ClimbArc | src/components/games/DonkeyKongGame.tsx:58-75 | a jump from the bottom girder follows 450 - 15k + k(k-1)/2 for its first 20 ticks, at any x |
| DonkeyKong.ClimbToSecondGirder | src/components/games/DonkeyKongGame.tsx:21-75 | under the second girder a jump from the bottom lands on it at tick 21, standing at 340 |
| DonkeyKong.Roll | src/components/games/DonkeyKongGame.tsx:84-87 | a barrel keeps its id as it rolls, and one that has left the board never comes back |
| DonkeyKong.Spawned | src/components/games/DonkeyKongGame.tsx:78-80 | the new barrel takes the current id and is on the board before and after its first roll |
| DonkeyKong.MoveBarrels | src/components/games/DonkeyKongGame.tsx:77-87 | a draw under 0.02 adds a barrel at (350, 50); every barrel that stays on the board after rolling 2 left and 1 down is kept, nothing else appears, and what is kept is on the board |
| DonkeyKong.BarrelLifetime | src/components/games/DonkeyKongGame.tsx:84-87 | a barrel that enters at x 350 or less leaves the board within 183 ticks |
| DonkeyKong.RolledAt | src/components/games/DonkeyKongGame.tsx:84-87 | after n rolls a barrel is 2n further left and n further down |
| DonkeyKong.Game.constructor | src/components/games/DonkeyKongGame.tsx:14-19 | Mario starts at (50, 450) standing, with no barrels, score 0 and barrel id 0 |
| DonkeyKong.Game.Key | src/components/games/DonkeyKongGame.tsx:28-45 | nothing while paused; Space starts a jump with velocity -15 only when not jumping; the arrows walk; barrels and the score never change |
| DonkeyKong.Game.Tick | src/components/games/DonkeyKongGame.tsx:56-100 | a playing tick steps the jump, spawns and rolls the barrels with its draw, ignores barrel contact and adds 1 to the score; a paused tick changes nothing |
| DonkeyKong.Game.Step | src/components/games/DonkeyKongGame.tsx:58-99 | the same new state for one tick of play |
| Pong.Moved | src/components/games/PongGame.tsx:31-44 | a paddle moved up or down is clamped to [0, 240] and stays on the court |
| Pong.Serve | src/components/games/PongGame.tsx:102-128 | a served ball starts at the centre (200, 150) moving down at 3 and sideways at 3, to the right exactly when asked |
| Pong.Bounced | src/components/games/PongGame.tsx:72-86 | a paddle hit leaves the ball where it is, turns its horizontal motion back and makes both speeds a tenth larger |
| Pong.Flight | src/components/games/PongGame.tsx:61-87 | the ball moves by its speed; the walls and paddles only turn it back or speed it up by a tenth; away from walls and paddles it keeps its speed |
| Pong.BallStep | src/components/games/PongGame.tsx:89-132 | a ball past the left edge is a point for the right side and is served to the right, one past the right edge a point for the left side served to the left, any other ball flies on with no point |
| Pong.ServedFromCentre | src/components/games/PongGame.tsx:103-108 | after a point the ball is back at (200, 150) with speed 3 on both axes, moving away from the side that scored |
| Pong.LeftReturn | src/components/games/PongGame.tsx:71-78 | a ball moving left that meets the left paddle inside the court leaves moving right a tenth faster on both axes |
| Pong.Ai | src/components/games/PongGame.tsx:136-146 | the AI keeps the left paddle within 10 of the ball's centre, stepping 3 towards it otherwise and staying on the court |
| Pong.AiFollows | src/components/games/PongGame.tsx:136-146 | the AI moves at most 3 and never away from the ball's centre |
| Pong.Scored | src/components/games/PongGame.tsx:89-123 | a point adds 1 to the scoring side only; no point leaves the score; the total grows by one per point |
| Pong.Winner | src/components/games/PongGame.tsx:93-120 | after a point the side that reaches 5 is the winner, and only the side that scored can win |
| Pong.GameLength | src/components/games/PongGame.tsx:89-123 | while no side has won, the two scores together are at most 8, so a game lasts at most 9 points |
| Pong.Game.constructor | src/components/games/PongGame.tsx:15-25 | both paddles start at 120, the ball is at the centre moving right and down at 3, and the score is 0 to 0 with no winner |
| Pong.Game.Key | src/components/games/PongGame.tsx:27-46 | nothing while paused or over; the arrows move the right paddle by 20 and W or S the left one, clamped to the court; ball, score and winner never change |
| Pong.Game.Tick | src/components/games/PongGame.tsx:54-147 | a playing tick of a game in progress steps the ball, counts a point, declares a winner at 5 and moves the AI paddle after the ball's height before the tick; otherwise nothing changes |
| Pong.Game.Step | src/components/games/PongGame.tsx:57-146 | the same new state for one tick of play, keeping the scores and the winner consistent |

## Left out

- Asteroids, Robotron and Missile Command: their motion is cosine, sine, square-root normalisation and 0.99 friction, floating-point numerics with no exact counterpart; Missile Command also aims at DOM mouse coordinates.
- Bubble Bobble and Joust: their rules are entangled with fractional gravity and random flaps, so they are not modelled.
- GameScreen, LoadingScreen and App: a two-second timer, random loading progress and the title-to-component dispatch are UI and timers with no rules of their own; the cabinet's `Shown` gives the screen choice.
- The game catalogue and its type: only the number of games (21, so four menu pages of six) and the ids are used, as constants.
- Rendering: JSX, emoji sprites, CSS and the star backgrounds.
- Scheduling: `setInterval`, `setTimeout`, `addEventListener` and React re-render timing are concurrency and framework plumbing; one key event or one interval firing is one atomic method call, and an effect's restart on a dependency change is not modelled.
- Nested `setState`: an updater that calls another state setter is applied in the order the statements appear, not in React's batching order.
- `onScoreChange`: its argument is always the value written by `setScore` in the same statement, so it is not modelled separately.
- `Math.random()` and `Date.now()`: every draw is a parameter of the method that consumes it; only the fact that a draw lies in [0, 1) is used.
- Floating point: positions and speeds that the source computes with fractions (Frogger's cars and logs, Paperboy's papers, Pong's ball) are exact reals; rounding is not modelled.
- Galaga's and Defender's sinusoidal enemy motion: the `Math.sin(Date.now() …)` offsets are parameters of the tick, and only the rules around them are modelled. Galaga.Drift and Galaga.DriftAll take one vertical offset for the whole tick, while the source calls `Date.now()` once per enemy, so enemies moved in the same tick may in the source see slightly different clock values.
- Pong.Flight: the ×1.1 speed-up is an exact real multiplication, so the contract speaks of exact tenths, not of the floating-point product.
- Tetris.Locked: writes only the cells on the board; a piece that the unchecked rotation pushed past a wall would, in the source, write past the end of its row, and that extra array slot is not modelled.
- Tetris.Game.Settle: a piece that the unchecked rotation pushed below the floor makes the board updater write into a row that does not exist, which throws a TypeError and tears the component down; the model records this as `crashed`, after which Tick and Key do nothing, and does not model what React shows after the error.
- Tetris.Game.constructor: the mount effect draws the next piece twice and keeps the second draw; the model takes both draws as parameters and keeps the second, so the first draw of the next piece has no effect.
- Snake.Game.Reset: the source's `generateFood` loops until a free cell comes up; the model takes a finite list of draws and keeps the old food when none of them is free. It also uses the corrected food rule (`Respawn`, food off the new one-cell snake), while the source avoids the snake that just died (`RespawnAsWritten`, under Findings), so the model's food is never under the new snake and the source's may be.
- Snake.Game.Tick: uses the corrected food rule (`Respawn`, food off the snake after the move); the source avoids the snake before the move (`RespawnAsWritten`, under Findings), so its new food can land under the new head, which the model's cannot.
- Snake.Game.Step: the same corrected food rule as Snake.Game.Tick; the as-written rule is `RespawnAsWritten`.
- Centipede.Game.constructor: the 30 random mushroom places are a parameter.
- Centipede.TickLists: removes exactly the struck segments (`Unhit`), the corrected segment removal; the source's `splice(index, 1)` with indices from before any splice (`SpliceAsWritten`, under Findings) removes the wrong segments after the first.
- Centipede.MoveAndCollide: computes the corrected segment removal of Centipede.TickLists, not the source's shifting splices.
- Centipede.Game.Tick: leaves the segments the corrected removal leaves; as written, a tick with two or more struck segments keeps some struck ones and loses unstruck ones.
- Centipede.Game.Step: the same corrected segment removal as Centipede.Game.Tick.
- Cabinet: the power-off view shows only the power switch, so the other buttons cannot be pressed then; the model does not restrict `InsertCoin`, `StartGame` and `BackToMenu` to a powered cabinet but proves nothing that depends on it.
- Galaga: the invariant that bullet and enemy ids stay below their counters is stated as lemmas (FireKeepsNumbers, BulletsFromFlight) about the lists, not inside `Valid()`.
- Frogger.Game.Valid: bounds the frog's row only; a log can carry the frog past either side of the river, because the source has no bound on x after a ride.
- Frogger.Game.Tick: like the source, it does not look at `gameOver`; the traffic keeps moving after the game ends while the frog waits on the start row, where nothing can hit it.
- Street Fighter: the source declares no winner and has no round timer, so nothing is modelled for either.
- QBert.Game.Tick: uses the corrected flip (`Flip`: only an existing, unflipped cube flips and scores), so `Valid()` keeps the score at 25 times the flipped cubes; the source as written (`TickAsWritten`, under Findings) also pays 25 at a position off the row, such as (-1, 6), and pays there again after the row is copied.
- MortalKombat.Game.CheckWinner: uses the corrected winner effect (`Decide`: the 1000 bonus once, when player 1 is first declared the winner); the source's effect depends on the score it sets and pays again on each re-run (`WinnerEffectAsWritten`, `EffectRunsAsWritten`, under Findings).
- Mortal Kombat and Street Fighter: the timeouts that end an attack animation are the `Recover` methods, called as a separate step.
- Donkey Kong: the barrel-contact test has an empty body in the source, so the model gives it no effect.
- Pitfall.Game.Tick: uses the corrected landing test (`JumpStep`); the code as written is `JumpAsWritten`, described under Findings.
- Pong: the score the rest of the site sees is left plus right (`Reported`), as the source passes it to `onScoreChange`.

## Findings

| source | as written | input that shows it | evidently intended | confidence | as-written member | corrected member |
|---|---|---|---|---|---|---|
| src/components/games/SnakeGame.tsx:17-28 | `generateFood` avoids the snake captured by the closure, which is the snake before the move (or, in resetGame, the snake that just died) | a one-cell snake at (10, 10) moving right eats food at (11, 10); the first draw (11, 10) is accepted, so the food lands under the new head | new food is never placed on the snake as it is after the move | not executed | Snake.StaleSnakeFood | Snake.Respawn |
| src/components/games/QBertGame.tsx:68-74 | the guard `newCubes[y] && !newCubes[y][x]` accepts any x on an existing row, since a missing cell is falsy | seven Downs from (0, 0) put Q*bert at (-1, 6); the tick adds property -1 to row 6 and scores 25 | only an existing, unflipped cube is flipped and scores, so the score stays 25 times the flipped cubes | not executed | QBert.PhantomCube | QBert.Flip |
| src/components/games/CentipedeGame.tsx:122-133 | `newCentipede.splice(index, 1)` uses the index in the centipede before any splice, so each removal after the first hits the wrong segment | segments 0 and 1 of three are struck: the splices remove segments 0 and 2, leaving segment 1, which was struck | exactly the segments that were struck are removed | not executed | Centipede.SpliceShifts | Collision.UnhitExactly |
| src/components/games/MortalKombatGame.tsx:134-144 | the winner effect depends on `score` and writes `score + 1000`, so each run triggers another and pays the bonus again | player 2's health reaches 0: after n runs of the effect the score is n times 1000 higher | the bonus is paid once, when the winner is first declared | not executed | MortalKombat.BonusRepeats | MortalKombat.DecideIdempotent |
| src/components/games/PitfallGame.tsx:70-80 | the landing test reads the height from before this tick's move, and a fresh jump starts at 200 | Space then one tick: the runner lands at once on 200, so it never leaves the ground and no treasure is ever reached | the jump lands when the new height reaches the ground | not executed | Pitfall.FirstTickLanding | Pitfall.FullJump |
