# Snake game state, modelled in Dafny

This project models the game-state machine of a classic Snake game: the panel
that holds the snake's segment coordinates in two fixed-size arrays, the apple,
the score, the direction, the running flag and the timer delay, and the
operations that update them in place:

- `move` shifts every segment into the slot behind it and steps the head;
- `newApple` places the apple on a random cell;
- `checkApple` grows the snake, counts the apple and speeds the game up every ten apples;
- `checkCollision` stops the game when the head meets the body or leaves the board;
- `actionPerformed` is one timer tick: move, apple, collision, only while running;
- `keyPressed` turns the snake (never straight back) or restarts a stopped game;
- `restartGame` and `startGame` reset the state and start a game.

The project has three modules.

- `SnakeRules` (`snake_rules.dfy`) holds the constants and a `State` value of
  the whole panel. It gives one function per operation, and each function's
  `ensures` says what the operation means. Examples: the follow-the-leader shift
  of `Shift`, the head step taken from a direction table `Heading`, the two cases
  of `CheckApple`, and the if-and-only-if of `CheckCollision`.
- `GamePanel` (`game_panel.dfy`) is the panel as the source has it: class
  `Game` with the arrays `x`, `y` and the scalar fields. Its methods change them
  in place with the source's loops: the descending shift, the collision scan and
  the zeroing loop of the restart. Each method is proved to leave exactly the
  state its `SnakeRules` function gives, through the ghost `Abs()`. The public
  entry points (the constructor, `ActionPerformed`, `KeyPressed`) also keep the
  invariant `Valid()`.
- `SnakeProperties` (`snake_properties.dfy`) proves facts about whole games.
  - The invariant `Inv` holds from the start and after every tick and key press.
    It says the length is 6 plus the score, and the delay is the one the ramp
    gives for the score. Every coordinate is a multiple of 25 within one unit of
    the board, the apple is on the board, and a running game has its head on the
    board.
  - The speed schedule in closed form.
  - The trail: after `k` moves, segment `i` is where the head was `i` moves earlier.
  - Three behaviours of the code as written, pinned as lemmas (see below).

Three behaviours of the code as written are proved as lemmas rather than changed:

- The reversal guard compares against the stored direction, not the direction
  of the last move. Two presses between ticks (Up, then Left while heading
  right) turn the snake around, and the next move puts the head on its neck
  (`TwoPressesReverse`, `ReversedMoveHitsNeck`, and end to end over ticks and
  key presses `QuickReversalEndsGame`).
- After an apple is eaten, the collision scan also reads slot `bodyParts` of
  the grown snake. That tick's move did not write this slot. While the snake is
  longer than it has ever been since the arrays were allocated (so throughout
  the first game), the slot still holds the 0 of the allocation, and eating an
  apple on cell (0, 0) ends the game (`AppleAtOriginEndsGame`). Otherwise it
  holds a coordinate an earlier, longer snake left there (the restart zeroes
  only the first six slots), and eating an apple on that cell ends the game
  (`StaleSlotEndsGame`).
- Apples may be placed on the snake's body: `NewApple` has no avoidance check,
  and `EveryCellDrawable` shows every cell can be drawn.

Random numbers are parameters: `rx` and `ry` stand for the two results of
`Random.nextInt(24)`, with the precondition `IsDraw(rx, ry)` that they are in
`[0, 24)`. A method receives them even when the source would not draw
(for example a turn key), and then ignores them.

## Model

| member | source | states |
|---|---|---|
| `SnakeRules.Shift` | src/GamePanel.java:171-174 | the descending copy loop gives every slot 1..n the old content of the slot before it, and leaves slot 0 and every slot above n unchanged |
| `SnakeRules.Move` | src/GamePanel.java:169-191 | segments 1..bodyParts take the old position of the segment ahead. Slots above bodyParts are untouched. The head moves by UNIT_SIZE times the direction's unit step (U: y-25, D: y+25, L: x-25, R: x+25), and every other field is unchanged |
| `GamePanel.Game.Move` | src/GamePanel.java:169-191 | the in-place loop over the arrays leaves exactly the state `SnakeRules.Move` gives, changing only the two arrays |
| `SnakeRules.NewApple` | src/GamePanel.java:197-200 | the apple lands on a board cell, a multiple of 25 in [0, 600) on both axes; nothing else changes |
| `GamePanel.Game.NewApple` | src/GamePanel.java:197-200 | changes only the apple fields, as `SnakeRules.NewApple` says |
| `SnakeRules.SpeedUp` | src/GamePanel.java:214-218 | the delay never rises and drops by at most 5. It drops exactly when the new score is a multiple of 10 and the delay is above 50, so at 50 it stays put, and it never goes below 50 from a delay of at least 50 |
| `SnakeRules.DelayAfter` | src/GamePanel.java:214-218 | the delay after n apples from the initial 100 is max(50, 100 - 5 * (n / 10)) |
| `SnakeRules.CheckApple` | src/GamePanel.java:207-223 | with the head on the apple, the length and the score each grow by exactly 1, the new apple is on the board, and the ramp is applied to the new score; otherwise the state is unchanged |
| `GamePanel.Game.CheckApple` | src/GamePanel.java:207-223 | updates only length, score, apple and delay, exactly as `SnakeRules.CheckApple` says |
| `SnakeRules.CheckCollision` | src/GamePanel.java:230-247 | running is cleared when the head equals a slot 1..bodyParts or lies outside [0, 600) x [0, 600). It is cleared only then, it is never set, and nothing else changes |
| `GamePanel.Game.CheckCollision` | src/GamePanel.java:230-247 | the scan over slots bodyParts..1 and the border test change only `running`, exactly as `SnakeRules.CheckCollision` says |
| `SnakeRules.Tick` | src/GamePanel.java:289-296 | a stopped game does not change. A tick never restarts a game. After a tick of a running game, the game still runs exactly when the head is on the board and on no body slot. The arrays become exactly those of one move, the direction is untouched, and the score grows by one exactly when the moved head is on the apple, otherwise not at all |
| `GamePanel.Game.ActionPerformed` | src/GamePanel.java:289-296 | move, apple check and collision check in that order, only while running, give `SnakeRules.Tick` and keep the invariant |
| `SnakeRules.Turn` | src/GamePanel.java:311-335 | a key sets its own direction or nothing. A valid direction stays valid and never becomes its opposite. A movement key is accepted exactly when it does not ask for the opposite. The restart key leaves the direction alone |
| `SnakeRules.KeyPressed` | src/GamePanel.java:310-342 | a movement key changes only the direction, to `Turn` of the current one, never to the opposite. The restart key is ignored while running; on a stopped game it gives exactly `RestartGame` (6 segments, score 0, direction R, delay 100, slots 0..5 at 0, apple on the board), so the game runs afterwards |
| `GamePanel.Game.KeyPressed` | src/GamePanel.java:310-342 | the switch over the decoded key gives `SnakeRules.KeyPressed` and keeps the invariant |
| `SnakeRules.ZeroPrefix` | src/GamePanel.java:355-358 | the first n slots become 0 and the rest keep their values |
| `SnakeRules.RestartGame` | src/GamePanel.java:348-361 | afterwards the snake has 6 segments, score 0, direction R and delay 100. Slots 0..5 are at (0, 0) and the higher slots keep their old values. The game runs, with the apple on the board |
| `GamePanel.Game.RestartGame` | src/GamePanel.java:348-361 | the field resets and the zeroing loop give `SnakeRules.RestartGame` |
| `SnakeRules.StartGame` | src/GamePanel.java:56-61 | places the apple on the board and sets running; nothing else changes |
| `GamePanel.Game.StartGame` | src/GamePanel.java:56-61 | changes only the apple and `running`, as `SnakeRules.StartGame` says |
| `SnakeRules.Initial` | src/GamePanel.java:25-61 | the panel starts running with 6 segments, no score, direction R, delay 100, the apple on the board and every slot of both 14400-slot arrays at 0 |
| `GamePanel.Game.constructor` | src/GamePanel.java:43-50 | allocates fresh zeroed arrays, leaves the state `SnakeRules.Initial` describes and establishes the invariant |
| `SnakeProperties.InitialInv` | src/GamePanel.java:43-61 | the state after construction satisfies the invariant |
| `SnakeProperties.MovePreservesAlignment` | src/GamePanel.java:169-191 | a move from a head on the board keeps every coordinate a multiple of 25 within one unit of the board |
| `SnakeProperties.TickPreservesInv` | src/GamePanel.java:289-296 | a tick keeps the invariant. Length stays 6 plus the score and the delay stays the ramp's value for the score. Coordinates stay on the grid, and a running game keeps its head on the board |
| `SnakeProperties.KeyPressedPreservesInv` | src/GamePanel.java:310-361 | a key press, including a restart, keeps the invariant |
| `SnakeProperties.DelayInRange` | src/GamePanel.java:214-218 | in every reachable state the delay is within [50, 100] |
| `SnakeProperties.SpeedUpSchedule` | src/GamePanel.java:214-218 | the delay changes at apple n exactly when n is a multiple of 10 up to 100, and then by exactly 5. From the 100th apple on it is 50 |
| `SnakeProperties.Moves` | src/GamePanel.java:169-191 | repeated moves keep the length, the direction and the array sizes |
| `SnakeProperties.MovesAdvanceHead` | src/GamePanel.java:177-190 | after k moves the head is k units further along its heading |
| `SnakeProperties.MovesTrail` | src/GamePanel.java:171-174 | after k moves, segment i (i <= k) is where the head was i moves earlier |
| `SnakeProperties.SegmentBehindHead` | src/GamePanel.java:169-191 | on a straight run of at least i moves, segment i is exactly i units behind the head along the heading, and so never on it |
| `SnakeProperties.StraightRunMissesBody` | src/GamePanel.java:232-236 | a snake that moves straight for at least its length never meets its own body |
| `SnakeProperties.ThreeMovesRight` | src/GamePanel.java:187-189 | a head at cell (12, 12) heading right is at cell (15, 12) after three moves |
| `SnakeProperties.QuietTickIsMove` | src/GamePanel.java:289-296 | a tick of a running game that neither eats nor stops is exactly a move |
| `SnakeProperties.EveryCellDrawable` | src/GamePanel.java:198-199 | every cell of the board is the apple's cell for some draw |
| `SnakeProperties.TwoPressesReverse` | src/GamePanel.java:312-329 | heading right, Up then Left before the next tick leave the direction at Left, the opposite |
| `SnakeProperties.ReversedMoveHitsNeck` | src/GamePanel.java:184-186 | heading left with the neck one unit to the left (as after a move right), the next move puts the head on the neck |
| `SnakeProperties.StaleSlotEndsGame` | src/GamePanel.java:207-241 | eating an apple whose cell is held by stale slot bodyParts + 1 ends the game, though no slot the move wrote is on the head |
| `SnakeProperties.QuickReversalEndsGame` | src/GamePanel.java:289-335 | a running snake heading right that survives a tick, then gets Up and Left before the next tick, ends up heading left and stops on that next tick |
| `SnakeProperties.AppleAtOriginEndsGame` | src/GamePanel.java:207-241 | with slot bodyParts + 1 still at the allocated (0, 0), a head at (25, 0) heading left eats the apple at (0, 0), meets no slot the move wrote, and the game stops |

## Left out

- Rendering (`paintComponent`, `draw`, `drawGrid`, `drawScore`, `gameOver`), the speed text and the colour switch at 50 apples: drawing calls with no effect on the state.
- The Swing `Timer` (creation, start, `setDelay`, `stop`) and `repaint()`: the delay is the field `currentDelay`, and a stopped timer is `running == false`.
- `java.util.Random`: its two draws are the parameters `rx`, `ry`; the model says nothing about their distribution.
- `KeyEvent` decoding: arrows and WASD are folded into the five keys of `SnakeRules.Key`. Other keys do nothing in the source, so they are not modelled.
- `GameFrame.java` and `SnakeGame.java`: window set-up and the launch on the event thread. They hold no game logic.
- Concurrency: key events and timer ticks run on one event thread, so the model treats each operation as atomic.
- GamePanel.Game.Move: requires slot `bodyParts` to exist (`bodyParts < 14400`). Past that the source throws an index exception, and the model does not describe what follows.
- GamePanel.Game.CheckCollision: requires slot `bodyParts` to exist, for the same reason as `Move`.
- GamePanel.Game.ActionPerformed: requires the same room (`Tickable`), and one more slot when the apple is eaten. The source reads that slot in `checkCollision`.
- Java's 32-bit `int` arithmetic is not written out. The invariant keeps every coordinate within [-25, 600]. Length and score stay below 14400 under the preconditions above, so no wrap-around can occur.
