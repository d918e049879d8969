/** The rules of the Snake game panel as functions on a value of the whole game
    state. Each function here is the specification of one method of the class
    `GamePanel.Game`, which carries out the same step in place on arrays. */
module SnakeRules {

  // Board and timing constants of the panel.
  const SCREEN_WIDTH: int := 600
  const SCREEN_HEIGHT: int := 600
  const UNIT_SIZE: int := 25
  /** Capacity of the coordinate arrays: (600 * 600) / 25, which is 14400, far
      more than the 24 x 24 cells of the board. */
  const GAME_UNITS: int := (SCREEN_WIDTH * SCREEN_HEIGHT) / UNIT_SIZE
  const INITIAL_DELAY: int := 100
  const MIN_DELAY: int := 50
  /** Length of the snake at the start of every game. */
  const INITIAL_BODY_PARTS: int := 6
  /** How much faster each speed-up makes the timer, and how often it happens. */
  const DELAY_STEP: int := 5
  const APPLES_PER_SPEED_UP: int := 10

  /** The keys the panel reacts to: arrows and WASD map to the four moves, R restarts. */
  datatype Key = Left | Right | Up | Down | Restart

  /** The whole game state. `xs`/`ys` are the full coordinate arrays (index 0 is
      the head); only the first `bodyParts` + 1 slots take part in a move. */
  datatype State = State(
    xs: seq<int>,
    ys: seq<int>,
    bodyParts: int,
    applesEaten: int,
    appleX: int,
    appleY: int,
    direction: char,
    running: bool,
    currentDelay: int)

  predicate IsDirection(d: char) {
    d == 'U' || d == 'D' || d == 'L' || d == 'R'
  }

  function Opposite(d: char): (r: char)
    requires IsDirection(d)
    ensures IsDirection(r) && r != d
  {
    match d
    case 'U' => 'D'
    case 'D' => 'U'
    case 'L' => 'R'
    case _ => 'L'
  }

  /** The direction a movement key asks for. */
  function KeyDirection(k: Key): (r: char)
    requires k != Restart
    ensures IsDirection(r)
  {
    match k
    case Left => 'L'
    case Right => 'R'
    case Up => 'U'
    case Down => 'D'
  }

  /** The unit step of the head for each direction, in screen coordinates
      (y grows downwards); any other character does not move the head. */
  function Heading(d: char): (int, int) {
    if d == 'U' then (0, -1)
    else if d == 'D' then (0, 1)
    else if d == 'L' then (-1, 0)
    else if d == 'R' then (1, 0)
    else (0, 0)
  }

  /** A random draw of `nextInt(SCREEN_WIDTH / UNIT_SIZE)` and
      `nextInt(SCREEN_HEIGHT / UNIT_SIZE)`. */
  predicate IsDraw(rx: int, ry: int) {
    0 <= rx < SCREEN_WIDTH / UNIT_SIZE && 0 <= ry < SCREEN_HEIGHT / UNIT_SIZE
  }

  /** A cell of the board: a multiple of UNIT_SIZE inside the screen on both axes. */
  predicate OnGrid(cx: int, cy: int) {
    0 <= cx < SCREEN_WIDTH && 0 <= cy < SCREEN_HEIGHT &&
    cx % UNIT_SIZE == 0 && cy % UNIT_SIZE == 0
  }

  predicate OffBoard(hx: int, hy: int) {
    hx < 0 || hx >= SCREEN_WIDTH || hy < 0 || hy >= SCREEN_HEIGHT
  }

  /** The arrays are there and slot `bodyParts` exists, so a move or a collision
      scan stays inside them. */
  predicate Movable(s: State) {
    |s.xs| == |s.ys| && 0 <= s.bodyParts < |s.xs|
  }

  // ---------------------------------------------------------------- move

  /** The body shift of `move`: for i from n down to 1, slot i takes slot i - 1.
      Going downwards is what makes every segment take the OLD position of the one
      ahead of it. */
  function Shift(s: seq<int>, n: int): (r: seq<int>)
    requires 0 <= n < |s|
    ensures |r| == |s|
    ensures r[0] == s[0]
    ensures forall i :: 1 <= i <= n ==> r[i] == s[i - 1]
    ensures forall i :: n < i < |s| ==> r[i] == s[i]
    decreases n
  {
    if n == 0 then s else Shift(s[n := s[n - 1]], n - 1)
  }

  /** `move`: shift the body, then step the head by one unit as `direction` says. */
  function Move(s: State): (r: State)
    requires Movable(s)
    ensures Movable(r) && |r.xs| == |s.xs|
    ensures r == s.(xs := r.xs, ys := r.ys)
    ensures forall i :: 1 <= i <= s.bodyParts ==> r.xs[i] == s.xs[i - 1] && r.ys[i] == s.ys[i - 1]
    ensures forall i :: s.bodyParts < i < |s.xs| ==> r.xs[i] == s.xs[i] && r.ys[i] == s.ys[i]
    ensures r.xs[0] == s.xs[0] + UNIT_SIZE * Heading(s.direction).0
    ensures r.ys[0] == s.ys[0] + UNIT_SIZE * Heading(s.direction).1
  {
    var xs := Shift(s.xs, s.bodyParts);
    var ys := Shift(s.ys, s.bodyParts);
    if s.direction == 'U' then s.(xs := xs, ys := ys[0 := ys[0] - UNIT_SIZE])
    else if s.direction == 'D' then s.(xs := xs, ys := ys[0 := ys[0] + UNIT_SIZE])
    else if s.direction == 'L' then s.(xs := xs[0 := xs[0] - UNIT_SIZE], ys := ys)
    else if s.direction == 'R' then s.(xs := xs[0 := xs[0] + UNIT_SIZE], ys := ys)
    else s.(xs := xs, ys := ys)
  }

  // ---------------------------------------------------------------- apple

  /** `newApple`: place the apple on the cell the two draws pick. */
  function NewApple(s: State, rx: int, ry: int): (r: State)
    requires IsDraw(rx, ry)
    ensures OnGrid(r.appleX, r.appleY)
    ensures r == s.(appleX := r.appleX, appleY := r.appleY)
  {
    s.(appleX := rx * UNIT_SIZE, appleY := ry * UNIT_SIZE)
  }

  /** The speed ramp of `checkApple`, given the new score: every tenth apple takes
      DELAY_STEP off the delay, but never below MIN_DELAY. The source tests
      `applesEaten % 10 == 0` with Java's truncating `%`; divisibility by 10 is the
      same under Dafny's `%` for every integer. */
  function SpeedUp(eaten: int, delay: int): (r: int)
    ensures r <= delay && delay - r <= DELAY_STEP
    ensures r != delay <==> eaten % APPLES_PER_SPEED_UP == 0 && delay > MIN_DELAY
    ensures MIN_DELAY <= delay ==> MIN_DELAY <= r
  {
    if eaten % APPLES_PER_SPEED_UP == 0 && delay > MIN_DELAY then
      if delay - DELAY_STEP < MIN_DELAY then MIN_DELAY else delay - DELAY_STEP
    else
      delay
  }

  function Max(a: int, b: int): int {
    if a < b then b else a
  }

  /** The delay of a game in which `eaten` apples have been eaten: the ramp of
      `SpeedUp` applied at every apple from the initial delay. In closed form, one
      DELAY_STEP per completed ten apples, floored at MIN_DELAY. */
  function DelayAfter(eaten: nat): (r: int)
    ensures r == Max(MIN_DELAY, INITIAL_DELAY - DELAY_STEP * (eaten / APPLES_PER_SPEED_UP))
    decreases eaten
  {
    if eaten == 0 then INITIAL_DELAY else SpeedUp(eaten, DelayAfter(eaten - 1))
  }

  predicate Eats(s: State)
    requires |s.xs| > 0 && |s.ys| > 0
  {
    s.xs[0] == s.appleX && s.ys[0] == s.appleY
  }

  /** `checkApple`: when the head is on the apple, the snake grows by one, the score
      goes up by one, a new apple is placed and the speed ramp applies; otherwise
      nothing changes. */
  function CheckApple(s: State, rx: int, ry: int): (r: State)
    requires |s.xs| > 0 && |s.ys| > 0 && IsDraw(rx, ry)
    ensures Eats(s) ==> r.bodyParts == s.bodyParts + 1 && r.applesEaten == s.applesEaten + 1
    ensures Eats(s) ==> OnGrid(r.appleX, r.appleY)
    ensures Eats(s) ==> r.currentDelay == SpeedUp(r.applesEaten, s.currentDelay)
    ensures Eats(s) ==>
      r.xs == s.xs && r.ys == s.ys && r.direction == s.direction && r.running == s.running
    ensures !Eats(s) ==> r == s
  {
    if Eats(s) then
      var grown := NewApple(s.(bodyParts := s.bodyParts + 1, applesEaten := s.applesEaten + 1), rx, ry);
      grown.(currentDelay := SpeedUp(grown.applesEaten, grown.currentDelay))
    else
      s
  }

  // ---------------------------------------------------------------- collision

  /** The head shares its cell with one of the slots 1 .. bodyParts. */
  predicate HitsBody(s: State)
    requires Movable(s)
  {
    exists i :: 1 <= i <= s.bodyParts && s.xs[i] == s.xs[0] && s.ys[i] == s.ys[0]
  }

  /** `checkCollision`: the game stops when the head meets a body slot or leaves
      the board; nothing else changes, and a stopped game is never restarted here. */
  function CheckCollision(s: State): (r: State)
    requires Movable(s)
    ensures r == s.(running := r.running)
    ensures r.running ==> s.running
    ensures s.running && !r.running ==> HitsBody(s) || OffBoard(s.xs[0], s.ys[0])
    ensures HitsBody(s) || OffBoard(s.xs[0], s.ys[0]) ==> !r.running
  {
    if HitsBody(s) || OffBoard(s.xs[0], s.ys[0]) then s.(running := false) else s
  }

  // ---------------------------------------------------------------- tick

  /** What a tick needs of the arrays: room for slot `bodyParts` during the move,
      and room for one more when the apple is eaten, since the collision scan then
      reads the new slot `bodyParts`. */
  predicate Tickable(s: State) {
    s.running ==>
      Movable(s) && (Eats(Move(s)) ==> s.bodyParts + 1 < |s.xs|)
  }

  /** `actionPerformed`: while running, move, then check the apple, then check for
      a collision; a stopped game does not change. */
  function Tick(s: State, rx: int, ry: int): (r: State)
    requires Tickable(s) && IsDraw(rx, ry)
    ensures !s.running ==> r == s
    ensures r.running ==> s.running
    ensures s.running ==>
      Movable(r) && (r.running <==> !HitsBody(r) && !OffBoard(r.xs[0], r.ys[0]))
    ensures s.running ==> r.xs == Move(s).xs && r.ys == Move(s).ys
    ensures s.running ==> (r.applesEaten == s.applesEaten + 1 <==> Eats(Move(s)))
    ensures r.direction == s.direction
    ensures r.applesEaten == s.applesEaten || r.applesEaten == s.applesEaten + 1
  {
    if s.running then CheckCollision(CheckApple(Move(s), rx, ry)) else s
  }

  // ---------------------------------------------------------------- keys

  /** The direction update of `keyPressed`: a key is refused when it asks for the
      opposite of the current direction; the restart key leaves it alone. */
  function Turn(d: char, k: Key): (r: char)
    ensures r == d || (k != Restart && r == KeyDirection(k))
    ensures IsDirection(d) ==> IsDirection(r) && r != Opposite(d)
    ensures IsDirection(d) && k != Restart ==>
      (r == KeyDirection(k) <==> KeyDirection(k) != Opposite(d))
  {
    match k
    case Left => if d != 'R' then 'L' else d
    case Right => if d != 'L' then 'R' else d
    case Up => if d != 'D' then 'U' else d
    case Down => if d != 'U' then 'D' else d
    case Restart => d
  }

  /** The slots 0 .. n - 1 set to 0, the rest as they were. */
  function ZeroPrefix(s: seq<int>, n: int): (r: seq<int>)
    requires 0 <= n <= |s|
    ensures |r| == |s|
    ensures forall i :: 0 <= i < n ==> r[i] == 0
    ensures forall i :: n <= i < |s| ==> r[i] == s[i]
  {
    seq(|s|, i requires 0 <= i < |s| => if i < n then 0 else s[i])
  }

  /** `startGame`: a new apple, and the game runs. */
  function StartGame(s: State, rx: int, ry: int): (r: State)
    requires IsDraw(rx, ry)
    ensures r.running && OnGrid(r.appleX, r.appleY)
    ensures r == s.(appleX := r.appleX, appleY := r.appleY, running := true)
  {
    NewApple(s, rx, ry).(running := true)
  }

  /** `restartGame`: back to six segments, no score, heading right at the initial
      speed; only the first six slots are zeroed, the others keep what an earlier
      game left there. Then `startGame`. */
  function RestartGame(s: State, rx: int, ry: int): (r: State)
    requires |s.xs| >= INITIAL_BODY_PARTS && |s.ys| >= INITIAL_BODY_PARTS && IsDraw(rx, ry)
    ensures r.bodyParts == INITIAL_BODY_PARTS && r.applesEaten == 0
    ensures r.direction == 'R' && r.currentDelay == INITIAL_DELAY
    ensures r.running && OnGrid(r.appleX, r.appleY)
    ensures |r.xs| == |s.xs| && |r.ys| == |s.ys|
    ensures forall i :: 0 <= i < INITIAL_BODY_PARTS ==> r.xs[i] == 0 && r.ys[i] == 0
    ensures forall i :: INITIAL_BODY_PARTS <= i < |s.xs| ==> r.xs[i] == s.xs[i]
    ensures forall i :: INITIAL_BODY_PARTS <= i < |s.ys| ==> r.ys[i] == s.ys[i]
  {
    var reset := s.(bodyParts := INITIAL_BODY_PARTS, applesEaten := 0, direction := 'R',
                    currentDelay := INITIAL_DELAY);
    StartGame(reset.(xs := ZeroPrefix(reset.xs, reset.bodyParts),
                     ys := ZeroPrefix(reset.ys, reset.bodyParts)), rx, ry)
  }

  /** `keyPressed`: a movement key turns the snake (unless it is a reversal); the
      restart key restarts a stopped game and is ignored while the game runs. */
  function KeyPressed(s: State, k: Key, rx: int, ry: int): (r: State)
    requires |s.xs| >= INITIAL_BODY_PARTS && |s.ys| >= INITIAL_BODY_PARTS && IsDraw(rx, ry)
    ensures k != Restart ==> r == s.(direction := r.direction)
    ensures k != Restart ==> r.direction == Turn(s.direction, k)
    ensures k != Restart && IsDirection(s.direction) ==>
      IsDirection(r.direction) && r.direction != Opposite(s.direction)
    ensures k == Restart ==> r.running
    ensures k == Restart && s.running ==> r == s
    ensures k == Restart && !s.running ==>
      r.applesEaten == 0 && r.bodyParts == INITIAL_BODY_PARTS && r.direction == 'R'
    ensures k == Restart && !s.running ==> r == RestartGame(s, rx, ry)
  {
    if k == Restart then
      if !s.running then RestartGame(s, rx, ry) else s
    else
      s.(direction := Turn(s.direction, k))
  }

  /** The state the panel's constructor leaves: zeroed arrays (Java's default),
      six segments, heading right, the initial delay, then `startGame`. */
  function Initial(rx: int, ry: int): (r: State)
    requires IsDraw(rx, ry)
    ensures r.running && r.bodyParts == INITIAL_BODY_PARTS && r.applesEaten == 0
    ensures r.direction == 'R' && r.currentDelay == INITIAL_DELAY && OnGrid(r.appleX, r.appleY)
    ensures |r.xs| == GAME_UNITS && |r.ys| == GAME_UNITS
    ensures forall i :: 0 <= i < GAME_UNITS ==> r.xs[i] == 0 && r.ys[i] == 0
  {
    var zeros := seq(GAME_UNITS, _ => 0);
    StartGame(State(zeros, zeros, INITIAL_BODY_PARTS, 0, 0, 0, 'R', false, INITIAL_DELAY), rx, ry)
  }
}
