/** What the rules of `SnakeRules` guarantee over whole games: the invariant
    every operation keeps, the speed schedule, and how the body trails the head. */
module SnakeProperties {
  import opened SnakeRules

  /** A coordinate of a segment: on the UNIT_SIZE grid, and at most one unit
      beyond the board (a head that has just left it). */
  predicate Aligned(c: int, extent: int) {
    c % UNIT_SIZE == 0 && -UNIT_SIZE <= c <= extent
  }

  /** The state of a panel between two events. The length is the initial six
      plus the score, the delay is the one the ramp gives for that score, every
      coordinate is on the grid (so none can overflow a 32-bit int), the apple is
      on the board, and a running game has its head on the board. */
  predicate Inv(s: State) {
    |s.xs| == GAME_UNITS && |s.ys| == GAME_UNITS &&
    0 <= s.applesEaten && s.bodyParts == INITIAL_BODY_PARTS + s.applesEaten &&
    IsDirection(s.direction) &&
    s.currentDelay == DelayAfter(s.applesEaten) &&
    OnGrid(s.appleX, s.appleY) &&
    (forall i :: 0 <= i < |s.xs| ==> Aligned(s.xs[i], SCREEN_WIDTH)) &&
    (forall i :: 0 <= i < |s.ys| ==> Aligned(s.ys[i], SCREEN_HEIGHT)) &&
    (s.running ==> !OffBoard(s.xs[0], s.ys[0]))
  }

  lemma InitialInv(rx: int, ry: int)
    requires IsDraw(rx, ry)
    ensures Inv(Initial(rx, ry))
  {
  }

  /** A move from a head on the board keeps every coordinate on the grid, at
      most one unit outside the board. */
  lemma MovePreservesAlignment(s: State)
    requires Movable(s) && |s.xs| > 0
    requires forall i :: 0 <= i < |s.xs| ==> Aligned(s.xs[i], SCREEN_WIDTH)
    requires forall i :: 0 <= i < |s.ys| ==> Aligned(s.ys[i], SCREEN_HEIGHT)
    requires !OffBoard(s.xs[0], s.ys[0])
    ensures forall i :: 0 <= i < |Move(s).xs| ==> Aligned(Move(s).xs[i], SCREEN_WIDTH)
    ensures forall i :: 0 <= i < |Move(s).ys| ==> Aligned(Move(s).ys[i], SCREEN_HEIGHT)
  {
  }

  /** One tick keeps the invariant, given room in the arrays. */
  lemma TickPreservesInv(s: State, rx: int, ry: int)
    requires Inv(s) && Tickable(s) && IsDraw(rx, ry)
    ensures Inv(Tick(s, rx, ry))
  {
    if s.running {
      var m := Move(s);
      MovePreservesAlignment(s);
      var a := CheckApple(m, rx, ry);
      if Eats(m) {
        assert DelayAfter(a.applesEaten) == SpeedUp(a.applesEaten, DelayAfter(s.applesEaten));
      }
    }
  }

  /** A key press keeps the invariant; a restart re-establishes it from any
      stopped game. */
  lemma KeyPressedPreservesInv(s: State, k: Key, rx: int, ry: int)
    requires Inv(s) && IsDraw(rx, ry)
    ensures Inv(KeyPressed(s, k, rx, ry))
  {
  }

  // ---------------------------------------------------------------- speed

  /** The delay of a consistent state is always between MIN_DELAY and
      INITIAL_DELAY. */
  lemma DelayInRange(s: State)
    requires Inv(s)
    ensures MIN_DELAY <= s.currentDelay <= INITIAL_DELAY
  {
  }

  /** The ramp over a whole game: the delay changes at apple `eaten` exactly when
      `eaten` is a multiple of ten not past the hundredth apple, and then by
      exactly DELAY_STEP; from the hundredth apple on it stays at MIN_DELAY. */
  lemma SpeedUpSchedule(eaten: nat)
    requires eaten >= 1
    ensures DelayAfter(eaten) != DelayAfter(eaten - 1) <==>
      eaten % APPLES_PER_SPEED_UP == 0 && eaten <= 100
    ensures DelayAfter(eaten) != DelayAfter(eaten - 1) ==>
      DelayAfter(eaten - 1) - DelayAfter(eaten) == DELAY_STEP
    ensures eaten >= 100 ==> DelayAfter(eaten) == MIN_DELAY
  {
  }

  // ---------------------------------------------------------------- trail

  /** `k` moves in a row with no turn and no growth. */
  function Moves(s: State, k: nat): (r: State)
    requires Movable(s)
    ensures Movable(r) && |r.xs| == |s.xs|
    ensures r.bodyParts == s.bodyParts && r.direction == s.direction
    decreases k
  {
    if k == 0 then s else Move(Moves(s, k - 1))
  }

  /** After `k` moves the head is `k` units further along the heading. */
  lemma {:induction false} MovesAdvanceHead(s: State, k: nat)
    requires Movable(s)
    ensures Moves(s, k).xs[0] == s.xs[0] + k * (UNIT_SIZE * Heading(s.direction).0)
    ensures Moves(s, k).ys[0] == s.ys[0] + k * (UNIT_SIZE * Heading(s.direction).1)
  {
    if k > 0 {
      MovesAdvanceHead(s, k - 1);
      var h := Heading(s.direction);
      assert (k - 1) * (UNIT_SIZE * h.0) + UNIT_SIZE * h.0 == k * (UNIT_SIZE * h.0);
      assert (k - 1) * (UNIT_SIZE * h.1) + UNIT_SIZE * h.1 == k * (UNIT_SIZE * h.1);
    }
  }

  /** Follow the leader: after `k` moves, segment `i` (for `i` up to `k`) is where
      the head was `i` moves earlier. */
  lemma {:induction false} MovesTrail(s: State, k: nat, i: int)
    requires Movable(s) && 1 <= i <= s.bodyParts && i <= k
    ensures Moves(s, k).xs[i] == Moves(s, k - i).xs[0]
    ensures Moves(s, k).ys[i] == Moves(s, k - i).ys[0]
  {
    if i > 1 {
      MovesTrail(s, k - 1, i - 1);
    }
  }

  /** Two points of a line through `c0` with a non-zero unit step, `i` steps apart. */
  lemma StepsApart(c0: int, k: int, i: int, h: int)
    requires i >= 1 && (h == 1 || h == -1)
    ensures c0 + k * (UNIT_SIZE * h) != c0 + (k - i) * (UNIT_SIZE * h)
  {
  }

  lemma Distributes(k: int, i: int, c: int)
    ensures (k - i) * c == k * c - i * c
  {
  }

  /** Segment `i` of a snake that has moved straight for at least `i` moves is
      `i` units behind the head, so never on it. */
  lemma SegmentBehindHead(s: State, k: nat, i: int)
    requires Movable(s) && IsDirection(s.direction) && 1 <= i <= s.bodyParts && i <= k
    ensures Moves(s, k).xs[i] == Moves(s, k).xs[0] - i * (UNIT_SIZE * Heading(s.direction).0)
    ensures Moves(s, k).ys[i] == Moves(s, k).ys[0] - i * (UNIT_SIZE * Heading(s.direction).1)
    ensures !(Moves(s, k).xs[i] == Moves(s, k).xs[0] && Moves(s, k).ys[i] == Moves(s, k).ys[0])
  {
    var now, before := Moves(s, k), Moves(s, k - i);
    MovesTrail(s, k, i);
    MovesAdvanceHead(s, k);
    MovesAdvanceHead(s, k - i);
    var h := Heading(s.direction);
    Distributes(k, i, UNIT_SIZE * h.0);
    Distributes(k, i, UNIT_SIZE * h.1);
    if h.0 != 0 {
      StepsApart(s.xs[0], k, i, h.0);
      assert now.xs[0] != before.xs[0];
    } else {
      StepsApart(s.ys[0], k, i, h.1);
      assert now.ys[0] != before.ys[0];
    }
  }

  /** A snake that keeps its heading never meets its own body once every segment
      lies on the path of the head. */
  lemma StraightRunMissesBody(s: State, k: nat)
    requires Movable(s) && IsDirection(s.direction) && k >= s.bodyParts
    ensures !HitsBody(Moves(s, k))
  {
    forall i | 1 <= i <= s.bodyParts
      ensures !(Moves(s, k).xs[i] == Moves(s, k).xs[0] && Moves(s, k).ys[i] == Moves(s, k).ys[0])
    {
      SegmentBehindHead(s, k, i);
    }
  }

  /** The worked example of the game: a head at cell (12, 12) heading right is at
      cell (15, 12) after three moves. */
  lemma ThreeMovesRight(s: State)
    requires Movable(s) && s.direction == 'R'
    requires s.xs[0] == 12 * UNIT_SIZE && s.ys[0] == 12 * UNIT_SIZE
    ensures Moves(s, 3).xs[0] == 15 * UNIT_SIZE && Moves(s, 3).ys[0] == 12 * UNIT_SIZE
  {
  }

  /** A tick of a running game that neither eats nor stops is exactly a move. */
  lemma QuietTickIsMove(s: State, rx: int, ry: int)
    requires Tickable(s) && IsDraw(rx, ry) && s.running
    requires Tick(s, rx, ry).running && Tick(s, rx, ry).applesEaten == s.applesEaten
    ensures Tick(s, rx, ry) == Move(s)
  {
  }

  // ---------------------------------------------------------------- apples

  /** Every cell of the board is the apple's cell for some draw. */
  lemma EveryCellDrawable(s: State, cx: int, cy: int)
    requires OnGrid(cx, cy)
    ensures IsDraw(cx / UNIT_SIZE, cy / UNIT_SIZE)
    ensures NewApple(s, cx / UNIT_SIZE, cy / UNIT_SIZE).appleX == cx
    ensures NewApple(s, cx / UNIT_SIZE, cy / UNIT_SIZE).appleY == cy
  {
  }

  // ---------------------------------------------------------------- pinned behaviours

  /** The reversal guard compares with the stored direction, not with the last
      move: two presses between ticks (Up, then Left while heading right) turn
      the snake around. */
  lemma TwoPressesReverse(s: State, rx: int, ry: int)
    requires |s.xs| >= INITIAL_BODY_PARTS && |s.ys| >= INITIAL_BODY_PARTS && IsDraw(rx, ry)
    requires s.direction == 'R'
    ensures KeyPressed(KeyPressed(s, Up, rx, ry), Left, rx, ry).direction == Opposite(s.direction)
  {
  }

  /** ... and the next move then puts the head on the segment behind it, whenever
      that segment trails the head as it does after a move to the right. */
  lemma ReversedMoveHitsNeck(s: State)
    requires Movable(s) && s.bodyParts >= 2 && s.direction == 'L'
    requires s.xs[1] == s.xs[0] - UNIT_SIZE && s.ys[1] == s.ys[0]
    ensures HitsBody(Move(s))
  {
    assert Move(s).xs[2] == Move(s).xs[0] && Move(s).ys[2] == Move(s).ys[0];
  }

  /** After the apple is eaten the collision scan reads slot `bodyParts` of the
      grown snake, which the move of that tick did not write. When that slot
      still holds the apple's cell from earlier play, eating the apple ends the
      game although no segment the move placed is there. */
  lemma StaleSlotEndsGame(s: State, rx: int, ry: int)
    requires Inv(s) && Tickable(s) && IsDraw(rx, ry) && s.running
    requires s.direction == 'R'
    requires s.appleX == s.xs[0] + UNIT_SIZE && s.appleY == s.ys[0]
    requires forall i :: 0 <= i < s.bodyParts ==> !(s.xs[i] == s.appleX && s.ys[i] == s.appleY)
    requires s.appleX < SCREEN_WIDTH
    requires s.xs[s.bodyParts + 1] == s.appleX && s.ys[s.bodyParts + 1] == s.appleY
    ensures !Tick(s, rx, ry).running
    ensures forall i :: 1 <= i <= s.bodyParts ==>
      !(Move(s).xs[i] == Move(s).xs[0] && Move(s).ys[i] == Move(s).ys[0])
  {
  }

  /** The two presses end to end: a running snake of at least two segments that
      has just moved right, turned Up and then Left before the next tick, runs
      into its own neck on that tick. */
  lemma QuickReversalEndsGame(s: State, rx: int, ry: int)
    requires Movable(s) && IsDraw(rx, ry) && s.running && s.direction == 'R'
    requires 2 <= s.bodyParts && s.bodyParts + 2 < |s.xs| && INITIAL_BODY_PARTS <= |s.xs|
    requires Tick(s, rx, ry).running
    ensures KeyPressed(KeyPressed(Tick(s, rx, ry), Up, rx, ry), Left, rx, ry).direction == 'L'
    ensures !Tick(KeyPressed(KeyPressed(Tick(s, rx, ry), Up, rx, ry), Left, rx, ry), rx, ry).running
  {
    var t1 := Tick(s, rx, ry);
    var t2 := KeyPressed(KeyPressed(t1, Up, rx, ry), Left, rx, ry);
    assert t2.xs == t1.xs && t2.ys == t1.ys && t2.running;
    assert t2.xs[1] == t2.xs[0] - UNIT_SIZE && t2.ys[1] == t2.ys[0];
    ReversedMoveHitsNeck(t2);
    var m := Move(t2);
    var t3 := Tick(t2, rx, ry);
    assert t3.xs[2] == t3.xs[0] && t3.ys[2] == t3.ys[0];
  }

  /** Slots above the longest snake of a game still hold the 0 the arrays were
      allocated with, so in such a game eating an apple on cell (0, 0) ends it:
      here a head at (25, 0) heading left reaches the apple there. */
  lemma AppleAtOriginEndsGame(s: State, rx: int, ry: int)
    requires Inv(s) && IsDraw(rx, ry) && s.running && s.direction == 'L'
    requires s.xs[0] == UNIT_SIZE && s.ys[0] == 0 && s.appleX == 0 && s.appleY == 0
    requires s.bodyParts + 1 < |s.xs|
    requires s.xs[s.bodyParts + 1] == 0 && s.ys[s.bodyParts + 1] == 0
    requires forall i :: 0 <= i < s.bodyParts ==> !(s.xs[i] == 0 && s.ys[i] == 0)
    ensures Eats(Move(s)) && !HitsBody(Move(s))
    ensures !Tick(s, rx, ry).running
  {
  }
}
