/** The game panel as the source has it: an object whose methods update two
    coordinate arrays and a handful of scalar fields in place. Every method is
    proved to do exactly what the matching function of `SnakeRules` says, through
    `Abs()`, the value of the whole state. */
module GamePanel {
  import opened SnakeRules
  import opened SnakeProperties

  class Game {
    /** Coordinates of the segments; slot 0 is the head. The arrays are allocated
        once and never replaced. */
    const x: array<int>
    const y: array<int>
    var bodyParts: int
    var applesEaten: int
    var appleX: int
    var appleY: int
    var direction: char
    var running: bool
    var currentDelay: int

    ghost function Abs(): State
      reads this, x, y
    {
      State(x[..], y[..], bodyParts, applesEaten, appleX, appleY, direction, running, currentDelay)
    }

    /** The invariant every public operation keeps (see `SnakeProperties.Inv`). */
    ghost predicate Valid()
      reads this, x, y
    {
      x != y && Inv(Abs())
    }

    /** `GamePanel()`: zeroed arrays, six segments heading right, the initial
        delay, then `startGame`. */
    constructor (rx: int, ry: int)
      requires IsDraw(rx, ry)
      ensures fresh(x) && fresh(y)
      ensures Valid() && Abs() == Initial(rx, ry)
    {
      x := new int[GAME_UNITS](_ => 0);
      y := new int[GAME_UNITS](_ => 0);
      bodyParts := INITIAL_BODY_PARTS;
      applesEaten := 0;
      appleX, appleY := 0, 0;
      direction := 'R';
      running := false;
      currentDelay := INITIAL_DELAY;
      new;
      StartGame(rx, ry);
      assert x[..] == seq(GAME_UNITS, _ => 0) && y[..] == seq(GAME_UNITS, _ => 0);
      InitialInv(rx, ry);
    }

    method StartGame(rx: int, ry: int)
      requires IsDraw(rx, ry)
      modifies this`appleX, this`appleY, this`running
      ensures Abs() == SnakeRules.StartGame(old(Abs()), rx, ry)
    {
      NewApple(rx, ry);
      running := true;
    }

    method NewApple(rx: int, ry: int)
      requires IsDraw(rx, ry)
      modifies this`appleX, this`appleY
      ensures Abs() == SnakeRules.NewApple(old(Abs()), rx, ry)
    {
      appleX := rx * UNIT_SIZE;
      appleY := ry * UNIT_SIZE;
    }

    /** `move`: the descending loop shifts every segment into the slot behind it,
        then the head steps. */
    method Move()
      requires x != y && Movable(Abs())
      modifies x, y
      ensures Abs() == SnakeRules.Move(old(Abs()))
    {
      var i := bodyParts;
      while i > 0
        invariant 0 <= i <= bodyParts
        invariant forall k :: 0 <= k <= i ==> x[k] == old(x[k]) && y[k] == old(y[k])
        invariant forall k :: bodyParts < k < x.Length ==> x[k] == old(x[k]) && y[k] == old(y[k])
        invariant forall k :: i < k <= bodyParts ==> x[k] == old(x[k - 1]) && y[k] == old(y[k - 1])
      {
        x[i] := x[i - 1];
        y[i] := y[i - 1];
        i := i - 1;
      }
      if direction == 'U' {
        y[0] := y[0] - UNIT_SIZE;
      } else if direction == 'D' {
        y[0] := y[0] + UNIT_SIZE;
      } else if direction == 'L' {
        x[0] := x[0] - UNIT_SIZE;
      } else if direction == 'R' {
        x[0] := x[0] + UNIT_SIZE;
      }
      ghost var want := SnakeRules.Move(old(Abs()));
      forall k | 0 <= k < x.Length
        ensures x[k] == want.xs[k] && y[k] == want.ys[k]
      {
        if k == 0 {
        } else if k <= bodyParts {
          assert want.xs[k] == old(x[k - 1]) && want.ys[k] == old(y[k - 1]);
        } else {
          assert want.xs[k] == old(x[k]) && want.ys[k] == old(y[k]);
        }
      }
      assert x[..] == want.xs;
      assert y[..] == want.ys;
    }

    method CheckApple(rx: int, ry: int)
      requires x.Length > 0 && y.Length > 0 && IsDraw(rx, ry)
      modifies this`bodyParts, this`applesEaten, this`appleX, this`appleY, this`currentDelay
      ensures Abs() == SnakeRules.CheckApple(old(Abs()), rx, ry)
    {
      if x[0] == appleX && y[0] == appleY {
        bodyParts := bodyParts + 1;
        applesEaten := applesEaten + 1;
        NewApple(rx, ry);
        if applesEaten % APPLES_PER_SPEED_UP == 0 && currentDelay > MIN_DELAY {
          currentDelay := currentDelay - DELAY_STEP;
          if currentDelay < MIN_DELAY {
            currentDelay := MIN_DELAY;
          }
        }
      }
    }

    /** `checkCollision`: the scan over slots bodyParts .. 1 clears `running` on a
        match; then the border test. */
    method CheckCollision()
      requires Movable(Abs())
      modifies this`running
      ensures Abs() == SnakeRules.CheckCollision(old(Abs()))
    {
      var i := bodyParts;
      while i > 0
        invariant 0 <= i <= bodyParts
        invariant running == (old(running) &&
          forall k :: i < k <= bodyParts ==> !(x[k] == x[0] && y[k] == y[0]))
      {
        if x[0] == x[i] && y[0] == y[i] {
          running := false;
        }
        i := i - 1;
      }
      if x[0] < 0 || x[0] >= SCREEN_WIDTH || y[0] < 0 || y[0] >= SCREEN_HEIGHT {
        running := false;
      }
    }

    /** `actionPerformed`: one tick of the timer. */
    method ActionPerformed(rx: int, ry: int)
      requires Valid() && Tickable(Abs()) && IsDraw(rx, ry)
      modifies this, x, y
      ensures Valid() && Abs() == Tick(old(Abs()), rx, ry)
    {
      if running {
        Move();
        CheckApple(rx, ry);
        CheckCollision();
      }
      TickPreservesInv(old(Abs()), rx, ry);
    }

    /** `restartGame`: reset the counters and the first six slots, then `startGame`. */
    method RestartGame(rx: int, ry: int)
      requires x != y && x.Length >= INITIAL_BODY_PARTS && y.Length >= INITIAL_BODY_PARTS
      requires IsDraw(rx, ry)
      modifies this, x, y
      ensures Abs() == SnakeRules.RestartGame(old(Abs()), rx, ry)
    {
      bodyParts := INITIAL_BODY_PARTS;
      applesEaten := 0;
      direction := 'R';
      currentDelay := INITIAL_DELAY;
      var i := 0;
      while i < bodyParts
        modifies x, y
        invariant 0 <= i <= bodyParts == INITIAL_BODY_PARTS
        invariant forall k :: 0 <= k < i ==> x[k] == 0 && y[k] == 0
        invariant forall k :: i <= k < x.Length ==> x[k] == old(x[k])
        invariant forall k :: i <= k < y.Length ==> y[k] == old(y[k])
      {
        x[i] := 0;
        y[i] := 0;
        i := i + 1;
      }
      StartGame(rx, ry);
      ghost var want := SnakeRules.RestartGame(old(Abs()), rx, ry);
      assert x[..] == want.xs;
      assert y[..] == want.ys;
    }

    /** `MyKeyAdapter.keyPressed`, on the key already decoded. */
    method KeyPressed(k: Key, rx: int, ry: int)
      requires Valid() && IsDraw(rx, ry)
      modifies this, x, y
      ensures Valid() && Abs() == SnakeRules.KeyPressed(old(Abs()), k, rx, ry)
    {
      match k {
        case Left =>
          if direction != 'R' {
            direction := 'L';
          }
        case Right =>
          if direction != 'L' {
            direction := 'R';
          }
        case Up =>
          if direction != 'D' {
            direction := 'U';
          }
        case Down =>
          if direction != 'U' {
            direction := 'D';
          }
        case Restart =>
          if !running {
            RestartGame(rx, ry);
          }
      }
      KeyPressedPreservesInv(old(Abs()), k, rx, ry);
    }
  }
}
