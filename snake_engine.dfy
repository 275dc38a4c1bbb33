/**
 * The game component: the state fields it holds for one run, updated in place
 * by the tick, the key handler and the three status-effect expiries, and the
 * frame callback that fires a tick once the current interval has elapsed.
 * Each method is proved to perform the transition the rules module defines.
 */
module SnakeEngine {
  import opened SnakeRules

  /** What a key press asks of the screen holding the game. */
  datatype Command = NoCommand | PauseCommand | ResumeCommand

  datatype Key = Arrow(dir: Direction) | Space | OtherKey

  /** What one animation frame did. */
  datatype FrameResult = Waiting | Ticked(outcome: TickOutcome)

  /** Whether a frame at `timestamp` is due for a tick, `speed` ms after the last one. */
  predicate TickDue(lastRenderTime: int, timestamp: int, speed: real) {
    (timestamp - lastRenderTime) as real >= speed
  }

  /**
   * A frame is never due at or before the last tick's timestamp, and once a
   * tick is due it stays due at every later frame until one fires.
   */
  lemma TickDueIsMonotone(lastRenderTime: int, timestamp: int, later: int, speed: real)
    requires 0.0 < speed
    ensures TickDue(lastRenderTime, timestamp, speed) ==> timestamp > lastRenderTime
    ensures TickDue(lastRenderTime, timestamp, speed) && timestamp <= later ==>
      TickDue(lastRenderTime, later, speed)
  {
  }

  /**
   * The walk over the power-ups during a tick: every power-up on `head` is
   * dropped from the list and its effect applied, in list order; the others
   * are kept in order.
   */
  method CollectPowerUps(powerUps: seq<PowerUp>, head: Position, effects: Effects)
    returns (kept: seq<PowerUp>, after: Effects)
    ensures kept == Kept(powerUps, head)
    ensures after == AfterPickups(effects, powerUps, head)
  {
    kept, after := [], effects;
    var i := 0;
    while i < |powerUps|
      invariant 0 <= i <= |powerUps|
      invariant kept == Kept(powerUps[..i], head)
      invariant after == AfterPickups(effects, powerUps[..i], head)
    {
      var powerUp := powerUps[i];
      assert powerUps[..i + 1][..i] == powerUps[..i];
      if CheckCollision(head, powerUp.position) {
        match powerUp.kind
        case SpeedBoost =>
          after := after.(speed := after.speed * 0.7);
        case Multiply =>
          after := after.(pointMultiplier := PointMultiplier);
        case Shield =>
          after := after.(hasShield := true);
      } else {
        kept := kept + [powerUp];
      }
      i := i + 1;
    }
    assert powerUps[..i] == powerUps;
  }

  class Engine {
    var snake: seq<Position>
    var direction: Direction
    var food: Position
    var obstacles: seq<Position>
    var powerUps: seq<PowerUp>
    var speed: real
    var hasShield: bool
    var pointMultiplier: int
    /** Timestamp (ms) of the frame that fired the last tick. */
    var lastRenderTime: int

    ghost function Snapshot(): State
      reads this
    {
      State(snake, direction, food, obstacles, powerUps, speed, hasShield, pointMultiplier)
    }

    ghost predicate Valid()
      reads this
    {
      WellFormed(Snapshot())
    }

    constructor ()
      ensures Valid()
      ensures Snapshot() == Initial && lastRenderTime == 0
    {
      snake := [Position(10, 10)];
      direction := Right;
      food := Position(15, 10);
      obstacles := [];
      powerUps := [];
      speed := InitialSpeed;
      hasShield := false;
      pointMultiplier := 1;
      lastRenderTime := 0;
    }

    /** One tick, given the score held by the screen and the tick's random choices. */
    method Tick(score: int, dice: Dice) returns (outcome: TickOutcome)
      requires Valid() && dice.Valid()
      modifies this
      ensures Valid()
      ensures StepResult(Snapshot(), outcome) == Step(old(Snapshot()), score, dice)
      ensures lastRenderTime == old(lastRenderTime)
    {
      var head := NextHead(snake[0], direction);
      if Occupies(snake, head) && !hasShield {
        return GameOver(score);
      }
      if Occupies(obstacles, head) && !hasShield {
        return GameOver(score);
      }
      AdvancePreservesWellFormed(Snapshot(), head, dice);
      var newScore := MoveTo(head, score, dice);
      outcome := Continue(newScore);
    }

    /**
     * The rest of a tick once the new head is known to be safe: grow or move,
     * eat and spawn, then pick up the power-ups on the head.
     */
    method MoveTo(head: Position, score: int, dice: Dice) returns (newScore: int)
      modifies this
      ensures Snapshot() == Advance(old(Snapshot()), head, dice)
      ensures newScore == if head == old(food) then score + FoodPoints * old(pointMultiplier) else score
      ensures lastRenderTime == old(lastRenderTime)
    {
      ghost var s := Snapshot();
      var newSnake := [head] + snake;
      newScore := score;
      var spawned: seq<PowerUp> := [];
      var ate := CheckCollision(head, food);
      if ate {
        newScore := score + FoodPoints * pointMultiplier;
        food := dice.food;
        if dice.spawnPowerUp {
          spawned := [PowerUp(dice.powerUpPosition, dice.powerUpKind)];
        }
        if dice.spawnObstacle {
          obstacles := obstacles + [dice.obstaclePosition];
        }
      } else {
        newSnake := newSnake[..|newSnake| - 1];
      }
      var kept, effects := CollectPowerUps(powerUps, head, Effects(speed, pointMultiplier, hasShield));
      assert spawned == Spawned(ate, dice);
      powerUps := kept + spawned;
      speed, pointMultiplier, hasShield := effects.speed, effects.pointMultiplier, effects.hasShield;
      snake := newSnake;
      assert Snapshot() == Advance(s, head, dice);
    }

    /** The arrow-key rule: any direction but the reverse of the current one. */
    method SetDirection(requested: Direction)
      requires Valid()
      modifies this`direction
      ensures Valid()
      ensures direction == Steer(old(direction), requested)
    {
      match requested
      case Up => if direction != Down { direction := Up; }
      case Down => if direction != Up { direction := Down; }
      case Left => if direction != Right { direction := Left; }
      case Right => if direction != Left { direction := Right; }
    }

    /** The key handler: arrows steer, space asks to pause or to resume. */
    method HandleKey(key: Key, isPaused: bool) returns (command: Command)
      requires Valid()
      modifies this`direction
      ensures Valid()
      ensures direction == if key.Arrow? then Steer(old(direction), key.dir) else old(direction)
      ensures command == if key != Space then NoCommand
                         else if isPaused then ResumeCommand else PauseCommand
    {
      command := NoCommand;
      match key
      case Arrow(d) => SetDirection(d);
      case Space => command := if isPaused then ResumeCommand else PauseCommand;
      case OtherKey =>
    }

    /**
     * The animation-frame callback: while running, a frame at least `speed` ms
     * after the last tick fires a tick and becomes the new reference time.
     */
    method Frame(timestamp: int, isPaused: bool, score: int, dice: Dice) returns (result: FrameResult)
      requires Valid() && dice.Valid()
      modifies this
      ensures Valid()
      ensures isPaused || !TickDue(old(lastRenderTime), timestamp, old(speed)) ==>
        result == Waiting && Snapshot() == old(Snapshot()) && lastRenderTime == old(lastRenderTime)
      ensures !isPaused && TickDue(old(lastRenderTime), timestamp, old(speed)) ==>
        && result.Ticked?
        && StepResult(Snapshot(), result.outcome) == Step(old(Snapshot()), score, dice)
        && lastRenderTime == timestamp
    {
      if isPaused || !((timestamp - lastRenderTime) as real >= speed) {
        return Waiting;
      }
      var outcome := Tick(score, dice);
      lastRenderTime := timestamp;
      result := Ticked(outcome);
    }

    /** The speed boost's expiry: the interval returns to its initial value. */
    method ExpireSpeed()
      requires Valid()
      modifies this`speed
      ensures Valid()
      ensures Snapshot() == old(Snapshot()).(speed := InitialSpeed)
    {
      speed := InitialSpeed;
    }

    /** The point multiplier's expiry: points are counted once again. */
    method ExpireMultiplier()
      requires Valid()
      modifies this`pointMultiplier
      ensures Valid()
      ensures Snapshot() == old(Snapshot()).(pointMultiplier := 1)
    {
      pointMultiplier := 1;
    }

    /** The shield's expiry: collisions are fatal again. */
    method ExpireShield()
      requires Valid()
      modifies this`hasShield
      ensures Valid()
      ensures Snapshot() == old(Snapshot()).(hasShield := false)
    {
      hasShield := false;
    }
  }
}
