/**
 * The rules of one run of Snake on the fixed 20 x 20 toroidal board: positions,
 * directions, power-ups, one grid step of the head, collision tests, and `Step`,
 * the whole state transition of one game tick as a function of the previous
 * state, the current score and the random choices made during the tick.
 * The class in SnakeEngine performs the same transition in place and is proved
 * against `Step`; the lemmas here state what a tick does.
 */
module SnakeRules {

  const GridSize: int := 20
  const InitialSpeed: real := 150.0
  const PointMultiplier: int := 2
  /** Points for one piece of food, before the multiplier. */
  const FoodPoints: int := 10

  datatype Position = Position(x: int, y: int)

  predicate InGrid(p: Position) {
    0 <= p.x < GridSize && 0 <= p.y < GridSize
  }

  predicate AllInGrid(cells: seq<Position>) {
    forall i :: 0 <= i < |cells| ==> InGrid(cells[i])
  }

  datatype Direction = Up | Down | Left | Right

  datatype PowerUpKind = SpeedBoost | Multiply | Shield

  datatype PowerUp = PowerUp(position: Position, kind: PowerUpKind)

  function Opposite(d: Direction): Direction {
    match d
    case Up => Down
    case Down => Up
    case Left => Right
    case Right => Left
  }

  /** The remainder as JavaScript's `%` computes it: it takes the sign of the dividend. */
  function JsRem(a: int, n: int): int
    requires n > 0
  {
    if a >= 0 then a % n else -((-a) % n)
  }

  /** Value equality of two cells, compared coordinate by coordinate. */
  function CheckCollision(pos: Position, target: Position): (r: bool)
    ensures r <==> pos == target
  {
    pos.x == target.x && pos.y == target.y
  }

  /** `cells.some(c => checkCollision(c, p))`: whether some cell of the list is `p`. */
  function Occupies(cells: seq<Position>, p: Position): (r: bool)
    ensures r <==> p in cells
  {
    if cells == [] then false
    else
      assert cells == [cells[0]] + cells[1..];
      CheckCollision(cells[0], p) || Occupies(cells[1..], p)
  }

  // ---------------------------------------------------------------------------
  // Movement

  /**
   * The head after one step in direction `d`, wrapped with JavaScript's `%`.
   * From a cell of the board, a step moves one cell along the axis of the
   * direction, modulo the grid size on a torus, and stays on the board.
   */
  function NextHead(head: Position, d: Direction): (r: Position)
    ensures InGrid(head) ==> InGrid(r) && r != head
    ensures InGrid(head) ==>
      r == Position((head.x + DeltaX(d)) % GridSize, (head.y + DeltaY(d)) % GridSize)
  {
    match d
    case Up => head.(y := JsRem(head.y - 1 + GridSize, GridSize))
    case Down => head.(y := JsRem(head.y + 1, GridSize))
    case Left => head.(x := JsRem(head.x - 1 + GridSize, GridSize))
    case Right => head.(x := JsRem(head.x + 1, GridSize))
  }

  function DeltaX(d: Direction): int {
    match d
    case Left => -1
    case Right => 1
    case _ => 0
  }

  function DeltaY(d: Direction): int {
    match d
    case Up => -1
    case Down => 1
    case _ => 0
  }

  /** Leaving the board over an edge re-enters on the opposite edge; there is no wall. */
  lemma WrapsAtEdges(head: Position)
    requires InGrid(head)
    ensures NextHead(head, Right).x == if head.x == GridSize - 1 then 0 else head.x + 1
    ensures NextHead(head, Left).x == if head.x == 0 then GridSize - 1 else head.x - 1
    ensures NextHead(head, Down).y == if head.y == GridSize - 1 then 0 else head.y + 1
    ensures NextHead(head, Up).y == if head.y == 0 then GridSize - 1 else head.y - 1
  {
  }

  // ---------------------------------------------------------------------------
  // Direction changes

  /** The direction after an arrow key for `requested` while moving `current`. */
  function Steer(current: Direction, requested: Direction): (r: Direction)
    ensures requested == Opposite(current) ==> r == current
    ensures requested != Opposite(current) ==> r == requested
  {
    match requested
    case Up => if current != Down then Up else current
    case Down => if current != Up then Down else current
    case Left => if current != Right then Left else current
    case Right => if current != Left then Right else current
  }

  /** One key press never turns the snake around. */
  lemma SteerNeverReverses(current: Direction, requested: Direction)
    ensures Steer(current, requested) != Opposite(current)
    ensures Steer(current, requested) in {current, requested}
  {
  }

  /**
   * Each press is checked against the direction the previous press set, not
   * against the direction of the last step taken: two presses between two
   * ticks (a side turn, then the reverse of the original direction) are both
   * accepted and turn the snake around before it has moved.
   */
  lemma TwoPressesCanReverse(current: Direction)
    ensures var side := if current == Up || current == Down then Left else Up;
      Steer(Steer(current, side), Opposite(current)) == Opposite(current)
  {
  }

  // ---------------------------------------------------------------------------
  // Power-up pickups

  /** The three status effects a power-up changes. */
  datatype Effects = Effects(speed: real, pointMultiplier: int, hasShield: bool)

  /** The interval after one speed boost (the boost multiplier is 0.7). */
  function Boost(speed: real): real {
    speed * 0.7
  }

  function Apply(e: Effects, kind: PowerUpKind): Effects {
    match kind
    case SpeedBoost => e.(speed := Boost(e.speed))
    case Multiply => e.(pointMultiplier := PointMultiplier)
    case Shield => e.(hasShield := true)
  }

  /** The power-ups of `ps` that are not on `head`, in their order. */
  function Kept(ps: seq<PowerUp>, head: Position): seq<PowerUp> {
    if ps == [] then []
    else
      var last := ps[|ps| - 1];
      Kept(ps[..|ps| - 1], head) + (if CheckCollision(head, last.position) then [] else [last])
  }

  /** The effects after picking up, in list order, every power-up of `ps` on `head`. */
  function AfterPickups(e: Effects, ps: seq<PowerUp>, head: Position): Effects {
    if ps == [] then e
    else
      var last := ps[|ps| - 1];
      var before := AfterPickups(e, ps[..|ps| - 1], head);
      if CheckCollision(head, last.position) then Apply(before, last.kind) else before
  }

  /** How many speed power-ups of `ps` lie on `head`. */
  function BoostsAt(ps: seq<PowerUp>, head: Position): nat {
    multiset(ps)[PowerUp(head, SpeedBoost)]
  }

  /** The interval after `k` successive speed boosts. */
  function Boosted(speed: real, k: nat): real {
    if k == 0 then speed else Boost(Boosted(speed, k - 1))
  }

  /** Exactly the power-ups not on the head survive a pickup. */
  lemma {:induction false} KeptMembers(ps: seq<PowerUp>, head: Position)
    ensures forall u :: u in Kept(ps, head) <==> u in ps && u.position != head
    ensures forall u ::
      multiset(Kept(ps, head))[u] == (if u.position == head then 0 else multiset(ps)[u])
    ensures |Kept(ps, head)| <= |ps|
  {
    if ps != [] {
      var init, last := ps[..|ps| - 1], ps[|ps| - 1];
      KeptMembers(init, head);
      assert ps == init + [last];
      assert multiset(ps) == multiset(init) + multiset{last};
      var tail := if last.position == head then [] else [last];
      assert Kept(ps, head) == Kept(init, head) + tail;
      assert multiset(Kept(ps, head)) == multiset(Kept(init, head)) + multiset(tail);
    }
  }

  /**
   * Removal keeps the survivors in their order: a list is filtered piece by
   * piece, and a single power-up stays exactly when it is not on the head.
   */
  lemma {:induction false} KeptIsFilter(a: seq<PowerUp>, b: seq<PowerUp>, u: PowerUp, head: Position)
    ensures Kept(a + b, head) == Kept(a, head) + Kept(b, head)
    ensures Kept([u], head) == if u.position == head then [] else [u]
  {
    assert [u][..0] == [];
    if b == [] {
      assert a + b == a;
    } else {
      var init, last := b[..|b| - 1], b[|b| - 1];
      KeptIsFilter(a, init, u, head);
      assert (a + b)[..|a + b| - 1] == a + init;
      assert (a + b)[|a + b| - 1] == last;
    }
  }

  /** With nothing on the head, no power-up is removed. */
  lemma {:induction false} KeptAllWhenNoneAtHead(ps: seq<PowerUp>, head: Position)
    requires forall i :: 0 <= i < |ps| ==> ps[i].position != head
    ensures Kept(ps, head) == ps
  {
    if ps != [] {
      KeptAllWhenNoneAtHead(ps[..|ps| - 1], head);
    }
  }

  /**
   * Picking up: each speed power-up on the head multiplies the interval by 0.7,
   * a multiply power-up sets the multiplier to 2 and a shield power-up raises
   * the shield; with none of a kind on the head, that effect is unchanged.
   */
  lemma {:induction false} PickupEffects(e: Effects, ps: seq<PowerUp>, head: Position)
    ensures AfterPickups(e, ps, head).speed == Boosted(e.speed, BoostsAt(ps, head))
    ensures AfterPickups(e, ps, head).pointMultiplier ==
      if PowerUp(head, Multiply) in ps then PointMultiplier else e.pointMultiplier
    ensures AfterPickups(e, ps, head).hasShield == (e.hasShield || PowerUp(head, Shield) in ps)
  {
    if ps != [] {
      var init, last := ps[..|ps| - 1], ps[|ps| - 1];
      assert ps == init + [last];
      PickupEffects(e, init, head);
      if last == PowerUp(head, SpeedBoost) {
        assert BoostsAt(ps, head) == BoostsAt(init, head) + 1;
      } else {
        assert BoostsAt(ps, head) == BoostsAt(init, head);
      }
    }
  }

  /**
   * Pickups happen one after the other in list order: the effects after a list
   * are those after its second part, starting from those after its first part.
   */
  lemma {:induction false} AfterPickupsInOrder(e: Effects, a: seq<PowerUp>, b: seq<PowerUp>, head: Position)
    ensures AfterPickups(e, a + b, head) == AfterPickups(AfterPickups(e, a, head), b, head)
  {
    if b == [] {
      assert a + b == a;
    } else {
      var init := b[..|b| - 1];
      AfterPickupsInOrder(e, a, init, head);
      assert (a + b)[..|a + b| - 1] == a + init;
    }
  }

  /** Boosts shorten a positive interval and keep it positive. */
  lemma {:induction false} BoostedBounds(speed: real, k: nat)
    requires 0.0 < speed
    ensures 0.0 < Boosted(speed, k) <= speed
    ensures k > 0 ==> Boosted(speed, k) < speed
  {
    if k > 0 {
      BoostedBounds(speed, k - 1);
    }
  }

  /** A pickup never makes the game slower and never stops it. */
  lemma SpeedStaysInRange(e: Effects, ps: seq<PowerUp>, head: Position)
    requires 0.0 < e.speed
    ensures 0.0 < AfterPickups(e, ps, head).speed <= e.speed
  {
    PickupEffects(e, ps, head);
    BoostedBounds(e.speed, BoostsAt(ps, head));
  }

  /**
   * The power-up list after a tick: the old power-ups walked in order, each one
   * on the head removed, and the power-up spawned by this tick (if any) appended.
   */
  function PowerUpsAfter(ps: seq<PowerUp>, head: Position, spawned: seq<PowerUp>): (r: seq<PowerUp>)
    ensures forall u :: u in r <==> (u in ps && u.position != head) || u in spawned
    ensures |spawned| <= |r| && r[|r| - |spawned|..] == spawned
  {
    KeptMembers(ps, head);
    Kept(ps, head) + spawned
  }

  /**
   * Every power-up not on the head survives with its multiplicity, none on the
   * head survives, and the spawned ones are added.
   */
  lemma PowerUpsAfterCounts(ps: seq<PowerUp>, head: Position, spawned: seq<PowerUp>)
    ensures forall u ::
      multiset(PowerUpsAfter(ps, head, spawned))[u] ==
        (if u.position == head then 0 else multiset(ps)[u]) + multiset(spawned)[u]
  {
    KeptMembers(ps, head);
  }

  // ---------------------------------------------------------------------------
  // One tick

  /** Everything the game component holds for a run, except the frame clock. */
  datatype State = State(
    snake: seq<Position>,
    direction: Direction,
    food: Position,
    obstacles: seq<Position>,
    powerUps: seq<PowerUp>,
    speed: real,
    hasShield: bool,
    pointMultiplier: int)

  /** The state a run starts in. */
  const Initial: State :=
    State([Position(10, 10)], Right, Position(15, 10), [], [], InitialSpeed, false, 1)

  predicate WellFormed(s: State) {
    && |s.snake| > 0
    && AllInGrid(s.snake)
    && InGrid(s.food)
    && AllInGrid(s.obstacles)
    && (forall i :: 0 <= i < |s.powerUps| ==> InGrid(s.powerUps[i].position))
    && 0.0 < s.speed <= InitialSpeed
    && (s.pointMultiplier == 1 || s.pointMultiplier == PointMultiplier)
  }

  /**
   * The random choices of one tick: the new food cell, whether a power-up
   * spawns with its cell and kind, and whether an obstacle spawns with its cell.
   */
  datatype Dice = Dice(
    food: Position,
    spawnPowerUp: bool,
    powerUpPosition: Position,
    powerUpKind: PowerUpKind,
    spawnObstacle: bool,
    obstaclePosition: Position)
  {
    predicate Valid() {
      InGrid(food) && InGrid(powerUpPosition) && InGrid(obstaclePosition)
    }
  }

  datatype TickOutcome = Continue(score: int) | GameOver(finalScore: int)

  datatype StepResult = StepResult(state: State, outcome: TickOutcome)

  /** A collision with the body or an obstacle ends the run unless the shield is up. */
  predicate Fatal(s: State, head: Position) {
    || (Occupies(s.snake, head) && !s.hasShield)
    || (Occupies(s.obstacles, head) && !s.hasShield)
  }

  /** The power-up a tick spawns: one only when it eats the food and the dice say so. */
  function Spawned(ate: bool, dice: Dice): seq<PowerUp> {
    if ate && dice.spawnPowerUp then [PowerUp(dice.powerUpPosition, dice.powerUpKind)] else []
  }

  /** The state after a tick that moves the head to `head` without a fatal collision. */
  function Advance(s: State, head: Position, dice: Dice): State {
    var ate := CheckCollision(head, s.food);
    var grown := [head] + s.snake;
    var effects :=
      AfterPickups(Effects(s.speed, s.pointMultiplier, s.hasShield), s.powerUps, head);
    State(
      if ate then grown else grown[..|grown| - 1],
      s.direction,
      if ate then dice.food else s.food,
      if ate && dice.spawnObstacle then s.obstacles + [dice.obstaclePosition] else s.obstacles,
      PowerUpsAfter(s.powerUps, head, Spawned(ate, dice)),
      effects.speed,
      effects.hasShield,
      effects.pointMultiplier)
  }

  /** One tick: the transition performed by `Engine.Tick`. */
  function Step(s: State, score: int, dice: Dice): (r: StepResult)
    requires |s.snake| > 0
    ensures r.outcome.GameOver? ==> r == StepResult(s, GameOver(score))
    ensures r.outcome.Continue? ==>
      && |r.state.snake| > 0
      && r.state.snake[0] == HeadAfter(s)
      && r.state.direction == s.direction
  {
    var head := HeadAfter(s);
    if Fatal(s, head) then StepResult(s, GameOver(score))
    else
      var ate := CheckCollision(head, s.food);
      StepResult(Advance(s, head, dice),
                 Continue(if ate then score + FoodPoints * s.pointMultiplier else score))
  }

  /** The head a tick moves to. */
  function HeadAfter(s: State): Position
    requires |s.snake| > 0
  {
    NextHead(s.snake[0], s.direction)
  }

  /**
   * A tick ends the run exactly when, with the shield down, the new head is a
   * cell of the current body (the tail included) or an obstacle.
   */
  lemma GameOverExactlyOnCollision(s: State, score: int, dice: Dice)
    requires |s.snake| > 0
    ensures Step(s, score, dice).outcome.GameOver? <==>
      !s.hasShield && (HeadAfter(s) in s.snake || HeadAfter(s) in s.obstacles)
  {
  }

  /** While the shield is up no collision ends the run. */
  lemma ShieldPreventsGameOver(s: State, score: int, dice: Dice)
    requires |s.snake| > 0 && s.hasShield
    ensures Step(s, score, dice).outcome.Continue?
  {
  }

  /**
   * On a surviving tick the snake gains the new head in front and keeps its
   * old cells behind it; it is one longer when the head lands on the food and
   * drops its last cell otherwise. Eating scores exactly 10 times the
   * multiplier in force before the tick; otherwise the score is unchanged.
   */
  lemma GrowthAndScoring(s: State, score: int, dice: Dice)
    requires |s.snake| > 0
    requires Step(s, score, dice).outcome.Continue?
    ensures var next := Step(s, score, dice).state;
      var ate := HeadAfter(s) == s.food;
      && next.snake[0] == HeadAfter(s)
      && |next.snake| == (if ate then |s.snake| + 1 else |s.snake|)
      && next.snake[1..] == s.snake[..|next.snake| - 1]
      && Step(s, score, dice).outcome.score ==
         (if ate then score + FoodPoints * s.pointMultiplier else score)
      && next.food == (if ate then dice.food else s.food)
      && next.direction == s.direction
  {
    var head := HeadAfter(s);
    var next := Advance(s, head, dice);
    assert Step(s, score, dice).state == next;
    var grown := [head] + s.snake;
    assert next.snake == if head == s.food then grown else grown[..|grown| - 1];
    assert grown[1..] == s.snake;
  }

  /** The score never goes down across a tick, and eating always raises it. */
  lemma ScoreNeverDecreases(s: State, score: int, dice: Dice)
    requires WellFormed(s)
    ensures var o := Step(s, score, dice).outcome;
      (o.Continue? ==> o.score >= score) && (o.GameOver? ==> o.finalScore == score)
    ensures Step(s, score, dice).outcome.Continue? && HeadAfter(s) == s.food ==>
      Step(s, score, dice).outcome.score > score
  {
  }

  /**
   * Obstacles are only ever appended: the old list is a prefix of the new one,
   * and a tick adds at most one, only when it eats the food with the obstacle
   * spawn rolled, and at the rolled cell; conversely, a surviving tick
   * that eats with the obstacle spawn rolled adds the rolled cell.
   */
  lemma ObstaclesAppendOnly(s: State, score: int, dice: Dice)
    requires |s.snake| > 0
    ensures var obs := Step(s, score, dice).state.obstacles;
      && |s.obstacles| <= |obs| <= |s.obstacles| + 1
      && obs[..|s.obstacles|] == s.obstacles
      && (|obs| > |s.obstacles| ==>
            HeadAfter(s) == s.food && dice.spawnObstacle && obs[|s.obstacles|] == dice.obstaclePosition)
    ensures Step(s, score, dice).outcome.Continue? && HeadAfter(s) == s.food && dice.spawnObstacle ==>
      Step(s, score, dice).state.obstacles == s.obstacles + [dice.obstaclePosition]
  {
  }

  /**
   * On a surviving tick every power-up on the new head is removed and takes
   * effect, the others stay with their multiplicity, and a power-up spawned by
   * the tick is added.
   */
  lemma PowerUpPickup(s: State, score: int, dice: Dice)
    requires |s.snake| > 0
    requires Step(s, score, dice).outcome.Continue?
    ensures var next := Step(s, score, dice).state;
      var head := HeadAfter(s);
      var spawned := head == s.food && dice.spawnPowerUp;
      && (forall u :: u in next.powerUps <==>
            (u in s.powerUps && u.position != head)
            || (spawned && u == PowerUp(dice.powerUpPosition, dice.powerUpKind)))
      && (forall u :: multiset(next.powerUps)[u] ==
            (if u.position == head then 0 else multiset(s.powerUps)[u])
            + (if spawned && u == PowerUp(dice.powerUpPosition, dice.powerUpKind) then 1 else 0))
      && next.speed ==
           Boosted(s.speed, BoostsAt(s.powerUps, head))
      && next.pointMultiplier ==
           (if PowerUp(head, Multiply) in s.powerUps then PointMultiplier else s.pointMultiplier)
      && next.hasShield == (s.hasShield || PowerUp(head, Shield) in s.powerUps)
  {
    var head := HeadAfter(s);
    assert Step(s, score, dice).state == Advance(s, head, dice);
    AdvancePickup(s, head, dice);
    AdvancePowerUpCounts(s, head, dice);
  }

  /** How often each power-up occurs after the surviving part of a tick. */
  lemma AdvancePowerUpCounts(s: State, head: Position, dice: Dice)
    ensures var next := Advance(s, head, dice);
      var spawned := head == s.food && dice.spawnPowerUp;
      forall u :: multiset(next.powerUps)[u] ==
        (if u.position == head then 0 else multiset(s.powerUps)[u])
        + (if spawned && u == PowerUp(dice.powerUpPosition, dice.powerUpKind) then 1 else 0)
  {
    var spawned := Spawned(head == s.food, dice);
    assert Advance(s, head, dice).powerUps == PowerUpsAfter(s.powerUps, head, spawned);
    PowerUpsAfterCounts(s.powerUps, head, spawned);
  }

  /** `PowerUpPickup` stated on the surviving part of a tick. */
  lemma AdvancePickup(s: State, head: Position, dice: Dice)
    ensures var next := Advance(s, head, dice);
      var spawned := head == s.food && dice.spawnPowerUp;
      && (forall u :: u in next.powerUps <==>
            (u in s.powerUps && u.position != head)
            || (spawned && u == PowerUp(dice.powerUpPosition, dice.powerUpKind)))
      && next.speed ==
           Boosted(s.speed, BoostsAt(s.powerUps, head))
      && next.pointMultiplier ==
           (if PowerUp(head, Multiply) in s.powerUps then PointMultiplier else s.pointMultiplier)
      && next.hasShield == (s.hasShield || PowerUp(head, Shield) in s.powerUps)
  {
    var next := Advance(s, head, dice);
    assert next.powerUps == PowerUpsAfter(s.powerUps, head, Spawned(head == s.food, dice));
    AdvanceEffects(s, head, dice);
    PickupEffects(Effects(s.speed, s.pointMultiplier, s.hasShield), s.powerUps, head);
    AdvanceSpeed(s, head, dice);
  }

  /** The interval after a surviving tick, one boost per speed power-up on the head. */
  lemma AdvanceSpeed(s: State, head: Position, dice: Dice)
    ensures Advance(s, head, dice).speed == Boosted(s.speed, BoostsAt(s.powerUps, head))
  {
    AdvanceEffects(s, head, dice);
    PickupEffects(Effects(s.speed, s.pointMultiplier, s.hasShield), s.powerUps, head);
  }

  /** The three status effects after a surviving tick are those the pickups leave. */
  lemma AdvanceEffects(s: State, head: Position, dice: Dice)
    ensures var next := Advance(s, head, dice);
      var after := AfterPickups(Effects(s.speed, s.pointMultiplier, s.hasShield), s.powerUps, head);
      Effects(next.speed, next.pointMultiplier, next.hasShield) == after
  {
  }

  /** A tick keeps every cell on the board and every status effect in range. */
  lemma StepPreservesWellFormed(s: State, score: int, dice: Dice)
    requires WellFormed(s) && dice.Valid()
    ensures WellFormed(Step(s, score, dice).state)
  {
    var head := HeadAfter(s);
    if !Fatal(s, head) {
      assert Step(s, score, dice).state == Advance(s, head, dice);
      AdvancePreservesWellFormed(s, head, dice);
    }
  }

  /** The surviving part of a tick keeps the state well formed. */
  lemma AdvancePreservesWellFormed(s: State, head: Position, dice: Dice)
    requires WellFormed(s) && dice.Valid() && InGrid(head)
    ensures WellFormed(Advance(s, head, dice))
  {
    var next := Advance(s, head, dice);
    var e := Effects(s.speed, s.pointMultiplier, s.hasShield);
    AdvanceEffects(s, head, dice);
    SpeedStaysInRange(e, s.powerUps, head);
    PickupEffects(e, s.powerUps, head);
    AdvanceKeepsCellsInGrid(s, head, dice);
  }

  /** Every cell the surviving part of a tick produces lies on the board. */
  lemma AdvanceKeepsCellsInGrid(s: State, head: Position, dice: Dice)
    requires WellFormed(s) && dice.Valid() && InGrid(head)
    ensures var next := Advance(s, head, dice);
      && |next.snake| > 0 && AllInGrid(next.snake) && InGrid(next.food) && AllInGrid(next.obstacles)
      && (forall i :: 0 <= i < |next.powerUps| ==> InGrid(next.powerUps[i].position))
  {
    var next := Advance(s, head, dice);
    assert AllInGrid(next.snake) by {
      forall i | 0 <= i < |next.snake| ensures InGrid(next.snake[i]) {
        if i > 0 { assert next.snake[i] == s.snake[i - 1]; }
      }
    }
    var ps := next.powerUps;
    assert ps == PowerUpsAfter(s.powerUps, head, Spawned(head == s.food, dice));
    forall i | 0 <= i < |ps|
      ensures InGrid(ps[i].position)
    {
      var u := ps[i];
      assert u in ps;
      if u in s.powerUps {
        var j :| 0 <= j < |s.powerUps| && s.powerUps[j] == u;
      }
    }
  }

  /** A run starts well formed, with a one-cell snake at (10, 10). */
  lemma InitialIsWellFormed()
    ensures WellFormed(Initial)
    ensures |Initial.snake| == 1 && Initial.snake[0] == Position(10, 10)
  {
  }

  /**
   * From the initial state, five ticks to the right with no power-up or
   * obstacle spawned reach the food at (15, 10): the snake is two cells long
   * and the score is 10.
   */
  lemma FiveTicksReachFirstFood(dice: Dice)
    requires dice.Valid() && !dice.spawnPowerUp && !dice.spawnObstacle
    ensures var s1 := Step(Initial, 0, dice).state;
      var s2 := Step(s1, 0, dice).state;
      var s3 := Step(s2, 0, dice).state;
      var s4 := Step(s3, 0, dice).state;
      var r5 := Step(s4, 0, dice);
      && r5.outcome == Continue(10)
      && r5.state.snake == [Position(15, 10), Position(14, 10)]
  {
    var s1 := Step(Initial, 0, dice).state;
    assert s1.snake == [Position(11, 10)];
    var s2 := Step(s1, 0, dice).state;
    assert s2.snake == [Position(12, 10)];
    var s3 := Step(s2, 0, dice).state;
    assert s3.snake == [Position(13, 10)];
    var s4 := Step(s3, 0, dice).state;
    assert s4.snake == [Position(14, 10)] && s4.food == Position(15, 10);
  }
}
