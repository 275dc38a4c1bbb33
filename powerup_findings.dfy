/**
 * The power-up list as the game component actually leaves it after a tick.
 * Every list update in one tick replaces the whole list with a value computed
 * from the list as it was before the tick, and the last update wins: the
 * spawned power-up is appended first, then one copy of the old list per
 * power-up on the head, each missing just that one entry. So a tick that both
 * spawns and picks up loses the spawned power-up, and of several power-ups on
 * the head only the last is removed although all of them take effect.
 * `SnakeRules.PowerUpsAfter` is the list the rest of the model uses.
 */
module PowerUpFindings {
  import opened SnakeRules

  /** The index of the last power-up of `ps` on `head`, or -1 when there is none. */
  function LastIndexAt(ps: seq<PowerUp>, head: Position): (r: int)
    ensures -1 <= r < |ps|
    ensures r >= 0 ==> ps[r].position == head
    ensures forall j :: r < j < |ps| ==> ps[j].position != head
  {
    if ps == [] then -1
    else if CheckCollision(head, ps[|ps| - 1].position) then |ps| - 1
    else LastIndexAt(ps[..|ps| - 1], head)
  }

  /**
   * The power-up list after a tick, with the component's last-update-wins
   * behaviour: with a power-up on the head, exactly one occurrence (the last
   * one on the head) is removed and nothing is added, so the spawned power-up
   * is lost; with none on the head, the spawned one is appended.
   */
  function PowerUpsAsWritten(ps: seq<PowerUp>, head: Position, spawned: seq<PowerUp>): (r: seq<PowerUp>)
    ensures LastIndexAt(ps, head) >= 0 ==>
      && |r| == |ps| - 1
      && multiset(r) + multiset{ps[LastIndexAt(ps, head)]} == multiset(ps)
      && ps[LastIndexAt(ps, head)].position == head
    ensures LastIndexAt(ps, head) < 0 ==>
      (forall i :: 0 <= i < |ps| ==> ps[i].position != head) && r == ps + spawned
  {
    var i := LastIndexAt(ps, head);
    if i >= 0 then
      RemovedOnce(ps, i);
      ps[..i] + ps[i + 1..]
    else ps + spawned
  }

  /** Cutting out index `i` removes one occurrence of `ps[i]` and nothing else. */
  lemma RemovedOnce(ps: seq<PowerUp>, i: int)
    requires 0 <= i < |ps|
    ensures multiset(ps[..i] + ps[i + 1..]) + multiset{ps[i]} == multiset(ps)
  {
    assert ps == ps[..i] + [ps[i]] + ps[i + 1..];
  }

  /** The two agree on every tick that picks nothing up. */
  lemma AsWrittenAgreesWithoutPickup(ps: seq<PowerUp>, head: Position, spawned: seq<PowerUp>)
    requires forall i :: 0 <= i < |ps| ==> ps[i].position != head
    ensures PowerUpsAsWritten(ps, head, spawned) == PowerUpsAfter(ps, head, spawned)
  {
    KeptAllWhenNoneAtHead(ps, head);
  }

  /**
   * A power-up lying on the food cell is picked up by the tick that eats the
   * food; the power-up that tick spawns is lost as written, and kept by the
   * corrected list.
   */
  lemma AsWrittenLosesSpawnedPowerUp()
    ensures var cell := Position(3, 4);
      var ps := [PowerUp(cell, SpeedBoost)];
      var spawned := PowerUp(Position(7, 7), Shield);
      && PowerUpsAsWritten(ps, cell, [spawned]) == []
      && PowerUpsAfter(ps, cell, [spawned]) == [spawned]
  {
    var cell := Position(3, 4);
    var ps := [PowerUp(cell, SpeedBoost)];
    assert PowerUpsAfter(ps, cell, [PowerUp(Position(7, 7), Shield)]) == Kept(ps, cell) + [PowerUp(Position(7, 7), Shield)];
    assert Kept(ps, cell) == Kept([], cell) + [];
  }

  /**
   * Two power-ups on the same cell: both take effect, but as written the
   * first stays on the board and can be picked up again; the corrected list
   * removes both.
   */
  lemma AsWrittenKeepsPickedUpDuplicate(e: Effects)
    ensures var cell := Position(3, 4);
      var ps := [PowerUp(cell, Shield), PowerUp(cell, Multiply)];
      && PowerUpsAsWritten(ps, cell, []) == [PowerUp(cell, Shield)]
      && PowerUpsAfter(ps, cell, []) == []
      && AfterPickups(e, ps, cell).hasShield
      && AfterPickups(e, ps, cell).pointMultiplier == PointMultiplier
  {
    var cell := Position(3, 4);
    var ps := [PowerUp(cell, Shield), PowerUp(cell, Multiply)];
    assert ps[..1] == [PowerUp(cell, Shield)];
    assert Kept(ps, cell) == Kept(ps[..1], cell);
    assert Kept(ps[..1], cell) == Kept([], cell);
  }
}
