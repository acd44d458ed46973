/**
 * Ship modules (src/modules_system.cpp): the automated simple cannon picks
 * the nearest enemy in range through a two-node decision tree and fires
 * when its cooldown has run out.
 *
 * Distances are compared through their squares: the C++ code compares
 * float distances (square roots), which order the same way. The cannon's
 * aiming angle and the projectile entity that world_init builds are not
 * part of this model; a fired projectile is recorded as a Shot from the
 * cannon to the target.
 */
module Modules {
  import opened Wrappers
  import opened Common
  import opened Components
  import opened Registry
  import opened DecisionTree

  /** Enemies farther than this from the cannon are out of range. */
  const SEARCH_RANGE: real := 200.0

  /** AutoCannonContext: the cannon, and the chosen enemy and its position (zero until one is chosen). */
  datatype AutoCannonContext = AutoCannonContext(cannonEntity: Entity, enemyEntity: Entity, enemyPos: Vec2)

  datatype Shot = Shot(from: Vec2, to: Vec2)

  /** What the tree's lambdas see and change: the registry, the camera position, the context and the shots fired. */
  datatype CannonWorld = CannonWorld(store: Store, camera: Vec2, ctx: AutoCannonContext, shots: seq<Shot>)

  function Sub(a: Vec2, b: Vec2): Vec2 { Vec2(a.x - b.x, a.y - b.y) }
  function Add(a: Vec2, b: Vec2): Vec2 { Vec2(a.x + b.x, a.y + b.y) }

  function Dist2(a: Vec2, b: Vec2): real
  {
    (a.x - b.x) * (a.x - b.x) + (a.y - b.y) * (a.y - b.y)
  }

  /** Enemy e has a motion and lies within SEARCH_RANGE of cannon position c. */
  predicate InRange(s: Store, c: Vec2, e: Entity)
  {
    GetMotion(s, e).Some? && Dist2(GetMotion(s, e).value.position, c) <= SEARCH_RANGE * SEARCH_RANGE
  }

  function EnemyDist2(s: Store, c: Vec2, e: Entity): real
    requires GetMotion(s, e).Some?
  {
    Dist2(GetMotion(s, e).value.position, c)
  }

  /**
   * The index the search loop settles on after visiting es: an in-range
   * enemy replaces the current choice only when strictly closer.
   */
  function Best(s: Store, c: Vec2, es: seq<Entity>): (b: Option<nat>)
    ensures b.Some? ==> b.value < |es| && InRange(s, c, es[b.value])
    decreases |es|
  {
    if es == [] then None
    else
      var prev := Best(s, c, es[..|es| - 1]);
      var n := |es| - 1;
      if InRange(s, c, es[n]) && (prev.None? || EnemyDist2(s, c, es[n]) < EnemyDist2(s, c, es[prev.value]))
      then Some(n) else prev
  }

  /**
   * The search finds an enemy exactly when one is in range; the one it
   * finds is nearest among those in range, and no earlier enemy in range is
   * as near (ties keep the first).
   */
  lemma {:induction false} BestIsNearestFirst(s: Store, c: Vec2, es: seq<Entity>)
    ensures Best(s, c, es).None? <==> forall k :: 0 <= k < |es| ==> !InRange(s, c, es[k])
    ensures Best(s, c, es).Some? ==>
              var b := Best(s, c, es).value;
              (forall k :: 0 <= k < |es| && InRange(s, c, es[k]) ==> EnemyDist2(s, c, es[b]) <= EnemyDist2(s, c, es[k])) &&
              (forall k :: 0 <= k < b && InRange(s, c, es[k]) ==> EnemyDist2(s, c, es[b]) < EnemyDist2(s, c, es[k]))
    decreases |es|
  {
    if es != [] {
      var init := es[..|es| - 1];
      BestIsNearestFirst(s, c, init);
      assert forall k :: 0 <= k < |init| ==> init[k] == es[k];
    }
  }

  /** SearchForEnemy as a condition: the verdict and the updated world. */
  function SearchSpec(w: CannonWorld): (r: (bool, CannonWorld))
    ensures r.1.store == w.store && r.1.camera == w.camera && r.1.shots == w.shots
    ensures r.1.ctx.cannonEntity == w.ctx.cannonEntity
    ensures !r.0 ==> r.1 == w
  {
    match GetMotion(w.store, w.ctx.cannonEntity)
    case None => (false, w)
    case Some(cm) =>
      var c := Sub(cm.position, w.camera);
      var es := Entities(Slot(w.store, Enemies));
      match Best(w.store, c, es)
      case None => (false, w)
      case Some(b) =>
        (true, w.(ctx := w.ctx.(enemyEntity := es[b], enemyPos := GetMotion(w.store, es[b]).value.position)))
  }

  /**
   * SearchForEnemy: no motion on the cannon means no search; enemies
   * without motion are skipped; the nearest enemy within 200 px of the
   * cannon's camera-relative position is written into the context.
   */
  method SearchForEnemy(w: CannonWorld) returns (found: bool, w': CannonWorld)
    ensures (found, w') == SearchSpec(w)
  {
    w' := w;
    var cannonMotion := GetMotion(w.store, w.ctx.cannonEntity);
    if cannonMotion.None? {
      return false, w';
    }
    var c := Sub(cannonMotion.value.position, w.camera);
    var es := Entities(Slot(w.store, Enemies));
    // The squared smallest distance so far; None stands for numeric_limits<float>::max().
    var smallest: Option<real> := None;
    var i := 0;
    while i < |es|
      invariant 0 <= i <= |es|
      invariant w'.store == w.store && w'.camera == w.camera && w'.shots == w.shots
      invariant w'.ctx.cannonEntity == w.ctx.cannonEntity
      invariant Best(w.store, c, es[..i]).None? ==> smallest.None? && w' == w
      invariant Best(w.store, c, es[..i]).Some? ==>
                  var b := Best(w.store, c, es[..i]).value;
                  smallest == Some(EnemyDist2(w.store, c, es[b])) &&
                  w'.ctx == w.ctx.(enemyEntity := es[b], enemyPos := GetMotion(w.store, es[b]).value.position)
    {
      assert es[..i + 1][..i] == es[..i];
      var enemyMotion := GetMotion(w.store, es[i]);
      if enemyMotion.Some? {
        var d := Dist2(enemyMotion.value.position, c);
        if d <= SEARCH_RANGE * SEARCH_RANGE && (smallest.None? || d < smallest.value) {
          smallest := Some(d);
          w' := w'.(ctx := w'.ctx.(enemyEntity := es[i], enemyPos := enemyMotion.value.position));
        }
      }
      i := i + 1;
    }
    assert es[..|es|] == es;
    found := smallest.Some?;
  }

  function SetCannon(s: Store, e: Entity, c: CannonState): Store
  {
    Set(s, SimpleCannons, e, CannonC(c))
  }

  /**
   * The shoot node's condition: with the cooldown run out, fire from the
   * cannon at the chosen enemy (back in world coordinates) and restart the
   * cooldown. It always answers yes.
   */
  function ShootSpec(w: CannonWorld): (r: (bool, CannonWorld))
    ensures r.0
    ensures r.1.camera == w.camera && r.1.ctx == w.ctx
    ensures |w.shots| <= |r.1.shots| <= |w.shots| + 1 && r.1.shots[..|w.shots|] == w.shots
    ensures forall id :: id != SimpleCannons ==> Slot(r.1.store, id) == Slot(w.store, id)
  {
    var e := w.ctx.cannonEntity;
    match (GetCannon(w.store, e), GetMotion(w.store, e))
    case (Some(sc), Some(m)) =>
      if sc.timerMs <= 0.0 then
        (true, w.(store := SetCannon(w.store, e, sc.(timerMs := SIMPLE_CANNON_COOLDOWN)),
                  shots := w.shots + [Shot(m.position, Add(w.ctx.enemyPos, w.camera))]))
      else (true, w)
    case _ => (true, w)
  }

  /** The walk of the auto-cannon tree: search, then shoot on yes; a no ends the walk. */
  function TreeWalk(w: CannonWorld): CannonWorld
  {
    var r := SearchSpec(w);
    if r.0 then ShootSpec(r.1).1 else r.1
  }

  /** A cannon's cooldown after a frame: a positive timer runs down by elapsed_ms, any other is pinned to 0. */
  function CooledDown(timerMs: real, elapsedMs: real): real
  {
    if timerMs > 0.0 then timerMs - elapsedMs else 0.0
  }

  /** One iteration of ModulesSystem::step on cannon sc: the new store and the shots so far. */
  function CannonStep(s: Store, sc: Entity, camera: Vec2, elapsedMs: real, shots: seq<Shot>): (Store, seq<Shot>)
  {
    match GetCannon(s, sc)
    case None => (s, shots)
    case Some(c) =>
      var s1 := SetCannon(s, sc, c.(timerMs := CooledDown(c.timerMs, elapsedMs)));
      if c.isAutomated then
        var w := TreeWalk(CannonWorld(s1, camera, AutoCannonContext(sc, 0, Vec2(0.0, 0.0)), shots));
        (w.store, w.shots)
      else (s1, shots)
  }

  function StepFold(s: Store, cannons: seq<Entity>, camera: Vec2, elapsedMs: real, shots: seq<Shot>): (Store, seq<Shot>)
    decreases |cannons|
  {
    if cannons == [] then (s, shots)
    else
      var r := CannonStep(s, cannons[0], camera, elapsedMs, shots);
      StepFold(r.0, cannons[1..], camera, elapsedMs, r.1)
  }

  /** A manual cannon only cools down: no shot, and nothing but its timer changes. */
  lemma ManualCannonOnlyCools(s: Store, sc: Entity, camera: Vec2, elapsedMs: real, shots: seq<Shot>, c: CannonState)
    requires GetCannon(s, sc) == Some(c) && !c.isAutomated
    ensures var r := CannonStep(s, sc, camera, elapsedMs, shots);
            r.1 == shots && GetCannon(r.0, sc) == Some(c.(timerMs := CooledDown(c.timerMs, elapsedMs))) &&
            forall id :: id != SimpleCannons ==> Slot(r.0, id) == Slot(s, id)
  {
    GetAfterSet(s, SimpleCannons, sc, CannonC(c.(timerMs := CooledDown(c.timerMs, elapsedMs))), SimpleCannons, sc);
  }

  /** Some enemy of es is in range of c. */
  ghost predicate AnyInRange(s: Store, c: Vec2, es: seq<Entity>)
  {
    exists k :: 0 <= k < |es| && InRange(s, c, es[k])
  }

  /** The search settles on an enemy exactly when some enemy is in range. */
  lemma FoundIffAnyInRange(s: Store, c: Vec2, es: seq<Entity>)
    ensures Best(s, c, es).Some? <==> AnyInRange(s, c, es)
  {
    BestIsNearestFirst(s, c, es);
  }

  /** Writing a cannon changes no motion and no enemy, so the enemies in range stay the same. */
  lemma SetCannonKeepsRange(s: Store, e: Entity, v: CannonState, c: Vec2, es: seq<Entity>)
    ensures Slot(SetCannon(s, e, v), Enemies) == Slot(s, Enemies)
    ensures GetMotion(SetCannon(s, e, v), e) == GetMotion(s, e)
    ensures AnyInRange(SetCannon(s, e, v), c, es) <==> AnyInRange(s, c, es)
  {
    var s1 := SetCannon(s, e, v);
    assert Slot(s1, Motions) == Slot(s, Motions);
    assert forall x :: GetMotion(s1, x) == GetMotion(s, x);
  }

  /**
   * An automated cannon fires exactly when an enemy is in range and its
   * cooled-down timer is not positive; firing restarts the cooldown at
   * SIMPLE_CANNON_COOLDOWN, otherwise the cooled-down timer stays.
   */
  lemma AutomatedCannonFiresWhenReady(s: Store, sc: Entity, camera: Vec2, elapsedMs: real, shots: seq<Shot>, c: CannonState)
    requires GetCannon(s, sc) == Some(c) && c.isAutomated
    requires GetMotion(s, sc).Some?
    ensures var r := CannonStep(s, sc, camera, elapsedMs, shots);
            var fires := AnyInRange(s, Sub(GetMotion(s, sc).value.position, camera), Entities(Slot(s, Enemies))) &&
                         CooledDown(c.timerMs, elapsedMs) <= 0.0;
            (fires ==> |r.1| == |shots| + 1 && GetCannon(r.0, sc) == Some(c.(timerMs := SIMPLE_CANNON_COOLDOWN))) &&
            (!fires ==> r.1 == shots && GetCannon(r.0, sc) == Some(c.(timerMs := CooledDown(c.timerMs, elapsedMs))))
  {
    var c1 := c.(timerMs := CooledDown(c.timerMs, elapsedMs));
    var s1 := SetCannon(s, sc, c1);
    var cpos := Sub(GetMotion(s, sc).value.position, camera);
    var es := Entities(Slot(s, Enemies));
    SetCannonKeepsRange(s, sc, c1, cpos, es);
    GetAfterSet(s, SimpleCannons, sc, CannonC(c1), SimpleCannons, sc);
    FoundIffAnyInRange(s1, cpos, es);
    var w := CannonWorld(s1, camera, AutoCannonContext(sc, 0, Vec2(0.0, 0.0)), shots);
    var r := SearchSpec(w);
    assert r.0 <==> AnyInRange(s, cpos, es);
    if r.0 {
      GetAfterSet(s1, SimpleCannons, sc, CannonC(c1.(timerMs := SIMPLE_CANNON_COOLDOWN)), SimpleCannons, sc);
    }
  }

  /** The cannon system: the auto-cannon tree built by the constructor. */
  class ModulesSystem {
    var root: DecisionNode<CannonWorld>
    var shootNode: DecisionNode<CannonWorld>

    /** The tree is search -> (yes: shoot, no: stop), shoot -> stop, with no actions. */
    ghost predicate Valid()
      reads this, root, shootNode
    {
      root != shootNode &&
      root.condition == SearchSpec && root.performAction.None? &&
      root.yesBranch == shootNode && root.noBranch == null &&
      shootNode.condition == ShootSpec && shootNode.performAction.None? &&
      shootNode.yesBranch == null && shootNode.noBranch == null
    }

    constructor ()
      ensures Valid()
    {
      var shoot := new DecisionNode(ShootSpec);
      var search := new DecisionNode(SearchSpec);
      search.SetBranches(shoot, null);
      root := search;
      shootNode := shoot;
    }

    /** Walk the tree from the root as step does: decide, then execute and decide until no node is left. */
    method RunTree(w: CannonWorld) returns (w': CannonWorld)
      requires Valid()
      ensures w' == TreeWalk(w)
    {
      var node: DecisionNode?<CannonWorld>;
      node, w' := root.Decide(w);
      while node != null
        invariant node == null || node == shootNode
        invariant node == null ==> w' == TreeWalk(w)
        invariant node == shootNode ==> SearchSpec(w).0 && w' == SearchSpec(w).1
        decreases if node == null then 0 else 1
      {
        w' := node.Execute(w');
        node, w' := node.Decide(w');
      }
    }

    /** One round of the loop of step: cool cannon sc down and, if it is automated, run the tree for it. */
    method StepCannon(reg: ECSRegistry, sc: Entity, camera: Vec2, elapsedMs: real, shots: seq<Shot>)
      returns (shots': seq<Shot>)
      requires Valid()
      modifies reg
      ensures reg.registryList == old(reg.registryList)
      ensures (reg.store, shots') == CannonStep(old(reg.store), sc, camera, elapsedMs, shots)
    {
      shots' := shots;
      var cannon := GetCannon(reg.store, sc);
      if cannon.Some? {
        var c := cannon.value;
        reg.store := SetCannon(reg.store, sc, c.(timerMs := CooledDown(c.timerMs, elapsedMs)));
        if c.isAutomated {
          var w := RunTree(CannonWorld(reg.store, camera, AutoCannonContext(sc, 0, Vec2(0.0, 0.0)), shots));
          reg.store := w.store;
          shots' := w.shots;
        }
      }
    }

    /** ModulesSystem::step: cool every cannon down, then let each automated one run the tree. */
    method Step(reg: ECSRegistry, camera: Vec2, elapsedMs: real) returns (shots: seq<Shot>)
      requires Valid()
      modifies reg
      ensures reg.registryList == old(reg.registryList)
      ensures (reg.store, shots) == StepFold(old(reg.store), Entities(Slot(old(reg.store), SimpleCannons)), camera, elapsedMs, [])
    {
      var cannons := Entities(Slot(reg.store, SimpleCannons));
      shots := [];
      var i := 0;
      while i < |cannons|
        invariant 0 <= i <= |cannons|
        invariant reg.registryList == old(reg.registryList)
        invariant StepFold(reg.store, cannons[i..], camera, elapsedMs, shots) ==
                  StepFold(old(reg.store), cannons, camera, elapsedMs, [])
      {
        assert cannons[i..][1..] == cannons[i + 1..];
        shots := StepCannon(reg, cannons[i], camera, elapsedMs, shots);
        i := i + 1;
      }
    }
  }
}
