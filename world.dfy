/**
 * Collision resolution and restart (src/world_system.cpp).
 *
 * handle_collisions walks the collisions container by index while the
 * rules remove entities; since collisions is a registered container,
 * remove_all_components_of also drops the removed entity's collision
 * entries, and the loop sees the shorter container. The model reads the
 * container afresh at every index, as the C++ loop does.
 *
 * world_system.cpp reads `registry.projectiles`, a container the shown
 * registry does not declare; it is read here as playerProjectiles, which
 * the registry never pushes onto registry_list.
 */
module World {
  import opened Wrappers
  import opened Common
  import opened Components
  import opened Registry
  import opened SceneManager

  /** The health an enemy takes off the ship when it rams it. */
  const SHIP_RAM_DAMAGE: real := 50.0

  const DEATH_SCENE: string := "Death Scene"

  /** A registered container: one that remove_all_components_of reaches. */
  predicate Registered(id: ContainerId)
  {
    id != PlayerProjectiles && id != EnemyProjectiles
  }

  /** The other entity of a collision entry (entries of the collisions container hold Collision components). */
  function Other(c: Component, e: Entity): Entity
  {
    match c
    case CollisionC(col) => col.other
    case _ => e
  }

  // ---------------------------------------------------------------- the rules

  /** The enemy's health after a hit: its integer health less the projectile's float damage, truncated back to an int. */
  function HealthAfterHit(s: Store, p: Entity, x: Entity): int
    requires GetProjectile(s, p).Some? && GetEnemy(s, x).Some?
  {
    SubTrunc(GetEnemy(s, x).value.health, GetProjectile(s, p).value.damage)
  }

  /** The store after the enemy takes the damage, and is removed when that leaves it at 0 or less. */
  function EnemyAfterHit(s: Store, L: seq<ContainerId>, p: Entity, x: Entity): Store
    requires GetProjectile(s, p).Some? && GetEnemy(s, x).Some?
  {
    var s1 := Set(s, Enemies, x, EnemyC(GetEnemy(s, x).value.(health := HealthAfterHit(s, p, x))));
    if HealthAfterHit(s, p, x) <= 0 then RemoveAll(s1, L, x) else s1
  }

  /** A projectile hits an enemy: the enemy takes the damage, then the projectile is removed. */
  function HitEnemy(s: Store, L: seq<ContainerId>, p: Entity, x: Entity): Store
    requires GetProjectile(s, p).Some? && GetEnemy(s, x).Some?
  {
    RemoveAll(EnemyAfterHit(s, L, p, x), L, p)
  }

  /** Projectile - Enemy, in either order. */
  function ProjectileEnemy(s: Store, L: seq<ContainerId>, e1: Entity, e2: Entity): Store
  {
    if GetProjectile(s, e1).Some? && GetEnemy(s, e2).Some? then HitEnemy(s, L, e1, e2)
    else if GetProjectile(s, e2).Some? && GetEnemy(s, e1).Some? then HitEnemy(s, L, e2, e1)
    else s
  }

  predicate Jailed(s: Store, b: Entity)
  {
    GetBunny(s, b).Some? && GetBunny(s, b).value.isJailed
  }

  /** The jail's health after a hit. */
  function JailAfterHit(s: Store, p: Entity, b: Entity): real
    requires GetProjectile(s, p).Some? && GetBunny(s, b).Some?
  {
    GetBunny(s, b).value.jailHealth - GetProjectile(s, p).value.damage
  }

  /** The store after the jail takes the damage; a broken jail frees the bunny and shows the freed texture. */
  function BunnyAfterHit(s: Store, p: Entity, b: Entity): Store
    requires GetProjectile(s, p).Some? && GetBunny(s, b).Some?
  {
    var bunny := GetBunny(s, b).value.(jailHealth := JailAfterHit(s, p, b));
    if JailAfterHit(s, p, b) <= 0.0 then
      Set(Set(Set(s, Bunnies, b, BunnyC(bunny)), RenderRequests, b, RenderC(RenderRequest(BUNNY_NOT_JAILED))),
          Bunnies, b, BunnyC(bunny.(isJailed := false)))
    else Set(s, Bunnies, b, BunnyC(bunny))
  }

  /** A projectile hits a bunny: the jail takes the damage, then the projectile is removed. */
  function HitJail(s: Store, L: seq<ContainerId>, p: Entity, b: Entity): Store
    requires GetProjectile(s, p).Some? && GetBunny(s, b).Some?
  {
    RemoveAll(BunnyAfterHit(s, p, b), L, p)
  }

  /** Projectile - Bunny, in either order, only while the bunny is jailed. */
  function ProjectileBunny(s: Store, L: seq<ContainerId>, e1: Entity, e2: Entity): Store
  {
    if GetProjectile(s, e1).Some? && Jailed(s, e2) then HitJail(s, L, e1, e2)
    else if GetProjectile(s, e2).Some? && Jailed(s, e1) then HitJail(s, L, e2, e1)
    else s
  }

  /** The ship's health after a ram. */
  function ShipAfterRam(s: Store, sh: Entity): real
    requires GetShip(s, sh).Some?
  {
    GetShip(s, sh).value.health - SHIP_RAM_DAMAGE
  }

  /** An enemy rams the ship: 50 off the ship's health, then the enemy is removed; the flag is the ship's death. */
  function RamShip(s: Store, L: seq<ContainerId>, en: Entity, sh: Entity): (Store, bool)
    requires GetShip(s, sh).Some?
  {
    (RemoveAll(Set(s, Ships, sh, ShipC(GetShip(s, sh).value.(health := ShipAfterRam(s, sh)))), L, en),
     ShipAfterRam(s, sh) <= 0.0)
  }

  /** What one collision entry does: the new store, the entities queued for removal from collisions, a camera reset, death. */
  datatype StepResult = StepResult(store: Store, toRemove: seq<Entity>, cameraBack: bool, died: bool)

  /** The store once the projectile rules have run on (e1, e2). */
  function AfterProjectiles(s: Store, L: seq<ContainerId>, e1: Entity, e2: Entity): Store
  {
    ProjectileBunny(ProjectileEnemy(s, L, e1, e2), L, e1, e2)
  }

  /** The ship and island, or ship and base, rule: both entities queued when either pairing holds. */
  function Touching(s: Store, e1: Entity, e2: Entity, other: ContainerId): bool
  {
    (Has(s, Ships, e1) && Has(s, other, e2)) || (Has(s, Ships, e2) && Has(s, other, e1))
  }

  /** One iteration of handle_collisions for the entry (e1, e2). */
  function CollisionStep(s: Store, L: seq<ContainerId>, e1: Entity, e2: Entity): StepResult
  {
    if GetMotion(s, e1).None? || GetMotion(s, e2).None? then StepResult(s, [e1, e2], false, false)
    else
      var s2 := AfterProjectiles(s, L, e1, e2);
      if GetEnemy(s2, e1).Some? && GetShip(s2, e2).Some? then
        var r := RamShip(s2, L, e1, e2);
        StepResult(r.0, [], false, r.1)
      else if GetEnemy(s2, e2).Some? && GetShip(s2, e1).Some? then
        var r := RamShip(s2, L, e2, e1);
        StepResult(r.0, [], false, r.1)
      else
        var island := Touching(s2, e1, e2, Islands);
        var base := Touching(s2, e1, e2, Bases);
        StepResult(s2, (if island then [e1, e2] else []) + (if base then [e1, e2] else []), island, false)
  }

  lemma HitEnemyBounded(s: Store, L: seq<ContainerId>, p: Entity, x: Entity)
    requires GetProjectile(s, p).Some? && GetEnemy(s, x).Some?
    ensures |Slot(HitEnemy(s, L, p, x), Collisions)| <= |Slot(s, Collisions)|
  {
    RemoveAllShrinks(Set(s, Enemies, x, EnemyC(GetEnemy(s, x).value.(health := HealthAfterHit(s, p, x)))), L, x, Collisions);
    RemoveAllShrinks(EnemyAfterHit(s, L, p, x), L, p, Collisions);
  }

  lemma HitJailBounded(s: Store, L: seq<ContainerId>, p: Entity, b: Entity)
    requires GetProjectile(s, p).Some? && GetBunny(s, b).Some?
    ensures |Slot(HitJail(s, L, p, b), Collisions)| <= |Slot(s, Collisions)|
  {
    assert Slot(BunnyAfterHit(s, p, b), Collisions) == Slot(s, Collisions);
    RemoveAllShrinks(BunnyAfterHit(s, p, b), L, p, Collisions);
  }

  lemma AfterProjectilesBounded(s: Store, L: seq<ContainerId>, e1: Entity, e2: Entity)
    ensures |Slot(AfterProjectiles(s, L, e1, e2), Collisions)| <= |Slot(s, Collisions)|
  {
    var s1 := ProjectileEnemy(s, L, e1, e2);
    if GetProjectile(s, e1).Some? && GetEnemy(s, e2).Some? {
      HitEnemyBounded(s, L, e1, e2);
    } else if GetProjectile(s, e2).Some? && GetEnemy(s, e1).Some? {
      HitEnemyBounded(s, L, e2, e1);
    }
    if GetProjectile(s1, e1).Some? && Jailed(s1, e2) {
      HitJailBounded(s1, L, e1, e2);
    } else if GetProjectile(s1, e2).Some? && Jailed(s1, e1) {
      HitJailBounded(s1, L, e2, e1);
    }
  }

  /** No rule lengthens the collisions container. */
  lemma StepKeepsCollisionsBounded(s: Store, L: seq<ContainerId>, e1: Entity, e2: Entity)
    ensures |Slot(CollisionStep(s, L, e1, e2).store, Collisions)| <= |Slot(s, Collisions)|
  {
    if GetMotion(s, e1).Some? && GetMotion(s, e2).Some? {
      AfterProjectilesBounded(s, L, e1, e2);
      var s2 := AfterProjectiles(s, L, e1, e2);
      if GetEnemy(s2, e1).Some? && GetShip(s2, e2).Some? {
        RemoveAllShrinks(Set(s2, Ships, e2, ShipC(GetShip(s2, e2).value.(health := ShipAfterRam(s2, e2)))), L, e1, Collisions);
      } else if GetEnemy(s2, e2).Some? && GetShip(s2, e1).Some? {
        RemoveAllShrinks(Set(s2, Ships, e1, ShipC(GetShip(s2, e1).value.(health := ShipAfterRam(s2, e1)))), L, e2, Collisions);
      }
    }
  }
  // ---------------------------------------------------------------- the loop

  /** What handle_collisions leaves: the store, how often the camera went back, and whether the ship died. */
  datatype Outcome = Outcome(store: Store, cameraResets: nat, died: bool)

  /** The loop after collisions_to_remove: each queued entity that still has collisions loses them. */
  function RemoveQueued(s: Store, queue: seq<Entity>): Store
    decreases |queue|
  {
    if queue == [] then s
    else RemoveQueued(if Has(s, Collisions, queue[0]) then RemoveOne(s, Collisions, queue[0]) else s, queue[1..])
  }

  /** What the collision entry at index i does; no rule makes the collisions container longer. */
  function StepAt(s: Store, L: seq<ContainerId>, i: nat): (r: StepResult)
    requires i < |Slot(s, Collisions)|
    ensures |Slot(r.store, Collisions)| <= |Slot(s, Collisions)|
  {
    var c := Slot(s, Collisions)[i];
    StepKeepsCollisionsBounded(s, L, c.0, Other(c.1, c.0));
    CollisionStep(s, L, c.0, Other(c.1, c.0))
  }

  /** The entries of a container of length n from index i on. */
  function Remaining(n: nat, i: nat): nat
  {
    if i < n then n - i else 0
  }

  /**
   * handle_collisions from index i on, with the removal queue and camera
   * resets so far. The camera goes back at most once per entry handled.
   */
  function Handle(s: Store, L: seq<ContainerId>, i: nat, queue: seq<Entity>, resets: nat): (o: Outcome)
    decreases |Slot(s, Collisions)| - i
    ensures resets <= o.cameraResets <= resets + Remaining(|Slot(s, Collisions)|, i)
  {
    if i >= |Slot(s, Collisions)| then Outcome(ClearOne(RemoveQueued(s, queue), Collisions), resets, false)
    else
      var r := StepAt(s, L, i);
      if r.died then Outcome(r.store, resets, true)
      else Handle(r.store, L, i + 1, queue + r.toRemove, resets + if r.cameraBack then 1 else 0)
  }

  // ---------------------------------------------------------------- properties

  /** The entity has no component left in any registered container. */
  ghost predicate Gone(s: Store, e: Entity)
  {
    forall id :: Registered(id) ==> Get(s, id, e) == None
  }

  lemma RemoveAllGone(s: Store, L: seq<ContainerId>, e: Entity)
    requires PushOrder(L)
    ensures Gone(RemoveAll(s, L, e), e)
  {
    forall id | Registered(id)
      ensures Get(RemoveAll(s, L, e), id, e) == None
    {
      RemoveAllRemovesGet(s, L, e, id);
    }
  }

  lemma RemoveAllKeepsGone(s: Store, L: seq<ContainerId>, e: Entity, x: Entity)
    requires x != e && Gone(s, x)
    ensures Gone(RemoveAll(s, L, e), x)
  {
    forall id | Registered(id)
      ensures Get(RemoveAll(s, L, e), id, x) == None
    {
      RemoveAllKeepsGet(s, L, e, id, x);
    }
  }

  /** A collision with an entity that has no motion has no effect but queueing both. */
  lemma MissingMotionDropped(s: Store, L: seq<ContainerId>, e1: Entity, e2: Entity)
    requires GetMotion(s, e1).None? || GetMotion(s, e2).None?
    ensures CollisionStep(s, L, e1, e2) == StepResult(s, [e1, e2], false, false)
  {
  }

  /**
   * Projectile against enemy: the enemy keeps its new health when that is
   * above 0 and is otherwise gone from every registered container; the
   * projectile is gone from every registered container, while its entry in
   * the unregistered projectile container stays.
   */
  lemma ProjectileHitsEnemy(s: Store, L: seq<ContainerId>, p: Entity, x: Entity)
    requires PushOrder(L) && p != x
    requires GetProjectile(s, p).Some? && GetEnemy(s, x).Some?
    ensures HealthAfterHit(s, p, x) > 0 ==>
              GetEnemy(HitEnemy(s, L, p, x), x) == Some(GetEnemy(s, x).value.(health := HealthAfterHit(s, p, x)))
    ensures HealthAfterHit(s, p, x) <= 0 ==> Gone(HitEnemy(s, L, p, x), x)
    ensures Gone(HitEnemy(s, L, p, x), p)
    ensures Slot(HitEnemy(s, L, p, x), PlayerProjectiles) == Slot(s, PlayerProjectiles)
  {
    var v := EnemyC(GetEnemy(s, x).value.(health := HealthAfterHit(s, p, x)));
    var s1 := Set(s, Enemies, x, v);
    GetAfterSet(s, Enemies, x, v, Enemies, x);
    var s2 := EnemyAfterHit(s, L, p, x);
    RemoveAllGone(s2, L, p);
    RemoveAllRegistered(s2, L, p);
    RemoveAllRegistered(s1, L, x);
    if HealthAfterHit(s, p, x) > 0 {
      RemoveAllKeepsGet(s2, L, p, Enemies, x);
    } else {
      RemoveAllGone(s1, L, x);
      RemoveAllKeepsGone(s2, L, p, x);
    }
  }

  /** The jail's damage, before the projectile is removed. */
  lemma BunnyAfterHitEffect(s: Store, p: Entity, b: Entity)
    requires GetProjectile(s, p).Some? && GetBunny(s, b).Some?
    ensures var bunny := GetBunny(s, b).value;
            GetBunny(BunnyAfterHit(s, p, b), b) ==
              Some(bunny.(jailHealth := JailAfterHit(s, p, b), isJailed := bunny.isJailed && JailAfterHit(s, p, b) > 0.0))
    ensures JailAfterHit(s, p, b) <= 0.0 && GetRender(s, b).Some? ==>
              GetRender(BunnyAfterHit(s, p, b), b) == Some(RenderRequest(BUNNY_NOT_JAILED))
    ensures JailAfterHit(s, p, b) > 0.0 ==> GetRender(BunnyAfterHit(s, p, b), b) == GetRender(s, b)
  {
    var bunny := GetBunny(s, b).value.(jailHealth := JailAfterHit(s, p, b));
    var t1 := Set(s, Bunnies, b, BunnyC(bunny));
    GetAfterSet(s, Bunnies, b, BunnyC(bunny), Bunnies, b);
    GetAfterSet(s, Bunnies, b, BunnyC(bunny), RenderRequests, b);
    if JailAfterHit(s, p, b) <= 0.0 {
      var v := RenderC(RenderRequest(BUNNY_NOT_JAILED));
      var t2 := Set(t1, RenderRequests, b, v);
      GetAfterSet(t1, RenderRequests, b, v, RenderRequests, b);
      GetAfterSet(t1, RenderRequests, b, v, Bunnies, b);
      GetAfterSet(t2, Bunnies, b, BunnyC(bunny.(isJailed := false)), Bunnies, b);
      GetAfterSet(t2, Bunnies, b, BunnyC(bunny.(isJailed := false)), RenderRequests, b);
    }
  }

  /**
   * Projectile against a jailed bunny: the jail health drops by the damage;
   * at 0 or less the bunny is freed and shows BUNNY_NOT_JAILED (when it has a
   * render request), above 0 it stays jailed; the projectile is gone from
   * every registered container.
   */
  lemma ProjectileHitsJail(s: Store, L: seq<ContainerId>, p: Entity, b: Entity)
    requires PushOrder(L) && p != b
    requires GetProjectile(s, p).Some? && Jailed(s, b)
    ensures var bunny := GetBunny(s, b).value;
            GetBunny(HitJail(s, L, p, b), b) ==
              Some(bunny.(jailHealth := JailAfterHit(s, p, b), isJailed := JailAfterHit(s, p, b) > 0.0))
    ensures JailAfterHit(s, p, b) <= 0.0 && GetRender(s, b).Some? ==>
              GetRender(HitJail(s, L, p, b), b) == Some(RenderRequest(BUNNY_NOT_JAILED))
    ensures JailAfterHit(s, p, b) > 0.0 ==> GetRender(HitJail(s, L, p, b), b) == GetRender(s, b)
    ensures Gone(HitJail(s, L, p, b), p)
  {
    BunnyAfterHitEffect(s, p, b);
    RemoveAllKeepsGet(BunnyAfterHit(s, p, b), L, p, Bunnies, b);
    RemoveAllKeepsGet(BunnyAfterHit(s, p, b), L, p, RenderRequests, b);
    RemoveAllGone(BunnyAfterHit(s, p, b), L, p);
  }

  /** Enemy against ship: the ship loses 50 health, the enemy is gone, and the ship dies exactly when it had at most 50. */
  lemma EnemyRamsShip(s: Store, L: seq<ContainerId>, en: Entity, sh: Entity)
    requires PushOrder(L) && en != sh
    requires GetShip(s, sh).Some?
    ensures var ship := GetShip(s, sh).value;
            GetShip(RamShip(s, L, en, sh).0, sh) == Some(ship.(health := ship.health - SHIP_RAM_DAMAGE))
    ensures RamShip(s, L, en, sh).1 <==> GetShip(s, sh).value.health <= SHIP_RAM_DAMAGE
    ensures Gone(RamShip(s, L, en, sh).0, en)
  {
    var v := ShipC(GetShip(s, sh).value.(health := ShipAfterRam(s, sh)));
    var s1 := Set(s, Ships, sh, v);
    GetAfterSet(s, Ships, sh, v, Ships, sh);
    RemoveAllKeepsGet(s1, L, en, Ships, sh);
    RemoveAllGone(s1, L, en);
  }

  /** A ram ends the entry: it is the only way the ship dies, and no island or base check follows. */
  lemma RamSkipsTheRest(s: Store, L: seq<ContainerId>, e1: Entity, e2: Entity)
    ensures CollisionStep(s, L, e1, e2).died ==> CollisionStep(s, L, e1, e2).toRemove == []
    ensures CollisionStep(s, L, e1, e2).cameraBack ==> !CollisionStep(s, L, e1, e2).died
    ensures CollisionStep(s, L, e1, e2).died ==>
              GetMotion(s, e1).Some? && GetMotion(s, e2).Some? &&
              var s2 := AfterProjectiles(s, L, e1, e2);
              (GetEnemy(s2, e1).Some? && GetShip(s2, e2).Some?) || (GetEnemy(s2, e2).Some? && GetShip(s2, e1).Some?)
  {
  }

  /** The camera goes back exactly when, with no ram, a ship and an island touch; both are then queued. */
  lemma IslandResetsCamera(s: Store, L: seq<ContainerId>, e1: Entity, e2: Entity)
    requires GetMotion(s, e1).Some? && GetMotion(s, e2).Some?
    requires var s2 := AfterProjectiles(s, L, e1, e2);
             !(GetEnemy(s2, e1).Some? && GetShip(s2, e2).Some?) && !(GetEnemy(s2, e2).Some? && GetShip(s2, e1).Some?)
    ensures CollisionStep(s, L, e1, e2).cameraBack <==> Touching(AfterProjectiles(s, L, e1, e2), e1, e2, Islands)
    ensures Touching(AfterProjectiles(s, L, e1, e2), e1, e2, Islands) ==> CollisionStep(s, L, e1, e2).toRemove[..2] == [e1, e2]
    ensures Touching(AfterProjectiles(s, L, e1, e2), e1, e2, Bases) ==> |CollisionStep(s, L, e1, e2).toRemove| >= 2
  {
  }

  /** When no ship dies, the collisions container is empty afterwards. */
  lemma {:induction false} NormalEndClearsCollisions(s: Store, L: seq<ContainerId>, i: nat, queue: seq<Entity>, resets: nat)
    decreases |Slot(s, Collisions)| - i
    ensures !Handle(s, L, i, queue, resets).died ==> Slot(Handle(s, L, i, queue, resets).store, Collisions) == []
  {
    if i < |Slot(s, Collisions)| {
      var r := StepAt(s, L, i);
      if !r.died {
        NormalEndClearsCollisions(r.store, L, i + 1, queue + r.toRemove, resets + if r.cameraBack then 1 else 0);
      }
    }
  }

  /** A death ends the loop at once, with the store that entry left and collisions not cleared. */
  lemma DeathStopsTheLoop(s: Store, L: seq<ContainerId>, i: nat, queue: seq<Entity>, resets: nat)
    requires i < |Slot(s, Collisions)| && StepAt(s, L, i).died
    ensures Handle(s, L, i, queue, resets) == Outcome(StepAt(s, L, i).store, resets, true)
  {
  }

  // ---------------------------------------------------------------- the methods

  /** handle_player_death: the current scene is kept for restart and the death scene is requested. */
  method HandlePlayerDeath(sm: SceneManager)
    requires sm.currScene.Some?
    modifies sm
    ensures sm.events == old(sm.events) + [SetRestart(old(sm.currScene).value.name)]
    ensures sm.nextScene == if DEATH_SCENE in old(sm.scenes) then Some(old(sm.scenes)[DEATH_SCENE]) else old(sm.nextScene)
    ensures sm.scenes == old(sm.scenes) && sm.currScene == old(sm.currScene)
  {
    var current := sm.GetCurrentScene();
    sm.SetRestartScene(current.value.name);
    sm.SwitchScene(DEATH_SCENE);
  }

  /** The collisions_to_remove loop. */
  method RemoveQueuedLoop(reg: ECSRegistry, queue: seq<Entity>)
    modifies reg
    ensures reg.store == RemoveQueued(old(reg.store), queue)
    ensures reg.registryList == old(reg.registryList)
  {
    var k := 0;
    while k < |queue|
      invariant 0 <= k <= |queue|
      invariant reg.registryList == old(reg.registryList)
      invariant RemoveQueued(reg.store, queue[k..]) == RemoveQueued(old(reg.store), queue)
    {
      assert queue[k..][1..] == queue[k + 1..];
      if Has(reg.store, Collisions, queue[k]) {
        reg.store := RemoveOne(reg.store, Collisions, queue[k]);
      }
      k := k + 1;
    }
  }

  /**
   * handle_collisions: the entries by index, the container read afresh each
   * time; a ship death records the scene for restart, requests the death
   * scene and returns at once; otherwise the queued removals run and the
   * container is cleared.
   */
  method HandleCollisions(reg: ECSRegistry, sm: SceneManager) returns (cameraResets: nat, died: bool)
    requires reg.Valid() && sm.currScene.Some?
    modifies reg, sm
    ensures reg.Valid() && reg.registryList == old(reg.registryList)
    ensures Handle(old(reg.store), reg.registryList, 0, [], 0) == Outcome(reg.store, cameraResets, died)
    ensures died ==> sm.events == old(sm.events) + [SetRestart(old(sm.currScene).value.name)] &&
                     sm.nextScene == if DEATH_SCENE in old(sm.scenes) then Some(old(sm.scenes)[DEATH_SCENE]) else old(sm.nextScene)
    ensures !died ==> sm.events == old(sm.events) && sm.nextScene == old(sm.nextScene)
    ensures sm.scenes == old(sm.scenes) && sm.currScene == old(sm.currScene)
  {
    var L := reg.registryList;
    var queue: seq<Entity> := [];
    cameraResets := 0;
    var i := 0;
    while i < |Slot(reg.store, Collisions)|
      invariant reg.registryList == L
      invariant sm.events == old(sm.events) && sm.nextScene == old(sm.nextScene)
      invariant sm.scenes == old(sm.scenes) && sm.currScene == old(sm.currScene)
      invariant Handle(reg.store, L, i, queue, cameraResets) == Handle(old(reg.store), L, 0, [], 0)
      decreases |Slot(reg.store, Collisions)| - i
    {
      var r := StepAt(reg.store, L, i);
      reg.store := r.store;
      if r.died {
        HandlePlayerDeath(sm);
        return cameraResets, true;
      }
      queue := queue + r.toRemove;
      if r.cameraBack {
        cameraResets := cameraResets + 1;
      }
      i := i + 1;
    }
    RemoveQueuedLoop(reg, queue);
    reg.store := ClearOne(reg.store, Collisions);
    died := false;
  }

  /** The entity at the back of a container. */
  function Back(c: Entries): Entity
    requires c != []
  {
    c[|c| - 1].0
  }

  lemma {:induction false} BackIsKey(c: Entries)
    requires c != []
    ensures Back(c) in Keys(c)
  {
    if |c| > 1 {
      BackIsKey(c[1..]);
      assert Back(c[1..]) == Back(c);
    }
  }

  /** One round of restart_game removes the last moving entity everywhere and shortens the motions container. */
  lemma RemoveStep(s: Store, L: seq<ContainerId>, e: Entity)
    requires PushOrder(L) && Slot(s, Motions) != [] && e == Back(Slot(s, Motions))
    ensures Keys(Slot(RemoveAll(s, L, e), Motions)) == Keys(Slot(s, Motions)) - {e}
    ensures |Slot(RemoveAll(s, L, e), Motions)| < |Slot(s, Motions)|
    ensures forall id :: Registered(id) ==> EntriesOf(Slot(RemoveAll(s, L, e), id), e) == []
    ensures forall id, x :: x != e ==> EntriesOf(Slot(RemoveAll(s, L, e), id), x) == EntriesOf(Slot(s, id), x)
  {
    BackIsKey(Slot(s, Motions));
    RemoveAllRegistered(s, L, e);
    RemoveAllSpec(s, L, e);
    RegisteredOnce(L);
    WithoutEntityShrinks(Slot(s, Motions), e);
    forall id | Registered(id)
      ensures EntriesOf(Slot(RemoveAll(s, L, e), id), e) == []
    {
      KeysByEntries(Slot(RemoveAll(s, L, e), id), e);
    }
  }

  /** What restart_game has done so far: the moving entities no longer in motions are gone, everyone else untouched. */
  ghost predicate Restarting(s0: Store, s: Store, moving: set<Entity>)
  {
    && Keys(Slot(s, Motions)) <= moving
    && (forall id, x :: Registered(id) && x in moving && x !in Keys(Slot(s, Motions)) ==> EntriesOf(Slot(s, id), x) == [])
    && (forall id, x :: x !in moving ==> EntriesOf(Slot(s, id), x) == EntriesOf(Slot(s0, id), x))
  }

  lemma RestartingStep(s0: Store, s: Store, moving: set<Entity>, L: seq<ContainerId>)
    requires PushOrder(L) && Slot(s, Motions) != [] && Restarting(s0, s, moving)
    ensures Restarting(s0, RemoveAll(s, L, Back(Slot(s, Motions))), moving)
    ensures |Slot(RemoveAll(s, L, Back(Slot(s, Motions))), Motions)| < |Slot(s, Motions)|
  {
    var e := Back(Slot(s, Motions));
    BackIsKey(Slot(s, Motions));
    RemoveStep(s, L, e);
  }

  /**
   * restart_game: while some entity has a motion, remove every component of
   * the last one. Afterwards the motions container is empty, no entity that
   * had a motion has a component in a registered container, and every other
   * entity keeps exactly its entries.
   */
  method RestartGame(reg: ECSRegistry)
    requires reg.Valid()
    modifies reg
    ensures reg.Valid() && reg.registryList == old(reg.registryList)
    ensures Slot(reg.store, Motions) == []
    ensures forall id, x :: Registered(id) && x in Keys(Slot(old(reg.store), Motions)) ==> EntriesOf(Slot(reg.store, id), x) == []
    ensures forall id, x :: x !in Keys(Slot(old(reg.store), Motions)) ==> EntriesOf(Slot(reg.store, id), x) == EntriesOf(Slot(old(reg.store), id), x)
  {
    ghost var moving := Keys(Slot(reg.store, Motions));
    while Slot(reg.store, Motions) != []
      invariant reg.Valid() && reg.registryList == old(reg.registryList)
      invariant Restarting(old(reg.store), reg.store, moving)
      decreases |Slot(reg.store, Motions)|
    {
      RestartingStep(old(reg.store), reg.store, moving, reg.registryList);
      reg.RemoveAllComponentsOf(Back(Slot(reg.store, Motions)));
    }
    assert Keys(Slot(reg.store, Motions)) == {};
  }
}
