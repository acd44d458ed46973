/**
 * The ECS registry (include/tinyECS/registry.hpp): one component container per
 * component kind, and registry_list, the containers that the bulk operations
 * loop over.
 *
 * As in the C++ ContainerInterface, containers are seen uniformly: each is an
 * ordered list of (entity, component) entries. An entity normally has at most
 * one entry per container; the collisions container holds duplicates
 * (emplace_with_duplicates). Typed getters pick the component kind out.
 */
module Registry {
  import opened Wrappers
  import opened Components

  /** Names of the 22 containers the registry declares. */
  datatype ContainerId =
    | RenderRequests | GridLines | ScreenStates | Colors
    | Players | PlayerAnimations | Ships | Motions | Collisions
    | BackgroundObjects | Cameras | Enemies | Islands | Bases
    | SteeringWheels | SimpleCannons | PlayerProjectiles | EnemyProjectiles
    | Bunnies | WalkingPaths | FilledTiles | Disasters

  /** A component of any kind. */
  datatype Component =
    | RenderC(render: RenderRequest)
    | TagC
    | PlayerC(player: Player)
    | AnimationC(animation: PlayerAnimation)
    | ShipC(ship: Ship)
    | MotionC(motion: Motion)
    | CollisionC(collision: Collision)
    | EnemyC(enemy: Enemy)
    | IslandC(island: Island)
    | BaseC(base: Base)
    | WheelC(wheel: WheelState)
    | CannonC(cannon: CannonState)
    | ProjectileC(projectile: Projectile)
    | BunnyC(bunny: Bunny)
    | PathC(path: WalkingPath)
    | DisasterC(disaster: Disaster)

  type Entries = seq<(Entity, Component)>

  /** The contents of every container; a container absent from the map is empty. */
  datatype Store = Store(slots: map<ContainerId, Entries>)

  const EmptyStore: Store := Store(map[])

  /** The containers the registry constructor pushes onto registry_list, in push order. */
  const RegisteredList: seq<ContainerId> :=
    [RenderRequests, GridLines, ScreenStates, Colors, Players, PlayerAnimations, Ships,
     Motions, Collisions, BackgroundObjects, Cameras, Islands, Bases, SteeringWheels,
     SimpleCannons, Enemies, Bunnies, WalkingPaths, FilledTiles, Disasters]

  // ---- one container ----

  function Keys(c: Entries): set<Entity>
  {
    if c == [] then {} else {c[0].0} + Keys(c[1..])
  }

  /** ComponentContainer::entities: the entity of every entry, in container order. */
  function Entities(c: Entries): (r: seq<Entity>)
    ensures |r| == |c|
    ensures forall k :: 0 <= k < |c| ==> r[k] == c[k].0
  {
    if c == [] then [] else [c[0].0] + Entities(c[1..])
  }

  /** The entries of entity x, in container order. */
  function EntriesOf(c: Entries, x: Entity): (r: Entries)
    ensures forall k :: 0 <= k < |r| ==> r[k].0 == x
  {
    if c == [] then []
    else if c[0].0 == x then [c[0]] + EntriesOf(c[1..], x)
    else EntriesOf(c[1..], x)
  }

  /** ComponentContainer::get: the component of x's first entry. */
  function Lookup(c: Entries, x: Entity): (r: Option<Component>)
    ensures r.Some? <==> x in Keys(c)
  {
    if c == [] then None else if c[0].0 == x then Some(c[0].1) else Lookup(c[1..], x)
  }

  /** ComponentContainer::remove: every entry of e taken out, the others kept in order. */
  function WithoutEntity(c: Entries, e: Entity): (r: Entries)
    ensures Keys(r) == Keys(c) - {e}
    ensures |r| <= |c|
  {
    if c == [] then []
    else if c[0].0 == e then WithoutEntity(c[1..], e)
    else [c[0]] + WithoutEntity(c[1..], e)
  }

  /** Writing through a reference obtained by get: x's components become v, nothing else moves. */
  function Update(c: Entries, x: Entity, v: Component): (r: Entries)
    ensures Keys(r) == Keys(c) && |r| == |c|
    ensures x in Keys(c) ==> Lookup(r, x) == Some(v)
  {
    if c == [] then []
    else [if c[0].0 == x then (x, v) else c[0]] + Update(c[1..], x, v)
  }

  /** Removing e keeps the entries of every other entity exactly. */
  lemma {:induction false} WithoutEntityKeepsOthers(c: Entries, e: Entity, x: Entity)
    requires x != e
    ensures EntriesOf(WithoutEntity(c, e), x) == EntriesOf(c, x)
  {
    if c != [] {
      WithoutEntityKeepsOthers(c[1..], e, x);
      if c[0].0 != e {
        assert ([c[0]] + WithoutEntity(c[1..], e))[1..] == WithoutEntity(c[1..], e);
      }
    }
  }

  lemma {:induction false} WithoutEntityIdempotent(c: Entries, e: Entity)
    ensures WithoutEntity(WithoutEntity(c, e), e) == WithoutEntity(c, e)
  {
    if c != [] {
      WithoutEntityIdempotent(c[1..], e);
      if c[0].0 != e {
        assert ([c[0]] + WithoutEntity(c[1..], e))[1..] == WithoutEntity(c[1..], e);
      }
    }
  }

  lemma {:induction false} UpdateKeepsOthers(c: Entries, x: Entity, v: Component, y: Entity)
    requires y != x
    ensures EntriesOf(Update(c, x, v), y) == EntriesOf(c, y)
    ensures Lookup(Update(c, x, v), y) == Lookup(c, y)
  {
    if c != [] {
      UpdateKeepsOthers(c[1..], x, v, y);
      assert Update(c, x, v)[1..] == Update(c[1..], x, v);
    }
  }

  /** An entity is a key exactly when it has an entry. */
  lemma {:induction false} KeysByEntries(c: Entries, x: Entity)
    ensures x in Keys(c) <==> EntriesOf(c, x) != []
  {
    if c != [] {
      KeysByEntries(c[1..], x);
    }
  }

  /** get reads the component of the entity's first entry. */
  lemma {:induction false} LookupByEntries(c: Entries, x: Entity)
    ensures Lookup(c, x) == if EntriesOf(c, x) == [] then None else Some(EntriesOf(c, x)[0].1)
  {
    if c != [] {
      LookupByEntries(c[1..], x);
    }
  }

  /** Removing an entity that is present makes the container strictly shorter. */
  lemma {:induction false} WithoutEntityShrinks(c: Entries, e: Entity)
    requires e in Keys(c)
    ensures |WithoutEntity(c, e)| < |c|
  {
    if c[0].0 != e {
      WithoutEntityShrinks(c[1..], e);
    }
  }

  // ---- the store ----

  function Slot(s: Store, id: ContainerId): Entries
  {
    if id in s.slots then s.slots[id] else []
  }

  predicate Has(s: Store, id: ContainerId, e: Entity)
  {
    e in Keys(Slot(s, id))
  }

  function Get(s: Store, id: ContainerId, e: Entity): Option<Component>
  {
    Lookup(Slot(s, id), e)
  }

  /** Set e's component in container id (the entity keeps its place). */
  function Set(s: Store, id: ContainerId, e: Entity, v: Component): (r: Store)
    ensures forall other :: other != id ==> Slot(r, other) == Slot(s, other)
    ensures Keys(Slot(r, id)) == Keys(Slot(s, id))
  {
    Store(s.slots[id := Update(Slot(s, id), e, v)])
  }

  /** Reading back after a write: only e's component in container id can differ, and only if e had one. */
  lemma GetAfterSet(s: Store, id: ContainerId, e: Entity, v: Component, id2: ContainerId, x: Entity)
    ensures Get(Set(s, id, e, v), id2, x) == if id2 == id && x == e && Has(s, id, e) then Some(v) else Get(s, id2, x)
  {
    if id2 == id && x != e {
      UpdateKeepsOthers(Slot(s, id), e, v, x);
    }
  }

  /** ContainerInterface::clear on container id. */
  function ClearOne(s: Store, id: ContainerId): (r: Store)
    ensures Slot(r, id) == []
    ensures forall other :: other != id ==> Slot(r, other) == Slot(s, other)
  {
    Store(s.slots[id := []])
  }

  /** ContainerInterface::remove(e) on container id. */
  function RemoveOne(s: Store, id: ContainerId, e: Entity): (r: Store)
    ensures Slot(r, id) == WithoutEntity(Slot(s, id), e)
    ensures forall other :: other != id ==> Slot(r, other) == Slot(s, other)
  {
    Store(s.slots[id := WithoutEntity(Slot(s, id), e)])
  }

  // ---- typed getters (ComponentContainer<T>::get) ----

  function GetMotion(s: Store, e: Entity): Option<Motion>
  {
    match Get(s, Motions, e) case Some(MotionC(m)) => Some(m) case _ => None
  }

  function GetEnemy(s: Store, e: Entity): Option<Enemy>
  {
    match Get(s, Enemies, e) case Some(EnemyC(x)) => Some(x) case _ => None
  }

  function GetBunny(s: Store, e: Entity): Option<Bunny>
  {
    match Get(s, Bunnies, e) case Some(BunnyC(x)) => Some(x) case _ => None
  }

  function GetShip(s: Store, e: Entity): Option<Ship>
  {
    match Get(s, Ships, e) case Some(ShipC(x)) => Some(x) case _ => None
  }

  function GetProjectile(s: Store, e: Entity): Option<Projectile>
  {
    match Get(s, PlayerProjectiles, e) case Some(ProjectileC(x)) => Some(x) case _ => None
  }

  function GetPlayer(s: Store, e: Entity): Option<Player>
  {
    match Get(s, Players, e) case Some(PlayerC(x)) => Some(x) case _ => None
  }

  function GetAnimation(s: Store, e: Entity): Option<PlayerAnimation>
  {
    match Get(s, PlayerAnimations, e) case Some(AnimationC(x)) => Some(x) case _ => None
  }

  function GetCannon(s: Store, e: Entity): Option<CannonState>
  {
    match Get(s, SimpleCannons, e) case Some(CannonC(x)) => Some(x) case _ => None
  }

  function GetRender(s: Store, e: Entity): Option<RenderRequest>
  {
    match Get(s, RenderRequests, e) case Some(RenderC(x)) => Some(x) case _ => None
  }

  // ---- the loops over registry_list, as folds ----

  /** The store after clearing the containers of ids, first to last. */
  function ClearAll(s: Store, ids: seq<ContainerId>): Store
    decreases |ids|
  {
    if ids == [] then s else ClearAll(ClearOne(s, ids[0]), ids[1..])
  }

  /** The store after removing e from the containers of ids, first to last. */
  function RemoveAll(s: Store, ids: seq<ContainerId>, e: Entity): Store
    decreases |ids|
  {
    if ids == [] then s else RemoveAll(RemoveOne(s, ids[0], e), ids[1..], e)
  }

  /** Clearing the listed containers empties each of them and leaves the unlisted ones as they were. */
  lemma {:induction false} ClearAllSpec(s: Store, ids: seq<ContainerId>)
    decreases |ids|
    ensures forall id :: Slot(ClearAll(s, ids), id) == if id in ids then [] else Slot(s, id)
  {
    if ids != [] {
      ClearAllSpec(ClearOne(s, ids[0]), ids[1..]);
      assert forall id :: id in ids <==> id == ids[0] || id in ids[1..];
    }
  }

  /** Removing e from the listed containers removes e's entries there, and only there. */
  lemma {:induction false} RemoveAllSpec(s: Store, ids: seq<ContainerId>, e: Entity)
    decreases |ids|
    ensures forall id :: Slot(RemoveAll(s, ids, e), id) ==
                         if id in ids then WithoutEntity(Slot(s, id), e) else Slot(s, id)
  {
    if ids != [] {
      var s1 := RemoveOne(s, ids[0], e);
      RemoveAllSpec(s1, ids[1..], e);
      forall id
        ensures Slot(RemoveAll(s, ids, e), id) == if id in ids then WithoutEntity(Slot(s, id), e) else Slot(s, id)
      {
        assert id in ids <==> id == ids[0] || id in ids[1..];
        if id == ids[0] {
          WithoutEntityIdempotent(Slot(s, id), e);
        }
      }
    }
  }

  /** Where each container sits in registry_list (20 and 21 for the two never pushed). */
  function PushPosition(id: ContainerId): nat
  {
    match id
    case RenderRequests => 0 case GridLines => 1 case ScreenStates => 2 case Colors => 3
    case Players => 4 case PlayerAnimations => 5 case Ships => 6 case Motions => 7
    case Collisions => 8 case BackgroundObjects => 9 case Cameras => 10 case Islands => 11
    case Bases => 12 case SteeringWheels => 13 case SimpleCannons => 14 case Enemies => 15
    case Bunnies => 16 case WalkingPaths => 17 case FilledTiles => 18 case Disasters => 19
    case PlayerProjectiles => 20 case EnemyProjectiles => 21
  }

  /** L is laid out as the constructor pushes: the container at each position k has push position k. */
  predicate PushOrder(L: seq<ContainerId>)
  {
    |L| == 20 && forall k :: 0 <= k < 20 ==> PushPosition(L[k]) == k
  }

  /** The constructor's list has the push layout, and the layout determines the list. */
  lemma RegisteredListInPushOrder(L: seq<ContainerId>)
    ensures PushOrder(RegisteredList)
    ensures PushOrder(L) ==> L == RegisteredList
  {
    if PushOrder(L) {
      forall k | 0 <= k < 20 ensures L[k] == RegisteredList[k] {
        assert PushPosition(L[k]) == PushPosition(RegisteredList[k]);
      }
    }
  }

  /** A list in push layout holds each of the 20 registered containers exactly once, and never the projectile ones. */
  lemma RegisteredOnce(L: seq<ContainerId>)
    requires PushOrder(L)
    ensures forall i, j :: 0 <= i < j < |L| ==> L[i] != L[j]
    ensures forall id :: id in L <==> id != PlayerProjectiles && id != EnemyProjectiles
  {
    forall id | id != PlayerProjectiles && id != EnemyProjectiles
      ensures id in L
    {
      assert PushPosition(L[PushPosition(id)]) == PushPosition(id);
    }
  }

  /** After clear_all_components every registered container is empty and the projectile containers are untouched. */
  lemma ClearAllRegistered(s: Store, L: seq<ContainerId>)
    requires PushOrder(L)
    ensures forall id :: id != PlayerProjectiles && id != EnemyProjectiles ==> Slot(ClearAll(s, L), id) == []
    ensures Slot(ClearAll(s, L), PlayerProjectiles) == Slot(s, PlayerProjectiles)
    ensures Slot(ClearAll(s, L), EnemyProjectiles) == Slot(s, EnemyProjectiles)
  {
    ClearAllSpec(s, L);
    RegisteredOnce(L);
  }

  /**
   * After remove_all_components_of(e) no registered container holds e, every
   * other entity keeps exactly its entries in every container, and the
   * projectile containers are untouched.
   */
  lemma RemoveAllRegistered(s: Store, L: seq<ContainerId>, e: Entity)
    requires PushOrder(L)
    ensures forall id :: id != PlayerProjectiles && id != EnemyProjectiles ==> !Has(RemoveAll(s, L, e), id, e)
    ensures forall id, x :: x != e ==> EntriesOf(Slot(RemoveAll(s, L, e), id), x) == EntriesOf(Slot(s, id), x)
    ensures Slot(RemoveAll(s, L, e), PlayerProjectiles) == Slot(s, PlayerProjectiles)
    ensures Slot(RemoveAll(s, L, e), EnemyProjectiles) == Slot(s, EnemyProjectiles)
  {
    RemoveAllSpec(s, L, e);
    RegisteredOnce(L);
    forall id, x | x != e
      ensures EntriesOf(Slot(RemoveAll(s, L, e), id), x) == EntriesOf(Slot(s, id), x)
    {
      WithoutEntityKeepsOthers(Slot(s, id), e, x);
    }
  }

  /** remove_all_components_of(e) never lengthens a container. */
  lemma RemoveAllShrinks(s: Store, L: seq<ContainerId>, e: Entity, id: ContainerId)
    ensures |Slot(RemoveAll(s, L, e), id)| <= |Slot(s, id)|
  {
    RemoveAllSpec(s, L, e);
  }

  /** remove_all_components_of(e) leaves what get returns for every other entity. */
  lemma RemoveAllKeepsGet(s: Store, L: seq<ContainerId>, e: Entity, id: ContainerId, x: Entity)
    requires x != e
    ensures Get(RemoveAll(s, L, e), id, x) == Get(s, id, x)
  {
    RemoveAllSpec(s, L, e);
    if id in L {
      WithoutEntityKeepsOthers(Slot(s, id), e, x);
      LookupByEntries(Slot(s, id), x);
      LookupByEntries(Slot(RemoveAll(s, L, e), id), x);
    }
  }

  /** After remove_all_components_of(e), get finds no component of e in a registered container. */
  lemma RemoveAllRemovesGet(s: Store, L: seq<ContainerId>, e: Entity, id: ContainerId)
    requires PushOrder(L) && id != PlayerProjectiles && id != EnemyProjectiles
    ensures Get(RemoveAll(s, L, e), id, e) == None
  {
    RemoveAllRegistered(s, L, e);
    assert !Has(RemoveAll(s, L, e), id, e);
  }

  /** ECSRegistry: the containers and registry_list. */
  class ECSRegistry {
    var registryList: seq<ContainerId>
    var store: Store

    /** The list holds the containers the constructor pushed, in push order; nothing else changes it. */
    ghost predicate Valid()
      reads this
    {
      PushOrder(registryList)
    }

    constructor ()
      ensures Valid()
      ensures store == EmptyStore
    {
      registryList := [RenderRequests, GridLines, ScreenStates, Colors];
      registryList := registryList + [Players, PlayerAnimations];
      registryList := registryList + [Ships];
      registryList := registryList + [Motions, Collisions];
      registryList := registryList + [BackgroundObjects, Cameras];
      registryList := registryList + [Islands, Bases];
      registryList := registryList + [SteeringWheels, SimpleCannons, Enemies];
      registryList := registryList + [Bunnies, WalkingPaths, FilledTiles];
      registryList := registryList + [Disasters];
      store := EmptyStore;
      new;
      RegisteredListInPushOrder(registryList);
    }

    /** clear_all_components: clear every container of registry_list, in order. */
    method ClearAllComponents()
      requires Valid()
      modifies this
      ensures Valid()
      ensures registryList == old(registryList)
      ensures store == ClearAll(old(store), registryList)
    {
      var i := 0;
      while i < |registryList|
        invariant 0 <= i <= |registryList|
        invariant registryList == old(registryList)
        invariant ClearAll(store, registryList[i..]) == ClearAll(old(store), registryList)
      {
        assert registryList[i..][1..] == registryList[i + 1..];
        store := ClearOne(store, registryList[i]);
        i := i + 1;
      }
    }

    /** remove_all_components_of(e): remove e from every container of registry_list, in order. */
    method RemoveAllComponentsOf(e: Entity)
      requires Valid()
      modifies this
      ensures Valid()
      ensures registryList == old(registryList)
      ensures store == RemoveAll(old(store), registryList, e)
    {
      var i := 0;
      while i < |registryList|
        invariant 0 <= i <= |registryList|
        invariant registryList == old(registryList)
        invariant RemoveAll(store, registryList[i..], e) == RemoveAll(old(store), registryList, e)
      {
        assert registryList[i..][1..] == registryList[i + 1..];
        store := RemoveOne(store, registryList[i], e);
        i := i + 1;
      }
    }
  }
}
