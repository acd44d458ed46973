/**
 * The shared game level (src/scenes/game_level.cpp): the movement key
 * tracker, stationing, the build toggle, placing and removing ship modules,
 * helper bunnies, and the per-frame projectile lifetimes and helper recount.
 *
 * The level's global state (activeKeys, keyOrder, activeShipKeys,
 * keyShipOrder), the player, the ship and the bunnies it edits are the
 * fields of one Level object. Which cells carry an automated cannon or laser
 * (the is_automated flag of the module entity in that cell) is kept as a set
 * of cells.
 */
module GameLevel {
  import opened Wrappers
  import opened Common
  import opened Components
  import opened Registry
  import World

  // ---------------------------------------------------------------- GLFW input codes

  const GLFW_RELEASE: int := 0
  const GLFW_PRESS: int := 1
  const GLFW_KEY_SPACE: int := 32
  const GLFW_KEY_A: int := 65
  const GLFW_KEY_B: int := 66
  const GLFW_KEY_D: int := 68
  const GLFW_KEY_S: int := 83
  const GLFW_KEY_W: int := 87
  const GLFW_MOUSE_BUTTON_1: int := 0
  const GLFW_MOUSE_BUTTON_2: int := 1

  const MOVE_UP_BUTTON: int := GLFW_KEY_W
  const MOVE_RIGHT_BUTTON: int := GLFW_KEY_D
  const MOVE_DOWN_BUTTON: int := GLFW_KEY_S
  const MOVE_LEFT_BUTTON: int := GLFW_KEY_A

  // ---------------------------------------------------------------- the key tracker

  /** keyOrder.erase(std::remove(..., key)): every occurrence of key dropped, the rest kept in order. */
  function Without(order: seq<int>, key: int): (r: seq<int>)
    ensures forall k :: k in r <==> k in order && k != key
  {
    if order == [] then [] else (if order[0] == key then [] else [order[0]]) + Without(order[1..], key)
  }

  predicate NoDup(s: seq<int>)
  {
    forall i, j :: 0 <= i < j < |s| ==> s[i] != s[j]
  }

  /** The press order and the key set agree: every active key exactly once, and nothing else. */
  ghost predicate Tracked(active: set<int>, order: seq<int>)
  {
    NoDup(order) && forall k :: k in order <==> k in active
  }

  /** A press appends the key unless it is already active; a release drops it from both; other actions change nothing. */
  function Track(active: set<int>, order: seq<int>, key: int, action: int): (set<int>, seq<int>)
  {
    if action == GLFW_PRESS then (active + {key}, if key in active then order else order + [key])
    else if action == GLFW_RELEASE then (active - {key}, Without(order, key))
    else (active, order)
  }

  lemma {:induction false} WithoutNoDup(order: seq<int>, key: int)
    requires NoDup(order)
    ensures NoDup(Without(order, key))
  {
    if order != [] {
      WithoutNoDup(order[1..], key);
      var rest := Without(order[1..], key);
      if order[0] != key {
        assert order[0] !in rest;
        forall i, j | 0 <= i < j < |[order[0]] + rest|
          ensures ([order[0]] + rest)[i] != ([order[0]] + rest)[j]
        {
          if i > 0 {
            assert ([order[0]] + rest)[i] == rest[i - 1];
          }
        }
      }
    }
  }

  /** Every press or release keeps the key order free of duplicates and equal, as a set, to the active keys. */
  lemma TrackKeepsTracked(active: set<int>, order: seq<int>, key: int, action: int)
    requires Tracked(active, order)
    ensures Tracked(Track(active, order, key, action).0, Track(active, order, key, action).1)
  {
    if action == GLFW_RELEASE {
      WithoutNoDup(order, key);
    } else if action == GLFW_PRESS && key !in active {
      var o := order + [key];
      forall i, j | 0 <= i < j < |o|
        ensures o[i] != o[j]
      {
        if j == |order| {
          assert o[i] == order[i] && order[i] in order;
        }
      }
    }
  }

  /** A newly pressed key is the last in the order; a press of an active key leaves the order as it was. */
  lemma PressGoesLast(active: set<int>, order: seq<int>, key: int)
    requires Tracked(active, order)
    ensures var t := Track(active, order, key, GLFW_PRESS);
            key in t.0 && t.1 != [] && (key !in active ==> t.1[|t.1| - 1] == key) && (key in active ==> t.1 == order)
  {
    assert key in active ==> order != [];
  }

  // ---------------------------------------------------------------- movement

  /** std::clamp(v, lo, hi) for lo <= hi. */
  function Clamp(v: real, lo: real, hi: real): (r: real)
    requires lo <= hi
    ensures lo <= r <= hi
    ensures lo <= v <= hi ==> r == v
  {
    if v < lo then lo else if v > hi then hi else v
  }

  /** One velocity component: the minus key takes WALK_SPEED off, the plus key adds it, then clamped. */
  function Axis(active: set<int>, minus: int, plus: int): (v: real)
    ensures v == 0.0 || v == WALK_SPEED || v == -WALK_SPEED
    ensures (minus in active <==> plus in active) ==> v == 0.0
    ensures minus in active && plus !in active ==> v == -WALK_SPEED
    ensures plus in active && minus !in active ==> v == WALK_SPEED
  {
    Clamp((if minus in active then -WALK_SPEED else 0.0) + (if plus in active then WALK_SPEED else 0.0), -WALK_SPEED, WALK_SPEED)
  }

  /** The player's velocity: up is negative y, left is negative x. */
  function WalkVelocity(active: set<int>): Vec2
  {
    Vec2(Axis(active, MOVE_LEFT_BUTTON, MOVE_RIGHT_BUTTON), Axis(active, MOVE_UP_BUTTON, MOVE_DOWN_BUTTON))
  }

  predicate AnyMoveKey(active: set<int>)
  {
    MOVE_UP_BUTTON in active || MOVE_DOWN_BUTTON in active || MOVE_LEFT_BUTTON in active || MOVE_RIGHT_BUTTON in active
  }

  /** The direction a movement key names. */
  function DirectionOf(key: int): Option<Direction>
  {
    if key == MOVE_UP_BUTTON then Some(UP)
    else if key == MOVE_DOWN_BUTTON then Some(DOWN)
    else if key == MOVE_LEFT_BUTTON then Some(LEFT)
    else if key == MOVE_RIGHT_BUTTON then Some(RIGHT)
    else None
  }

  /** IDLE with no movement key held, else WALKING facing the last key pressed when that is a movement key. */
  function Walked(p: Player, active: set<int>, order: seq<int>): Player
  {
    if !AnyMoveKey(active) then p.(state := IDLE)
    else if order != [] && DirectionOf(order[|order| - 1]).Some? then
      p.(state := WALKING, direction := DirectionOf(order[|order| - 1]).value)
    else p.(state := WALKING)
  }

  /** Pressing a movement key that was not held makes the player walk facing it, and moves it that way. */
  lemma PressTurnsThePlayer(p: Player, active: set<int>, order: seq<int>, key: int)
    requires Tracked(active, order) && DirectionOf(key).Some? && key !in active
    ensures var t := Track(active, order, key, GLFW_PRESS);
            Walked(p, t.0, t.1) == p.(state := WALKING, direction := DirectionOf(key).value)
    ensures var v := WalkVelocity(Track(active, order, key, GLFW_PRESS).0);
            (key == MOVE_UP_BUTTON && MOVE_DOWN_BUTTON !in active ==> v.y == -WALK_SPEED) &&
            (key == MOVE_DOWN_BUTTON && MOVE_UP_BUTTON !in active ==> v.y == WALK_SPEED) &&
            (key == MOVE_LEFT_BUTTON && MOVE_RIGHT_BUTTON !in active ==> v.x == -WALK_SPEED) &&
            (key == MOVE_RIGHT_BUTTON && MOVE_LEFT_BUTTON !in active ==> v.x == WALK_SPEED)
  {
    PressGoesLast(active, order, key);
  }

  /** Standing still and walking follow the held keys: IDLE exactly when no movement key is held, and then the velocity is zero. */
  lemma IdleIffNoMoveKey(p: Player, active: set<int>, order: seq<int>)
    ensures Walked(p, active, order).state == IDLE <==> !AnyMoveKey(active)
    ensures Walked(p, active, order).state != IDLE ==> Walked(p, active, order).state == WALKING
    ensures !AnyMoveKey(active) ==> WalkVelocity(active) == Vec2(0.0, 0.0)
    ensures Walked(p, active, order).direction != p.direction ==>
              order != [] && order[|order| - 1] in order && DirectionOf(order[|order| - 1]) == Some(Walked(p, active, order).direction)
  {
  }

  // ---------------------------------------------------------------- the ship grid

  predicate InGrid(t: Point)
  {
    0 <= t.x < COL_COUNT && 0 <= t.y < ROW_COUNT
  }

  /** The ship grid has ROW_COUNT rows of COL_COUNT cells. */
  predicate GridShaped(g: seq<seq<ModuleType>>)
  {
    |g| == ROW_COUNT && forall r :: 0 <= r < |g| ==> |g[r]| == COL_COUNT
  }

  /** getModuleType: the module at row t.y, column t.x. */
  function ModuleAt(g: seq<seq<ModuleType>>, t: Point): ModuleType
    requires GridShaped(g) && InGrid(t)
  {
    g[t.y][t.x]
  }

  /** Writing one cell of the grid. */
  function SetCell(g: seq<seq<ModuleType>>, t: Point, m: ModuleType): (r: seq<seq<ModuleType>>)
    requires GridShaped(g) && InGrid(t)
    ensures GridShaped(r)
    ensures forall u :: InGrid(u) ==> ModuleAt(r, u) == if u == t then m else ModuleAt(g, u)
  {
    g[t.y := g[t.y][t.x := m]]
  }

  /** How many cells of the grid hold m. */
  function CellCount(g: seq<seq<ModuleType>>, m: ModuleType): nat
  {
    if g == [] then 0 else RowCount(g[0], m) + CellCount(g[1..], m)
  }

  function RowCount(row: seq<ModuleType>, m: ModuleType): nat
  {
    if row == [] then 0 else (if row[0] == m then 1 else 0) + RowCount(row[1..], m)
  }

  lemma {:induction false} RowCountSet(row: seq<ModuleType>, x: nat, v: ModuleType, m: ModuleType)
    requires x < |row|
    ensures RowCount(row[x := v], m) + (if row[x] == m then 1 else 0) == RowCount(row, m) + (if v == m then 1 else 0)
  {
    if x > 0 {
      RowCountSet(row[1..], x - 1, v, m);
      assert row[x := v][1..] == row[1..][x - 1 := v];
    }
  }

  lemma {:induction false} CellCountSet(g: seq<seq<ModuleType>>, y: nat, row: seq<ModuleType>, m: ModuleType)
    requires y < |g|
    ensures CellCount(g[y := row], m) + RowCount(g[y], m) == CellCount(g, m) + RowCount(row, m)
  {
    if y > 0 {
      CellCountSet(g[1..], y - 1, row, m);
      assert g[y := row][1..] == g[1..][y - 1 := row];
    }
  }

  /** Writing v over u in one cell moves one unit of the count from u to v. */
  lemma SetCellCount(g: seq<seq<ModuleType>>, t: Point, v: ModuleType, m: ModuleType)
    requires GridShaped(g) && InGrid(t)
    ensures CellCount(SetCell(g, t, v), m) + (if ModuleAt(g, t) == m then 1 else 0) == CellCount(g, m) + (if v == m then 1 else 0)
  {
    RowCountSet(g[t.y], t.x, v, m);
    CellCountSet(g, t.y, g[t.y][t.x := v], m);
  }

  /** available_modules[m] with std::map's default of 0. */
  function Count(av: map<ModuleType, nat>, m: ModuleType): nat
  {
    if m in av then av[m] else 0
  }

  /** A module's stock: the cells holding it plus the ones in the inventory. */
  function Stock(s: Ship, m: ModuleType): int
  {
    CellCount(s.modules, m) + Count(s.available, m)
  }

  // ---------------------------------------------------------------- stationing

  /**
   * HandlePlayerStationing's effect on the player: nothing off the grid;
   * STATIONING goes back to IDLE; otherwise a module other than EMPTY or
   * PLATFORM under the player makes it STATIONING.
   */
  function Stationed(p: Player, g: seq<seq<ModuleType>>, t: Point): Player
    requires GridShaped(g)
  {
    if !InGrid(t) then p
    else if p.state == STATIONING then p.(state := IDLE)
    else if ModuleAt(g, t) == EMPTY || ModuleAt(g, t) == PLATFORM then p
    else p.(state := STATIONING)
  }

  /** Space toggles stationing on a module: an idle player stations and the second press brings it back, facing as before. */
  lemma StationingToggles(p: Player, g: seq<seq<ModuleType>>, t: Point)
    requires GridShaped(g) && InGrid(t) && p.state == IDLE
    requires ModuleAt(g, t) != EMPTY && ModuleAt(g, t) != PLATFORM
    ensures Stationed(p, g, t).state == STATIONING
    ensures Stationed(Stationed(p, g, t), g, t) == p
  {
  }

  /** Stationing never turns the player, and never stations it on an empty or platform cell or off the grid. */
  lemma StationingOnlyOnModules(p: Player, g: seq<seq<ModuleType>>, t: Point)
    requires GridShaped(g)
    ensures Stationed(p, g, t).direction == p.direction
    ensures Stationed(p, g, t).state == STATIONING && p.state != STATIONING ==>
              InGrid(t) && ModuleAt(g, t) != EMPTY && ModuleAt(g, t) != PLATFORM
    ensures !InGrid(t) ==> Stationed(p, g, t) == p
  {
  }

  // ---------------------------------------------------------------- bunnies

  /** stationBunny takes a bunny that is on the ship and on neither a module nor the base. */
  predicate Stationable(b: Bunny)
  {
    b.onShip && !b.onModule && !b.onBase
  }

  predicate OnModule(b: Bunny)
  {
    b.onModule
  }

  /** The index of the first bunny satisfying p. */
  function FirstWhere(bs: seq<Bunny>, p: Bunny -> bool): (r: Option<nat>)
    ensures r.Some? ==> r.value < |bs| && p(bs[r.value]) && forall k :: 0 <= k < r.value ==> !p(bs[k])
    ensures r.None? ==> forall k :: 0 <= k < |bs| ==> !p(bs[k])
  {
    if bs == [] then None
    else if p(bs[0]) then Some(0)
    else match FirstWhere(bs[1..], p)
      case None => None
      case Some(i) => Some(i + 1)
  }

  /** stationBunny: the first stationable bunny moves from the ship onto a module; no other bunny changes. */
  function StationFirst(bs: seq<Bunny>): (r: seq<Bunny>)
    ensures |r| == |bs|
    ensures forall k :: 0 <= k < |bs| && r[k] != bs[k] ==> FirstWhere(bs, Stationable) == Some(k)
  {
    match FirstWhere(bs, Stationable)
    case None => bs
    case Some(i) => bs[i := bs[i].(onShip := false, onModule := true)]
  }

  /** unStationBunny: the first bunny on a module goes back onto the ship; no other bunny changes. */
  function UnstationFirst(bs: seq<Bunny>): (r: seq<Bunny>)
    ensures |r| == |bs|
    ensures forall k :: 0 <= k < |bs| && r[k] != bs[k] ==> FirstWhere(bs, OnModule) == Some(k)
  {
    match FirstWhere(bs, OnModule)
    case None => bs
    case Some(i) => bs[i := bs[i].(onShip := true, onModule := false)]
  }

  /** The number of bunnies on the ship (counted from the back, as the recount loop's prefix grows). */
  function OnShipCount(bs: seq<Bunny>): nat
  {
    if bs == [] then 0 else OnShipCount(bs[..|bs| - 1]) + if bs[|bs| - 1].onShip then 1 else 0
  }

  lemma {:induction false} OnShipCountSet(bs: seq<Bunny>, i: nat, b: Bunny)
    requires i < |bs|
    ensures OnShipCount(bs[i := b]) + (if bs[i].onShip then 1 else 0) == OnShipCount(bs) + (if b.onShip then 1 else 0)
  {
    var n := |bs| - 1;
    if i < n {
      OnShipCountSet(bs[..n], i, b);
      assert bs[i := b][..n] == bs[..n][i := b];
    } else {
      assert bs[i := b][..n] == bs[..n];
    }
  }

  /** Stationing a bunny takes one off the ship when there is a stationable one; unstationing puts the first one on a module back. */
  lemma StationingMovesOneBunny(bs: seq<Bunny>)
    ensures OnShipCount(StationFirst(bs)) == OnShipCount(bs) - if FirstWhere(bs, Stationable).Some? then 1 else 0
    ensures FirstWhere(bs, OnModule).Some? ==>
              OnShipCount(UnstationFirst(bs)) == OnShipCount(bs) + if bs[FirstWhere(bs, OnModule).value].onShip then 0 else 1
    ensures FirstWhere(bs, OnModule).None? ==> UnstationFirst(bs) == bs
  {
    match FirstWhere(bs, Stationable) {
      case None =>
      case Some(i) => OnShipCountSet(bs, i, bs[i].(onShip := false, onModule := true));
    }
    match FirstWhere(bs, OnModule) {
      case None =>
      case Some(i) => OnShipCountSet(bs, i, bs[i].(onShip := true, onModule := false));
    }
  }

  /** A stationed bunny is the first to come back: unstationing right after stationing restores the bunnies, when none was on a module before. */
  lemma UnstationUndoesStation(bs: seq<Bunny>)
    requires FirstWhere(bs, Stationable).Some? && FirstWhere(bs, OnModule).None?
    ensures UnstationFirst(StationFirst(bs)) == bs
  {
    var i := FirstWhere(bs, Stationable).value;
    var s := StationFirst(bs);
    var j := FirstWhere(s, OnModule);
    assert OnModule(s[i]);
    assert j == Some(i) by {
      assert forall k :: 0 <= k < |s| && k != i ==> s[k] == bs[k];
    }
    assert UnstationFirst(s) == s[i := s[i].(onShip := true, onModule := false)];
    assert s[i].(onShip := true, onModule := false) == bs[i];
  }

  // ---------------------------------------------------------------- placing and removing modules

  /** What a module click edits: the ship, the automated cells and the bunnies. */
  datatype Deck = Deck(ship: Ship, automated: set<Point>, bunnies: seq<Bunny>)

  /** Well-formed: the grid is ROW_COUNT x COL_COUNT, no cell holds a helper bunny, and only cannon or laser cells are automated. */
  ghost predicate DeckValid(d: Deck)
  {
    GridShaped(d.ship.modules) &&
    (forall u :: InGrid(u) ==> ModuleAt(d.ship.modules, u) != HELPER_BUNNY) &&
    forall t :: t in d.automated ==> InGrid(t) && ModuleAt(d.ship.modules, t) in {SIMPLE_CANNON, LASER_WEAPON}
  }

  /** The placement branch on a PLATFORM cell: the cell takes the selected module, whose count drops by one. */
  function Placed(s: Ship, sel: ModuleType, t: Point): Ship
    requires GridShaped(s.modules) && InGrid(t) && Count(s.available, sel) > 0
  {
    s.(modules := SetCell(s.modules, t, sel), available := s.available[sel := Count(s.available, sel) - 1])
  }

  /** RemoveStation: the cell goes back to PLATFORM and the module it held returns to the inventory. */
  function Removed(s: Ship, t: Point): Ship
    requires GridShaped(s.modules) && InGrid(t)
  {
    var m := ModuleAt(s.modules, t);
    s.(modules := SetCell(s.modules, t, PLATFORM), available := s.available[m := Count(s.available, m) + 1])
  }

  /**
   * A left click with a module selected: nothing when none of it is left;
   * on a PLATFORM cell any module but a helper bunny is placed; a helper
   * bunny on a cannon or laser that is not automated automates it, uses a
   * helper and stations a bunny.
   */
  function PlaceSelected(d: Deck, sel: ModuleType, t: Point): Deck
    requires GridShaped(d.ship.modules) && InGrid(t)
  {
    var m := ModuleAt(d.ship.modules, t);
    if Count(d.ship.available, sel) == 0 then d
    else if m == PLATFORM && sel != HELPER_BUNNY then d.(ship := Placed(d.ship, sel, t), automated := d.automated - {t})
    else if sel == HELPER_BUNNY && (m == SIMPLE_CANNON || m == LASER_WEAPON) && t !in d.automated then
      Deck(d.ship.(available := d.ship.available[HELPER_BUNNY := Count(d.ship.available, HELPER_BUNNY) - 1]),
           d.automated + {t}, StationFirst(d.bunnies))
    else d
  }

  /**
   * A right click in build mode: nothing on EMPTY or PLATFORM; an automated
   * cannon or laser gives its helper back and unstations a bunny; any other
   * module is removed by RemoveStation.
   */
  function RemoveModule(d: Deck, t: Point): Deck
    requires GridShaped(d.ship.modules) && InGrid(t)
  {
    var m := ModuleAt(d.ship.modules, t);
    if m == EMPTY || m == PLATFORM then d
    else if (m == SIMPLE_CANNON || m == LASER_WEAPON) && t in d.automated then
      Deck(d.ship.(available := d.ship.available[HELPER_BUNNY := Count(d.ship.available, HELPER_BUNNY) + 1]),
           d.automated - {t}, UnstationFirst(d.bunnies))
    else d.(ship := Removed(d.ship, t), automated := d.automated - {t})
  }

  /** Both clicks keep the deck well-formed. */
  lemma ClicksKeepDeckValid(d: Deck, sel: ModuleType, t: Point)
    requires DeckValid(d) && InGrid(t)
    ensures DeckValid(PlaceSelected(d, sel, t))
    ensures DeckValid(RemoveModule(d, t))
  {
  }

  /**
   * Placing conserves every module's stock except PLATFORM's, which loses one
   * (a platform cell is covered, or a platform placed on a platform is used up).
   */
  lemma PlacingConservesStock(d: Deck, sel: ModuleType, t: Point, m: ModuleType)
    requires DeckValid(d) && InGrid(t) && sel != HELPER_BUNNY
    requires ModuleAt(d.ship.modules, t) == PLATFORM && Count(d.ship.available, sel) > 0
    ensures Stock(PlaceSelected(d, sel, t).ship, m) == Stock(d.ship, m) - if m == PLATFORM then 1 else 0
  {
    SetCellCount(d.ship.modules, t, sel, m);
  }

  /** Removing conserves every module's stock except PLATFORM's, which gains the freed cell. */
  lemma RemovingConservesStock(d: Deck, t: Point, m: ModuleType)
    requires DeckValid(d) && InGrid(t)
    requires ModuleAt(d.ship.modules, t) != EMPTY && ModuleAt(d.ship.modules, t) != PLATFORM
    requires t !in d.automated
    ensures Stock(RemoveModule(d, t).ship, m) == Stock(d.ship, m) + if m == PLATFORM then 1 else 0
  {
    SetCellCount(d.ship.modules, t, PLATFORM, m);
  }

  /** Helpers in the inventory plus automated cells stay the same under a left click. */
  lemma PlacingConservesHelpers(d: Deck, sel: ModuleType, t: Point)
    requires DeckValid(d) && InGrid(t)
    ensures var r := PlaceSelected(d, sel, t);
            Count(r.ship.available, HELPER_BUNNY) + |r.automated| == Count(d.ship.available, HELPER_BUNNY) + |d.automated|
  {
    var m := ModuleAt(d.ship.modules, t);
    if Count(d.ship.available, sel) == 0 {
    } else if m == PLATFORM && sel != HELPER_BUNNY {
      assert t !in d.automated;
      assert d.automated - {t} == d.automated;
      assert Count(Placed(d.ship, sel, t).available, HELPER_BUNNY) == Count(d.ship.available, HELPER_BUNNY);
    } else if sel == HELPER_BUNNY && (m == SIMPLE_CANNON || m == LASER_WEAPON) && t !in d.automated {
      assert |d.automated + {t}| == |d.automated| + 1;
    }
  }

  /** Helpers in the inventory plus automated cells stay the same under a right click. */
  lemma RemovingConservesHelpers(d: Deck, t: Point)
    requires DeckValid(d) && InGrid(t)
    ensures var r := RemoveModule(d, t);
            Count(r.ship.available, HELPER_BUNNY) + |r.automated| == Count(d.ship.available, HELPER_BUNNY) + |d.automated|
  {
    var m := ModuleAt(d.ship.modules, t);
    if t in d.automated {
      assert |d.automated - {t}| == |d.automated| - 1;
    } else {
      assert d.automated - {t} == d.automated;
    }
  }

  /** Removing what was just placed on a platform gives the deck back exactly. */
  lemma RemoveUndoesPlace(d: Deck, sel: ModuleType, t: Point)
    requires DeckValid(d) && InGrid(t)
    requires sel != HELPER_BUNNY && sel != PLATFORM && sel != EMPTY
    requires ModuleAt(d.ship.modules, t) == PLATFORM && Count(d.ship.available, sel) > 0
    ensures RemoveModule(PlaceSelected(d, sel, t), t) == d
  {
    var p := PlaceSelected(d, sel, t);
    assert t !in d.automated;
    assert d.automated - {t} == d.automated;
    assert ModuleAt(p.ship.modules, t) == sel;
    var g := SetCell(SetCell(d.ship.modules, t, sel), t, PLATFORM);
    assert g == d.ship.modules by {
      assert |g| == |d.ship.modules|;
      forall r | 0 <= r < |g|
        ensures g[r] == d.ship.modules[r]
      {
        if r == t.y {
          assert g[r] == d.ship.modules[r][t.x := sel][t.x := PLATFORM];
        }
      }
    }
    assert d.ship.available[sel := Count(d.ship.available, sel) - 1][sel := Count(d.ship.available, sel)] == d.ship.available;
  }

  /** Automating with a helper and removing it again gives the helper and the automation back. */
  lemma DeautomateUndoesAutomate(d: Deck, t: Point)
    requires DeckValid(d) && InGrid(t) && t !in d.automated
    requires ModuleAt(d.ship.modules, t) in {SIMPLE_CANNON, LASER_WEAPON} && Count(d.ship.available, HELPER_BUNNY) > 0
    ensures var r := RemoveModule(PlaceSelected(d, HELPER_BUNNY, t), t);
            r.ship == d.ship && r.automated == d.automated && r.bunnies == UnstationFirst(StationFirst(d.bunnies))
  {
    assert d.automated + {t} - {t} == d.automated;
    var av := d.ship.available;
    var n: nat := Count(av, HELPER_BUNNY) - 1;
    var c: nat := Count(av, HELPER_BUNNY);
    var av1: map<ModuleType, nat> := av[HELPER_BUNNY := n];
    assert av1[HELPER_BUNNY := c] == av;
  }

  /** A count of zero blocks any placement. */
  lemma NoStockNoPlacement(d: Deck, sel: ModuleType, t: Point)
    requires GridShaped(d.ship.modules) && InGrid(t) && Count(d.ship.available, sel) == 0
    ensures PlaceSelected(d, sel, t) == d
  {
  }

  // ---------------------------------------------------------------- projectile lifetimes

  /** The projectile component e has in container id, if any. */
  function ProjectileIn(s: Store, id: ContainerId, e: Entity): Option<Projectile>
  {
    match Get(s, id, e) case Some(ProjectileC(p)) => Some(p) case _ => None
  }

  /** A live projectile one frame older. */
  function Aged(p: Projectile, dt: real): Projectile
  {
    p.(aliveTimeMs := p.aliveTimeMs - dt)
  }

  /** One entry of a lifetime loop: an expired projectile loses all its registered components, a live one ages by dt. */
  function ExpireOne(s: Store, L: seq<ContainerId>, id: ContainerId, e: Entity, dt: real): Store
  {
    var p := ProjectileIn(s, id, e);
    if p.None? then s
    else if p.value.aliveTimeMs <= 0.0 then RemoveAll(s, L, e)
    else Set(s, id, e, ProjectileC(Aged(p.value, dt)))
  }

  /** The lifetime loop over the entities es of container id, in order. */
  function Expire(s: Store, L: seq<ContainerId>, id: ContainerId, es: seq<Entity>, dt: real): Store
    decreases |es|
  {
    if es == [] then s else Expire(ExpireOne(s, L, id, es[0], dt), L, id, es[1..], dt)
  }

  /** An entity's components in container id are untouched by another entity's entry. */
  lemma ExpireOneKeepsGet(s: Store, L: seq<ContainerId>, id: ContainerId, e: Entity, x: Entity, dt: real)
    requires x != e
    ensures Get(ExpireOne(s, L, id, e, dt), id, x) == Get(s, id, x)
  {
    var p := ProjectileIn(s, id, e);
    if p.Some? {
      if p.value.aliveTimeMs <= 0.0 {
        RemoveAllKeepsGet(s, L, e, id, x);
      } else {
        GetAfterSet(s, id, e, ProjectileC(Aged(p.value, dt)), id, x);
      }
    }
  }

  /** An entity with no registered component stays so through another entity's entry. */
  lemma ExpireOneKeepsGone(s: Store, L: seq<ContainerId>, id: ContainerId, e: Entity, x: Entity, dt: real)
    requires x != e && !World.Registered(id) && World.Gone(s, x)
    ensures World.Gone(ExpireOne(s, L, id, e, dt), x)
  {
    var p := ProjectileIn(s, id, e);
    if p.Some? && p.value.aliveTimeMs <= 0.0 {
      World.RemoveAllKeepsGone(s, L, e, x);
    }
  }

  /** The entry of an unregistered container leaves its own keys and length alone. */
  lemma ExpireOneKeepsContainer(s: Store, L: seq<ContainerId>, id: ContainerId, e: Entity, dt: real)
    requires PushOrder(L) && !World.Registered(id)
    ensures Keys(Slot(ExpireOne(s, L, id, e, dt), id)) == Keys(Slot(s, id))
    ensures |Slot(ExpireOne(s, L, id, e, dt), id)| == |Slot(s, id)|
  {
    var p := ProjectileIn(s, id, e);
    if p.Some? {
      if p.value.aliveTimeMs <= 0.0 {
        RemoveAllRegistered(s, L, e);
      } else {
        assert Slot(Set(s, id, e, ProjectileC(Aged(p.value, dt))), id) == Update(Slot(s, id), e, ProjectileC(Aged(p.value, dt)));
      }
    }
  }

  /** The unregistered container keeps every entry: an expired projectile is never taken out of it. */
  lemma {:induction false} ExpireKeepsContainer(s: Store, L: seq<ContainerId>, id: ContainerId, es: seq<Entity>, dt: real)
    requires PushOrder(L) && !World.Registered(id)
    decreases |es|
    ensures Keys(Slot(Expire(s, L, id, es, dt), id)) == Keys(Slot(s, id))
    ensures |Slot(Expire(s, L, id, es, dt), id)| == |Slot(s, id)|
  {
    if es != [] {
      ExpireOneKeepsContainer(s, L, id, es[0], dt);
      ExpireKeepsContainer(ExpireOne(s, L, id, es[0], dt), L, id, es[1..], dt);
    }
  }

  lemma {:induction false} ExpireKeepsGone(s: Store, L: seq<ContainerId>, id: ContainerId, es: seq<Entity>, dt: real, x: Entity)
    requires PushOrder(L) && !World.Registered(id) && World.Gone(s, x)
    decreases |es|
    ensures World.Gone(Expire(s, L, id, es, dt), x)
  {
    if es != [] {
      if es[0] == x {
        var p := ProjectileIn(s, id, x);
        if p.Some? && p.value.aliveTimeMs <= 0.0 {
          World.RemoveAllGone(s, L, x);
        }
      } else {
        ExpireOneKeepsGone(s, L, id, es[0], x, dt);
      }
      ExpireKeepsGone(ExpireOne(s, L, id, es[0], dt), L, id, es[1..], dt, x);
    }
  }

  /** A projectile whose lifetime is over when the loop reaches it ends with no registered component left. */
  lemma {:induction false} ExpiredProjectileGone(s: Store, L: seq<ContainerId>, id: ContainerId, es: seq<Entity>, dt: real, x: Entity, p: Projectile)
    requires PushOrder(L) && !World.Registered(id)
    requires x in es && ProjectileIn(s, id, x) == Some(p) && p.aliveTimeMs <= 0.0
    decreases |es|
    ensures World.Gone(Expire(s, L, id, es, dt), x)
  {
    if es[0] == x {
      World.RemoveAllGone(s, L, x);
      ExpireKeepsGone(ExpireOne(s, L, id, es[0], dt), L, id, es[1..], dt, x);
    } else {
      ExpireOneKeepsGet(s, L, id, es[0], x, dt);
      ExpiredProjectileGone(ExpireOne(s, L, id, es[0], dt), L, id, es[1..], dt, x, p);
    }
  }

  lemma {:induction false} ExpireSkipsAbsent(s: Store, L: seq<ContainerId>, id: ContainerId, es: seq<Entity>, dt: real, x: Entity)
    requires x !in es
    decreases |es|
    ensures Get(Expire(s, L, id, es, dt), id, x) == Get(s, id, x)
  {
    if es != [] {
      ExpireOneKeepsGet(s, L, id, es[0], x, dt);
      ExpireSkipsAbsent(ExpireOne(s, L, id, es[0], dt), L, id, es[1..], dt, x);
    }
  }

  predicate NoDupEntities(es: seq<Entity>)
  {
    forall i, j :: 0 <= i < j < |es| ==> es[i] != es[j]
  }

  lemma NoDupTail(es: seq<Entity>)
    requires es != [] && NoDupEntities(es)
    ensures NoDupEntities(es[1..]) && es[0] !in es[1..]
  {
    forall i, j | 0 <= i < j < |es[1..]|
      ensures es[1..][i] != es[1..][j]
    {
      assert es[1..][i] == es[i + 1] && es[1..][j] == es[j + 1];
    }
  }

  /** A live projectile listed once ages by exactly dt. */
  lemma {:induction false} LiveProjectileAges(s: Store, L: seq<ContainerId>, id: ContainerId, es: seq<Entity>, dt: real, x: Entity, p: Projectile)
    requires x in es && NoDupEntities(es)
    requires ProjectileIn(s, id, x) == Some(p) && p.aliveTimeMs > 0.0
    decreases |es|
    ensures ProjectileIn(Expire(s, L, id, es, dt), id, x) == Some(Aged(p, dt))
  {
    NoDupTail(es);
    var s1 := ExpireOne(s, L, id, es[0], dt);
    if es[0] == x {
      LiveProjectileAgesOnce(s, L, id, dt, x, p);
      ExpireSkipsAbsent(s1, L, id, es[1..], dt, x);
    } else {
      ExpireOneKeepsGet(s, L, id, es[0], x, dt);
      LiveProjectileAges(s1, L, id, es[1..], dt, x, p);
    }
  }

  lemma LiveProjectileAgesOnce(s: Store, L: seq<ContainerId>, id: ContainerId, dt: real, x: Entity, p: Projectile)
    requires ProjectileIn(s, id, x) == Some(p) && p.aliveTimeMs > 0.0
    ensures ProjectileIn(ExpireOne(s, L, id, x, dt), id, x) == Some(Aged(p, dt))
  {
    GetAfterSet(s, id, x, ProjectileC(Aged(p, dt)), id, x);
  }

  /** One pass of the lifetime loop, on the entity e. */
  method ExpireEntry(reg: ECSRegistry, id: ContainerId, e: Entity, dt: real)
    requires reg.Valid()
    modifies reg
    ensures reg.Valid() && reg.registryList == old(reg.registryList)
    ensures reg.store == ExpireOne(old(reg.store), reg.registryList, id, e, dt)
  {
    var p := ProjectileIn(reg.store, id, e);
    if p.Some? {
      if p.value.aliveTimeMs <= 0.0 {
        reg.RemoveAllComponentsOf(e);
      } else {
        reg.store := Set(reg.store, id, e, ProjectileC(Aged(p.value, dt)));
      }
    }
  }

  /** The lifetime loop over one projectile container, as the level's Update runs it. */
  method ExpireProjectiles(reg: ECSRegistry, id: ContainerId, dt: real)
    requires reg.Valid()
    modifies reg
    ensures reg.Valid() && reg.registryList == old(reg.registryList)
    ensures reg.store == Expire(old(reg.store), reg.registryList, id, Entities(Slot(old(reg.store), id)), dt)
  {
    var L := reg.registryList;
    var es := Entities(Slot(reg.store, id));
    var i := 0;
    while i < |es|
      invariant 0 <= i <= |es|
      invariant reg.Valid() && reg.registryList == L
      invariant Expire(reg.store, L, id, es[i..], dt) == Expire(old(reg.store), L, id, es, dt)
    {
      assert es[i..][1..] == es[i + 1..];
      ExpireEntry(reg, id, es[i], dt);
      i := i + 1;
    }
  }

  /** Both lifetime loops of Update: player projectiles, then enemy projectiles. */
  function ExpireAll(s: Store, L: seq<ContainerId>, dt: real): Store
  {
    var s1 := Expire(s, L, PlayerProjectiles, Entities(Slot(s, PlayerProjectiles)), dt);
    Expire(s1, L, EnemyProjectiles, Entities(Slot(s1, EnemyProjectiles)), dt)
  }

  // ---------------------------------------------------------------- the gacha latch

  /**
   * One level update's use of gacha_called: when the level wants to offer
   * the gacha and has not yet, it shows it and sets the latch. Gives the new
   * latch and whether the gacha was shown.
   */
  function GachaFrame(called: bool, wanted: bool): (r: (bool, bool))
    ensures r.1 <==> wanted && !called
    ensures r.0 <==> called || wanted
  {
    if wanted && !called then (true, true) else (called, false)
  }

  /** How many times the gacha is shown over a run of level updates, each wanting it or not. */
  function Displays(called: bool, wanted: seq<bool>): nat
    decreases |wanted|
  {
    if wanted == [] then 0
    else var r := GachaFrame(called, wanted[0]); (if r.1 then 1 else 0) + Displays(r.0, wanted[1..])
  }

  /** Between two level starts the gacha is shown at most once, and never once the latch is set. */
  lemma {:induction false} GachaShownAtMostOnce(called: bool, wanted: seq<bool>)
    decreases |wanted|
    ensures Displays(called, wanted) <= 1
    ensures called ==> Displays(called, wanted) == 0
  {
    if wanted != [] {
      GachaShownAtMostOnce(GachaFrame(called, wanted[0]).0, wanted[1..]);
    }
  }

  // ---------------------------------------------------------------- the level object

  class Level {
    var activeKeys: set<int>
    var keyOrder: seq<int>
    var activeShipKeys: set<int>
    var keyShipOrder: seq<int>
    var player: Player
    var velocity: Vec2
    var ship: Ship
    var automated: set<Point>
    var bunnies: seq<Bunny>

    /** The key tracker agrees with the key set, and the deck is well-formed. */
    ghost predicate Valid()
      reads this
    {
      Tracked(activeKeys, keyOrder) && DeckValid(Deck(ship, automated, bunnies))
    }

    constructor (p: Player, s: Ship, bs: seq<Bunny>)
      requires DeckValid(Deck(s, {}, bs))
      ensures Valid()
      ensures activeKeys == {} && keyOrder == [] && activeShipKeys == {} && keyShipOrder == []
      ensures player == p && velocity == Vec2(0.0, 0.0) && ship == s && automated == {} && bunnies == bs
    {
      activeKeys := {};
      keyOrder := [];
      activeShipKeys := {};
      keyShipOrder := [];
      player := p;
      velocity := Vec2(0.0, 0.0);
      ship := s;
      automated := {};
      bunnies := bs;
    }

    /** HandlePlayerMovement: nothing while stationing; otherwise track the key, then set velocity, state and direction. */
    method HandlePlayerMovement(key: int, action: int)
      requires Valid()
      modifies this`activeKeys, this`keyOrder, this`player, this`velocity
      ensures Valid()
      ensures old(player).state == STATIONING ==>
                activeKeys == old(activeKeys) && keyOrder == old(keyOrder) && player == old(player) && velocity == old(velocity)
      ensures old(player).state != STATIONING ==>
                (activeKeys, keyOrder) == Track(old(activeKeys), old(keyOrder), key, action) &&
                velocity == WalkVelocity(activeKeys) && player == Walked(old(player), activeKeys, keyOrder)
    {
      if player.state == STATIONING {
        return;
      }
      TrackKeepsTracked(activeKeys, keyOrder, key, action);
      if action == GLFW_PRESS {
        if key !in activeKeys {
          keyOrder := keyOrder + [key];
        }
        activeKeys := activeKeys + {key};
      } else if action == GLFW_RELEASE {
        activeKeys := activeKeys - {key};
        keyOrder := Without(keyOrder, key);
      }
      velocity := WalkVelocity(activeKeys);
      player := Walked(player, activeKeys, keyOrder);
    }

    /** UpdateCameraMoveDirection: the steering keys are tracked like the walking keys (the camera friction flags are not part of this model). */
    method UpdateCameraMoveDirection(key: int, action: int)
      modifies this`activeShipKeys, this`keyShipOrder
      ensures (activeShipKeys, keyShipOrder) == Track(old(activeShipKeys), old(keyShipOrder), key, action)
    {
      if action == GLFW_PRESS {
        if key !in activeShipKeys {
          keyShipOrder := keyShipOrder + [key];
        }
        activeShipKeys := activeShipKeys + {key};
      } else if action == GLFW_RELEASE {
        activeShipKeys := activeShipKeys - {key};
        keyShipOrder := Without(keyShipOrder, key);
      }
    }

    /** HandlePlayerStationing: the steering keys are always cleared, then the stationing rule runs. */
    method HandlePlayerStationing(tile: Point)
      requires Valid()
      modifies this`activeShipKeys, this`player
      ensures Valid()
      ensures activeShipKeys == {} && player == Stationed(old(player), ship.modules, tile)
    {
      activeShipKeys := {};
      if !InGrid(tile) {
        return;
      }
      if player.state == STATIONING {
        player := player.(state := IDLE);
        return;
      }
      var m := ModuleAt(ship.modules, tile);
      if m == EMPTY || m == PLATFORM {
        return;
      }
      player := player.(state := STATIONING);
    }

    /** What releasing Space does before the rest of HandleInput: the stationing rule, for an idle or stationed player only. */
    static function AfterSpace(p: Player, g: seq<seq<ModuleType>>, key: int, action: int, tile: Point): (r: Player)
      requires GridShaped(g)
      ensures r.state == STATIONING ==> p.state == STATIONING || InGrid(tile)
    {
      if action == GLFW_RELEASE && key == GLFW_KEY_SPACE && (p.state == IDLE || p.state == STATIONING)
      then Stationed(p, g, tile) else p
    }

    /** The steering keys after that step: cleared exactly when the stationing rule ran. */
    static function AfterSpaceKeys(p: Player, keys: set<int>, key: int, action: int): set<int>
    {
      if action == GLFW_RELEASE && key == GLFW_KEY_SPACE && (p.state == IDLE || p.state == STATIONING) then {} else keys
    }

    /**
     * HandleInput, up to the level's own handler: releasing B outside
     * stationing toggles build mode and ends the call; releasing Space while
     * idle or stationing runs the stationing rule; a stationed player on an
     * empty or platform cell is put back to IDLE, on a steering wheel steers;
     * a player who is neither stationed nor building walks.
     */
    method HandleInput(key: int, action: int, tile: Point)
      requires Valid()
      requires player.state == STATIONING ==> InGrid(tile)
      modifies this`activeKeys, this`keyOrder, this`player, this`velocity, this`activeShipKeys, this`keyShipOrder
      ensures Valid()
      ensures action == GLFW_RELEASE && key == GLFW_KEY_B && old(player).state != STATIONING ==>
                player == old(player).(state := if old(player).state == BUILDING then IDLE else BUILDING) &&
                activeKeys == old(activeKeys) && keyOrder == old(keyOrder) && velocity == old(velocity) &&
                activeShipKeys == old(activeShipKeys) && keyShipOrder == old(keyShipOrder)
      ensures var p1 := AfterSpace(old(player), ship.modules, key, action, tile);
              !(action == GLFW_RELEASE && key == GLFW_KEY_B && old(player).state != STATIONING) &&
              !(p1.state == STATIONING && InGrid(tile) && ModuleAt(ship.modules, tile) == STEERING_WHEEL) ==>
                activeShipKeys == AfterSpaceKeys(old(player), old(activeShipKeys), key, action)
      ensures var p1 := AfterSpace(old(player), ship.modules, key, action, tile);
              !(action == GLFW_RELEASE && key == GLFW_KEY_B && old(player).state != STATIONING) && p1.state == STATIONING ==>
                InGrid(tile) &&
                activeKeys == old(activeKeys) && keyOrder == old(keyOrder) && velocity == old(velocity) &&
                player == (if ModuleAt(ship.modules, tile) in {EMPTY, PLATFORM} then p1.(state := IDLE) else p1) &&
                keyShipOrder == (if ModuleAt(ship.modules, tile) == STEERING_WHEEL
                                 then Track(AfterSpaceKeys(old(player), old(activeShipKeys), key, action), old(keyShipOrder), key, action).1
                                 else old(keyShipOrder))
      ensures var p1 := AfterSpace(old(player), ship.modules, key, action, tile);
              !(action == GLFW_RELEASE && key == GLFW_KEY_B && old(player).state != STATIONING) && p1.state == STATIONING &&
              ModuleAt(ship.modules, tile) == STEERING_WHEEL ==>
                (activeShipKeys, keyShipOrder) ==
                  Track(AfterSpaceKeys(old(player), old(activeShipKeys), key, action), old(keyShipOrder), key, action)
      ensures !(action == GLFW_RELEASE && key == GLFW_KEY_B && old(player).state != STATIONING) && old(player).state == BUILDING ==>
                player == old(player) && activeKeys == old(activeKeys) && keyOrder == old(keyOrder) &&
                velocity == old(velocity) && keyShipOrder == old(keyShipOrder)
      ensures var p1 := AfterSpace(old(player), ship.modules, key, action, tile);
              !(action == GLFW_RELEASE && key == GLFW_KEY_B) && (p1.state == WALKING || p1.state == IDLE) ==>
                (activeKeys, keyOrder) == Track(old(activeKeys), old(keyOrder), key, action) &&
                velocity == WalkVelocity(activeKeys) && player == Walked(p1, activeKeys, keyOrder) &&
                keyShipOrder == old(keyShipOrder)
    {
      if action == GLFW_RELEASE && key == GLFW_KEY_B && player.state != STATIONING {
        player := player.(state := if player.state == BUILDING then IDLE else BUILDING);
        return;
      }
      if action == GLFW_RELEASE && key == GLFW_KEY_SPACE && (player.state == IDLE || player.state == STATIONING) {
        HandlePlayerStationing(tile);
      }
      if player.state == STATIONING {
        var m := ModuleAt(ship.modules, tile);
        if m == EMPTY || m == PLATFORM {
          player := player.(state := IDLE);
          return;
        }
        if m == STEERING_WHEEL {
          UpdateCameraMoveDirection(key, action);
        }
        return;
      } else if player.state != BUILDING {
        HandlePlayerMovement(key, action);
      }
    }

    /** stationBunny: the loop over the bunnies that stations the first stationable one. */
    method StationBunny()
      modifies this`bunnies
      ensures bunnies == StationFirst(old(bunnies))
    {
      var i := 0;
      while i < |bunnies|
        invariant 0 <= i <= |bunnies| && bunnies == old(bunnies)
        invariant forall k :: 0 <= k < i ==> !Stationable(bunnies[k])
      {
        if Stationable(bunnies[i]) {
          assert FirstWhere(bunnies, Stationable) == Some(i);
          bunnies := bunnies[i := bunnies[i].(onShip := false, onModule := true)];
          return;
        }
        i := i + 1;
      }
    }

    /** unStationBunny: the loop over the bunnies that unstations the first one on a module. */
    method UnstationBunny()
      modifies this`bunnies
      ensures bunnies == UnstationFirst(old(bunnies))
    {
      var i := 0;
      while i < |bunnies|
        invariant 0 <= i <= |bunnies| && bunnies == old(bunnies)
        invariant forall k :: 0 <= k < i ==> !OnModule(bunnies[k])
      {
        if bunnies[i].onModule {
          assert FirstWhere(bunnies, OnModule) == Some(i);
          bunnies := bunnies[i := bunnies[i].(onShip := true, onModule := false)];
          return;
        }
        i := i + 1;
      }
    }

    /** RemoveStation: the grid cell back to PLATFORM, the module entity's components (its automation) gone, its count up. */
    method RemoveStation(tile: Point)
      requires Valid() && InGrid(tile)
      modifies this`ship, this`automated
      ensures ship == Removed(old(ship), tile) && automated == old(automated) - {tile}
    {
      var m := ModuleAt(ship.modules, tile);
      ship := ship.(modules := SetCell(ship.modules, tile, PLATFORM));
      automated := automated - {tile};
      ship := ship.(available := ship.available[m := Count(ship.available, m) + 1]);
    }

    /**
     * HandleMouseClick for the ship grid (the click of the UI elements and
     * the firing of a stationed weapon are not part of this model): a left
     * press while stationed does nothing more; a left press with a module
     * selected places it; a right press in build mode removes.
     */
    method HandleMouseClick(button: int, action: int, selected: ModuleType, tile: Point)
      requires Valid() && InGrid(tile)
      modifies this`ship, this`automated, this`bunnies
      ensures Valid()
      ensures var d := Deck(old(ship), old(automated), old(bunnies));
              Deck(ship, automated, bunnies) ==
                if action == GLFW_PRESS && button == GLFW_MOUSE_BUTTON_1 then
                  (if player.state == STATIONING || selected == EMPTY then d else PlaceSelected(d, selected, tile))
                else if action == GLFW_PRESS && button == GLFW_MOUSE_BUTTON_2 && player.state == BUILDING then RemoveModule(d, tile)
                else d
    {
      ClicksKeepDeckValid(Deck(ship, automated, bunnies), selected, tile);
      if action == GLFW_PRESS && button == GLFW_MOUSE_BUTTON_1 && player.state == STATIONING {
        return;
      }
      if action == GLFW_PRESS && button == GLFW_MOUSE_BUTTON_1 && selected != EMPTY {
        PlaceModule(selected, tile);
      }
      if action == GLFW_PRESS && button == GLFW_MOUSE_BUTTON_2 && player.state == BUILDING {
        RemoveAt(tile);
      }
    }

    /** The placement branch of HandleMouseClick. */
    method PlaceModule(selected: ModuleType, tile: Point)
      requires Valid() && InGrid(tile)
      modifies this`ship, this`automated, this`bunnies
      ensures Deck(ship, automated, bunnies) == PlaceSelected(Deck(old(ship), old(automated), old(bunnies)), selected, tile)
    {
      var m := ModuleAt(ship.modules, tile);
      if Count(ship.available, selected) == 0 {
        return;
      }
      if m == PLATFORM && selected != HELPER_BUNNY {
        ship := Placed(ship, selected, tile);
        automated := automated - {tile};
      } else if selected == HELPER_BUNNY && (m == SIMPLE_CANNON || m == LASER_WEAPON) && tile !in automated {
        automated := automated + {tile};
        ship := ship.(available := ship.available[HELPER_BUNNY := Count(ship.available, HELPER_BUNNY) - 1]);
        StationBunny();
      }
    }

    /** The removal branch of HandleMouseClick (the inventory refresh is not part of this model). */
    method RemoveAt(tile: Point)
      requires Valid() && InGrid(tile)
      modifies this`ship, this`automated, this`bunnies
      ensures Deck(ship, automated, bunnies) == RemoveModule(Deck(old(ship), old(automated), old(bunnies)), tile)
    {
      var m := ModuleAt(ship.modules, tile);
      if m == EMPTY || m == PLATFORM {
        return;
      }
      if (m == SIMPLE_CANNON || m == LASER_WEAPON) && tile in automated {
        ship := ship.(available := ship.available[HELPER_BUNNY := Count(ship.available, HELPER_BUNNY) + 1]);
        automated := automated - {tile};
        UnstationBunny();
        return;
      }
      RemoveStation(tile);
    }

    /** The helper recount at the end of Update: the HELPER_BUNNY count becomes the number of bunnies on the ship. */
    method RecountHelpers()
      modifies this`ship
      ensures ship == old(ship).(available := old(ship).available[HELPER_BUNNY := OnShipCount(bunnies)])
    {
      ship := ship.(available := ship.available[HELPER_BUNNY := 0]);
      var i := 0;
      while i < |bunnies|
        invariant 0 <= i <= |bunnies|
        invariant ship == old(ship).(available := old(ship).available[HELPER_BUNNY := OnShipCount(bunnies[..i])])
      {
        assert bunnies[..i + 1][..i] == bunnies[..i];
        if bunnies[i].onShip {
          ship := ship.(available := ship.available[HELPER_BUNNY := Count(ship.available, HELPER_BUNNY) + 1]);
        }
        i := i + 1;
      }
      assert bunnies[..i] == bunnies;
    }

    /**
     * Update's game-rule part: unless the gacha is showing or the player is
     * building, both projectile lifetime loops run and the helpers are
     * recounted (the systems it steps are modelled on their own).
     */
    method Update(reg: ECSRegistry, dt: real, renderingGacha: bool)
      requires reg.Valid()
      modifies reg, this`ship
      ensures reg.Valid() && reg.registryList == old(reg.registryList)
      ensures !renderingGacha && player.state != BUILDING ==>
                reg.store == ExpireAll(old(reg.store), reg.registryList, dt) &&
                ship == old(ship).(available := old(ship).available[HELPER_BUNNY := OnShipCount(bunnies)])
      ensures renderingGacha || player.state == BUILDING ==> reg.store == old(reg.store) && ship == old(ship)
    {
      if !renderingGacha && player.state != BUILDING {
        ExpireProjectiles(reg, PlayerProjectiles, dt);
        ExpireProjectiles(reg, EnemyProjectiles, dt);
        RecountHelpers();
      }
    }
  }
}
