/**
 * Levels 2, 3 and 4 (src/scenes/level_02.cpp, level_03.cpp, level_04.cpp):
 * each fills its gacha pool, unlocks the base when it starts, and on every
 * level update either moves on (once the upgrades received equal the
 * bunnies to win) or offers its gacha once when fewer upgrades were received
 * than bunnies were brought to the base.
 *
 * The three files differ only in constants, so one class is instantiated
 * with each level's Progression.
 */
module Levels {
  import opened Wrappers
  import opened Components
  import opened Registry
  import opened SceneManager
  import opened Gacha
  import opened SaveLoad
  import GameLevel

  /** What distinguishes one level: its pool, where it goes when it is won, and the level name saved for the next start. */
  datatype Progression = Progression(
    name: string,
    poolLevel: nat,
    pool: seq<ModuleType>,
    nextLevel: Option<string>,
    winScene: string,
    savedLevel: string)

  const NEXT_LEVEL_SCENE: string := "Next Level Scene"
  const END_CUTSCENE: string := "EndCutscene"
  const PLAYER_NAME: string := "Player1"
  const SAVE_FILE: string := "level_save.json"

  const LEVEL_02: Progression :=
    Progression("Level 2", 2, [SIMPLE_CANNON, LASER_WEAPON, BUBBLE_MOD, HEAL], Some("Level 3"), NEXT_LEVEL_SCENE, "Level 3")
  const LEVEL_03: Progression :=
    Progression("Level 3", 3, [SIMPLE_CANNON, PLATFORM, LASER_WEAPON, BUBBLE_MOD, HEAL], Some("Level 4"), NEXT_LEVEL_SCENE, "Level 4")
  const LEVEL_04: Progression :=
    Progression("Level 4", 4, [SIMPLE_CANNON, PLATFORM, LASER_WEAPON, BUBBLE_MOD, HEAL], None, END_CUTSCENE, "Level 4")

  /** What one level update decides. */
  datatype Decision = Advance | OfferGacha | Wait

  /** The win check comes first and ends the update; the gacha is offered only when fewer upgrades than saved bunnies and not yet offered. */
  function Decide(upgrades: int, toWin: int, points: int, called: bool): (d: Decision)
    ensures d == Advance <==> upgrades == toWin
    ensures d == OfferGacha <==> upgrades != toWin && upgrades < points && !called
  {
    if upgrades == toWin then Advance
    else if upgrades < points && !called then OfferGacha
    else Wait
  }

  /** Each level's chain: Level 2 leads to Level 3, Level 3 to Level 4, and Level 4 to the end cutscene with Level 4 saved. */
  lemma LevelsChain()
    ensures LEVEL_02.nextLevel == Some(LEVEL_03.name) && LEVEL_02.savedLevel == LEVEL_03.name
    ensures LEVEL_03.nextLevel == Some(LEVEL_04.name) && LEVEL_03.savedLevel == LEVEL_04.name
    ensures LEVEL_04.nextLevel.None? && LEVEL_04.winScene == END_CUTSCENE && LEVEL_04.savedLevel == LEVEL_04.name
  {
  }

  /** A level's pool as a set. */
  function PoolSet(p: Progression): set<ModuleType>
  {
    set m | m in p.pool
  }

  /** Levels 3 and 4 add the platform to level 2's pool; none of them offers the helper bunny or the steering wheel. */
  lemma PoolsGrow()
    ensures PoolSet(LEVEL_03) == PoolSet(LEVEL_04) == PoolSet(LEVEL_02) + {PLATFORM}
    ensures forall p :: p in {LEVEL_02, LEVEL_03, LEVEL_04} ==> HELPER_BUNNY !in PoolSet(p) && STEERING_WHEEL !in PoolSet(p)
  {
    assert PoolSet(LEVEL_02) == {SIMPLE_CANNON, LASER_WEAPON, BUBBLE_MOD, HEAL};
    assert PoolSet(LEVEL_03) == {SIMPLE_CANNON, PLATFORM, LASER_WEAPON, BUBBLE_MOD, HEAL};
  }

  /** LevelInit: the first base component is unlocked (a level without a base is left as it is). */
  function UnlockBase(s: Store): (r: Store)
    ensures forall id :: id != Bases ==> Slot(r, id) == Slot(s, id)
    ensures Keys(Slot(r, Bases)) == Keys(Slot(s, Bases))
    ensures Slot(s, Bases) != [] && Slot(s, Bases)[0].1.BaseC? ==>
              Get(r, Bases, Slot(s, Bases)[0].0) == Some(BaseC(Slot(s, Bases)[0].1.base.(locked := false)))
  {
    var bs := Slot(s, Bases);
    if bs != [] && bs[0].1.BaseC? then
      var e := bs[0].0;
      GetAfterSet(s, Bases, e, BaseC(bs[0].1.base.(locked := false)), Bases, e);
      Set(s, Bases, e, BaseC(bs[0].1.base.(locked := false)))
    else s
  }

  class ProgressionLevel {
    const progression: Progression
    var bunniesToWin: int
    var upgradesReceived: int
    var gachaCalled: bool

    /** The constructor sets no bunnies to win and fills the level's gacha pool. */
    constructor (p: Progression, gacha: GachaSystem)
      modifies gacha
      ensures progression == p && bunniesToWin == 0 && upgradesReceived == 0 && !gachaCalled
      ensures PoolOf(gacha.levelModulePools, p.poolLevel) == PoolSet(p)
      ensures gacha.moduleDropRates == old(gacha.moduleDropRates)
    {
      progression := p;
      bunniesToWin := 0;
      upgradesReceived := 0;
      gachaCalled := false;
      gacha.SetLevelPool(p.poolLevel, p.pool);
    }

    /** The shared GameLevel Init: the latch and upgrades reset, and every bunny the map placed is one to win. */
    method Init(bunnies: seq<Entity>)
      modifies this`gachaCalled, this`upgradesReceived, this`bunniesToWin
      ensures !gachaCalled && upgradesReceived == 0 && bunniesToWin == |bunnies|
    {
      gachaCalled := false;
      upgradesReceived := 0;
      bunniesToWin := 0;
      var i := 0;
      while i < |bunnies|
        invariant 0 <= i <= |bunnies| && bunniesToWin == i && !gachaCalled && upgradesReceived == 0
      {
        bunniesToWin := bunniesToWin + 1;
        i := i + 1;
      }
    }

    method LevelInit(reg: ECSRegistry)
      requires reg.Valid()
      modifies reg`store
      ensures reg.Valid() && reg.store == UnlockBase(old(reg.store))
    {
      reg.store := UnlockBase(reg.store);
    }

    /**
     * LevelUpdate, with points the first base's bunny count and ship the
     * first ship: on a win, record the next level (levels 2 and 3), request
     * the win scene and save the ship under the next level's name; else
     * offer the gacha once when fewer upgrades than points.
     */
    method LevelUpdate(points: int, ship: Ship, sm: SceneManager, saves: SaveLoadSystem, opens: bool, gacha: GachaSystem)
      returns (shown: bool, options: seq<ModuleType>)
      modifies this`gachaCalled, sm, saves
      ensures var d := Decide(upgradesReceived, bunniesToWin, points, old(gachaCalled));
              (d == Advance ==>
                 sm.events == old(sm.events) + (if progression.nextLevel.Some? then [SetNextLevel(progression.nextLevel.value)] else []) &&
                 sm.nextScene == (if progression.winScene in old(sm.scenes) then Some(old(sm.scenes)[progression.winScene]) else old(sm.nextScene)) &&
                 (opens ==> saves.files == old(saves.files)[SavePath(saves.root, SAVE_FILE) :=
                                                          ToJsonSpec(CreateGameData(PLAYER_NAME, progression.savedLevel, ship), ModuleName)]) &&
                 gachaCalled == old(gachaCalled)) &&
              (d != Advance ==> sm.events == old(sm.events) && sm.nextScene == old(sm.nextScene) && saves.files == old(saves.files)) &&
              (shown <==> d == OfferGacha) &&
              (d == OfferGacha ==> gachaCalled) && (d == Wait ==> gachaCalled == old(gachaCalled))
      ensures shown ==> (options == [] <==> PoolOf(gacha.levelModulePools, progression.poolLevel) == {})
      ensures !shown ==> options == []
      ensures forall k :: 0 <= k < |options| ==> options[k] in PoolOf(gacha.levelModulePools, progression.poolLevel)
      ensures sm.scenes == old(sm.scenes) && sm.currScene == old(sm.currScene)
    {
      shown, options := false, [];
      if upgradesReceived == bunniesToWin {
        if progression.nextLevel.Some? {
          sm.SetNextLevelScene(progression.nextLevel.value);
        }
        sm.SwitchScene(progression.winScene);
        saves.SaveGame(CreateGameData(PLAYER_NAME, progression.savedLevel, ship), SAVE_FILE, opens);
        return;
      }
      if upgradesReceived < points {
        if !gachaCalled {
          gachaCalled := true;
          shown := true;
          options := gacha.DisplayGacha(progression.poolLevel);
        }
      }
    }
  }

  /** Over a run of updates with the level not yet won, the gacha is offered at most once. */
  lemma OfferedAtMostOnce(upgrades: int, toWin: int, points: seq<int>)
    requires upgrades != toWin
    ensures GameLevel.Displays(false, seq(|points|, i requires 0 <= i < |points| => upgrades < points[i])) <= 1
  {
    GameLevel.GachaShownAtMostOnce(false, seq(|points|, i requires 0 <= i < |points| => upgrades < points[i]));
  }
}
