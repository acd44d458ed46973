/**
 * The tutorial level (src/scenes/tutorial.cpp): a phase machine driven by
 * the player's input and by its level update, and the hand-over to
 * Level 1 once the first bunny reaches the base and the one upgrade has
 * been received.
 *
 * The phase is a global of the source set once at program start, so the
 * level's own Init does not reset it; gacha_called and upgradesReceived are
 * the fields the shared GameLevel Init resets.
 */
module Tutorial {
  import opened Wrappers
  import opened Components
  import opened SceneManager
  import opened Gacha
  import opened SaveLoad
  import GameLevel

  datatype TutorialPhase = WASD_KEYS | SPACEBAR_KEY | SAVE_BUNNIES | GOTO_BASE

  /** The position of a phase in the tutorial's order. */
  function Rank(p: TutorialPhase): nat
  {
    match p
    case WASD_KEYS => 0
    case SPACEBAR_KEY => 1
    case SAVE_BUNNIES => 2
    case GOTO_BASE => 3
  }

  const TUTORIAL_POOL_LEVEL: nat := 0
  const NEXT_LEVEL_NAME: string := "Level 1"
  const NEXT_LEVEL_SCENE: string := "Next Level Scene"
  const PLAYER_NAME: string := "Player1"
  const SAVE_FILE: string := "level_save.json"

  /** LevelHandleInput: a press of a movement key during WASD_KEYS moves on to SPACEBAR_KEY. */
  function TutorialInput(p: TutorialPhase, key: int, action: int): TutorialPhase
  {
    if p == WASD_KEYS && action == GameLevel.GLFW_PRESS && GameLevel.DirectionOf(key).Some? then SPACEBAR_KEY else p
  }

  /** The phase part of LevelUpdate: stationing ends SPACEBAR_KEY, then the first bunny on the ship ends SAVE_BUNNIES. */
  function TutorialAdvance(p: TutorialPhase, stationing: bool, firstOnShip: bool): TutorialPhase
  {
    var p1 := if p == SPACEBAR_KEY && stationing then SAVE_BUNNIES else p;
    if p1 == SAVE_BUNNIES && firstOnShip then GOTO_BASE else p1
  }

  /** Input moves the tutorial exactly when it is a movement key press during WASD_KEYS, and then by one phase. */
  lemma InputAdvancesOnMoveKeys(p: TutorialPhase, key: int, action: int)
    ensures TutorialInput(p, key, action) != p <==>
              p == WASD_KEYS && action == GameLevel.GLFW_PRESS &&
              key in {GameLevel.MOVE_UP_BUTTON, GameLevel.MOVE_DOWN_BUTTON, GameLevel.MOVE_LEFT_BUTTON, GameLevel.MOVE_RIGHT_BUTTON}
    ensures Rank(TutorialInput(p, key, action)) == Rank(p) || Rank(TutorialInput(p, key, action)) == Rank(p) + 1
  {
  }

  /** An update moves the phase forward by at most two, and only on the conditions each check names. */
  lemma AdvanceIsMonotone(p: TutorialPhase, stationing: bool, firstOnShip: bool)
    ensures Rank(p) <= Rank(TutorialAdvance(p, stationing, firstOnShip)) <= Rank(p) + 2
    ensures TutorialAdvance(p, stationing, firstOnShip) == SAVE_BUNNIES && p != SAVE_BUNNIES ==> stationing
    ensures TutorialAdvance(p, stationing, firstOnShip) == GOTO_BASE && p != GOTO_BASE ==> firstOnShip
    ensures p == WASD_KEYS || p == GOTO_BASE ==> TutorialAdvance(p, stationing, firstOnShip) == p
  {
  }

  /** Both checks run in sequence: one update can take SPACEBAR_KEY straight to GOTO_BASE. */
  lemma TwoPhasesInOneUpdate()
    ensures TutorialAdvance(SPACEBAR_KEY, true, true) == GOTO_BASE
  {
  }

  /** What reaches the tutorial: a key event or a level update with the player's and the first bunny's state. */
  datatype TutorialEvent = Key(key: int, action: int) | Frame(stationing: bool, firstOnShip: bool)

  function Step(p: TutorialPhase, ev: TutorialEvent): TutorialPhase
  {
    match ev
    case Key(k, a) => TutorialInput(p, k, a)
    case Frame(st, on) => TutorialAdvance(p, st, on)
  }

  function Run(p: TutorialPhase, evs: seq<TutorialEvent>): TutorialPhase
    decreases |evs|
  {
    if evs == [] then p else Run(Step(p, evs[0]), evs[1..])
  }

  /** Over any run of events the phase never moves backwards. */
  lemma {:induction false} RunNeverGoesBack(p: TutorialPhase, evs: seq<TutorialEvent>)
    decreases |evs|
    ensures Rank(p) <= Rank(Run(p, evs))
  {
    if evs != [] {
      var q := Step(p, evs[0]);
      match evs[0] {
        case Key(k, a) => InputAdvancesOnMoveKeys(p, k, a);
        case Frame(st, on) => AdvanceIsMonotone(p, st, on);
      }
      RunNeverGoesBack(q, evs[1..]);
    }
  }

  /** Without a movement key press the tutorial never leaves WASD_KEYS. */
  lemma {:induction false} StaysWithoutMovement(evs: seq<TutorialEvent>)
    requires forall i :: 0 <= i < |evs| ==> !(evs[i].Key? && evs[i].action == GameLevel.GLFW_PRESS && GameLevel.DirectionOf(evs[i].key).Some?)
    decreases |evs|
    ensures Run(WASD_KEYS, evs) == WASD_KEYS
  {
    if evs != [] {
      assert Step(WASD_KEYS, evs[0]) == WASD_KEYS;
      StaysWithoutMovement(evs[1..]);
    }
  }

  class TutorialLevel {
    var phase: TutorialPhase
    var gachaCalled: bool
    var upgradesReceived: int

    /** The constructor fills gacha pool 0 with the helper bunny alone; the phase starts at WASD_KEYS. */
    constructor (gacha: GachaSystem)
      modifies gacha
      ensures phase == WASD_KEYS && !gachaCalled && upgradesReceived == 0
      ensures PoolOf(gacha.levelModulePools, TUTORIAL_POOL_LEVEL) == {HELPER_BUNNY}
      ensures gacha.moduleDropRates == old(gacha.moduleDropRates)
    {
      phase := WASD_KEYS;
      gachaCalled := false;
      upgradesReceived := 0;
      gacha.SetLevelPool(TUTORIAL_POOL_LEVEL, [HELPER_BUNNY]);
      assert (set m | m in [HELPER_BUNNY]) == {HELPER_BUNNY};
    }

    /** The shared GameLevel Init: the latch and the upgrade count reset, the tutorial phase does not. */
    method Init()
      modifies this`gachaCalled, this`upgradesReceived
      ensures !gachaCalled && upgradesReceived == 0
    {
      gachaCalled := false;
      upgradesReceived := 0;
    }

    method LevelHandleInput(key: int, action: int)
      modifies this`phase
      ensures phase == TutorialInput(old(phase), key, action)
    {
      if phase == WASD_KEYS {
        if action == GameLevel.GLFW_PRESS &&
           (key == GameLevel.MOVE_UP_BUTTON || key == GameLevel.MOVE_DOWN_BUTTON ||
            key == GameLevel.MOVE_LEFT_BUTTON || key == GameLevel.MOVE_RIGHT_BUTTON) {
          phase := SPACEBAR_KEY;
        }
      }
    }

    /**
     * LevelUpdate: the phase checks, then, once the first bunny is on the
     * base, either the hand-over to Level 1 (with one upgrade received) or
     * the gacha for pool 0, shown once. The player's state, the first bunny
     * and the ship are read from the registry by the caller.
     */
    method LevelUpdate(player: PlayerState, first: Bunny, ship: Ship, sm: SceneManager, saves: SaveLoadSystem, opens: bool, gacha: GachaSystem)
      returns (shown: bool, options: seq<ModuleType>)
      modifies this`phase, this`gachaCalled, sm, saves
      ensures phase == TutorialAdvance(old(phase), player == STATIONING, first.onShip)
      ensures first.onBase && upgradesReceived == 1 ==>
                sm.events == old(sm.events) + [SetNextLevel(NEXT_LEVEL_NAME)] &&
                sm.nextScene == (if NEXT_LEVEL_SCENE in old(sm.scenes) then Some(old(sm.scenes)[NEXT_LEVEL_SCENE]) else old(sm.nextScene)) &&
                (opens ==> saves.files == old(saves.files)[SavePath(saves.root, SAVE_FILE) := ToJsonSpec(CreateGameData(PLAYER_NAME, NEXT_LEVEL_NAME, ship), ModuleName)]) &&
                gachaCalled == old(gachaCalled) && !shown
      ensures !(first.onBase && upgradesReceived == 1) ==>
                sm.events == old(sm.events) && sm.nextScene == old(sm.nextScene) && saves.files == old(saves.files) &&
                (gachaCalled, shown) == GameLevel.GachaFrame(old(gachaCalled), first.onBase)
      ensures shown ==> (options == [] <==> PoolOf(gacha.levelModulePools, TUTORIAL_POOL_LEVEL) == {})
      ensures !shown ==> options == []
      ensures forall k :: 0 <= k < |options| ==> options[k] in PoolOf(gacha.levelModulePools, TUTORIAL_POOL_LEVEL)
      ensures sm.scenes == old(sm.scenes) && sm.currScene == old(sm.currScene)
    {
      shown, options := false, [];
      if phase == SPACEBAR_KEY {
        if player == STATIONING {
          phase := SAVE_BUNNIES;
        }
      }
      if phase == SAVE_BUNNIES {
        if first.onShip {
          phase := GOTO_BASE;
        }
      }
      if first.onBase {
        if upgradesReceived == 1 {
          sm.SetNextLevelScene(NEXT_LEVEL_NAME);
          sm.SwitchScene(NEXT_LEVEL_SCENE);
          saves.SaveGame(CreateGameData(PLAYER_NAME, NEXT_LEVEL_NAME, ship), SAVE_FILE, opens);
          return;
        }
        if !gachaCalled {
          gachaCalled := true;
          shown := true;
          options := gacha.DisplayGacha(TUTORIAL_POOL_LEVEL);
        }
      }
    }
  }
}
