/**
 * The end credits (src/scenes/end_cutscene.cpp): six timed phases, the
 * thanks phase shown twice as long, then back to the main menu; releasing
 * Space leaves at once. Which image and text each phase shows, and the
 * slide of the image from phase 4 on, are not part of this model.
 */
module EndCredits {
  import opened Wrappers
  import opened SceneManager
  import GameLevel
  import opened Common

  const DIALOGUE_TIME_MS: real := 5000.0
  const THANKS_TIME_MS: real := 10000.0
  const THANKS_PHASE: int := 5
  const PHASE_COUNT: int := 6
  const MAIN_MENU: string := "Main Menu"

  datatype Credits = Credits(phase: int, timerMs: real)

  /** The result of checkDialogs: the new phase and timer, and whether the main menu was requested. */
  datatype Tick = Tick(credits: Credits, toMenu: bool)

  /**
   * checkDialogs: while the timer runs it only counts down; when it has run
   * out the phase moves on, to the main menu after the last one (the timer
   * is left as it was), else with the timer reset, to twice as long for the
   * thanks phase.
   */
  function CheckDialogs(c: Credits, dt: real): Tick
  {
    if c.timerMs > 0.0 then Tick(Credits(c.phase, c.timerMs - dt), false)
    else if c.phase + 1 >= PHASE_COUNT then Tick(Credits(c.phase + 1, c.timerMs), true)
    else Tick(Credits(c.phase + 1, if c.phase + 1 == THANKS_PHASE then THANKS_TIME_MS else DIALOGUE_TIME_MS), false)
  }

  /** The phase moves by one exactly when the timer has run out, and the menu is asked for exactly when that passes the last phase. */
  lemma CheckDialogsSteps(c: Credits, dt: real)
    ensures var t := CheckDialogs(c, dt);
            (t.credits.phase == c.phase + 1 <==> c.timerMs <= 0.0) &&
            (t.credits.phase == c.phase <==> c.timerMs > 0.0) &&
            (t.toMenu <==> c.timerMs <= 0.0 && c.phase + 1 >= PHASE_COUNT)
    ensures var t := CheckDialogs(c, dt);
            c.timerMs > 0.0 ==> t.credits.timerMs == c.timerMs - dt
    ensures var t := CheckDialogs(c, dt);
            c.timerMs <= 0.0 && t.credits.phase < PHASE_COUNT ==>
              t.credits.timerMs == (if t.credits.phase == THANKS_PHASE then THANKS_TIME_MS else DIALOGUE_TIME_MS) &&
              t.credits.timerMs > 0.0
  {
  }

  /** The credits over a run of frames, each with its dt. */
  function Run(c: Credits, dts: seq<real>): Credits
    decreases |dts|
  {
    if dts == [] then c else Run(CheckDialogs(c, dts[0]).credits, dts[1..])
  }

  /** The phase never goes back, and moves at most one phase per frame. */
  lemma {:induction false} RunIsMonotone(c: Credits, dts: seq<real>)
    decreases |dts|
    ensures c.phase <= Run(c, dts).phase <= c.phase + |dts|
  {
    if dts != [] {
      CheckDialogsSteps(c, dts[0]);
      RunIsMonotone(CheckDialogs(c, dts[0]).credits, dts[1..]);
    }
  }

  /** From its first frame, a phase's timer counts down by the frames' dt until it has run out. */
  lemma {:induction false} PhaseHoldsWhileTimerRuns(c: Credits, dts: seq<real>)
    requires forall i :: 0 <= i < |dts| ==> dts[i] >= 0.0
    requires c.timerMs > Sum(dts)
    decreases |dts|
    ensures Run(c, dts) == Credits(c.phase, c.timerMs - Sum(dts))
  {
    if dts != [] {
      assert Sum(dts) == dts[0] + Sum(dts[1..]);
      SumNonNegative(dts[1..]);
      PhaseHoldsWhileTimerRuns(Credits(c.phase, c.timerMs - dts[0]), dts[1..]);
    }
  }

  class EndCutscene {
    var phase: int
    var dialogueTimerMs: real

    constructor ()
      ensures phase == 0 && dialogueTimerMs == DIALOGUE_TIME_MS
    {
      phase := 0;
      dialogueTimerMs := DIALOGUE_TIME_MS;
    }

    /** HandleInput: releasing Space asks for the main menu from any phase. */
    method HandleInput(key: int, action: int, sm: SceneManager)
      modifies sm
      ensures sm.nextScene == if key == GameLevel.GLFW_KEY_SPACE && action == GameLevel.GLFW_RELEASE && MAIN_MENU in old(sm.scenes)
                              then Some(old(sm.scenes)[MAIN_MENU]) else old(sm.nextScene)
      ensures sm.scenes == old(sm.scenes) && sm.currScene == old(sm.currScene) && sm.events == old(sm.events)
    {
      if key == GameLevel.GLFW_KEY_SPACE && action == GameLevel.GLFW_RELEASE {
        sm.SwitchScene(MAIN_MENU);
      }
    }

    method CheckDialogsStep(dt: real, sm: SceneManager)
      modifies this, sm
      ensures Credits(phase, dialogueTimerMs) == CheckDialogs(Credits(old(phase), old(dialogueTimerMs)), dt).credits
      ensures sm.nextScene == if CheckDialogs(Credits(old(phase), old(dialogueTimerMs)), dt).toMenu && MAIN_MENU in old(sm.scenes)
                              then Some(old(sm.scenes)[MAIN_MENU]) else old(sm.nextScene)
      ensures sm.scenes == old(sm.scenes) && sm.currScene == old(sm.currScene) && sm.events == old(sm.events)
    {
      if dialogueTimerMs > 0.0 {
        dialogueTimerMs := dialogueTimerMs - dt;
      } else {
        phase := phase + 1;
        if phase >= PHASE_COUNT {
          sm.SwitchScene(MAIN_MENU);
          return;
        }
        dialogueTimerMs := DIALOGUE_TIME_MS;
        if phase == THANKS_PHASE {
          dialogueTimerMs := THANKS_TIME_MS;
        }
      }
    }

    /** Update: checkDialogs, then the main menu again whenever the last phase is passed. */
    method Update(dt: real, sm: SceneManager)
      modifies this, sm
      ensures Credits(phase, dialogueTimerMs) == CheckDialogs(Credits(old(phase), old(dialogueTimerMs)), dt).credits
      ensures sm.nextScene == if phase >= PHASE_COUNT && MAIN_MENU in old(sm.scenes)
                              then Some(old(sm.scenes)[MAIN_MENU]) else old(sm.nextScene)
      ensures sm.scenes == old(sm.scenes) && sm.currScene == old(sm.currScene) && sm.events == old(sm.events)
    {
      CheckDialogsStep(dt, sm);
      if phase >= PHASE_COUNT {
        sm.SwitchScene(MAIN_MENU);
      }
    }
  }
}
