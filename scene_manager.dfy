/**
 * The scene manager (src/sceneManager/scene_manager.cpp): registered scenes
 * by name, the current scene, and the deferred switch that lets every
 * system finish the frame before the scene changes.
 *
 * Scenes are handles (an identity and the name getName returns). Their
 * Init and Exit run code of the individual scenes; the manager records the
 * calls it makes, in order, in `events`. The restart and next-level names
 * are set through members whose bodies are not part of this model; their
 * calls are recorded the same way.
 */
module SceneManager {
  import opened Wrappers

  datatype Scene = Scene(id: nat, name: string)

  datatype SceneEvent =
    | Init(scene: Scene)
    | Exit(scene: Scene)
    | SetRestart(restartName: string)
    | SetNextLevel(levelName: string)

  class SceneManager {
    var scenes: map<string, Scene>
    var currScene: Option<Scene>
    var nextScene: Option<Scene>
    var events: seq<SceneEvent>

    /** The singleton starts with no scenes, no current scene and no pending switch. */
    constructor ()
      ensures scenes == map[] && currScene == None && nextScene == None && events == []
    {
      scenes, currScene, nextScene, events := map[], None, None, [];
    }

    /** registerScene: the scene is filed under its name, replacing any scene of that name. */
    method RegisterScene(scene: Scene)
      modifies this
      ensures scenes == old(scenes)[scene.name := scene]
      ensures currScene == old(currScene) && nextScene == old(nextScene) && events == old(events)
    {
      scenes := scenes[scene.name := scene];
    }

    /**
     * switchScene: a request only. A registered name becomes the pending
     * scene; an unknown name leaves the pending scene as it was. The current
     * scene never changes here.
     */
    method SwitchScene(name: string)
      modifies this
      ensures nextScene == if name in old(scenes) then Some(old(scenes)[name]) else old(nextScene)
      ensures scenes == old(scenes) && currScene == old(currScene) && events == old(events)
    {
      if name in scenes {
        nextScene := Some(scenes[name]);
      }
    }

    method GetCurrentScene() returns (s: Option<Scene>)
      ensures s == currScene
    {
      s := currScene;
    }

    /**
     * checkSceneSwitch: with nothing pending, nothing happens. Otherwise the
     * old scene (if any) is exited, the pending scene becomes current and is
     * initialised, and the request is cleared.
     */
    method CheckSceneSwitch()
      modifies this
      ensures old(nextScene).None? ==>
                currScene == old(currScene) && nextScene == None && events == old(events)
      ensures old(nextScene).Some? ==>
                currScene == old(nextScene) && nextScene == None &&
                events == old(events) + (if old(currScene).Some? then [Exit(old(currScene).value)] else []) +
                          [Init(old(nextScene).value)]
      ensures scenes == old(scenes)
    {
      if nextScene.Some? {
        if currScene.Some? {
          events := events + [Exit(currScene.value)];
        }
        currScene := nextScene;
        events := events + [Init(currScene.value)];
        nextScene := None;
      }
    }

    /** setRestartScence, recorded. */
    method SetRestartScene(name: string)
      modifies this
      ensures events == old(events) + [SetRestart(name)]
      ensures scenes == old(scenes) && currScene == old(currScene) && nextScene == old(nextScene)
    {
      events := events + [SetRestart(name)];
    }

    /** setNextLevelScence, recorded. */
    method SetNextLevelScene(name: string)
      modifies this
      ensures events == old(events) + [SetNextLevel(name)]
      ensures scenes == old(scenes) && currScene == old(currScene) && nextScene == old(nextScene)
    {
      events := events + [SetNextLevel(name)];
    }
  }

  /**
   * A request followed by the frame-end check makes a registered scene
   * current and leaves nothing pending; the last registration of a name wins.
   */
  method SwitchThenCheck(m: SceneManager, name: string)
    requires name in m.scenes
    modifies m
    ensures m.currScene == Some(old(m.scenes)[name]) && m.nextScene == None
    ensures m.scenes == old(m.scenes)
    ensures |m.events| > 0 && m.events[|m.events| - 1] == Init(old(m.scenes)[name])
  {
    m.SwitchScene(name);
    m.CheckSceneSwitch();
  }
}
