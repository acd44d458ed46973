# Bnuuy's Ship — a Dafny model of the game's rules

Bnuuy's Ship is a 2D game. The player is a bunny who steers a raft-ship across the sea. The ship is a grid of modules: platforms, cannons, lasers, helpers and so on. The player frees jailed bunnies on islands and carries them to the base, fights off enemies, and picks up modules from a gacha (a random draw) between stages. The game keeps its state in an entity–component registry. This project models the game's rule-level core on that registry:

- the registry's containers and its two bulk operations, clearing everything and removing one entity everywhere;
- the player and bunny animation rules;
- collision handling and restart in the world system;
- the geometry tests and per-frame walking, slowing and base-dwell rules of the physics system;
- the auto-cannon decision tree;
- the gacha pools;
- the save/load codec and its JSON layout;
- the scene manager;
- the game level's input, stationing, build-mode and update rules;
- the tutorial, levels 2–4, the intro cutscene and the end credits;
- the buttons and the UI container.

Each module corresponds to one source file and is written in that file's form:

- Pure helpers are functions, each with lemmas about it.
- Code that updates objects in place is a class whose methods name what they modify.
- Loops in the source are `while` loops with invariants, proved against a specification function.

Floats are `real`. The source's conversions from float to int (truncation toward zero) and its 32-bit wrap-around are written out where the source performs them.

Where the source files disagree with each other, the model follows the code:

- **Projectile container.** `src/world_system.cpp` uses `registry.projectiles`, which `include/tinyECS/registry.hpp` does not declare. It is read as the player-projectile container. That container is not in the registry list, so removal never reaches it.
- **Levels and the gacha.** The levels call `displayGacha` with three arguments, but `src/gacha_system.cpp` has only `displayGacha(int)`. The one-argument version is modelled.
- **Tutorial phase.** It is a global, so the level's Init does not reset it.
- **Save codec.** The C++ `moduleTypeToString` writes FAST_CANNON as "UNKNOWN" (see Findings). The as-written codec is modelled and its loss proved. The stateful save and load layer and both level saves use the corrected codec, under which FAST_CANNON is written under its own name; the Left out lines for those members say so.
- **Intro cutscene.** Its phase never advances, so it only ever shows the first dialogue line. In `src/scenes/cutscene.cpp:99` the assignment lacks its semicolon; the model reads it as the assignment that was evidently meant.

`include/tinyECS/tiny_ecs.hpp` (the component container) is not part of this model. The container is modelled as the ordered list of (entity, component) entries that `include/tinyECS/registry.hpp:13-44` declares one per component type. The container functions below cite those lines.

## Model

| member | source | states |
|---|---|---|
| Common.Trunc | src/scenes/game_level.cpp:50-51 | a float-to-int conversion truncates toward zero: the result is the whole part by magnitude, never farther from 0 than the input |
| Common.SubTrunc | src/animation_system.cpp:166 | `int -= float` leaves the int as it is when the float is 0, and otherwise lies between the exact difference and 0 |
| Common.DataPath | include/common.hpp:26-28 | data_path() is the project root followed directly by "data", with no separator |
| Common.ShaderPath | include/common.hpp:29-31 | a shader path is the root, the nine characters of "/shaders/", then the name |
| Common.AssetPathSplits | include/common.hpp:32-46 | every data asset path is data_path() + "/<dir>/" + name, and the directory and the name can be read back from it |
| Common.AssetPathInjective | include/common.hpp:32-46 | different directories or different names never give the same asset path |
| Common.ShaderPathOutsideData | include/common.hpp:26-31 | no shader path lies under data_path() |
| Common.GridCounts | include/common.hpp:62-75 | the grid has 15 columns and 11 rows, and its cells exactly fill the window |
| Common.TileToVector2 | include/common.hpp:116-119 | a tile's pixel position is 30 px into its 56 px cell on each axis |
| Common.TruncOfTileCoordinate | src/scenes/game_level.cpp:49-53 | dividing a tile's pixel coordinate by the cell size and truncating gives the tile index back for non-negative tiles |
| Common.MouseTileOfTileToVector2 | src/scenes/game_level.cpp:49-53 | reading the mouse tile at a tile's own pixel position gives the tile back for non-negative tiles |
| Common.MouseTileNegativeColumn | src/scenes/game_level.cpp:49-53 | left of the grid the round trip fails: tile -1 reads back as 0, because the cast truncates toward zero |
| Registry.Entities | include/tinyECS/registry.hpp:13-44 | the entity list has one entry per component entry, in container order |
| Registry.EntriesOf | include/tinyECS/registry.hpp:13-44 | the entries of x are exactly the container's entries whose entity is x, in order |
| Registry.Lookup | include/tinyECS/registry.hpp:13-44 | get finds a component exactly when the entity has an entry, and returns the component of its first entry |
| Registry.WithoutEntity | include/tinyECS/registry.hpp:13-44 | removing e leaves no entry of e and keeps every other entry in order |
| Registry.Update | include/tinyECS/registry.hpp:13-44 | writing through get keeps the container's keys and length, and get then returns the new component for x |
| Registry.WithoutEntityKeepsOthers | include/tinyECS/registry.hpp:13-44 | removing e keeps every other entity's entries exactly |
| Registry.WithoutEntityIdempotent | include/tinyECS/registry.hpp:13-44 | removing an entity twice is the same as removing it once |
| Registry.UpdateKeepsOthers | include/tinyECS/registry.hpp:13-44 | a write to x leaves every other entity's entries and get unchanged |
| Registry.KeysByEntries | include/tinyECS/registry.hpp:13-44 | an entity is a key of a container exactly when it has an entry there |
| Registry.LookupByEntries | include/tinyECS/registry.hpp:13-44 | get reads the component of the entity's first entry |
| Registry.WithoutEntityShrinks | include/tinyECS/registry.hpp:13-44 | removing a present entity makes the container strictly shorter |
| Registry.Set | include/tinyECS/registry.hpp:13-44 | a write changes only container id, and that container keeps its keys |
| Registry.GetAfterSet | include/tinyECS/registry.hpp:13-44 | after a write, only e's component in container id can read differently, and it does only when e had one |
| Registry.ClearOne | include/tinyECS/registry.hpp:79-81 | clearing a container empties it and leaves every other container as it was |
| Registry.RemoveOne | include/tinyECS/registry.hpp:95-97 | removing e from one container removes exactly e's entries there and leaves the other containers as they were |
| Registry.ClearAllSpec | include/tinyECS/registry.hpp:79-81 | clearing the listed containers empties each of them and leaves the unlisted ones as they were |
| Registry.RemoveAllSpec | include/tinyECS/registry.hpp:95-97 | removing e from the listed containers removes e's entries there and only there |
| Registry.RegisteredListInPushOrder | include/tinyECS/registry.hpp:48-77 | the constructor's list follows the constructor's push order, and that order determines the list |
| Registry.RegisteredOnce | include/tinyECS/registry.hpp:48-77 | the list holds each of the 20 pushed containers exactly once, and never the two projectile containers |
| Registry.ClearAllRegistered | include/tinyECS/registry.hpp:79-81 | after clear_all_components every registered container is empty and the projectile containers are untouched |
| Registry.RemoveAllRegistered | include/tinyECS/registry.hpp:95-97 | after remove_all_components_of(e) no registered container holds e, every other entity keeps its entries, and the projectile containers are untouched |
| Registry.RemoveAllShrinks | include/tinyECS/registry.hpp:95-97 | remove_all_components_of never makes a container longer |
| Registry.RemoveAllKeepsGet | include/tinyECS/registry.hpp:95-97 | remove_all_components_of(e) leaves what get returns for every other entity |
| Registry.RemoveAllRemovesGet | include/tinyECS/registry.hpp:95-97 | afterwards get finds no component of e in any registered container |
| Registry.ECSRegistry.constructor | include/tinyECS/registry.hpp:48-77 | the new registry has every container empty and the list in push order |
| Registry.ECSRegistry.ClearAllComponents | include/tinyECS/registry.hpp:79-81 | the loop over registry_list leaves the store as ClearAll of the list, and the list unchanged |
| Registry.ECSRegistry.RemoveAllComponentsOf | include/tinyECS/registry.hpp:95-97 | the loop over registry_list leaves the store as RemoveAll of the list for e |
| Animation.IsIdleAnim | src/animation_system.cpp:9-14 | true exactly for the eight BUNNY_IDLE frames |
| Animation.IsWalkAnim | src/animation_system.cpp:16-21 | true exactly for the eight walking frames |
| Animation.IdleWalkDisjoint | src/animation_system.cpp:9-21 | no frame is both an idle frame and a walking frame |
| Animation.GetAnimDirection | src/animation_system.cpp:23-51 | a bunny frame gives the direction its name states; any other texture gives DOWN |
| Animation.GetFirstPlayerAnimation | src/animation_system.cpp:53-78 | the first frame belongs to the player's state set and faces the player's direction; any other state gives BUNNY_IDLE_DOWN0 |
| Animation.GetNextPlayerAnimation | src/animation_system.cpp:81-137 | on a frame of the state set, the next frame is the other frame of the same set and direction; on a mismatch it is the first frame |
| Animation.NextPlayerAnimationTwice | src/animation_system.cpp:81-137 | advancing twice gives the frame back |
| Animation.FirstFrameAccepted | src/animation_system.cpp:145-154 | the first frame passes the next mismatch check exactly when the player is IDLE or WALKING or faces DOWN |
| Animation.NextFrameAccepted | src/animation_system.cpp:145-167 | advancing an accepted frame of an IDLE or WALKING player gives an accepted frame |
| Animation.AnimationTimeMs | include/common.hpp:130 | the int timer the animation resets to is ANIMATION_TIME truncated |
| Animation.PlayerAnimStep | src/animation_system.cpp:139-169 | one iteration changes only the animation and texture containers, and reports an early return only on a mismatch |
| Animation.ReadBackAnimation | src/animation_system.cpp:139-169 | after a write to both, e's animation and texture read back as written |
| Animation.MismatchRestartsAndReturns | src/animation_system.cpp:145-154 | on a mismatch the animation restarts at the first frame with a full timer, the texture follows, and the loop stops |
| Animation.ExpiredTimerAdvances | src/animation_system.cpp:157-164 | with an expired timer the frame advances and the timer restarts |
| Animation.RunningTimerCountsDown | src/animation_system.cpp:165-167 | with time left only the timer moves, by elapsed_ms truncated to int |
| Animation.PlayerAnimFoldFrame | src/animation_system.cpp:139-169 | entities the loop never reaches keep their animation and texture |
| Animation.StepFrame | src/animation_system.cpp:139-169 | one step changes only entity e's animation and texture |
| Animation.HandlePlayerAnimation | src/animation_system.cpp:139-169 | the loop leaves the store as the fold over the player-animation entities |
| Animation.Round | src/animation_system.cpp:176-193 | std::round gives the nearest integer, with halves rounded away from zero |
| Animation.BunnyArrivalStep | src/animation_system.cpp:171-196 | one step changes only the bunny, motion and render containers |
| Animation.BunnyArrives | src/animation_system.cpp:176-193 | a freed bunny at the drop tile ends up on the ship, off the island, with zero velocity |
| Animation.BunnyStepKeeps | src/animation_system.cpp:171-196 | a step leaves settled bunnies and other entities untouched, and never jails a bunny or takes one off the ship |
| Animation.BunnyFoldKeeps | src/animation_system.cpp:171-196 | over a whole pass every bunny stays a bunny, its jail flag is unchanged, and a bunny on the ship stays on it |
| Animation.HandleBunnyAnimation | src/animation_system.cpp:171-196 | the loop leaves the store as the fold of arrival steps over the bunny entities |
| Bnuui.EraseAt | src/bnuui/bnuui.cpp:12-17 | erasing index i drops exactly that element and keeps the others in order |
| Bnuui.EraseAtMultiset | src/bnuui/bnuui.cpp:12-17 | erasing removes exactly one copy of the erased element from the multiset |
| Bnuui.UpdateOrder | src/bnuui/bnuui.cpp:33-39 | update visits each element followed by its direct children, and nothing else |
| Bnuui.SceneUI.constructor | src/bnuui/bnuui.cpp:7-10 | a new UI has three empty lists |
| Bnuui.SceneUI.Insert | src/bnuui/bnuui.cpp:7-10 | insert appends at the end and reports success |
| Bnuui.SceneUI.Remove | src/bnuui/bnuui.cpp:12-17 | an index out of range gives false and no change; otherwise that element is erased |
| Bnuui.SceneUI.Size | src/bnuui/bnuui.cpp:19-21 | size counts the general list only |
| Bnuui.SceneUI.GetElems | src/bnuui/bnuui.cpp:24-31 | the general list, then the inventory list, then the gacha list |
| Bnuui.SceneUI.InsertModuleInventory | src/bnuui/bnuui.cpp:54-57 | appends to the inventory list only |
| Bnuui.SceneUI.RemoveModuleInventory | src/bnuui/bnuui.cpp:59-64 | erases from the inventory list when the index is in range |
| Bnuui.SceneUI.InsertGacha | src/bnuui/bnuui.cpp:71-74 | appends to the gacha list only |
| Bnuui.SceneUI.RemoveGacha | src/bnuui/bnuui.cpp:76-81 | erases from the gacha list when the index is in range |
| Bnuui.SceneUI.Update | src/bnuui/bnuui.cpp:33-51 | the trace of doUpdate calls grows by exactly each element of the general, inventory and gacha lists followed by its direct children, in list order |
| Bnuui.OrderIsFlatten | src/bnuui/bnuui.cpp:33-51 | the visiting order equals the flattening over a snapshot of the children lists |
| Bnuui.UpdateElement | src/bnuui/bnuui.cpp:34-39 | doUpdate runs on the element and then on each direct child, as the trace records; when no element repeats, each ends in the state its own doUpdate gives |
| Bnuui.UpdateAt | src/bnuui/bnuui.cpp:41-42 | one round of the loop adds exactly the element and its children to the trace, the next step of the flattened order |
| Bnuui.UpdateList | src/bnuui/bnuui.cpp:41-49 | the loop over one list calls doUpdate exactly in UpdateOrder, as the trace records |
| Buttons.FaceAfterCycles | src/bnuui/buttons.cpp:162-166 | starting from a neutral face, n advances land n steps further around the nine-face cycle |
| Buttons.FaceCycle | src/bnuui/buttons.cpp:162-166 | the neutral faces cycle with period 9 and never leave the neutral range |
| Buttons.Element.SquareButton | src/bnuui/buttons.cpp:7-20 | a square button takes the given position, scale and rotation, shows the normal texture, and has no callbacks |
| Buttons.Element.PlayButton | src/bnuui/buttons.cpp:49-62 | a play button starts on the play texture, with the same decoration |
| Buttons.Element.Box | src/bnuui/buttons.cpp:89-101 | a box starts on the normal square texture, with no children or calls |
| Buttons.Element.LongBox | src/bnuui/buttons.cpp:117-129 | a long box starts on the long box texture |
| Buttons.Element.PlayerStatus | src/bnuui/buttons.cpp:145-158 | the health face starts on the first neutral face |
| Buttons.Element.UpdateSquareButton | src/bnuui/buttons.cpp:22-47 | clicked beats hover beats normal for the texture; the set callbacks fire in order |
| Buttons.Element.UpdatePlayButton | src/bnuui/buttons.cpp:65-87 | hovering alone keeps the texture; clicking shows the pressed texture |
| Buttons.Element.UpdateBox | src/bnuui/buttons.cpp:103-143 | a box only fires its callbacks and never changes its texture |
| Buttons.Element.UpdateFace | src/bnuui/buttons.cpp:168-175 | an expired timer shows the next face and restarts at FACE_TIME; dt is always taken off |
| Buttons.Element.DoUpdate | src/bnuui/buttons.cpp:22-175 | dispatch to the update of the element's class, leaving the texture, timer and callback record Updated computes from the state before (DidUpdate); the call is appended to the trace |
| SceneManager.SceneManager.constructor | src/sceneManager/scene_manager.cpp:4-6 | no scenes, no current or next scene |
| SceneManager.SceneManager.RegisterScene | src/sceneManager/scene_manager.cpp:4-6 | the scene is stored under its name, and nothing else changes |
| SceneManager.SceneManager.SwitchScene | src/sceneManager/scene_manager.cpp:11-16 | a registered name becomes the next scene; an unknown name changes nothing |
| SceneManager.SceneManager.GetCurrentScene | src/sceneManager/scene_manager.cpp:18-20 | returns the current scene |
| SceneManager.SceneManager.CheckSceneSwitch | src/sceneManager/scene_manager.cpp:25-34 | a pending scene becomes current and is initialised (after the old one is exited), and the pending slot is cleared; with none pending nothing changes |
| SceneManager.SceneManager.SetRestartScene | include/sceneManager/scene_manager.hpp:44 | records the restart request as an event, and nothing else |
| SceneManager.SceneManager.SetNextLevelScene | include/sceneManager/scene_manager.hpp:45 | records the next-level request as an event, and nothing else |
| SceneManager.SwitchThenCheck | src/sceneManager/scene_manager.cpp:11-34 | switching to a registered scene and then checking makes it current, leaves nothing pending, and initialises it last |
| DecisionTree.DecisionNode.constructor | include/decisionTrees/decision_node.hpp:23-24 | a new node has its condition, no action and no branches |
| DecisionTree.DecisionNode.SetBranches | include/decisionTrees/decision_node.hpp:26-29 | both branches are replaced and nothing else changes |
| DecisionTree.DecisionNode.SetAction | include/decisionTrees/decision_node.hpp:31-33 | the action is replaced and nothing else changes |
| DecisionTree.DecisionNode.Execute | include/decisionTrees/decision_node.hpp:41-45 | the action runs only when one is set; otherwise the context is unchanged |
| DecisionTree.DecisionNode.Decide | include/decisionTrees/decision_node.hpp:35-39 | the action runs first, then the condition; the yes branch when it holds, the no branch otherwise |
| Modules.Best | src/modules_system.cpp:15-46 | the chosen index, when there is one, is an enemy in range |
| Modules.BestIsNearestFirst | src/modules_system.cpp:15-46 | an enemy is found exactly when one is in range; the one found is the nearest, and no earlier enemy in range is as near |
| Modules.SearchSpec | src/modules_system.cpp:15-46 | the search changes only the chosen enemy in the context, and a failed search changes nothing |
| Modules.SearchForEnemy | src/modules_system.cpp:15-46 | the loop computes SearchSpec: the verdict and the chosen enemy |
| Modules.ShootSpec | src/modules_system.cpp:52-65 | the shoot node always answers yes, fires at most one shot that is appended to the shots, and changes only the cannon container |
| Modules.ManualCannonOnlyCools | src/modules_system.cpp:77-96 | a manual cannon only cools down: no shot, and nothing but its timer changes |
| Modules.AutomatedCannonFiresWhenReady | src/modules_system.cpp:77-96 | an automated cannon fires exactly when an enemy is in range and its cooled-down timer is not positive; then its timer restarts |
| Modules.ModulesSystem.constructor | src/modules_system.cpp:48-75 | the tree is search, then on yes shoot, and stop otherwise |
| Modules.ModulesSystem.RunTree | src/modules_system.cpp:87-94 | walking the tree from the root gives the search-then-shoot walk |
| Modules.ModulesSystem.StepCannon | src/modules_system.cpp:80-94 | one round of step leaves exactly the store and shots CannonStep gives: the timer cooled down, then the tree walked if the cannon is automated |
| Modules.ModulesSystem.Step | src/modules_system.cpp:77-96 | every cannon is stepped in container order; the store and shots are the fold of CannonStep |
| Gacha.Weight | src/gacha_system.cpp:51-53 | a module's weight is its drop rate, or 1 when it has none |
| Gacha.DefaultPools | src/gacha_system.cpp:11-26 | there are five level pools |
| Gacha.DefaultWeights | src/gacha_system.cpp:11-26 | the steering wheel, the helper and EMPTY are never drawn by default; every weight is non-negative |
| Gacha.PoolOf | src/gacha_system.cpp:43-45 | a level without a pool has the empty pool |
| Gacha.GachaSystem.constructor | src/gacha_system.cpp:11-26 | the default pools and drop rates |
| Gacha.GachaSystem.SetLevelPool | src/gacha_system.cpp:29-34 | the level's pool becomes the given modules, growing the list when needed, and the other pools are kept |
| Gacha.GachaSystem.SetDropRate | src/gacha_system.cpp:36-38 | one drop rate is set, and nothing else changes |
| Gacha.GachaSystem.GetModuleOptions | src/gacha_system.cpp:40-71 | an empty pool gives no options; otherwise three options are drawn, all from the level's pool |
| Gacha.GachaSystem.DisplayGacha | src/gacha_system.cpp:73-76 | options are offered exactly when the level's pool is non-empty, and all come from it |
| SaveLoad.ModuleTypeToString | src/saveload_system.cpp:6-19 | each of the eight named types gets its own name, and FAST_CANNON gets "UNKNOWN" |
| SaveLoad.ModuleTypeFromString | src/saveload_system.cpp:22-33 | exactly the eight names are accepted; any other string throws |
| SaveLoad.WrittenCodec | src/saveload_system.cpp:6-33 | the eight named types read back as themselves; any string that is not a name, "UNKNOWN" among them, is rejected |
| SaveLoad.FastCannonIsNotReadBack | src/saveload_system.cpp:17 | a FAST_CANNON is saved as "UNKNOWN", and loading that throws |
| SaveLoad.CorrectedCodec | src/saveload_system.cpp:6-33 | with a name for FAST_CANNON, the codec is a bijection between all nine types and their names; "UNKNOWN" is still rejected |
| SaveLoad.AsInt32 | src/saveload_system.cpp:66-68 | static_cast<int> wraps into the 32-bit two's-complement range and is the identity inside it |
| SaveLoad.AsUint32 | src/saveload_system.cpp:81-88 | int to uint works modulo 2^32 |
| SaveLoad.CountReadBack | src/saveload_system.cpp:81-88 | a uint count read through get<int> and stored back as uint is unchanged |
| SaveLoad.CodecsInjective | src/saveload_system.cpp:6-33 | both codecs, as written and corrected, are injective in both directions |
| SaveLoad.RowJson | src/saveload_system.cpp:35-60 | a row is written as an array of names, one per cell, in order |
| SaveLoad.UsedJson | src/saveload_system.cpp:35-60 | the grid is written as an array of rows, one per grid row, in order |
| SaveLoad.UnusedFields | src/saveload_system.cpp:35-60 | the inventory object has exactly one key per inventory entry |
| SaveLoad.UnusedFieldsKeys | src/saveload_system.cpp:35-60 | the inventory object has no key but the names of inventory entries |
| SaveLoad.ToJsonSpec | src/saveload_system.cpp:35-60 | toJson writes exactly the seven keys, with the names, healths, expansion, grid and inventory |
| SaveLoad.KeyLessTotal | src/saveload_system.cpp:73-75 | the key order of a JSON object (std::string's operator<) is a strict total order |
| SaveLoad.SortedKeys | src/saveload_system.cpp:73-75 | an object's keys as the range-for visits them: each key once, in strictly ascending order |
| SaveLoad.ObjectItems | src/saveload_system.cpp:73-75 | a range-for over an object visits each value once, in ascending key order |
| SaveLoad.ObjectGridReadInKeyOrder | src/saveload_system.cpp:71-79 | a grid stored as the object {"b": ["PLATFORM"], "a": ["EMPTY"]} loads as [[EMPTY], [PLATFORM]] |
| SaveLoad.ParseRow | src/saveload_system.cpp:70-79 | a row reads back when every item is a name, with one module per item in order |
| SaveLoad.ParseRows | src/saveload_system.cpp:70-79 | the grid reads back when every row does, with one row per item in order; a row may be an array, null (an empty row), a single value, or an object whose values are read in ascending key order |
| SaveLoad.UnusedOf | src/saveload_system.cpp:81-88 | the inventory read back has one entry per key |
| SaveLoad.UnusedOfKeys | src/saveload_system.cpp:81-88 | the inventory read back has no type but those its keys name |
| SaveLoad.ReloadedCounts | src/saveload_system.cpp:81-88 | the counts after the int and uint round trip are the counts modulo 2^32, with the same keys |
| SaveLoad.Reloaded | src/saveload_system.cpp:62-92 | what a save and load give back: names, grid and expansion kept, healths truncated, counts modulo 2^32 |
| SaveLoad.RowRoundTrip | src/saveload_system.cpp:70-79 | a written row reads back as itself whenever the codec covers its modules |
| SaveLoad.UsedRoundTrip | src/saveload_system.cpp:70-79 | the written grid reads back as itself whenever the codec covers it |
| SaveLoad.FieldsReadable | src/saveload_system.cpp:81-88 | every key toJson writes for the inventory names a module the codec reads back |
| SaveLoad.EntriesReadBack | src/saveload_system.cpp:81-88 | each inventory entry comes back under its own type, with its count after the uint round trip |
| SaveLoad.NoEntryInvented | src/saveload_system.cpp:81-88 | nothing else comes back: every type read back was in the inventory |
| SaveLoad.FieldsReadBack | src/saveload_system.cpp:81-88 | the inventory object reads back as the reloaded counts |
| SaveLoad.UnusedRoundTrip | src/saveload_system.cpp:81-88 | the unused_modules value reads back as the reloaded counts, null included |
| SaveLoad.ParseReadableObject | src/saveload_system.cpp:81-88 | a readable object is parsed as its inventory |
| SaveLoad.JsonRoundTrip | src/saveload_system.cpp:35-92 | fromJson(toJson(d)) is Reloaded(d) whenever the codec covers every module d mentions |
| SaveLoad.SaveLoadRoundTrip | src/saveload_system.cpp:35-92 | with the corrected codec every GameData survives a save and a load as Reloaded says |
| SaveLoad.ReloadedExact | src/saveload_system.cpp:62-92 | whole healths and uint-sized counts come back exactly |
| SaveLoad.FractionalHealthIsTruncated | src/saveload_system.cpp:66-68 | a health of 99.5 comes back as 99 |
| SaveLoad.GridEntryUnreadable | src/saveload_system.cpp:70-79 | one grid entry the codec cannot read makes the whole load throw |
| SaveLoad.InventoryEntryUnreadable | src/saveload_system.cpp:81-88 | one inventory entry the codec cannot read makes the whole load throw |
| SaveLoad.WrittenCodecLosesFastCannon | src/saveload_system.cpp:6-19 | under the codec as written, data whose grid or inventory holds FAST_CANNON cannot be loaded back |
| SaveLoad.WrittenCodecRoundTrip | src/saveload_system.cpp:6-33 | under the codec as written, data without FAST_CANNON round-trips as it does under the corrected codec |
| SaveLoad.ToJson | src/saveload_system.cpp:35-60 | the loops building the JSON compute ToJsonSpec with the corrected codec (FAST_CANNON written under its own name, not "UNKNOWN") |
| SaveLoad.UnusedLoop | src/saveload_system.cpp:51-58 | the unused_modules loop gives the inventory value, in any visiting order |
| SaveLoad.FieldsLoop | src/saveload_system.cpp:51-58 | the key loop builds exactly the inventory object |
| SaveLoad.UnusedFieldsAdd | src/saveload_system.cpp:51-58 | one more inventory entry adds exactly its field to the object |
| SaveLoad.ReadRows | src/saveload_system.cpp:71-79 | with the corrected codec, the outer loop over the used_modules rows gives ParseRows: every row read in order, or None at the first row that does not read back |
| SaveLoad.ReadRow | src/saveload_system.cpp:74-77 | with the corrected codec, the row loop reads the row as the range-for visits it (an array's items, an object's values in key order, nothing for null) and gives None at the first item that is not a name |
| SaveLoad.ReadUnused | src/saveload_system.cpp:81-88 | the unused_modules loop gives ParseUnused, in any key order |
| SaveLoad.ReadFields | src/saveload_system.cpp:81-88 | the key loop gives the object's inventory when every key is readable, and None otherwise |
| SaveLoad.UnusedOfAdd | src/saveload_system.cpp:81-88 | one more readable key adds exactly its type and count to the inventory |
| SaveLoad.FromJson | src/saveload_system.cpp:62-92 | fromJson with the corrected codec gives FromJsonSpec: None exactly where the C++ code throws; a grid or row stored as an object is read by its values in ascending key order |
| SaveLoad.CreateGameData | src/saveload_system.cpp:94-105 | the names, then the ship's health, expansion, grid and inventory |
| SaveLoad.RestoreShip | src/scenes/game_level.cpp:81-90 | a level start with loaded data restores health, maximum health, grid and inventory, and keeps the initial expansion |
| SaveLoad.CreateThenRestore | src/scenes/game_level.cpp:81-90 | restoring from a ship's saved data gives that ship back, except for its expansion |
| SaveLoad.SaveLoadSystem.constructor | src/saveload_system.cpp:107-141 | no files and no loaded data |
| SaveLoad.SaveLoadSystem.SaveGame | src/saveload_system.cpp:107-124 | when the file opens, its JSON (built with the corrected codec) is written at data_path() + "/" + name and becomes the loaded data; otherwise nothing changes |
| SaveLoad.SaveLoadSystem.LoadGame | src/saveload_system.cpp:126-141 | false when the file does not open; otherwise the data fromJson reads back with the corrected codec (object-valued lists included), or the exception |
| SaveLoad.SaveThenLoad | src/saveload_system.cpp:107-141 | with the corrected codec, a successful save followed by a load of the same file gives Reloaded(data) for every GameData |
| Physics.LineLine | src/physics_system.cpp:22-35 | parallel or collinear segments (a zero denominator) never meet |
| Physics.LineLineExact | src/physics_system.cpp:22-35 | on integer vertices the float test equals an exact integer test without division |
| Physics.LineLineSymmetric | src/physics_system.cpp:22-35 | whether two segments meet does not depend on which one is tested against the other |
| Physics.Next | src/physics_system.cpp:38-66 | the vertex after the last one is the first |
| Physics.PolyLine | src/physics_system.cpp:38-66 | the loop reports a hit exactly when some edge, the closing edge included, meets the segment |
| Physics.PolyLineDegenerate | src/physics_system.cpp:38-66 | a polygon with fewer than two vertices meets nothing |
| Physics.ClosingEdgeTested | src/physics_system.cpp:38-66 | the last edge tested joins the last vertex to the first |
| Physics.PolyPoly | src/physics_system.cpp:100-122 | the loop reports a collision exactly when an edge of p1 meets p2 |
| Physics.PolyPolySymmetric | src/physics_system.cpp:100-122 | polyPoly holds in both orders or in neither |
| Physics.PolyPolyFlip | src/physics_system.cpp:100-122 | an edge of p1 meets p2 exactly when an edge of p2 meets p1 |
| Physics.PolyPolyEmpty | src/physics_system.cpp:100-122 | a polygon with no vertices collides with nothing |
| Physics.PolyPoint | src/physics_system.cpp:71-96 | the flag ends true exactly when an odd number of edges toggle the ray |
| Physics.HorizontalEdgeNeverToggles | src/physics_system.cpp:71-96 | a horizontal edge never toggles |
| Physics.AboveAllOutside | src/physics_system.cpp:71-96 | a point level with or above every vertex is outside |
| Physics.BelowAllOutside | src/physics_system.cpp:71-96 | a point below every vertex is outside |
| Physics.PolyPolyInside | src/physics_system.cpp:124-135 | the loop reports true exactly when every vertex of p2 is inside p1 |
| Physics.EmptyIsInside | src/physics_system.cpp:124-135 | a polygon with no vertices is inside any other |
| Physics.NothingInsideEmpty | src/physics_system.cpp:124-135 | nothing with a vertex is inside a polygon with no vertices |
| Physics.NodePolygon | src/physics_system.cpp:250-267 | the cell's four corners, clockwise from the top left, one cell apart |
| Physics.TileCentreInsideNode | src/physics_system.cpp:250-267 | the pixel point of a tile lies inside that tile's square under polyPoint |
| Physics.Dwell | src/physics_system.cpp:413-425 | the ship is in the base after a frame exactly when that frame collides; the base's polygon, bunny count and lock are untouched |
| Physics.DwellAccumulates | src/physics_system.cpp:413-425 | a ship in the base has the time of every later colliding frame added to its timer |
| Physics.DwellFromArrival | src/physics_system.cpp:413-425 | arriving with a cleared timer, the timer holds all but the first frame's time |
| Physics.LeavingResets | src/physics_system.cpp:413-425 | leaving the base clears both the flag and the timer |
| Physics.WalkPath | src/physics_system.cpp:303-345 | the component is dropped exactly when the path is empty; otherwise the path is kept or loses its first cell |
| Physics.WalkPathDropsArrivedHead | src/physics_system.cpp:314-317 | the cell dropped is always the one the enemy walked to |
| Physics.WalkingTheCellsEmptiesThePath | src/physics_system.cpp:303-345 | arriving at each cell in turn uses the path up exactly, and then the component goes |
| Physics.ModEffectStep | src/physics_system.cpp:326-333 | an unslowed enemy is unchanged; a slowed one counts the effect down by the frame time, keeps its speed while time is left, and gets its type's speed back when it runs out |
| Physics.UnaffectedStays | src/physics_system.cpp:326-333 | an enemy that is no longer slowed stays unslowed |
| Physics.ModEffectWearsOff | src/physics_system.cpp:326-333 | with non-negative frame times, a slowed enemy is still slowed exactly while its effect time exceeds the total time |
| World.StepAt | src/world_system.cpp:201-325 | no rule makes the collisions container longer |
| World.RemoveAllGone | src/world_system.cpp:317-321 | after the removal an entity has no component in any registered container |
| World.RemoveAllKeepsGone | src/world_system.cpp:317-321 | an entity already gone stays gone when another entity is removed |
| World.MissingMotionDropped | src/world_system.cpp:208-212 | a collision with an entity that has no motion only queues both entities |
| World.ProjectileHitsEnemy | src/world_system.cpp:215-236 | the enemy keeps its new, truncated health while that is above 0 and is otherwise gone; the projectile is gone from every registered container but stays in the unregistered player-projectile container |
| World.BunnyAfterHitEffect | src/world_system.cpp:239-266 | the jail takes the damage; a broken jail frees the bunny and shows the freed texture |
| World.ProjectileHitsJail | src/world_system.cpp:239-266 | the jail loses the damage, at 0 or less the bunny is freed, and the projectile is gone |
| World.EnemyRamsShip | src/world_system.cpp:269-293 | the ship loses 50 health, the enemy is gone, and the ship dies exactly when it had at most 50 |
| World.RamSkipsTheRest | src/world_system.cpp:275-279 | a ram is the only way the ship dies, and no island or base check follows it |
| World.IslandResetsCamera | src/world_system.cpp:298-305 | the camera goes back exactly when, with no ram, the ship touches an island; both are then queued |
| World.NormalEndClearsCollisions | src/world_system.cpp:324 | when no ship dies, the collisions container is empty afterwards |
| World.Handle | src/world_system.cpp:298-305 | the camera-reset count never drops and grows by at most one per entry handled |
| World.DeathStopsTheLoop | src/world_system.cpp:275-279 | a death ends the loop at once and leaves the collisions uncleared |
| World.HandlePlayerDeath | src/world_system.cpp:336-342 | the current scene is kept for restart and the death scene is requested |
| World.RemoveQueuedLoop | src/world_system.cpp:317-321 | the removal loop computes RemoveQueued over the queue |
| World.HandleCollisions | src/world_system.cpp:201-325 | the loop computes Handle over the entries; on a death it records the restart scene and requests the death scene |
| World.RemoveStep | src/world_system.cpp:197 | one round removes the last moving entity everywhere and shortens the motions container |
| World.RestartingStep | src/world_system.cpp:197 | each round keeps the restart invariant: entities already removed stay gone, and all others are untouched |
| World.RestartGame | src/world_system.cpp:188-198 | afterwards no motion is left, no entity that moved has a registered component, and every other entity keeps its entries |
| GameLevel.Without | src/scenes/game_level.cpp:217-225 | drops every occurrence of the key and keeps the rest in order |
| GameLevel.WithoutNoDup | src/scenes/game_level.cpp:217-225 | dropping a key keeps the order free of duplicates |
| GameLevel.TrackKeepsTracked | src/scenes/game_level.cpp:217-225 | every press or release keeps the key order free of duplicates and equal, as a set, to the active keys |
| GameLevel.PressGoesLast | src/scenes/game_level.cpp:217-225 | a newly pressed key goes last in the order; pressing an active key keeps the order |
| GameLevel.Clamp | src/scenes/game_level.cpp:227-238 | for lo <= hi the result lies in [lo, hi], and equals v when v does |
| GameLevel.Axis | src/scenes/game_level.cpp:227-238 | a velocity component is -WALK_SPEED, 0 or WALK_SPEED, depending on which of the two keys are held |
| GameLevel.PressTurnsThePlayer | src/scenes/game_level.cpp:240-260 | pressing a movement key that was not held makes the player walk facing it |
| GameLevel.IdleIffNoMoveKey | src/scenes/game_level.cpp:240-260 | the player is IDLE exactly when no movement key is held, and then has zero velocity |
| GameLevel.SetCell | src/scenes/game_level.cpp:538-558 | only the written cell changes, and the grid keeps its shape |
| GameLevel.SetCellCount | src/scenes/game_level.cpp:538-558 | writing v over u moves one unit of the count from u to v |
| GameLevel.StationingToggles | src/scenes/game_level.cpp:311-333 | an idle player on a module stations, and a second press brings it back facing as before |
| GameLevel.StationingOnlyOnModules | src/scenes/game_level.cpp:311-333 | stationing never turns the player, and never happens on EMPTY, PLATFORM or off the grid |
| GameLevel.FirstWhere | src/scenes/game_level.cpp:446-467 | the index found holds the property and no earlier bunny does; None when no bunny does |
| GameLevel.StationFirst | src/scenes/game_level.cpp:446-455 | the first stationable bunny moves from the ship onto a module, and no other bunny changes |
| GameLevel.UnstationFirst | src/scenes/game_level.cpp:458-467 | the first bunny on a module goes back onto the ship, and no other bunny changes |
| GameLevel.StationingMovesOneBunny | src/scenes/game_level.cpp:446-467 | stationing takes one bunny off the ship when one is stationable; unstationing puts one back |
| GameLevel.UnstationUndoesStation | src/scenes/game_level.cpp:446-467 | unstationing right after stationing restores the bunnies when none was on a module before |
| GameLevel.ClicksKeepDeckValid | src/scenes/game_level.cpp:530-625 | both clicks keep the grid shaped and no helper in a cell, and only cannon and laser cells automated |
| GameLevel.PlacingConservesStock | src/scenes/game_level.cpp:530-585 | placing conserves every module's stock except PLATFORM's, which loses one |
| GameLevel.RemovingConservesStock | src/scenes/game_level.cpp:588-625 | removing conserves every module's stock except PLATFORM's, which gains the freed cell |
| GameLevel.PlacingConservesHelpers | src/scenes/game_level.cpp:559-584 | helpers in the inventory plus automated cells are conserved by a left click |
| GameLevel.RemovingConservesHelpers | src/scenes/game_level.cpp:588-625 | helpers in the inventory plus automated cells are conserved by a right click |
| GameLevel.RemoveUndoesPlace | src/scenes/game_level.cpp:530-625 | removing what was just placed on a platform gives the deck back exactly |
| GameLevel.DeautomateUndoesAutomate | src/scenes/game_level.cpp:559-625 | automating a weapon with a helper and removing the helper again gives the deck back |
| GameLevel.NoStockNoPlacement | src/scenes/game_level.cpp:534-536 | a count of zero blocks every placement |
| GameLevel.ExpireOneKeepsGet | src/scenes/game_level.cpp:720-740 | one entity's entry leaves every other entity's projectile untouched |
| GameLevel.ExpireOneKeepsGone | src/scenes/game_level.cpp:720-740 | an entity with no component stays so through another entity's entry |
| GameLevel.ExpireOneKeepsContainer | src/scenes/game_level.cpp:720-729 | an entry of an unregistered container keeps that container's keys and length |
| GameLevel.ExpireKeepsContainer | src/scenes/game_level.cpp:720-729 | the unregistered player-projectile container keeps every entry: an expired projectile is never taken out of it |
| GameLevel.ExpireKeepsGone | src/scenes/game_level.cpp:720-740 | entities already gone stay gone through the loop |
| GameLevel.ExpiredProjectileGone | src/scenes/game_level.cpp:720-740 | a projectile whose lifetime is over when the loop reaches it ends with no registered component |
| GameLevel.ExpireSkipsAbsent | src/scenes/game_level.cpp:720-740 | entities the loop does not list keep their projectile |
| GameLevel.LiveProjectileAges | src/scenes/game_level.cpp:720-740 | a live projectile listed once ages by exactly dt |
| GameLevel.ExpireProjectiles | src/scenes/game_level.cpp:720-740 | the lifetime loop computes Expire over the container's entities |
| GameLevel.GachaFrame | src/scenes/tutorial.cpp:115-121 | the gacha is shown exactly when it is wanted and the latch is not set, and the latch is then set |
| GameLevel.GachaShownAtMostOnce | src/scenes/level_02.cpp:62-70 | between two level starts the gacha is shown at most once, and never once the latch is set |
| GameLevel.Level.constructor | src/scenes/game_level.cpp:40-42 | no keys held, and the given player, ship and bunnies |
| GameLevel.Level.HandlePlayerMovement | src/scenes/game_level.cpp:208-261 | nothing while stationing; otherwise the key is tracked and the player walks as Walked says |
| GameLevel.Level.UpdateCameraMoveDirection | src/scenes/game_level.cpp:263-279 | the steering keys are tracked like the walking keys |
| GameLevel.Level.HandlePlayerStationing | src/scenes/game_level.cpp:311-333 | the steering keys are cleared, then the stationing rule runs |
| GameLevel.Level.HandleInput | src/scenes/game_level.cpp:335-383 | releasing B outside stationing toggles build mode and changes nothing else; releasing Space while idle or stationed clears the steering keys and applies the stationing rule; a stationed player on an EMPTY or PLATFORM cell goes back to IDLE, on a steering wheel tracks the steering keys, on any other module changes nothing; a builder's keys are ignored; an idle or walking player (including one who released Space while walking) walks as Track and Walked say |
| GameLevel.Level.StationBunny | src/scenes/game_level.cpp:446-455 | the loop stations the first stationable bunny |
| GameLevel.Level.UnstationBunny | src/scenes/game_level.cpp:458-467 | the loop unstations the first bunny on a module |
| GameLevel.Level.RemoveStation | src/scenes/game_level.cpp:700-705 | the cell goes back to PLATFORM, its automation is gone, and its module returns to the inventory |
| GameLevel.Level.HandleMouseClick | src/scenes/game_level.cpp:469-628 | a left press with a module selected places it as PlaceSelected says whenever the player is not stationed, in build mode or not; a right press removes as RemoveModule says only in build mode; nothing else changes the deck |
| GameLevel.Level.PlaceModule | src/scenes/game_level.cpp:530-585 | the deck becomes PlaceSelected of the old deck |
| GameLevel.Level.RemoveAt | src/scenes/game_level.cpp:588-625 | the deck becomes RemoveModule of the old deck |
| GameLevel.Level.RecountHelpers | src/scenes/game_level.cpp:766-771 | the HELPER_BUNNY count becomes the number of bunnies on the ship |
| GameLevel.Level.Update | src/scenes/game_level.cpp:708-779 | unless the gacha shows or the player builds, both lifetime loops run and the helpers are recounted; otherwise nothing changes |
| Tutorial.InputAdvancesOnMoveKeys | src/scenes/tutorial.cpp:72-79 | input moves the tutorial exactly when a movement key is pressed during WASD_KEYS, and then by one phase |
| Tutorial.AdvanceIsMonotone | src/scenes/tutorial.cpp:86-96 | an update moves the phase forward by at most two, each step only on its own condition |
| Tutorial.TwoPhasesInOneUpdate | src/scenes/tutorial.cpp:86-96 | one update can take SPACEBAR_KEY straight to GOTO_BASE |
| Tutorial.RunNeverGoesBack | src/scenes/tutorial.cpp:72-96 | over any run of events the phase never moves backwards |
| Tutorial.StaysWithoutMovement | src/scenes/tutorial.cpp:72-96 | without a movement key press the tutorial never leaves WASD_KEYS |
| Tutorial.TutorialLevel.constructor | src/scenes/tutorial.cpp:17-23 | gacha pool 0 holds the helper bunny alone, and the phase starts at WASD_KEYS |
| Tutorial.TutorialLevel.Init | src/scenes/game_level.cpp:59-60 | the latch and the upgrade count reset; the tutorial phase does not |
| Tutorial.TutorialLevel.LevelHandleInput | src/scenes/tutorial.cpp:72-79 | the phase moves as TutorialInput says |
| Tutorial.TutorialLevel.LevelUpdate | src/scenes/tutorial.cpp:85-123 | the phase advances; with the first bunny on the base and one upgrade, Level 1 is chosen, requested and saved (with the corrected codec); otherwise the gacha is shown once |
| Levels.Decide | src/scenes/level_02.cpp:38-72 | Advance exactly when the upgrades equal the bunnies to win; the gacha exactly when not won, fewer upgrades than points, and not yet offered |
| Levels.LevelsChain | src/scenes/level_02.cpp:47-59 | Level 2 leads to Level 3, Level 3 to Level 4, and Level 4 to the end cutscene with Level 4 saved |
| Levels.PoolsGrow | src/scenes/level_03.cpp:11-18 | levels 3 and 4 add the platform to level 2's pool; none offers the helper or the steering wheel |
| Levels.UnlockBase | src/scenes/level_02.cpp:22-25 | only the first base is unlocked, and nothing else changes |
| Levels.ProgressionLevel.constructor | src/scenes/level_02.cpp:11-18 | the level's gacha pool becomes its module list |
| Levels.ProgressionLevel.Init | src/scenes/game_level.cpp:97-102 | every bunny the map placed is one to win; the latch and upgrades reset |
| Levels.ProgressionLevel.LevelInit | src/scenes/level_02.cpp:22-25 | the store becomes UnlockBase of the old store |
| Levels.ProgressionLevel.LevelUpdate | src/scenes/level_02.cpp:38-72 | on a win, the next level is recorded, the win scene requested and the ship saved (with the corrected codec); otherwise the gacha is offered once, as Decide says |
| Levels.OfferedAtMostOnce | src/scenes/level_02.cpp:62-70 | over a run of updates before the win the gacha is offered at most once |
| EndCredits.CheckDialogsSteps | src/scenes/end_cutscene.cpp:79-124 | the phase moves on exactly when the timer has run out; the menu is requested exactly when that passes the last phase; the new timer is the thanks time or the normal one |
| EndCredits.RunIsMonotone | src/scenes/end_cutscene.cpp:109-123 | the phase never goes back and moves at most one phase per frame |
| EndCredits.PhaseHoldsWhileTimerRuns | src/scenes/end_cutscene.cpp:109-123 | while the timer exceeds the frames' total time, the phase holds and the timer runs down by that total |
| EndCredits.EndCutscene.constructor | src/scenes/end_cutscene.cpp:14-16 | phase 0 with the normal dialogue time |
| EndCredits.EndCutscene.HandleInput | src/scenes/end_cutscene.cpp:40-44 | releasing Space requests the main menu from any phase |
| EndCredits.EndCutscene.CheckDialogsStep | src/scenes/end_cutscene.cpp:79-124 | the phase and timer move as CheckDialogs says, and the menu is requested when it says so |
| EndCredits.EndCutscene.Update | src/scenes/end_cutscene.cpp:127-139 | the checkDialogs step, then the main menu whenever the last phase is passed |
| IntroScene.RevealOneCharacter | src/scenes/cutscene.cpp:82-92 | a reveal shows at most one character, the one at the index, and only once the timer reaches CHAR_TIME_MS |
| IntroScene.RevealRunTypesTheLine | src/scenes/cutscene.cpp:82-92 | over any run of frames the text shown is the old text followed by the line's next characters, in order |
| IntroScene.RevealKeepsShows | src/scenes/cutscene.cpp:82-92 | a reveal keeps the shown text equal to the earlier text plus the characters revealed so far |
| IntroScene.IntroCutscene.constructor | src/scenes/cutscene.cpp:12-14 | no text and no line, with the first phase's time |
| IntroScene.IntroCutscene.Init | src/scenes/cutscene.cpp:16-40 | the shown text is a single space and the first line is current |
| IntroScene.IntroCutscene.RevealCharacters | src/scenes/cutscene.cpp:82-92 | the typewriter moves as Reveal says |
| IntroScene.IntroCutscene.Update | src/scenes/cutscene.cpp:94-105 | the dialogue timer runs down; when it has run out the line restarts from its first character; then one reveal; the shown text never shrinks |

## Left out

- Float kinematics (positions, velocities, steering, enemy pursuit and the player's clamp to the ship) are not modelled. Only the rules that decide on them are. Reals stand for floats: rounding and float overflow are not modelled.
- Physics.LineLine: does not model float rounding or the int overflow of the products on very large coordinates, because the model computes on unbounded integers and exact reals.
- collidesAABB, the spherical tests and the collision detection that fills the collisions container are not modelled. The model takes the collisions container as given.
- HandleCameraMovement and the camera's friction flags are not modelled: they only move the camera's floats.
- GameLevel.Level.UpdateCameraMoveDirection: does not model the camera friction flags, because they only feed HandleCameraMovement.
- Sound effects, rendering, window titles and console output are not modelled.
- Map loading (the map files that place islands, bunnies, enemies and the base) is not modelled. Levels.ProgressionLevel.Init takes the bunnies placed as a parameter.
- JSON text and file I/O are not modelled. The JSON value is a datatype, the files are a map from path to JSON, and whether a file opens is the parameter `opens`.
- Gacha.GachaSystem.GetModuleOptions: does not model the weighted random draw. Each draw is a free choice from the level's pool, because randomness is left out. The weights themselves are stated by Gacha.Weight and Gacha.DefaultWeights.
- The choice callback of the gacha screen, which adds the chosen module and raises upgradesReceived, is not part of this model. The levels read upgradesReceived but never raise it themselves.
- In HandleMouseClick, the clicks and hovering of UI elements, the inventory refresh, and the firing of a stationed player's cannon or laser are not modelled. Only the ship-grid placement and removal rules are.
- The lifetimes of laser beams and disasters in Update, and the other systems Update steps, are not modelled. Only the two projectile lifetime loops and the helper recount are.
- GameLevel.Level.HandlePlayerStationing: states that the set of held steering keys is cleared, but nothing about their press order afterwards, because stationing clears the set and leaves the order list behind.
- The end credits' images, texts and the slide of the image from phase 4 on are not modelled. The intro cutscene's images and fade are not modelled either.
- Textures and positions of the UI elements are values; the drawing is not modelled.
- Buttons.Element.DoUpdate: the onHover, onActive and onUpdate callbacks only leave an entry in `calls`; their own effects are not modelled, because they are lambdas the scenes supply. For example, the tutorial's onUpdate rewrites a Box's texture, which this model does not show.
- SaveLoad.ToJson: uses the corrected codec, so FAST_CANNON is written under its own name, not as "UNKNOWN" as `src/saveload_system.cpp:17` does; the as-written output is ToJsonSpec(d, ModuleTypeToString), whose loss WrittenCodecLosesFastCannon proves.
- SaveLoad.ReadRows: reads names with the corrected codec, so a FAST_CANNON cell reads back where the C++ `moduleTypeFromString` would not; "UNKNOWN" is rejected in both (CorrectedCodec, WrittenCodec).
- SaveLoad.ReadRow: reads names with the corrected codec, as ReadRows does.
- SaveLoad.SaveLoadSystem.SaveGame: writes with the corrected codec, so a save holding FAST_CANNON differs from the program's file at that cell or key.
- SaveLoad.SaveLoadSystem.LoadGame: reads with the corrected codec; a file the program itself wrote holding "UNKNOWN" still gives Thrown, as in the C++ code, because CorrectedCodec rejects that name too.
- SaveLoad.SaveThenLoad: is proved for the corrected codec; under the as-written codec a save holding FAST_CANNON does not load back (WrittenCodecLosesFastCannon), and one without it does (WrittenCodecRoundTrip).
- Tutorial.TutorialLevel.LevelUpdate: the save it states is ToJsonSpec(…, ModuleName), the corrected codec, not the program's "UNKNOWN" for FAST_CANNON.
- Levels.ProgressionLevel.LevelUpdate: the save it states is ToJsonSpec(…, ModuleName), the corrected codec, not the program's "UNKNOWN" for FAST_CANNON.
- Where the C++ code asserts, or reads a missing component (which would crash or create one), the model skips that entity.
- include/tinyECS/tiny_ecs.hpp is not part of this model; the container semantics follow the entry list described above.

## Findings

| source | as written | input that shows it | evidently intended | confidence | as-written member | corrected member |
|---|---|---|---|---|---|---|
| src/saveload_system.cpp:6-19 | moduleTypeToString has no FAST_CANNON case, so FAST_CANNON is saved as "UNKNOWN", and moduleTypeFromString throws when it reads that name back | any GameData holding FAST_CANNON; the default pools 0 and 1 offer it, but the tutorial replaces pool 0 and no scene shows pool 1, so in the scenes as shipped the loss is latent | every module type saved under its own name, which loads back as that type | high, not executed | SaveLoad.WrittenCodecLosesFastCannon | SaveLoad.SaveLoadRoundTrip |
