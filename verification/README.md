# Versus editor and kernel, modelled in Dafny

Versus is a scene editor with two parts. The first is a three.js application: an editor window and a separate play window. The second is a small C++ Windows kernel that hosts an HTML view on Direct3D 11. This project models the bookkeeping of both parts as immutable Dafny datatypes and pure transition functions, and proves what each operation promises.

**Editor side**
- The undo/redo history (`History`).
- The editor's project load and save (`Editor`).
- The scene graph and object registry (`SceneGraph`, `ObjectManager`).
- Name sanitising and uniquifying (`Names`).
- The object factories (`Creators`) and the older single-file editor revision (`Legacy`).
- The physics body registry and player rules (`Physics`, `PlayerControl`).
- The control-mode state machine and picking (`Controls`).
- The panel listeners (`UI`).
- The play window's loading (`Game`).

**Kernel side**
- The Win32 input decoders and queues (`Input`) and the engine tick (`Kernel`).
- The GPU driver's id counters, resource maps and command list (`GpuDriver`).
- The file-handle table (`FileSystem`).
- DirectWrite's text-position windows (`TextAnalysis`) and font-weight bucketing (`FontWeight`).
- Path normalisation (`DirectoryHelper`).
- The constant and vertex buffer wrappers (`Buffers`).
- The stopwatch (`Timer`).

**How the model is built**
- JavaScript objects become records in a map keyed by a numeric handle.
- History actions are data, `Added(h)` and `Removed(h)`, interpreted by the editor model instead of stored closures.
- Every outside dependency is a parameter. This covers the model loader's outcome, the module path, the clock, a device call's `HRESULT`, the solver's stepped positions, bounding-box sizes and the browser's answer to a pointer-lock request.
- Positions and speeds are `real`.
- `uint32_t` and `UINT` arithmetic wraps explicitly modulo 2^32.

## Model

| member | source | states |
|---|---|---|
| History.Initial | src/js/Editor.js:24-27 | A new editor has empty undo and redo stacks and nothing unsaved |
| History.AddHistory | src/js/Editor.js:319-327 | The action becomes the top of the undo stack, the redo stack is emptied and the project is dirty; a full stack of 50 loses its oldest entry |
| History.AddHistoryBounded | src/js/Editor.js:26 | Recording keeps the undo stack within 50 entries, and a full stack stays full |
| History.Undo | src/js/Editor.js:329-336 | Undo on an empty stack changes nothing, not even the dirty flag; otherwise the top undo action moves to the redo stack, is returned for replay, and the project is dirty |
| History.Redo | src/js/Editor.js:338-345 | The mirror of undo: the top redo action moves back to the undo stack |
| History.UndoThenRedo | src/js/Editor.js:329-345 | Undo followed by redo restores both stacks and replays the action that was undone |
| History.RedoThenUndo | src/js/Editor.js:329-345 | Redo followed by undo restores both stacks |
| History.UndoRedoPreserve | src/js/Editor.js:329-345 | Undo and redo keep the stack bound and the total number of recorded actions |
| History.AddHistoryDiscardsRedo | src/js/Editor.js:319-327 | After a new edit, redo does nothing |
| History.AddAllKeepsNewest | src/js/Editor.js:319-327 | Recording a run of actions leaves exactly the newest 50 of all recorded actions, in order |
| Names.SanitizeName | src/js/utils/helpers.js:4-9 | The name is non-empty, at most 20 characters, and a prefix of the defaulted input |
| Names.SanitizeNameDefault | src/js/utils/helpers.js:5 | A missing or empty name is named "Object" |
| Names.LastDotOfSplit | src/js/utils/helpers.js:6 | In `stem.ext` with a dot-free extension, the last '.' is the one right after the stem |
| Names.SanitizeNameDropsExtension | src/js/utils/helpers.js:5-8 | A file name `stem.ext` is named by its stem cut to 20 characters; dots inside the stem survive |
| Names.SanitizeNameKeepsDotless | src/js/utils/helpers.js:5-8 | A name with no dot, or whose only dot is its first character, is only cut to 20 characters |
| Names.SanitizeNameFixpoint | src/js/utils/helpers.js:5-8 | A dot-free name of at most 20 characters comes back unchanged, so sanitising is idempotent on such names |
| Names.LegacySanitizeName | src/js/renderer.js:136-140 | The older sanitiser defaults to "Object", cuts to 15 characters and keeps short names whole |
| Names.LegacyKeepsExtension | src/js/renderer.js:136-140 | For every file name `stem.ext` of at most 15 characters, the older sanitiser keeps it whole while the newer one gives the stem |
| Names.SuffixedInjective | src/js/managers/ObjectManager.js:282-287 | Different suffix numbers give different `base_i` names |
| Names.GenerateUniqueName | src/js/managers/ObjectManager.js:274-290 | The result is never a name in use. It is the sanitised base when that is free, with the base's counter created at 1. Otherwise it is `base_i` for the least free i at or above the counter, and the counter moves to i + 1 |
| Names.GenerateUniqueNameFrame | src/js/managers/ObjectManager.js:274-290 | Uniquifying leaves the counters of every other base alone |
| Names.FinishRename | src/js/managers/ObjectManager.js:347-365 | Escape or an empty trimmed value keeps the name and counters. A commit gives a name no other registered object has, and that name is the sanitised value when it is free |
| Names.FinishRenameSanitised | src/js/managers/ObjectManager.js:347-365 | A committed name that was free is at most 20 characters |
| Creators.ParsePrimitive | src/js/utils/creators.js:10-20 | Exactly "cube", "sphere" and "plane" are primitive types |
| Creators.ParseLight | src/js/utils/creators.js:34-42 | Exactly "point" and "directional" are light types |
| Creators.TypeNamesRoundTrip | src/js/utils/creators.js:5-51 | Every primitive and light type name parses back to its type |
| Creators.CreatePrimitive | src/js/utils/creators.js:5-28 | A primitive exists iff the type is valid. It is named after its type, has the type's geometry, sits at (0,1,0) and casts and receives shadows. Only the plane is turned |
| Creators.CreateLight | src/js/utils/creators.js:30-51 | A light exists iff the type is valid. It is named `<type>Light`, sits at (2,4,2) and casts shadows, with exactly one helper child flagged `isHelper` |
| Creators.FactoriesDisjoint | src/js/utils/creators.js:5-51 | No type name builds both a primitive and a light |
| SceneGraph.Detach | src/js/managers/ObjectManager.js:165 | `parent.remove(obj)` takes the object out of the top-level list, clears its parent and changes no other object |
| SceneGraph.AddToScene | src/js/managers/ObjectManager.js:129 | `scene.add(obj)` makes the object the last top-level child with the scene as parent, keeping every other child |
| SceneGraph.AddToSceneValid | src/js/managers/ObjectManager.js:129 | Adding to the scene keeps the top-level list and the parent links in agreement |
| SceneGraph.DetachValid | src/js/managers/ObjectManager.js:165 | Detaching keeps the top-level list and the parent links in agreement |
| SceneGraph.IsDescendantOfSpec | src/js/renderer.js:329-336 | `isDescendantOf(o, a)` holds only when a parent chain leads from o to a, and always when o is a |
| SceneGraph.IsDescendantOfChain | src/js/renderer.js:329-336 | Conversely, any repetition-free parent chain from o to a makes `isDescendantOf(o, a)` true |
| SceneGraph.TopWalkSpec | src/js/managers/ControlsManager.js:87-90 | Lifting a hit follows its parent chain, and a hit under the scene is lifted to a top-level child |
| SceneGraph.TopLevelOfTopLevel | src/js/managers/ControlsManager.js:87-90 | A top-level child lifts to itself |
| SceneGraph.FindPlayerStart | src/js/managers/ObjectManager.js:117 | The marker found is a top-level child flagged Player Start; none is found only when no child has the flag |
| ObjectManager.Empty | src/js/managers/ObjectManager.js:13-34 | A new manager has an empty scene and registry |
| ObjectManager.SetSelected | src/js/managers/ObjectManager.js:386-391 | The selection becomes the object, or nothing, and nothing else changes |
| ObjectManager.Register | src/js/managers/ObjectManager.js:292-332 | Without the list, an unknown object or an empty uuid, nothing changes. An already-registered uuid only refreshes its entry's title. Otherwise the object is marked an editor object and gets exactly one new entry |
| ObjectManager.RegisterIdempotent | src/js/managers/ObjectManager.js:292-301 | Registering twice is registering once |
| ObjectManager.RegisterValid | src/js/managers/ObjectManager.js:292-332 | Registration keeps the manager's invariant |
| ObjectManager.RegisterNamesInUse | src/js/managers/ObjectManager.js:292-332 | A fresh registration adds exactly its object's name to the names in use |
| ObjectManager.Build | src/js/managers/ObjectManager.js:104-128 | Only types in the category's set are built: primitives with the type's geometry, lights with their helper, and a Player Start marker only when none exists. Anything else is not built |
| ObjectManager.Add | src/js/managers/ObjectManager.js:104-149 | An invalid type or category returns nothing and changes nothing. A second Player Start only selects the existing marker. A created object is the newest top-level child. Unsuppressed, it is selected under a new name with one `Added` action; suppressed, registry, selection and history are untouched |
| ObjectManager.Announce | src/js/managers/ObjectManager.js:132-146 | The unsuppressed tail of `add` names the object with a name not yet taken, registers it and selects it, leaving its geometry, light and uuid alone |
| ObjectManager.Remove | src/js/managers/ObjectManager.js:151-171 | Null changes nothing. Otherwise exactly one `Removed` action is returned iff unsuppressed, the object is detached and its registry entry dropped, and the selection is cleared iff it was that object |
| ObjectManager.RemoveValid | src/js/managers/ObjectManager.js:151-171 | Removal keeps the manager's invariant |
| ObjectManager.Restore | src/js/managers/ObjectManager.js:137-144 | The undo of a removal or redo of an addition puts the object back in the scene and registry and selects it |
| ObjectManager.RemoveThenRestore | src/js/managers/ObjectManager.js:151-161 | Removing and then restoring an object gives back its scene place, its registry entry and the selection |
| ObjectManager.Rename | src/js/managers/ObjectManager.js:335-377 | Only the renamed object changes. Escape or an empty value keeps its name. A commit gives it a name no other registered object has |
| ObjectManager.LoadModel | src/js/managers/ObjectManager.js:36-102 | An empty path, an extension other than glb/gltf and a failed load are distinct errors. A loaded model is the newest top-level child under the next handle, and exactly one action is recorded iff unsuppressed |
| ObjectManager.RebuildStep | src/js/managers/ObjectManager.js:264-270 | One turn of the rebuild touches only the child in hand |
| ObjectManager.Rebuild | src/js/managers/ObjectManager.js:259-272 | Without the list nothing changes; a rebuild never adds, drops or reorders objects or changes the selection, only names, counters and entries |
| ObjectManager.RenameUnshown | src/js/managers/ObjectManager.js:259-272 | Renaming an object that no entry shows changes no entry's name |
| ObjectManager.RegisterFreshDistinct | src/js/managers/ObjectManager.js:292-332 | Registering an object under a name not in use keeps the registered names pairwise distinct |
| ObjectManager.RebuildStepDistinct | src/js/managers/ObjectManager.js:264-270 | One rebuild step keeps the registered names distinct |
| ObjectManager.RebuildFromDistinct | src/js/managers/ObjectManager.js:264-270 | The rebuild loop keeps the registered names distinct |
| ObjectManager.RebuildDistinctNames | src/js/managers/ObjectManager.js:259-272 | After a rebuild no two scene-list entries show the same name, whatever the objects were called before |
| ObjectManager.SerializeNode | src/js/managers/ObjectManager.js:175-203 | As written, a saved record keeps uuid, name and the light flag but never a primitive or light type |
| ObjectManager.SerializeNodeFixed | src/js/managers/ObjectManager.js:194-199 | With the types written out, a primitive's record names its geometry and a light's record names its light type |
| ObjectManager.EditorObjects | src/js/managers/ObjectManager.js:176-177 | Exactly the top-level editor objects are saved |
| ObjectManager.SerializeScene | src/js/managers/ObjectManager.js:175-203 | One record per top-level editor object, in scene order |
| ObjectManager.SerializeAsWrittenDropsBuiltins | src/js/managers/ObjectManager.js:194-199 | As written, every saved primitive or light is skipped on reload |
| ObjectManager.SerializeAsWrittenLosesCube | src/js/managers/ObjectManager.js:194-199 | Concretely, a saved cube does not come back |
| ObjectManager.SerializeFixedKeepsBuiltins | src/js/managers/ObjectManager.js:194-199 | With the types written out, every primitive and light is recreated with the same geometry or light type |
| ObjectManager.RemoveEditorObjects | src/js/managers/ObjectManager.js:207-208 | Exactly the editor objects leave the top level; no object is otherwise changed |
| ObjectManager.ApplyRecord | src/js/managers/ObjectManager.js:233-240 | The record's uuid and name are copied, and its position when given, and the object's kind is kept |
| ObjectManager.RecordType | src/js/managers/ObjectManager.js:226 | The type asked for is the light type when present and non-empty, whatever the category, and the geometry type otherwise |
| ObjectManager.CreateFromRecord | src/js/managers/ObjectManager.js:214-228 | No history is recorded. A model whose load fails creates nothing. Otherwise the record's type (light type first) is asked for in the category its light flag picks, so an object is created only when that type exists in that category. Anything created is the newest top-level child |
| ObjectManager.DeserializeOne | src/js/managers/ObjectManager.js:213-245 | A created object is a top-level child carrying the record's identifier, name and position; a record that creates nothing leaves the scene graph as it was |
| ObjectManager.DeserializeRecords | src/js/managers/ObjectManager.js:212-246 | Loading records keeps every existing top-level child, adds only new objects, and the first record's object is among them when it was created |
| ObjectManager.DeserializeScene | src/js/managers/ObjectManager.js:205-248 | The editor objects are removed even when the input is not an array, and nothing else is then added. Non-editor children always stay |
| Editor.SetProject | src/js/Editor.js:58-64 | The project is named and nothing is unsaved; the scene and stacks are untouched |
| Editor.Reinstate | src/js/managers/ObjectManager.js:137-144 | An object of the table is put back as a top-level child and selected |
| Editor.UndoAction | src/js/managers/ObjectManager.js:137-161 | An action's undo never creates or drops table entries |
| Editor.RedoAction | src/js/managers/ObjectManager.js:137-161 | An action's redo never creates or drops table entries |
| Editor.Undo | src/js/Editor.js:329-336 | The history moves as `History.Undo` says; an empty undo stack leaves the editor unchanged |
| Editor.Redo | src/js/Editor.js:338-345 | The history moves as `History.Redo` says; an empty redo stack leaves the editor unchanged |
| Editor.AddObject | src/js/managers/ObjectManager.js:131-146 | A created object is selected at the top level and its addition is the newest undo entry; when nothing is created the history and scene graph are unchanged |
| Editor.RemoveObject | src/js/managers/ObjectManager.js:151-171 | Removing nothing changes nothing; removing an object detaches it, clears a selection of it and makes its removal the newest undo entry |
| Editor.AddObjectWf | src/js/managers/ObjectManager.js:132-146 | After an add, every recorded action still names an object of the table |
| Editor.RemoveObjectWf | src/js/managers/ObjectManager.js:151-171 | After a remove, every recorded action still names an object of the table |
| Editor.UndoRedoWf | src/js/Editor.js:329-345 | Undo and redo keep every recorded action naming an object of the table |
| Editor.AddUndoRedo | src/js/managers/ObjectManager.js:137-144 | Undoing an addition takes the object out of the scene, registry and selection; redoing puts it back and selects it |
| Editor.RemoveUndoRedo | src/js/managers/ObjectManager.js:154-161 | Undoing a removal puts the object back and selects it; redoing removes it again |
| Editor.SaveRecord | src/js/Editor.js:245-264 | As written, a saved record has name, three.js type and light flag but no primitive or light type |
| Editor.SaveRecordFixed | src/js/Editor.js:256-262 | With the types written out, a light's record names its light type and a primitive's its geometry |
| Editor.SaveProject | src/js/Editor.js:238-317 | Nothing is written exactly when the path or name is absent or empty; a failed write is an error. Otherwise one record per top-level editor object is written, in order, as `SaveRecord` writes it, and the project is clean |
| Editor.SavedRecordsUntyped | src/js/Editor.js:245-264 | No record of a saved project carries a primitive or light type |
| Editor.ResolveKind | src/js/Editor.js:111-127 | The category is primitive or light by the light flag |
| Editor.ExplicitTypeKept | src/js/Editor.js:113-117 | An explicit, non-generic type is never second-guessed |
| Editor.Infer | src/js/Editor.js:118-127 | A guess is a primitive in the flag's category or a point or directional light; no name or an unsuggestive one keeps the record's kind |
| Editor.InferFromPrimitiveName | src/js/Editor.js:118-124 | A generic record whose name starts with a primitive's word is rebuilt as that primitive |
| Editor.InferFromLightName | src/js/Editor.js:118-127 | A generic record named `<type>Light` is rebuilt as that light |
| Editor.Configure | src/js/Editor.js:150-167 | The saved name replaces the default when non-empty; colour and intensity are copied only onto meshes and lights; identity, kind and parent are kept |
| Editor.LoadRecord | src/js/Editor.js:111-176 | A record creates an object iff its resolved kind is accepted. Anything created is registered and has the recorded geometry or light type. A skipped record changes nothing |
| Editor.LoadRecords | src/js/Editor.js:111-176 | Every accepted record leaves a new top-level object of its kind (the primitive's geometry or the light's type). Existing top-level children stay, and the objects there before keep every property |
| Editor.RemoveIfStray | src/js/Editor.js:93-108 | Only a stray ground or plane leaves the top level |
| Editor.RemoveStrayGround | src/js/Editor.js:93-108 | Exactly the stray grounds and planes leave the top level |
| Editor.LoadScene | src/js/Editor.js:72-234 | Null or unparsable input changes nothing. A project load resets the history to empty and clean and keeps the project name. Every surviving child is kept, and only new objects are added. Without an environment section, every accepted record comes back as an object of its kind. With one, the ground clean-up runs again after the records, so without a scene list no stray ground or plane remains, loaded ones included |
| Editor.LoadObjects | src/js/Editor.js:88-208 | The clean-up, the records, and the second ground clean-up when an environment section is present: survivors stay, accepted records come back, and after a second clean-up no stray ground is left |
| Editor.RestoredState | src/js/Editor.js:178-226 | The panel is restored exactly when the project has an environment section, and then from both the environment and the post-processing sections |
| Editor.PostprocessingAloneNotRestored | src/js/Editor.js:178-226 | Post-processing saved without an environment leaves every control of the panel as it was, although restoring that section would set the outline colour |
| Editor.SaveLoadLosesLights | src/js/Editor.js:256-262 | As written, a saved light never comes back on load |
| Editor.SaveFixedLoadKeepsKind | src/js/Editor.js:256-262 | With the type written out, every saved light and built-in primitive comes back as the same kind |
| Legacy.StampedName | src/js/renderer.js:406-437 | The time-stamped name is at most 15 characters and keeps the type prefix when it fits |
| Legacy.CreatePrimitive | src/js/renderer.js:406-418 | The older factory builds a cube, a sphere, or a turned plane for every other type name |
| Legacy.PrimitiveFallback | src/js/renderer.js:406-418 | Where the newer factory rejects a type the older builds a plane; where it accepts, both build the same geometry |
| Legacy.CreateLight | src/js/renderer.js:420-437 | The older factory builds a point light for "point" and a directional light otherwise, at (2,4,2). Its helper carries a drawing that is a mesh exactly for a point light, and only the helper is flagged as one |
| Legacy.LightFallback | src/js/renderer.js:420-437 | Both factories agree on accepted types, and the older falls back to a directional light |
| Legacy.PlaceLight | src/js/renderer.js:577-578 | Adding a new light puts the light, its helper and the helper's drawing into the table under fresh handles, linked child to parent, and makes the light a top-level child; nothing else changes |
| Legacy.PlacedLightCache | src/js/renderer.js:398-404 | Caching a placed light's materials records the wireframe sphere under a point light's helper, and nothing under a directional light's |
| Legacy.SetSelected | src/js/renderer.js:351-362 | A part of the transform gizmo is never selected; anything else becomes the selection |
| Legacy.SetSelectedKeepsGizmoOut | src/js/renderer.js:351-362 | The selection is never the gizmo or under it |
| Legacy.ListName | src/js/renderer.js:486 | A row's title is non-empty, at most 15 characters, and a prefix of the name, else of the type |
| Legacy.Register | src/js/renderer.js:483-492 | Without the list or for a registered object nothing changes; otherwise the object gets one row |
| Legacy.RegisterIdempotent | src/js/renderer.js:484 | Registering twice is registering once |
| Legacy.CommitRename | src/js/renderer.js:463-467 | The committed name is the trimmed input, else the current name, sanitised |
| Legacy.RenameAllowsDuplicates | src/js/renderer.js:463-467 | The older rename does not uniquify: two objects can get the same name |
| Legacy.RemoveFirst | src/js/renderer.js:498-503 | Removing a present mixer takes out exactly one occurrence of it; an absent one changes nothing |
| Legacy.RemoveSceneObject | src/js/renderer.js:494-517 | Nothing happens for no object. Otherwise its mixer goes, its row goes, it leaves its parent, it is deselected if selected, and the cached materials at or below it are forgotten |
| Legacy.RegisterThenRemove | src/js/renderer.js:483-517 | A registered object that is removed has no row and is not selected |
| Legacy.CacheMaterials | src/js/renderer.js:398-404 | Exactly the meshes (`isMesh`, subclasses included) at or below the object are added to the cache |
| Legacy.RegisterStepSpec | src/js/renderer.js:527-531 | One turn registers and caches a listed child and leaves the rest alone |
| Legacy.RegisterAllSpec | src/js/renderer.js:527-531 | After the loop exactly the listed children have rows |
| Legacy.RebuildSceneList | src/js/renderer.js:523-532 | Rows exist exactly for the top-level children that are not the grid, gizmo, outline, clouds, lensflare or a helper |
| Legacy.RebuildSkipsEditorObjects | src/js/renderer.js:528 | The grid, the gizmo and helpers never get a row |
| Physics.MassOf | src/js/managers/PhysicsManager.js:21-23 | Mass is 0 iff physics is missing or static; otherwise it is the mass, or 1 when the mass is missing or 0 |
| Physics.ShapeFor | src/js/managers/PhysicsManager.js:30-39 | A type containing "Sphere" gives a sphere of radius size.x/2; else one containing "Plane" gives a plane; else a box of half the size |
| Physics.ShapeOfGeometry | src/js/managers/PhysicsManager.js:30-39 | Sphere geometry gets a sphere body, plane geometry a plane body, and everything else a box |
| Physics.NewBody | src/js/managers/PhysicsManager.js:41-52 | The body takes the mesh's position, its mass class and its shape, and only planes are turned flat |
| Physics.Add | src/js/managers/PhysicsManager.js:18-56 | A missing mesh changes nothing; otherwise one new body enters the world and is paired with the mesh |
| Physics.AddValid | src/js/managers/PhysicsManager.js:18-56 | Adding keeps body identities distinct and every paired body in the world |
| Physics.FindPair | src/js/managers/PhysicsManager.js:60 | The pair found belongs to the mesh; none is found only when no pair has it |
| Physics.DropMesh | src/js/managers/PhysicsManager.js:63 | Exactly the pairs of other meshes remain |
| Physics.Remove | src/js/managers/PhysicsManager.js:59-65 | A mesh without a pair changes nothing; otherwise the first pair's body leaves the world and every pair of the mesh goes |
| Physics.AddThenRemove | src/js/managers/PhysicsManager.js:18-65 | Adding an unpaired mesh and removing it restores the world and registry |
| Physics.RemoveValid | src/js/managers/PhysicsManager.js:59-65 | Removing keeps the registry's invariant |
| Physics.Clear | src/js/managers/PhysicsManager.js:68-79 | No pairs and no player remain, every paired body leaves the world, and exactly the temporary grounds leave the scene |
| Physics.ClearValid | src/js/managers/PhysicsManager.js:68-79 | Clearing keeps the registry's invariant |
| Physics.AddEligible | src/js/managers/PhysicsManager.js:85-92 | One consecutively numbered body is added per eligible object, in order |
| Physics.InitFromScene | src/js/managers/PhysicsManager.js:82-94 | After clearing, exactly the top-level editor objects that are neither helpers nor the Player Start get a body, in scene order |
| Physics.InitFromSceneBodies | src/js/managers/PhysicsManager.js:82-94 | A surviving top-level child has a body iff it is eligible |
| Physics.InitPlayer | src/js/managers/PhysicsManager.js:97-134 | Without a start nothing changes; otherwise the player is a 70 kg sphere of radius 0.5 at the start that cannot jump yet |
| Physics.InitPlayerValid | src/js/managers/PhysicsManager.js:97-118 | Adding the player keeps the world consistent: its body's identity is fresh |
| Physics.Collide | src/js/managers/PhysicsManager.js:122-133 | A contact whose upward-turned normal has y above 0.4 allows a jump; nothing else changes |
| Physics.Speed | src/js/managers/PhysicsManager.js:144-153 | The speed is the Player Start's run speed or 18, whether or not run is held |
| Physics.RunMakesNoDifference | src/js/managers/PhysicsManager.js:151-153 | Holding run does not change the speed |
| Physics.MoveVector | src/js/managers/PhysicsManager.js:169-173 | With no direction pressed the move vector is zero |
| Physics.Steer | src/js/managers/PhysicsManager.js:144-192 | No direction stops horizontal motion; a jump happens only when allowed and uses the permission up; the camera sits 0.8 above the body |
| Physics.UpdatePlayer | src/js/managers/PhysicsManager.js:137-193 | Without a player nothing changes; otherwise one steering frame |
| Physics.NoDoubleJump | src/js/managers/PhysicsManager.js:185-188 | Holding jump does not jump twice without a new ground contact |
| Physics.LandThenJump | src/js/managers/PhysicsManager.js:122-133 | A ground contact between frames makes the next jump possible |
| Physics.SyncAll | src/js/managers/PhysicsManager.js:200-205 | A mesh with only static bodies is left as it was |
| Physics.SyncMovesDynamic | src/js/managers/PhysicsManager.js:200-205 | A mesh with one dynamic body takes that body's position |
| Physics.Update | src/js/managers/PhysicsManager.js:196-206 | The solver moves every body, the player's included, the registry keeps its meshes, and the meshes are synchronised from the moved bodies |
| Physics.UpdateValid | src/js/managers/PhysicsManager.js:196-206 | The solver step keeps the world consistent |
| Physics.StaticNeverMoves | src/js/managers/PhysicsManager.js:200-205 | A static object stays put whatever the solver does |
| PlayerControl.Resolve | src/js/PlayerController.js:13-22 | Every missing setting gets its default (5, 8, 5, 1.7, 75, 0.002, 70, 1.8, 0.4) and every present one is kept |
| PlayerControl.ResolveRoundTrip | src/js/PlayerController.js:13-22 | Complete settings come back unchanged, and defaulting twice is defaulting once |
| PlayerControl.ZeroSpeedKept | src/js/PlayerController.js:14 | An explicit zero is kept rather than defaulted |
| PlayerControl.Spawn | src/js/PlayerController.js:47 | The body starts half the player's height above the start point |
| PlayerControl.New | src/js/PlayerController.js:7-33 | Corrected constructor: a new controller has defaulted settings, nothing pressed, no jump permission and no lock |
| PlayerControl.Construct | src/js/PlayerController.js:7-43 | As written: construction fails exactly when the physics library has no `Capsule` shape; otherwise it is the corrected constructor |
| PlayerControl.Jump | src/js/PlayerController.js:83-86 | A jump uses up the permission and sets the vertical speed to the jump height |
| PlayerControl.OnKey | src/js/PlayerController.js:72-81 | w, s, a, d and shift follow the key; space jumps only on a press with permission; other keys change nothing |
| PlayerControl.PressRelease | src/js/PlayerController.js:72-81 | Pressing and releasing a movement key is the same as releasing it |
| PlayerControl.Collide | src/js/PlayerController.js:59-63 | A contact with normal y above 0.5 allows a jump; nothing else changes |
| PlayerControl.InputVelocity | src/js/PlayerController.js:91-97 | The speed is the run speed when run is held; backward overrides forward and right overrides left |
| PlayerControl.Update | src/js/PlayerController.js:88-108 | Nothing happens until the pointer is locked; then the body's horizontal velocity is the turned input and the camera follows |
| PlayerControl.SpawnCameraHeight | src/js/PlayerController.js:47-107 | At the spawn point the camera is the camera height above the start |
| PlayerControl.NoInputNoMotion | src/js/PlayerController.js:91-97 | With no direction pressed the input velocity is zero |
| Controls.Initial | src/js/managers/ControlsManager.js:8-34 | After construction, orbit mode: orbit and transform on, unlocked, both axes at rest |
| Controls.SetControlType | src/js/managers/ControlsManager.js:126-137 | Orbit unlocks and enables orbit and transform; game disables both, clears the selection and is locked only if the browser grants the lock; any other value changes nothing |
| Controls.GameThenOrbit | src/js/managers/ControlsManager.js:126-137 | Game mode and back restores editing with nothing selected |
| Controls.OnKeyDown | src/js/managers/ControlsManager.js:106-115 | Only while locked: w/s set forward to 1/-1 and a/d set right to -1/1; other keys change nothing |
| Controls.OnKeyUp | src/js/managers/ControlsManager.js:117-124 | Only while locked: releasing w or s zeroes forward and a or d zeroes right |
| Controls.KeysKeepAxesBounded | src/js/managers/ControlsManager.js:106-124 | The axes only ever hold -1, 0 or 1 |
| Controls.PressReleaseRests | src/js/managers/ControlsManager.js:106-124 | A press and its release leave the axis at rest |
| Controls.DraggingChanged | src/js/managers/ControlsManager.js:54-56 | Orbiting is off exactly while the gizmo is dragged |
| Controls.Pick | src/js/managers/ControlsManager.js:79-101 | Nothing is picked iff no hit is selectable; otherwise the pick is the top-level object of the first selectable hit |
| Controls.PickIsTopLevel | src/js/managers/ControlsManager.js:87-101 | For hits under the scene, the picked object is a top-level child |
| Controls.PointerDown | src/js/managers/ControlsManager.js:68-104 | A click is ignored while dragging, while locked, for other buttons or on UI chrome; otherwise the pick becomes the selection |
| Controls.ClickOnNothingDeselects | src/js/managers/ControlsManager.js:80-103 | A click that hits only helpers, the grid and the gizmo clears the selection |
| Controls.Update | src/js/managers/ControlsManager.js:139-147 | A frame moves the camera along the axes iff locked, and otherwise updates the orbit |
| Controls.ModeDecidesTick | src/js/managers/ControlsManager.js:126-147 | A frame moves the first-person camera exactly when the pointer is locked: after game mode only if the lock was granted (or held), never after orbit mode |
| UI.UpdateButtons | src/js/managers/UIManager.js:35-39 | Missing buttons change nothing; otherwise undo is disabled iff its stack is empty, and likewise redo |
| UI.ButtonsAfterEdit | src/js/managers/UIManager.js:35-39 | After an edit, undo is enabled and redo disabled |
| UI.ButtonsAfterUndo | src/js/managers/UIManager.js:35-39 | After an undo, redo is enabled |
| UI.WorldEdit | src/js/managers/UIManager.js:58-63 | A world-control edit applies its setter and marks the project dirty, leaving the stacks alone |
| UI.InspectorEdit | src/js/managers/UIManager.js:184-191 | An inspector edit applies and marks dirty only with a selection |
| UI.PanelEditsNotUndoable | src/js/managers/UIManager.js:58-63 | Panel edits never touch the undo history |
| UI.HexColor | src/js/managers/UIManager.js:133 | A colour shows as '#' and hex digits, seven characters below 0x1000000, and reads back as the same number |
| UI.HexColorInjective | src/js/managers/UIManager.js:133 | Different colours show differently |
| UI.Restored | src/js/managers/UIManager.js:125-151 | A control is written iff its section is saved; the fog and outline colours are written as `#rrggbb` |
| UI.UpdateAllFromState | src/js/managers/UIManager.js:112-152 | A missing state changes nothing; unsaved controls keep their values; the project becomes dirty iff some shown control was written; the stacks are untouched |
| UI.RestoredFogColor | src/js/managers/UIManager.js:133 | A restored fog colour reads back as the saved number |
| UI.RestoringMarksDirty | src/js/managers/UIManager.js:116-122 | Restoring into a page that shows a saved control marks the project dirty |
| UI.MissingSectionsKept | src/js/managers/UIManager.js:125-151 | A state without a section leaves that section's controls alone |
| UI.SkyboxMode | src/js/managers/UIManager.js:154-162 | A falsy mode means "hdri"; the project becomes dirty |
| UI.SkyboxModeSettles | src/js/managers/UIManager.js:154-162 | The mode applied is never empty, so applying it again applies the same mode |
| UI.SkyboxEvent | src/js/managers/UIManager.js:75-78 | The selector applies its value, the colour input "color" and the gradient inputs "gradient", each marking the project dirty |
| Game.CreateGeometry | src/js/game.js:81-88 | Sphere and plane map to themselves and every other type to a box |
| Game.CreateGeometryAgrees | src/js/game.js:81-88 | The play window builds the same geometry the editor's factory gives each primitive type |
| Game.Spawned | src/js/game.js:51-75 | Only records that get a mesh are spawned |
| Game.MeshNode | src/js/game.js:55-71 | A mesh takes the record's transform and physics; a model has no geometry and a primitive its type's |
| Game.LoadOne | src/js/game.js:51-75 | A record aborts iff its model load rejects or a transform is missing. A record without a mesh changes nothing. Otherwise it adds one mesh and one body |
| Game.LoadAll | src/js/game.js:51-75 | Loading succeeds iff no record aborts; then the body list grows by one body per spawned record, in order |
| Game.FirstStart | src/js/game.js:78 | The Player Start record is the first record flagged so, and none exists only when no record is flagged |
| Game.LoadScene | src/js/game.js:48-79 | A non-array changes nothing. An array loads iff no record aborts, gives one body per spawned record, and keeps the first Player Start record |
| Game.NoBodyForSkipped | src/js/game.js:53 | Lights and the Player Start marker get no body |
| Game.PrimitivesAlwaysLoad | src/js/game.js:51-75 | A scene of primitives with transforms always loads, one body per visible record |
| Game.StartGame | src/js/game.js:101-117 | Corrected start: without a Player Start, a render-only loop and no controller; with one, a first-person loop |
| Game.StartGameAsWritten | src/js/game.js:101-117 | As written: without a Player Start, a render-only loop; with one and no `Capsule` shape, no loop; with the shape, the corrected start |
| Game.NoCapsuleNoPlay | src/js/game.js:101-117 | With the shapes cannon-es has, a scene with a Player Start starts no loop as written, even with the fallback timer, where the corrected start runs the first-person loop |
| Game.Fallback | src/js/game.js:34-38 | The 500 ms timer starts a render-only loop iff no Player Start record has arrived |
| Game.LateSceneRunsTwoLoops | src/js/game.js:27-38 | A scene arriving after the timer fired runs a second loop beside the render-only one |
| GpuDriver.Inc32 | Sources/Kernel/Graphics/ULImpl/GPUAdapters/GPUDriverImpl.cpp:11-24 | A `uint32_t` counter steps by one and wraps from 2^32 - 1 to 0 |
| GpuDriver.NextId | Sources/Kernel/Graphics/ULImpl/GPUAdapters/GPUDriverImpl.cpp:11-24 | Corrected numbering: each kind of id comes from its own counter, which then advances with wrap-around; the other two counters are untouched |
| GpuDriver.NextIdAsWritten | Sources/Kernel/Graphics/ULImpl/GPUAdapters/GPUDriverImpl.cpp:16-19 | As written, a render-buffer id is drawn from the geometry counter |
| GpuDriver.SharedCounterShiftsGeometryIds | Sources/Kernel/Graphics/ULImpl/GPUAdapters/GPUDriverImpl.cpp:16-19 | As written, a render-buffer request before the first geometry request makes that geometry id 2; with separate counters it is 1 |
| GpuDriver.Issue | Sources/Kernel/Graphics/ULImpl/GPUAdapters/GPUDriverImpl.cpp:11-24 | Corrected numbering: a run of requests gets one id per request |
| GpuDriver.IssueNumbersEachKind | Sources/Kernel/Graphics/ULImpl/GPUAdapters/GPUDriverImpl.cpp:11-24 | Corrected numbering: while no counter wraps, each request gets its kind's start value plus the number of earlier requests of that kind |
| GpuDriver.TextureIdsConsecutive | Sources/Kernel/Graphics/ULImpl/GPUAdapters/GPUDriverImpl.cpp:11-14 | Texture ids are 1, 2, 3, … however other requests interleave |
| GpuDriver.IdsOfAKindDistinct | Sources/Kernel/Graphics/ULImpl/GPUAdapters/GPUDriverImpl.cpp:11-24 | Corrected numbering: two requests of the same kind never share an id, and no id is the reserved 0, below 2^32 - 1 requests |
| GpuDriver.IssueAsWritten | Sources/Kernel/Graphics/ULImpl/GPUAdapters/GPUDriverImpl.cpp:11-24 | As written: a run of requests gets one id per request |
| GpuDriver.IssueAsWrittenMerges | Sources/Kernel/Graphics/ULImpl/GPUAdapters/GPUDriverImpl.cpp:16-24 | As written, a run is numbered as if each render-buffer request were a geometry request, and the render-buffer counter never moves |
| GpuDriver.IssueAsWrittenNumbers | Sources/Kernel/Graphics/ULImpl/GPUAdapters/GPUDriverImpl.cpp:11-24 | As written, textures are numbered 1, 2, 3, … and render buffers and geometry share one run 1, 2, 3, … in which no id repeats |
| GpuDriver.New | Sources/Kernel/Graphics/ULImpl/GPUAdapters/GPUDriverImpl.hpp:35-37 | A new driver has no textures, render buffers, geometry or commands, and all counters at 1 |
| GpuDriver.CreateTexture | Sources/Kernel/Graphics/ULImpl/GPUAdapters/GPUDriverD3D11.cpp:21-131 | Fatal iff the id exists or the format is neither BGRA8 sRGB nor A8; otherwise exactly that entry is added, multisampled iff MSAA is on and the bitmap is empty |
| GpuDriver.UpdateTexture | Sources/Kernel/Graphics/ULImpl/GPUAdapters/GPUDriverD3D11.cpp:133-174 | Fatal iff the id is unknown; the maps are otherwise unchanged |
| GpuDriver.DestroyTexture | Sources/Kernel/Graphics/ULImpl/GPUAdapters/GPUDriverD3D11.cpp:176-183 | Exactly that texture entry goes, and an unknown id changes nothing |
| GpuDriver.CreateRenderBuffer | Sources/Kernel/Graphics/ULImpl/GPUAdapters/GPUDriverD3D11.cpp:185-224 | Fatal iff the id is 0, exists, or names an unknown texture, each with its own error; otherwise the buffer draws into its texture |
| GpuDriver.DestroyRenderBuffer | Sources/Kernel/Graphics/ULImpl/GPUAdapters/GPUDriverD3D11.cpp:226-234 | Exactly that render-buffer entry goes |
| GpuDriver.CreateGeometry | Sources/Kernel/Graphics/ULImpl/GPUAdapters/GPUDriverD3D11.cpp:236-284 | Fatal iff the id exists; otherwise exactly one entry more |
| GpuDriver.UpdateGeometry | Sources/Kernel/Graphics/ULImpl/GPUAdapters/GPUDriverD3D11.cpp:286-316 | Fatal iff the id is unknown |
| GpuDriver.DestroyGeometry | Sources/Kernel/Graphics/ULImpl/GPUAdapters/GPUDriverD3D11.cpp:318-327 | Exactly that geometry entry goes |
| GpuDriver.TextureRoundTrip | Sources/Kernel/Graphics/ULImpl/GPUAdapters/GPUDriverD3D11.cpp:21-183 | Creating and destroying a texture restores the map, and creating it twice is fatal |
| GpuDriver.RenderBufferRoundTrip | Sources/Kernel/Graphics/ULImpl/GPUAdapters/GPUDriverD3D11.cpp:185-234 | The same for render buffers |
| GpuDriver.GeometryRoundTrip | Sources/Kernel/Graphics/ULImpl/GPUAdapters/GPUDriverD3D11.cpp:236-327 | The same for geometry |
| GpuDriver.ShaderResourceView | Sources/Kernel/Graphics/ULImpl/GPUAdapters/GPUDriverD3D11.cpp:437-446 | A view exists iff the texture is known, and it is that texture's |
| GpuDriver.MarkStale | Sources/Kernel/Graphics/ULImpl/GPUAdapters/GPUDriverD3D11.cpp:556-590 | With MSAA, drawing into a render buffer leaves its texture needing a resolve, and no other map changes |
| GpuDriver.BindRenderBuffer | Sources/Kernel/Graphics/ULImpl/GPUAdapters/GPUDriverD3D11.cpp:556-590 | 0 binds the default target. An unknown buffer, or with MSAA an unknown texture behind it, is fatal |
| GpuDriver.ClearRenderBuffer | Sources/Kernel/Graphics/ULImpl/GPUAdapters/GPUDriverD3D11.cpp:399-435 | 0 clears the default target without a lookup. Otherwise the same errors as binding; a clear is handed to the device and marks the texture stale |
| GpuDriver.BindTexture | Sources/Kernel/Graphics/ULImpl/GPUAdapters/GPUDriverD3D11.cpp:604-637 | Fatal iff unknown. A stale multisampled texture is resolved exactly once and is then up to date; otherwise nothing is resolved |
| GpuDriver.ResolveOnce | Sources/Kernel/Graphics/ULImpl/GPUAdapters/GPUDriverD3D11.cpp:613-624 | Binding a texture twice resolves it at most once |
| GpuDriver.NoMsaaNoResolve | Sources/Kernel/Graphics/ULImpl/GPUAdapters/GPUDriverD3D11.cpp:613-624 | Without MSAA nothing is ever resolved |
| GpuDriver.BindGeometry | Sources/Kernel/Graphics/ULImpl/GPUAdapters/GPUDriverD3D11.cpp:674-706 | Fatal iff the geometry is unknown |
| GpuDriver.BindSlot | Sources/Kernel/Graphics/ULImpl/GPUAdapters/GPUDriverD3D11.cpp:329-397 | A texture slot of 0 is skipped; any other is bound |
| GpuDriver.Dispatched | Sources/Kernel/Graphics/ULImpl/GPUAdapters/GPUDriverImpl.cpp:37-55 | At most one device call per command |
| GpuDriver.UpdateCommandList | Sources/Kernel/Graphics/ULImpl/GPUAdapters/GPUDriverImpl.cpp:26-35 | An empty list leaves the stored one; any other replaces it |
| GpuDriver.Step | Sources/Kernel/Graphics/ULImpl/GPUAdapters/GPUDriverImpl.cpp:42-52 | A command succeeds iff its buffers, textures and geometry are known. It then adds exactly its own device call and leaves the maps' keys alone |
| GpuDriver.Run | Sources/Kernel/Graphics/ULImpl/GPUAdapters/GPUDriverImpl.cpp:37-55 | A list runs iff every command can. The device then receives one call per draw or clear, in order |
| GpuDriver.DrawCommandList | Sources/Kernel/Graphics/ULImpl/GPUAdapters/GPUDriverImpl.cpp:37-55 | An empty list does nothing. Otherwise every command runs in order, then the list is emptied |
| GpuDriver.DrawOnce | Sources/Kernel/Graphics/ULImpl/GPUAdapters/GPUDriverImpl.cpp:37-55 | Drawing twice draws once |
| GpuDriver.OtherCommandsIgnored | Sources/Kernel/Graphics/ULImpl/GPUAdapters/GPUDriverImpl.cpp:42-52 | A command of unknown type hands nothing to the device |
| FileSystem.New | Sources/Kernel/Graphics/ULImpl/FileSystems/FileSystemDefault.cpp:10-20 | An empty base directory means the executable's directory; no file is open |
| FileSystem.FullPath | Sources/Kernel/Graphics/ULImpl/FileSystems/FileSystemDefault.cpp:101-109 | The full path is the base followed by the path, with no separator inserted |
| FileSystem.OpenFile | Sources/Kernel/Graphics/ULImpl/FileSystems/FileSystemDefault.cpp:61-76 | A file that cannot be opened gives the invalid handle and changes nothing; otherwise a fresh handle from the counter, bound to the file's contents |
| FileSystem.OpenHandlesDistinct | Sources/Kernel/Graphics/ULImpl/FileSystems/FileSystemDefault.cpp:61-76 | Two opens give different handles and both stay open |
| FileSystem.CloseFile | Sources/Kernel/Graphics/ULImpl/FileSystems/FileSystemDefault.cpp:78-82 | Exactly that handle's entry goes and the caller's handle becomes invalid |
| FileSystem.Lookup | Sources/Kernel/Graphics/ULImpl/FileSystems/FileSystemDefault.cpp:32-46 | A stream is found iff its handle is open |
| FileSystem.GetFileSize | Sources/Kernel/Graphics/ULImpl/FileSystems/FileSystemDefault.cpp:32-46 | False for a handle that is not open; otherwise the file's length, or -1 for a failed stream |
| FileSystem.ReadFromFile | Sources/Kernel/Graphics/ULImpl/FileSystems/FileSystemDefault.cpp:84-99 | Nothing for a closed handle or a failed stream. Otherwise the first min(length, size) bytes, and the stream fails iff more was asked for than the file holds |
| FileSystem.OpenReadClose | Sources/Kernel/Graphics/ULImpl/FileSystems/FileSystemDefault.cpp:32-99 | Opening a file and reading its size gives its contents; after closing, the handle has no size and reads nothing |
| FileSystem.ShortReadFails | Sources/Kernel/Graphics/ULImpl/FileSystems/FileSystemDefault.cpp:84-99 | After a read past the end the size reads -1 and every later read is empty |
| FileSystem.Extension | Sources/Kernel/Graphics/ULImpl/FileSystems/FileSystemDefault.cpp:53 | The extension is dot-free and is what follows the last '.', or the whole path when there is none |
| FileSystem.GetFileMimeType | Sources/Kernel/Graphics/ULImpl/FileSystems/FileSystemDefault.cpp:48-59 | The lookup always succeeds with the MIME type of the extension |
| FileSystem.ExtensionOfSuffix | Sources/Kernel/Graphics/ULImpl/FileSystems/FileSystemDefault.cpp:53 | The extension of `stem.ext` is `ext` |
| TextAnalysis.TextAtPosition | Sources/Kernel/Graphics/ULImpl/FontLoaderAdapters/TextAnalysisSource.cpp:16-33 | Null and 0 at or past the end; otherwise the rest of the text from the position, which is non-empty |
| TextAnalysis.TextBeforePosition | Sources/Kernel/Graphics/ULImpl/FontLoaderAdapters/TextAnalysisSource.cpp:35-52 | Null and 0 at the start or past the end; otherwise the text from the start up to the position |
| TextAnalysis.BeforeAndAtPartition | Sources/Kernel/Graphics/ULImpl/FontLoaderAdapters/TextAnalysisSource.cpp:16-52 | Up to the end, the text before a position and the text at it split the text with no gap or overlap |
| TextAnalysis.RestLength | Sources/Kernel/Graphics/ULImpl/FontLoaderAdapters/TextAnalysisSource.cpp:66 | The rest of the text as a `UINT32`: exact up to the end, wrapped past it |
| TextAnalysis.LocaleName | Sources/Kernel/Graphics/ULImpl/FontLoaderAdapters/TextAnalysisSource.cpp:60-69 | The source's locale for the rest of the text |
| TextAnalysis.NumberSubstitution | Sources/Kernel/Graphics/ULImpl/FontLoaderAdapters/TextAnalysisSource.cpp:71-80 | No substitution, for the rest of the text |
| TextAnalysis.LocaleRunWraps | Sources/Kernel/Graphics/ULImpl/FontLoaderAdapters/TextAnalysisSource.cpp:60-69 | Inside the text the locale run matches the text at the position; past the end it wraps to a huge length |
| FontWeight.Value | Sources/Kernel/Graphics/ULImpl/FontLoaderAdapters/FontLoaderWin.cpp:16-40 | Each named weight's value lies between 100 and 950 |
| FontWeight.ToDWriteFontWeight | Sources/Kernel/Graphics/ULImpl/FontLoaderAdapters/FontLoaderWin.cpp:16-40 | Below 150 is thin, 950 and above is extra-black, 400-449 normal and 650-749 bold; each input lies at or above its weight's band floor |
| FontWeight.Monotone | Sources/Kernel/Graphics/ULImpl/FontLoaderAdapters/FontLoaderWin.cpp:18-39 | A heavier CSS weight never gives a lighter weight |
| FontWeight.NearestWeight | Sources/Kernel/Graphics/ULImpl/FontLoaderAdapters/FontLoaderWin.cpp:18-39 | Between 150 and 950 the chosen weight is within 50 of the input |
| FontWeight.ValuesMapToThemselves | Sources/Kernel/Graphics/ULImpl/FontLoaderAdapters/FontLoaderWin.cpp:18-39 | Every named weight's own value maps back to it |
| Input.LoWord | Sources/Kernel/Window/Input/MouseEvent.cpp:12-13 | The low word is below 2^16 |
| Input.HiWord | Sources/Kernel/Window/Input/MouseEvent.cpp:12-13 | The high word is below 2^16 |
| Input.WordsRoundTrip | Sources/Kernel/Window/Input/MouseEvent.cpp:12-13 | Packing x and y into a word pair and reading them back gives x and y |
| Input.DecodeKey | Sources/Kernel/Window/Input/KeyboardEvent.cpp:8-42 | The key is the low byte of wParam. The type is down, up or char exactly for its messages, and system keys come from SYSKEY messages. Repeat is bit 30 of lParam on down and char |
| Input.AutoRepeatFromBit30 | Sources/Kernel/Window/Input/KeyboardEvent.cpp:16-37 | A held key's repeat is flagged, a first press is not, a release never is |
| Input.OnKeyboardMessage | Sources/Kernel/Window/Input/Keyboard.cpp:32-50 | Every message is buffered; a key-down holds its key and a key-up releases it |
| Input.ReadKeyboardEvent | Sources/Kernel/Window/Input/Keyboard.cpp:17-30 | The oldest event leaves the buffer; an empty buffer gives the default invalid event |
| Input.KeyboardFifo | Sources/Kernel/Window/Input/Keyboard.cpp:17-50 | Events come out in the order the messages came in, and a press then release leaves the key up |
| Input.DecodeMouse | Sources/Kernel/Window/Input/MouseEvent.cpp:10-47 | The position is the words of lParam; the type and button are fixed by the message exactly |
| Input.OnMouseMessage | Sources/Kernel/Window/Input/Mouse.cpp:39-58 | A press remembers its button, a release forgets it, a move carries the remembered button; every message is buffered and the position is untouched |
| Input.ReadMouseEvent | Sources/Kernel/Window/Input/Mouse.cpp:25-35 | The oldest event leaves the buffer; an empty buffer gives the default invalid event |
| Input.DragStampsButton | Sources/Kernel/Window/Input/Mouse.cpp:46-54 | A move during a left drag carries the left button; after the release it carries none |
| Input.MouseAfter | Sources/Kernel/Window/Input/Mouse.cpp:5-18 | The stored position never moves, and every message buffers one event |
| Kernel.Initialize | Sources/Kernel/Kernel.cpp:5-39 | Succeeds iff every step succeeds; a window failure leaves the engine as it was, anything later leaves it marked running |
| Kernel.InitializeRunning | Sources/Kernel/Kernel.cpp:9-12 | Success means running; a later failure reports false with the flag already up |
| Kernel.ForwardedMouse | Sources/Kernel/Kernel.cpp:54-61 | Only valid mouse events are forwarded, all of them when all are valid |
| Kernel.ForwardedKeys | Sources/Kernel/Kernel.cpp:63-70 | Only valid keyboard events are forwarded, all of them when all are valid |
| Kernel.ForwardedMouseAppend | Sources/Kernel/Kernel.cpp:54-61 | Forwarding keeps buffer order across any split of the buffer |
| Kernel.ForwardedKeysAppend | Sources/Kernel/Kernel.cpp:63-70 | Forwarding keeps buffer order across any split of the buffer |
| Kernel.DrainMouse | Sources/Kernel/Kernel.cpp:54-61 | The mouse buffer ends empty and its valid events are forwarded in order |
| Kernel.DrainKeyboard | Sources/Kernel/Kernel.cpp:63-70 | The keyboard buffer ends empty and its valid events are forwarded in order |
| Kernel.Tick | Sources/Kernel/Kernel.cpp:46-71 | A quit stops the engine and forwards nothing; otherwise both buffers are drained, mouse first, and only their valid events forwarded |
| Kernel.KeyboardAfter | Sources/Kernel/Window/Input/Keyboard.cpp:32-50 | A run of messages appends one decoded event per message, in order |
| Kernel.KeyMessagesForwardedInOrder | Sources/Kernel/Kernel.cpp:63-70 | Every recognised key message reaches the view manager once, in arrival order |
| Kernel.UnknownMessagesDropped | Sources/Kernel/Kernel.cpp:54-70 | An unrecognised message changes nothing the next tick forwards |
| Timer.New | Sources/Kernel/Utility/Timer.cpp:5-9 | A new timer is stopped and reads 0 |
| Timer.Elapsed | Sources/Kernel/Utility/Timer.cpp:11-24 | A running timer reads against the clock and a stopped one is frozen at its stop time |
| Timer.Restart | Sources/Kernel/Utility/Timer.cpp:26-30 | Restarting runs from now and reads 0 |
| Timer.Stop | Sources/Kernel/Utility/Timer.cpp:32-42 | Stopping a stopped timer is refused; stopping a running one freezes the current reading |
| Timer.Start | Sources/Kernel/Utility/Timer.cpp:44-56 | Starting a running timer is refused; starting a stopped one runs from now |
| Timer.StartStopMeasures | Sources/Kernel/Utility/Timer.cpp:32-56 | A start then a stop measures the time between them, no longer moves, and a new start reads 0 |
| Timer.StartStopIdempotent | Sources/Kernel/Utility/Timer.cpp:32-56 | A second start or stop in a row is refused and changes nothing |
| DirectoryHelper.Normalize | Sources/Kernel/Utility/DirectoryHelper.cpp:47-71 | Each '\\' becomes '/', every other character stays, and no backslash is left |
| DirectoryHelper.NormalizeIdempotent | Sources/Kernel/Utility/DirectoryHelper.cpp:51-55 | Normalising twice is normalising once, and a path without backslashes is kept |
| DirectoryHelper.NormalizeAppend | Sources/Kernel/Utility/DirectoryHelper.cpp:47-71 | Normalising distributes over concatenation |
| DirectoryHelper.DirectoryOf | Sources/Kernel/Utility/DirectoryHelper.cpp:16-20 | The directory is the text before the last separator, normalised and ending in '/' |
| DirectoryHelper.DirectoryOfFile | Sources/Kernel/Utility/DirectoryHelper.cpp:16-20 | A file named inside a directory gives that directory, normalised |
| DirectoryHelper.ExecutableDirectoryNarrow | Sources/Kernel/Utility/DirectoryHelper.cpp:6-23 | A cached value is returned as is; otherwise the directory of the module path, cut to MAX_PATH - 1, is computed and cached |
| DirectoryHelper.ExecutableDirectoryWide | Sources/Kernel/Utility/DirectoryHelper.cpp:25-45 | A cached value is returned as is; an empty or too long module path gives "" without caching; otherwise the directory is computed and cached |
| DirectoryHelper.CachedAfterFirstCall | Sources/Kernel/Utility/DirectoryHelper.cpp:6-45 | Once computed, the directory never changes whatever the module path later says, and a failed wide lookup is retried |
| Buffers.ByteWidthAsWritten | Sources/Kernel/Graphics/D3D/ConstantBuffer.cpp:28-29 | As written, the width is a multiple of 16 above the size by 1 to 16 |
| Buffers.AlignedSizeDoubled | Sources/Kernel/Graphics/D3D/ConstantBuffer.cpp:28-29 | As written, an aligned size gains a whole extra 16 bytes: 16 asks for 32 |
| Buffers.ByteWidth | Sources/Kernel/Graphics/D3D/ConstantBuffer.cpp:28-29 | Corrected width: a multiple of 16 at least the size and less than 16 above it |
| Buffers.ByteWidthLeastMultiple | Sources/Kernel/Graphics/D3D/ConstantBuffer.cpp:28-29 | The corrected width is the least multiple of 16 holding the size, and it agrees with the original when the size is unaligned |
| Buffers.InitializeConstant | Sources/Kernel/Graphics/D3D/ConstantBuffer.cpp:18-35 | The context is kept whatever happens; on success a buffer of the width as written exists (a multiple of 16 above the size by 1 to 16), and after a failure there is no buffer |
| Buffers.ApplyChanges | Sources/Kernel/Graphics/D3D/ConstantBuffer.cpp:38-53 | A failed map copies nothing; otherwise the GPU gets the current data |
| Buffers.FailedUploadKeepsPrevious | Sources/Kernel/Graphics/D3D/ConstantBuffer.cpp:45-48 | After a failed upload the GPU still holds the last successful one |
| Buffers.NewVertexBuffer | Sources/Kernel/Graphics/D3D/VertexBuffer.hpp:15-28 | A new vertex buffer is empty, with the given stride, and has no GPU buffer |
| Buffers.VertexCount | Sources/Kernel/Graphics/D3D/VertexBuffer.cpp:18-21 | The count is the number of stored vertices as a `UINT` |
| Buffers.InitializeVertices | Sources/Kernel/Graphics/D3D/VertexBuffer.cpp:36-65 | The data is stored whatever happens. Empty data fails with E_FAIL before any buffer is requested. Otherwise a success creates a buffer of stride times count bytes, and a failure leaves no buffer |
| Buffers.InitializeThenCount | Sources/Kernel/Graphics/D3D/VertexBuffer.cpp:18-65 | After initialising, the count is the number of vertices given; on data a buffer exists exactly when the call succeeded, and it holds count times stride bytes |

## Left out

- Rendering is left out because it is pure three.js and Direct3D output. This covers `SceneManager`, `EnvironmentManager`, `PostprocessingManager`, the volumetric clouds and shaders, HDRI and skybox loading, the selection outline and lens flare, the D3D11 pipeline setup, shader compilation and state objects, and the pixel copies of `UpdateTexture` and `UpdateGeometry`.
- Floating-point geometry is modelled with `real` or as parameters. The solver's `world.step`, vector normalisation, the camera-relative direction, quaternions and bounding boxes are not computed.
- Electron, its IPC and file I/O are left out. `saveProject` only reports the outcome of the write, which is a parameter; the JSON encoding and the close/quit negotiation are not modelled.
- Asynchrony is not modelled. `loadModel`, `deserializeScene` and the play window's model loads are modelled as already resolved: the loader's outcome for each path is an input.
- Win32, DirectWrite and Ultralight plumbing are left out: `Window.cpp`, `HtmlView*`, `ErrorHandler`, `StringHelper`, the loggers, and everything in `FontLoaderWin.cpp` except `ToDWriteFontWeight`.
- DOM work is left out: the tree items, the inspector fields and the dialogs. A scene-list entry is a registry record.
- `createPlayerStart` is not exported by the factory module, so the Player Start marker is a given node.
- `setViewMode` is called by the UI but never defined, so there is nothing to model.
- Name uniqueness is bypassed when `add` runs with `suppressHistory` (ObjectManager.js:139-143) and when `deserializeScene` writes the saved name (ObjectManager.js:235). `ObjectManager.Add` and `ObjectManager.ApplyRecord` show this; the rebuild that follows restores distinct names (`ObjectManager.RebuildDistinctNames`).
- Physics.Remove: removes only the first pair's body from the world, while it drops every pair of the mesh. This is the source's behaviour and is modelled as such.
- Physics.Clear: leaves the Player Start marker in the scene, as the source does.
- Physics.Collide: accepts a downward contact normal, because the source flips the normal towards the player first.
- Physics.Speed: gives the same value with and without run held, because the source's run and walk speeds are read from the same setting.
- UI.UpdateAllFromState: marks the project dirty on restore, because the `input` and `change` events it dispatches reach the listeners that set the flag.
- Game.LateSceneRunsTwoLoops: the race between the 500 ms timer and the scene message is modelled as an order of two events, not as time.
- GpuDriver.CreateTexture: models the `ENABLE_MSAA` build switch as a driver flag. The MSAA branches as written do not compile against the rest of the file.
- Legacy.CreatePrimitive: the older editor's fallback to a plane for unknown types is kept as written.
- FileSystem.ReadFromFile: a stream that read past the end stays failed, as `std::ifstream` does without `clear()`; other stream states are not modelled.
- TextAnalysis.LocaleName: the length wraps past the end of the text, as the unchecked `UINT32` subtraction does.
- Input.OnMouseMessage: the mouse's stored position is never updated, so `GetPos` always reports the start.
- Kernel.Initialize: leaves `is_running` true after a later failure. This is harmless because the caller enters its loop only on true.
- DirectoryHelper.ExecutableDirectoryNarrow: the narrow lookup silently cuts the module path to `MAX_PATH - 1` characters, while the wide one returns "". Both read the module path as a string given as a parameter, not through `GetModuleFileName`.
- `Kernel.hpp` and `ConstantBuffer.hpp` are an older revision than their `.cpp` files; the `.cpp` files are followed.
- Timer.Elapsed: reports clock ticks rather than milliseconds as a `double`.
- ObjectManager.DeserializeScene: does not state the contents of the created items, only that existing non-editor children survive and that nothing but new objects is added.
- DeserializeRecords: states what each record does through `ObjectManager.DeserializeOne`, but not that later records leave the saved properties of earlier objects in place, because `add` and the model loader carry no frame condition on the nodes already in the table.
- Issue: `GpuDriver.Issue` and `GpuDriver.IssueNumbersEachKind` describe the corrected numbering with one counter per kind; the numbering as written is `GpuDriver.IssueAsWritten`, characterised by `GpuDriver.IssueAsWrittenMerges` and `GpuDriver.IssueAsWrittenNumbers`.
- IssueNumbersEachKind: holds for the corrected numbering only; as written, render buffers and geometry are counted together (`GpuDriver.IssueAsWrittenNumbers`).
- CacheMaterials: recognises a mesh by its three.js `type` among the core classes that set one (`Mesh`, `SkinnedMesh`, `InstancedMesh`, `BatchedMesh`, `Lensflare`); a user-defined subclass of `Mesh` with another `type` is not recognised.
- SetControlType: the pointer lock is asynchronous in the browser; the model takes the browser's answer as a parameter and applies it at once, and it does not model a lock lost later (the Escape key).
- ModeDecidesTick: speaks of the frame right after the switch, with the lock outcome as a parameter, not of the asynchronous `pointerlockchange` event.
- Text.ToLower: lower-cases ASCII letters only; JavaScript's `toLowerCase` also maps non-ASCII letters. The words the loader compares against are all ASCII.
- Editor.LoadScene: the panel restore itself is `UI.UpdateAllFromState` applied to `Editor.RestoredState`; the load keeps no panel state of its own. The retry in the `catch` branch (Editor.js:219-225) is not modelled, because restoring the panel cannot fail in the model.
- Editor.LoadScene: with an environment section, an old survivor is promised to stay only when its handle is below the next free one, which holds for every object the manager made.
- SanitizeName: counts and cuts by Unicode characters, while JavaScript's `length` and `slice(0, 20)` count UTF-16 code units. A name with characters outside the Basic Multilingual Plane is cut later in the model, and a cut between the two halves of a surrogate pair cannot be represented. The same holds for LegacySanitizeName and its `slice(0, 15)`.
- Physics.Update: the solver step is a function from body to position given as a parameter; velocities, rotations and contacts are not modelled.
- Controls.Update: the camera's motion is modelled as which of the two updates runs, not as vectors.
- GpuDriver.Draw: has no contract of its own; `GpuDriver.Step` states what it does.
- An edit/play snapshot of the scene is not modelled, because the code has none: the play window receives the saved scene.

## Findings

| source | as written | input that shows it | evidently intended | confidence | as-written member | corrected member |
|---|---|---|---|---|---|---|
| src/js/managers/ObjectManager.js:194-199 | `serializeScene` writes `geometryType` and `lightType` from `userData`, which the factories never set, so saved primitives and lights have no type | a scene holding one cube, saved and loaded | the record names the primitive's geometry or the light's type, so it is recreated | not executed | ObjectManager.SerializeAsWrittenLosesCube | ObjectManager.SerializeFixedKeepsBuiltins |
| src/js/Editor.js:256-262 | `saveProject` writes `lightType` from `userData.lightType`, which is never set, so a loaded light has no type | a project holding one `pointLight`, saved and loaded | the saved light comes back as a point light | not executed | Editor.SaveLoadLosesLights | Editor.SaveFixedLoadKeepsKind |
| Sources/Kernel/Graphics/ULImpl/GPUAdapters/GPUDriverImpl.cpp:16-19 | `NextRenderBufferId` advances `next_geometry_id_`, and `next_render_buffer_id_` is never used | one render-buffer request, then one geometry request: the geometry gets id 2 | each kind numbered by its own counter, the geometry getting 1 | not executed | GpuDriver.SharedCounterShiftsGeometryIds | GpuDriver.IdsOfAKindDistinct |
| Sources/Kernel/Graphics/D3D/ConstantBuffer.cpp:28-29 | the width adds `16 - size % 16`, a whole 16 for a size already aligned | a 16-byte constant structure requests 32 bytes | the least multiple of 16 that holds the size | not executed | Buffers.AlignedSizeDoubled | Buffers.ByteWidth, Buffers.ByteWidthLeastMultiple |
| src/js/PlayerController.js:43 | `initPhysicsBody` builds a `CANNON.Capsule`, which cannon-es does not have (its shapes are Sphere, Plane, Box, Cylinder, ConvexPolyhedron, Particle, Heightfield and Trimesh), so the constructor throws and `startGame` never reaches `animate()` | a saved scene with a Player Start, played | the first-person loop starts with the player standing on the marker | not executed; rests on the cannon-es shape list | Game.NoCapsuleNoPlay | Game.StartGame |
