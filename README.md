# Organ-placement AR game: a Dafny model of its game core

The game (`src/main.js`) loads an anatomy model. It sorts the model's scene-graph
nodes into organ groups by keywords in their names, hides the organs, and asks the
player to put them back. The player aims the controller at the spot where the
prompted organ belongs and presses select. A press close enough to the organ's anchor
reveals the organ, makes it flash, and moves on to the next one. After the last organ
the timer stops and the menu comes back.

This project models that core and proves properties about it:

- **Text** (`text.dfy`): ASCII lower-casing, substring search, decimal rendering of the
  timer, and `cutName`.
- **Scene** (`scene.dfy`): the node tree, its pre-order walk (`Object3D.traverse`,
  and the recursion of `processObject`) and node-id sets. A node is hidden when its
  id is in a `hidden` set.
- **Classifier** (`classifier.dfy`):
  - the keyword table, in table order;
  - first-match-wins organ choice;
  - group membership along a walk;
  - the obstruction rule, which hides a whole subtree;
  - the flat word list of advanced mode.
- **Anchors** (`anchors.dfy`):
  - a group's anchor is the mean world center of its parts that carry geometry;
  - which groups become targets, and which positions enter the table;
  - `getobjectPos`.
- **Placement** (`placement.dfy`): the hit/miss/not-on-model verdict and the two
  thresholds.
- **Display** (`display.dfy`): the floating prompt, the completion message and the
  timer label.
- **Flash** (`flash.dfy`): the material schedule of `createFlashingEffect`, one timer
  callback per `Step`, and the cache of original materials.
- **Game** (`game.dfy`): the module-level state as a class. It has one method per
  handler: loading, difficulty choice, the timer tick, placement, the victory timeout,
  menu actions, `onSelect`, and the dispatch of one select event to the registered
  listeners.
  - The invariant `Valid` says five things. The phase flags describe exactly one phase.
    The timer runs exactly while a game is active. The cursor stays within the queue.
    An active game finds each target's position in the table. Every target already
    placed is visible.

Geometry is not computed. World centers (`CenterOracle`), ray hits and the
ray/plane intersection are inputs. The shuffle is any permutation of the queue.

## Model

| member | source | states |
|---|---|---|
| Text.Lower | src/main.js:467 | lower-casing keeps the length; each character becomes its ASCII lower-case form, so no upper-case letter is left |
| Text.NatToString | src/main.js:626 | the rendering of a counter is a non-empty string of decimal digits with no leading zero |
| Text.ParseNatToString | src/main.js:626 | reading the digits back gives the counter: the rendering loses nothing |
| Text.NatToStringInjective | src/main.js:626 | two counters render alike only when they are equal |
| Text.CutFrom | src/main.js:1202-1205 | scanning from a position with no separator before it stops at the first separator, or at the end when there is none |
| Text.CutName | src/main.js:1202-1205 | the result is a prefix of the name; no separator (`_generated`, `_grp`, `_mesh`, `_Mesh`, case-sensitive) starts inside it; it is shorter than the name exactly when a separator occurs, and then it ends where one begins |
| Text.CutNameHasNoMarker | src/main.js:1202-1205 | the kept prefix contains no separator anywhere |
| Text.CutNameIdempotent | src/main.js:1202-1205 | cutting twice is cutting once |
| Scene.PreOrderAllMember | src/main.js:484-487 | the walk over a list of children visits every node of every child's subtree |
| Scene.ChildInPreOrder | src/main.js:484-487 | every node below a child is visited by the walk from its parent |
| Classifier.OrganOf | src/main.js:467-477 | the organ a node joins (definition; OrganOfIsFirstMatch states it) |
| Classifier.AdvancedMatch | src/main.js:919 | advanced mode's test: the lower-cased name contains a word of the list (definition; AdvancedTargetsIff uses it) |
| Classifier.ObstructionRoot | src/main.js:480 | a node matching no organ whose lower-cased name contains an obstruction word (definition) |
| Classifier.ObstructedIds | src/main.js:479-495 | the ids the walk hides (definition; ObstructionHidesSubtree and ObstructedOnlyBelowRoots state which) |
| Classifier.FirstOrganFrom | src/main.js:470-477 | the organ found matches, no organ between the start and it matches, and nothing is found only when no later organ matches |
| Classifier.OrganOfIsFirstMatch | src/main.js:467-477 | a node joins organ k exactly when a keyword of k occurs in its lower-cased name and no earlier organ in table order has one |
| Classifier.MatchOrgan | src/main.js:470-477 | the loop over the organ table returns the first matching organ, or none |
| Classifier.MembersIff | src/main.js:466-477 | a visited node is in group k exactly when k is its first matching organ |
| Classifier.MembersDisjoint | src/main.js:470-477 | no node is in two groups (the `break` after the first push) |
| Classifier.MembersAppend | src/main.js:484-487 | the groups of a walk split into the groups of its parts, in order |
| Classifier.ExtendsOne | src/main.js:473 | pushing one node into its organ's group appends exactly its own membership |
| Classifier.AddToGroup | src/main.js:471-476 | pushing a classified node appends it to its own organ's group and leaves every other group as it was; an unclassified node changes nothing |
| Classifier.ExtendsTrans | src/main.js:484-487 | extending the groups by two walks in turn extends them by the concatenated walk |
| Classifier.MatchedIff | src/main.js:867-878 | a visited node is among the nodes simple mode hides exactly when it matches some organ |
| Classifier.ObstructionHidesSubtree | src/main.js:479-495 | every node that matches no organ but names an obstruction ends with itself and all its descendants hidden, organ parts included |
| Classifier.ObstructedOnlyBelowRoots | src/main.js:479-495 | conversely, a node hidden by the walk lies below (or is) such an obstruction node |
| Classifier.MesocolonIsNeverObstruction | src/main.js:455 | a name containing `mesocolon` also contains `colon`, so the node joins the intestines or an earlier organ and is never hidden as an obstruction |
| Anchors.CenterSum | src/main.js:503-515 | the sum of the world centers of the parts with geometry (definition; SumCenters computes it) |
| Anchors.GeometryCount | src/main.js:505-513 | `totalPoints`: the number of parts with geometry, never more than the parts |
| Anchors.GeometryCountIff | src/main.js:505-517 | the count is 0 exactly when no part has geometry, and equals the number of parts exactly when all have |
| Anchors.Anchor | src/main.js:517-518 | the mean of those centers, or none without a geometry part (definition; AnchorExistsIff, AnchorInBox state its properties) |
| Anchors.GroupTargets | src/main.js:501-527 | the targets the center loop builds, in table order (definition; GroupTargetsIff states which) |
| Anchors.GroupPositions | src/main.js:501-527 | the positions the center loop records (definition; GroupPositionsIff states which) |
| Anchors.ObjectPos | src/main.js:929-942 | getobjectPos: the node's world center, or the origin when it has no geometry (definition; AdvancedPositionOf states its use) |
| Anchors.AdvancedTargets | src/main.js:917-925 | the nodes of the walk advanced mode appends (definition; AdvancedTargetsIff states which) |
| Anchors.AdvancedPositions | src/main.js:917-925 | the positions advanced mode records (definition; AdvancedPositionOf states them) |
| Anchors.SumCenters | src/main.js:503-515 | the accumulation loop counts the parts with geometry and sums their world centers |
| Anchors.AnchorInBox | src/main.js:517-518 | the mean center lies inside any box that holds all the part centers it averages |
| Anchors.AnchorOfCoincidentCenters | src/main.js:517-518 | if all geometry parts are centered at one point, that point is the anchor |
| Anchors.AnchorExistsIff | src/main.js:502-517 | a group has an anchor exactly when one of its parts carries geometry |
| Anchors.GroupTargetsIff | src/main.js:501-527 | group k enters `mainOrgans` exactly when it has a geometry-bearing part |
| Anchors.GroupPositionsIff | src/main.js:501-527 | group k enters the position table exactly then, under its name, at its anchor |
| Anchors.GroupTargetsKeyed | src/main.js:519-525 | every group target has its position recorded under its name |
| Anchors.AdvancedTargetsIff | src/main.js:917-925 | a visited node is an advanced target exactly when its lower-cased name contains a listed word; all advanced targets are single nodes |
| Anchors.AdvancedPositionOf | src/main.js:917-942 | each advanced target is positioned at its world center, or at the origin when it has no geometry; it is not left out |
| Anchors.AdvancedTargetsKeyed | src/main.js:920-922 | every advanced target has its position recorded under the node |
| Anchors.AllTargetIdsCover | src/main.js:1055-1063 | hiding a queue covers every part of every target in it |
| Placement.Threshold | src/main.js:1237 | both tolerances are positive |
| Placement.WithinThresholdIffDistance | src/main.js:1236-1239 | the squared-distance test is exactly the strict test `distance < threshold` |
| Placement.JudgedPoint | src/main.js:1232-1235 | the plane point, or the untouched zero vector when the ray misses the plane (definition; MissedPlaneJudgesOrigin states it) |
| Placement.Judge | src/main.js:1215-1239 | no model hit means no attempt; otherwise a hit happens exactly when the judged point is strictly within the mode's threshold |
| Placement.AimAtAnchorHits | src/main.js:1236-1239 | a ray meeting the plane at the anchor is a hit in either mode |
| Placement.AimBeyondThresholdMisses | src/main.js:1236-1239 | a plane point at distance threshold + eps (eps >= 0) is a miss |
| Placement.SimpleHitIsAdvancedHit | src/main.js:1237 | simple mode's tolerance is the tighter one |
| Placement.MissedPlaneJudgesOrigin | src/main.js:1232-1235 | when the ray misses the plane the untouched zero vector is judged, because the `if` never fails |
| Display.PlacePrompt | src/main.js:1139-1143 | the prompt breaks onto two lines exactly when `"Place the "+name` is longer than 15 characters, and it ends with the name |
| Display.TargetLabel | src/main.js:1133-1136 | simple mode shows the organ name; advanced mode shows the node name after cutName |
| Display.AdvancedLabel | src/main.js:1133-1136 | in advanced mode the label is a prefix of the node name with no separator in it, and the whole name when the name has no separator |
| Display.OrganDisplayText | src/main.js:1122-1147 | while a target remains the text is `Place the`, then a line break exactly when the label is longer than 5 characters (a space otherwise), then the label; after the last target it is exactly `Congratulations!`, a line break, the mode name, ` completed in `, the rendered seconds and `s!` |
| Display.DisplayReportsSeconds | src/main.js:1144-1146 | after the last target the digits between `completed in ` and `s!` read back to the timer value |
| Display.CompletionText | src/main.js:1145-1146 | the completion message: the congratulation line, the mode's name, and the elapsed seconds (definition; its properties are stated by CompletionReportsSeconds) |
| Display.ModeText | src/main.js:1145 | the mode name is `Simple Mode` exactly in simple mode, and ends with ` Mode` in either case |
| Display.PromptIsNotCompletion | src/main.js:1131-1147 | a prompt is never the completion message |
| Display.CompletionReportsSeconds | src/main.js:1145-1146 | the completion message opens with the congratulation line, the mode name and ` completed in `, then carries the elapsed seconds, which read back exactly |
| Display.TimerText | src/main.js:624-628 | the label is `TIMER: `, the seconds, then `s`, and the seconds read back exactly (the script never assigns `timerElement`, so the label is never written; see Left out) |
| Flash.ScheduleShape | src/main.js:1313-1325 | the materials applied are flash, original, flash, original, flash, original, then the original again |
| Flash.Scheduled | src/main.js:1313-1321 | the material of one tick of the interval: the flash on even ticks before the last, the original otherwise (definition; ScheduleShape and ScheduleFlashesThrice state the sequence) |
| Flash.ScheduleFlashesThrice | src/main.js:1310-1321 | exactly three of the assignments are the highlight |
| Flash.HighlightDiffers | src/main.js:1301-1307 | a highlight material differs from the material it was built from |
| Flash.Materials.constructor | src/main.js:1296-1298 | the scene's materials with an empty `originalMaterials` cache |
| Flash.FlashingEffect.Start | src/main.js:1294-1328 | the original material is cached only on the first effect for a node; the first call applies the highlight and schedules the next one |
| Flash.FlashingEffect.Step | src/main.js:1313-1325 | each callback applies the next material of the schedule; after the last one nothing is pending, the log is the whole schedule and the node wears its original material |
| Scene.PreOrder | src/main.js:484-487 | the walk starts at the node itself, then visits its children left to right |
| Classifier.ObstructionHidesSubtreeAll | src/main.js:484-495 | over a list of children, every obstruction node's subtree is in the hidden set |
| Classifier.ObstructedOnlyBelowRootsAll | src/main.js:484-495 | over a list of children, a hidden node lies below an obstruction node |
| Anchors.AdvancedSnoc | src/main.js:917-925 | one more visited node extends advanced mode's targets and positions by that node exactly when it matches |
| Anchors.OrganNamesDistinct | src/main.js:442-453 | the organ names, the keys of the position table, are pairwise distinct, so no group's anchor overwrites another's |
| Game.SimpleGroupsFromEmpty | src/main.js:457-464 | groups grown from the ten empty groups by a walk are exactly the walk's groups |
| Flash.Schedule | src/main.js:1313-1325 | one effect makes 2 * 3 + 1 material assignments |
| Game.FirstButton | src/main.js:776-782 | the action of the first button among the hits; none exactly when no hit is a button |
| Game.FirstHitButton | src/main.js:1030-1036 | the difficulty handler acts only when the nearest hit is a button, which is then also the first button |
| Game.RouteOf | src/main.js:738-785 | the branch order of onSelect: the victory guard, placing the model only when the reticle shows and the model is unplaced, placement while a game is active, then the menu panel before the rules panel |
| Game.TargetNodes | src/main.js:1242-1250 | a correct placement flashes exactly the nodes the target controls |
| Game.FlashOrder | src/main.js:1242-1250 | the nodes of a target in the order they are revealed and flashed: the parts, or the node itself (definition) |
| Game.FlashableCount | src/main.js:1294-1302 | the number of nodes, in flashing order, before the first one without geometry (and so without a material): all before it have geometry, the one at it has none |
| Game.Flashable | src/main.js:1294-1302 | every node of the target carries a material (definition) |
| Game.Shown | src/main.js:1242-1250 | the nodes a correct placement makes visible: all, or up to and including the first without material (definition) |
| Game.FlashedIds | src/main.js:1242-1250 | the ids whose flashing effect starts: those before the throw (definition) |
| Game.FlashableReveal | src/main.js:1242-1250 | a target whose nodes all carry material is shown and flashed whole; otherwise it is shown up to and including its first node without material, and only the nodes before that one are flashed |
| Game.ModeTargetsKeyed | src/main.js:1054-1072 | every target a mode builds has a recorded position, and is a group exactly in simple mode |
| Game.ModeTargets | src/main.js:1067-1071 | the queue resetOrgansForMode builds: the simple setup's group targets for `simple`, the advanced targets otherwise (definition; ModeTargetsKeyed and SetupMode state its properties) |
| Game.ModePositions | src/main.js:1067-1071 | the position table resetOrgansForMode builds for each mode (definition; ModeTargetsKeyed states that every target finds its position) |
| Game.ModeHidden | src/main.js:1067-1071 | the node ids each mode's setup makes invisible: every matched node in simple mode, every advanced target otherwise |
| Game.SimpleSetupIsMode | src/main.js:1067-1068 | the simple setup run on an empty queue and table yields exactly the `simple` mode's queue, table and hidden ids |
| Game.AdvancedSetupIsMode | src/main.js:1069-1070 | any other mode name yields exactly the advanced setup's queue, table and hidden ids |
| Game.SimpleGroupsSnoc | src/main.js:867-878 | one more visited node joins its first matching organ's group |
| Game.Game.constructor | src/main.js:17-41 | the script's initial state: nothing placed, no flag set, no model group yet, empty queue, timer at 0; the model's node ids are distinct (node identity) |
| Game.Game.HideObjectAndChildren | src/main.js:490-495 | the node's whole subtree becomes hidden, and nothing else |
| Game.Game.ProcessObject | src/main.js:466-488 | every node of the subtree is appended, in walk order, to its first matching organ's group; exactly the subtrees of obstruction nodes become hidden |
| Game.Game.ProcessChild | src/main.js:484-487 | one child of the loop: its subtree is classified and the invariant moves one child on |
| Game.Game.ClassifyModel | src/main.js:457-498 | from empty groups, the walk of the whole model leaves the groups of the pre-order walk and hides the obstruction subtrees |
| Game.Game.AddGroupTargets | src/main.js:501-527 | the center loop appends, in table order, the groups with a geometry part as targets and records their anchors by name |
| Game.Game.HideTargets | src/main.js:529-535 | every part of every target in the list becomes hidden |
| Game.Game.BuildGroupTargets | src/main.js:429-535 | onModelLoaded creates the model group, and processLoadedModel's three stages compose: classified groups, the targets of the groups, and obstructions plus all targets hidden |
| Game.Game.ProcessLoadedModel | src/main.js:429-536 | loading keeps the invariant, leaves the model unplaced, records that the model group exists, and builds the groups, the targets and the hidden set as above |
| Game.Game.SetupSimpleMode | src/main.js:840-907 | fresh groups from the walk without the obstruction rule, every matched node hidden, and the group targets appended |
| Game.Game.GroupMatched | src/main.js:867-878 | the whole walk rebuilds the groups of the pre-order walk and hides every matched node |
| Game.Game.GroupNode | src/main.js:868-877 | one step of the walk adds one node to its group and hides it when it matches |
| Game.Game.SetupAdvancedMode | src/main.js:910-927 | the matching nodes are appended in walk order, positioned by getobjectPos, and hidden |
| Game.Game.ResetOrgansForMode | src/main.js:1054-1072 | the old queue is hidden, the queue and the table are emptied, and they are rebuilt for the mode: simple only for `simple` |
| Game.Game.SetupMode | src/main.js:1067-1071 | on an emptied queue and table, the queue, the position table and the hidden ids become exactly those of the simple setup when the mode is `simple` and of the advanced setup otherwise |
| Game.Game.StartGame | src/main.js:1074-1104 | the queue becomes a permutation of itself; cursor and timer are reset; the timer runs; the game is active |
| Game.Game.ChooseMode | src/main.js:1048-1050 | the mode is recorded and the queue and table are rebuilt for it |
| Game.Game.SelectDifficulty | src/main.js:1044-1052 | the invariant holds and the game is playing; the queue is a permutation of the mode's targets; the table is the mode's; the old queue and the mode's nodes are hidden; cursor and timer are 0 |
| Game.Game.StartedIsValid | src/main.js:1097-1103 | right after startGame, a permuted queue of the mode's targets keeps the invariant |
| Game.Game.HandleSelect | src/main.js:1022-1040 | only a button as nearest hit starts the game, in that button's mode: the game is playing, the queue is a permutation of the mode's targets, the table is the mode's, the old queue and the mode's nodes are hidden, and cursor and timer are 0; otherwise nothing changes |
| Game.Game.TimerTick | src/main.js:615-618 | each tick adds exactly one second |
| Game.Game.RevealTarget | src/main.js:1242-1250 | the target's nodes become visible one by one and the ids whose flash starts are returned in order; it completes exactly when every node carries material, and otherwise stops just after showing the first node without one |
| Game.Game.ShowNode | src/main.js:1244 | one node of the loop becomes visible |
| Game.Game.RevealNodes | src/main.js:1242-1250 | the nodes are shown in order and each one that carries material is returned as flashed; the loop completes exactly when all carry material, and otherwise the first node without material is shown and nothing after it |
| Game.IdSeqSnoc | src/main.js:1243-1246 | flashing one more node of the loop appends exactly its id to the flashed ids |
| Game.Game.HandleGameCompletion | src/main.js:1267-1276 | the game stops, the timer stops and the victory timeout is pending |
| Game.Game.HandleOrganPlacement | src/main.js:1207-1265 | no model hit changes nothing; an empty queue faults; otherwise the verdict is Judge on the target's recorded position; a hit on a target whose nodes all carry material reveals it, advances the cursor by one and ends the game exactly at the end of the queue; a hit on any other target faults after showing it up to its first node without material, with the cursor unmoved; a miss changes nothing |
| Game.Game.AcceptPlacement | src/main.js:1239-1258 | a correct placement: the whole target shown and flashed, the cursor advanced and the round ended after the last target, or the throw of createFlashingEffect with the cursor unmoved |
| Game.Game.RevealCurrent | src/main.js:1242-1250 | revealing the current target keeps the invariant, since the hidden set only shrinks |
| Game.Game.Advance | src/main.js:1253-1258 | the cursor moves past a shown target; the game stays active exactly while targets remain, otherwise the victory phase begins |
| Game.Game.VictoryTimeout | src/main.js:1278-1290 | the menu is shown again |
| Game.Game.ShowRules | src/main.js:1392-1400 | the rules panel replaces the menu |
| Game.Game.ShowMenu | src/main.js:1402-1414 | the menu replaces the rules panel |
| Game.Game.HandleMenuAction | src/main.js:819-838 | `start` hides the menu and registers the difficulty listener; `rules` and `back` swap the panels; `settings` and anything else change nothing |
| Game.Game.OnSelect | src/main.js:738-785 | routes as RouteOf says; only the flags, the hidden set and the cursor may change, so the queue, the table, the mode and the timer stay; once placed the model stays placed; placing opens the menu once the model group exists and otherwise changes nothing (the script throws); each other branch's effect on the phase, the cursor, the hidden set and the flashed ids (a hit flashes exactly the target's nodes) |
| Game.Game.PutModel | src/main.js:741-756 | the loaded model is placed and the menu opens |
| Game.Game.SelectOnPanel | src/main.js:760-783 | the first button met on the open panel (menu before rules) acts; `start` opens the difficulty choice, `rules` and `back` swap panels, `settings` or no button changes nothing |
| Game.Game.DispatchSelect | src/main.js:1034-1040 | one select event runs onSelect, then the difficulty listener only if it was registered before the event. Without the listener it has every effect onSelect states: the route; queue, table, mode, groups and timer unchanged; the cursor advanced by one exactly on a hit; each route's phase transition; no change on an ignored event, no button or `settings`; the revealed and flashed nodes of a hit and of a fault. With it, onSelect does nothing and the nearest button decides; a chosen mode starts the game with HandleSelect's queue, table, hidden set, cursor 0 and timer 0, and no button changes nothing |
| Game.Game.ListenedSelect | src/main.js:1022-1040 | with the difficulty listener registered, onSelect finds nothing to do and the listener's nearest button decides: no button changes nothing, a mode starts its game |
| Game.MatchedVisit | src/main.js:872-874 | one step of setupSimpleMode adds a node's id to the hidden set exactly when it matches |
| Game.AdvancedVisit | src/main.js:917-925 | one step of setupAdvancedMode extends the queue, the table and the hidden set by the node exactly when it matches |

## Left out

- The root `main.js` is not part of this model. It holds the renderer, the AR hit-test loop, model loading and cloning, which is I/O and rendering code.
- Meshes, materials, fonts, text and panel construction, the loader overlay, and
  `menuShadow` are presentation only.
- The rest of three.js is not modelled: ray casting, `intersectPlane`, bounding boxes,
  `localToWorld`, menu positioning, victory particles and debug points. Ray hits and
  world centers are inputs.
- Asynchronous loading (the font guard of `updateOrganDisplay`), audio, music, haptics
  and the optional `playSound` cache are not modelled. They are foreign calls with no
  effect on game state.
- Timers are explicit steps: `TimerTick`, `VictoryTimeout`, `FlashingEffect.Step`.
  Their delays (1000, 4000, 200 ms) are not modelled.
- `Math.random` in the shuffle is any permutation, stated as multiset equality.
- `showSettings` only logs. It is the `settings` branch of `HandleMenuAction`, which
  changes nothing.
- Lower-casing is ASCII only. Unicode case mapping is not modelled.
- `organGroups` (a Map in insertion order) is a sequence indexed in table order. A node
  object used as a map key is identified by its node id.
- Game.Game.HandleOrganPlacement: with an active game and an empty queue, the script
  throws a TypeError when the ray meets the model. That is modelled as the outcome
  `Fault` with no state change, not as a precondition.
- Game.Game.HandleOrganPlacement: the position is looked up by the target's shape
  (group name or node). The script looks it up by `gameMode`. The invariant makes the
  two agree: a target is a group exactly in simple mode.
- Game.Game.RevealTarget: the flash of each revealed node is modelled separately in
  `Flash`. The game returns the ids in flashing order. A node has a material exactly
  when it has geometry: that holds for the meshes and groups of a loaded model.
- Game.Game.HandleOrganPlacement: when a correct placement reaches a node without a
  material, the script's `organ.material.clone()` throws. The node is already visible
  and the cursor has not moved, so that target can never be passed and the round never
  ends. The model returns `Fault` in that state, with the target shown up to that node.
  Later attempts fault the same way.
- Model loading is asynchronous in the script; here onModelLoaded and processLoadedModel
  are one step (ProcessLoadedModel). A tap before it has run, with the reticle showing,
  makes the script throw on the undefined `baseModelGroup`; the model leaves the state
  unchanged in that case.
- Visibility is each node's own `visible` flag, recorded as the set of hidden ids.
  Three.js draws a node only when all its ancestors are visible as well; that
  inherited visibility is not modelled, so a part revealed under a hidden ancestor
  counts as shown here although it is not drawn.
- `isVictoryAnimationPlaying` is never assigned by the script. It is a field that
  stays false, and the invariant records that.
- The thresholds follow the code: simple mode 0.08 is the tighter tolerance, the other
  modes 0.09.
- `TIMER: ${timerValue}s` is modelled as `TimerText`, but `timerElement` is declared
  and never assigned. So the guard in `updateTimerDisplay` always fails, and the
  label is never written on screen. The timer value itself is kept and used in the
  completion message.
- Floating point is exact real arithmetic. `distanceTo(p) < t` is modelled as the
  squared distance compared with `t * t`; the two agree over the reals
  (WithinThresholdIffDistance), but rounding is not modelled.
- `|name|` counts characters. JavaScript's `.length` counts UTF-16 code units, so its
  15-character test in the prompt can differ for names outside the basic
  multilingual plane.
