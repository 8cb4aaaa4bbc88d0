# Entity utilities, visualization capabilities and spawn preview

This project models three parts of a robot simulator's front and back end.
The entities are integers and the entity-component store is a value.

**Entity utilities** (`util.dfy`, module `Util`). These are the helpers over
the entity-component store:

- world pose along the parent chain;
- scoped names and their resolution back to entities;
- entity type classification;
- the enclosing world and the top-level model;
- stripping a parent scope;
- turning a resource URI into a full path.

**Visualization capabilities** (`model_tree.dfy`, `render_scene.dfy`,
`visualization_rules.dfy`, `view_rules.dfy`, `render_passes.dfy`,
`visualization_capabilities.dfy`). This is a GUI plugin that shows collisions,
inertia, centre of mass, wireframes and transparency for a model or link.

- The simulation-thread `Update` indexes links, visuals, models, collisions and
  inertials under their parents. It then expands the queued requests into links.
- The render-thread `OnRender` marks those links' visuals or creates overlay
  visuals for them. It then handles each pending request. A request names a
  scene node; the plugin looks up the entity behind it, toggles what is
  already shown and queues what is not.
- The plugin is a `class Plugin` whose fields are the source's maps, vectors and
  targets. Each operation is a method proved against a specification function
  on values. The properties of those functions are proved as lemmas in the
  rule modules.

**Spawn preview** (`spawn.dfy`, module `Spawn`). This is a GUI plugin that
builds a preview of a model or light to be spawned. It registers the preview's
ids with the scene, and on a plain left click removes the preview and sends a
create request.

- The plugin is `class SpawnPlugin`.
- `UniqueId` counts down from the largest 64-bit id. `Allocate` is the
  successive allocation the preview performs.

## Modelling choices

- **Poses.** A pose is a sequence of frame words, and composing poses is
  concatenation. `worldPose` composes the entity's pose with the pose of every
  ancestor up to the first one without a pose. The real transforms are
  floating-point; only the order of composition is modelled.
- **Default insertion by `operator[]`.** Reading a map through `operator[]`
  inserts a default entry, and the model writes this out everywhere the source
  does it:
  - `Touch` inserts `false` into a viewing map;
  - `Fill` and `FillIds` insert the empty row and the null overlay id;
  - `Get`, `Row` and `Lookup` read missing entries as the default.

  So the model's maps gain exactly the keys the code's maps gain.
- **The renderer's scene.** The scene is a sequence of `SceneVisual`s, each
  with an optional entity tag, a name and three display flags.
  - `VisualById` is the first visual with a given tag, and `NodeByName` is the
    first with a given name.
  - The scene's four id spaces (`HasNodeId`, `HasLightId`, `HasSensorId`,
    `HasVisualId`) come in as `SceneIds`, which each `OnRender` receives.
- **External inputs as parameters.**
  - The parsed SDF description is a parameter `load` of the spawn plugin.
  - The topic sanitiser is a parameter `asValidTopic`.
  - `joinPaths` and the parent directory of a file path are parameters of
    `AsFullPath`.
  - The scene a render engine hands out is a parameter of `OnRender`.

## Behaviour of the code that the model keeps

- **`removeParentScope`.** A name whose only delimiter ends it yields the empty
  remainder, not the name unchanged: the second guard cannot fire.
  `RemoveParentScope` states this.
- **Child links.** The child links of a model are a sequence with repeats.
  - `FindChildLinks` over the index maps yields the model's own links twice
    (`IndexChildLinksRepeatRoot`).
  - For a link, it yields only the link's own row of the model-to-link index.
  - Only `FindChildLinksFromECM` turns a link into `[link]`.
- **Overlay requests.** A centre-of-mass or inertia request appends the entity
  itself after the links found for it, and only when it has an inertial.
- **Probe exhaustion.** When no overlay id is free, the link is silently left
  without an overlay. `ProbeOneOutcome` states exactly when a visual is
  created.
- **World pose.** Every ancestor that has a pose is composed, the world
  included, stopping at the first one without a pose.
- **Removal.** Removal erases only the link and model rows of removed models
  and the visual rows of removed links; the other index maps keep their
  entries.
- **Locking.** The plugin takes no lock around the state its two threads share.
- **Light preview.** The light preview registers the same id twice, once for
  the light and once for its visual: both come from `UniqueId` with no
  registration in between. `GeneratePreview` states that.

## Model

| member | source | states |
|---|---|---|
| Util.EntityTypeId | src/Util.cc:198-245 | the kind returned is carried by the entity and no kind earlier in the fixed priority is; None exactly when the entity carries no kind marker |
| Util.EntityTypeStr | src/Util.cc:248-295 | empty exactly when the entity has no type id, otherwise the name of that type's kind |
| Util.KindNameInjective | src/Util.cc:248-295 | different kinds have different type strings, so the string determines the type |
| Util.Find | src/Util.cc:151-161 | the leftmost occurrence of the delimiter at or after the start position, or None when there is none |
| Util.SplitJoin | src/Util.cc:151-161 | joining the segments cut at each delimiter with the delimiter gives back the scoped name |
| Util.SplitCount | src/Util.cc:151-161 | with a one-character delimiter there is one segment more than occurrences of the delimiter |
| Util.SplitSegmentsFree | src/Util.cc:151-161 | no segment contains the delimiter |
| Util.RemoveParentScope | src/Util.cc:323-331 | without a delimiter the name is unchanged; otherwise the name is its text before the first delimiter, the delimiter and the result |
| Util.RemoveParentScopeOfScoped | src/Util.cc:323-331 | removing the scope from parent + delimiter + name gives back the name when the parent holds no delimiter |
| Util.Slashed | src/Util.cc:393 | same length as the uri, every backslash turned into a slash and every other character kept |
| Util.ReplaceBackslashes | src/Util.cc:393 | the in-place loop yields the slashed uri, which holds no backslash |
| Util.AsFullPath | src/Util.cc:334-398 | the uri comes back unchanged for an empty file path, a uri with "://" or an absolute uri, and for the in-memory SDF path; otherwise the slashed uri goes after the file's parent directory, with a '/' when that directory is itself a URI and through joinPaths when it is not |
| Util.Ancestors | src/Util.cc:74-87 | the entity followed by each parent in turn, ending at the first entity that has no parent |
| Util.PosedPrefix | src/Util.cc:74-87 | the poses of the longest prefix of the chain whose entities all have a pose; the next entity has none |
| Util.WorldPoseAlongChain | src/Util.cc:62-88 | the world pose is the composition of the poses along the longest posed prefix of the ancestor chain, and the default pose when the entity has none |
| Util.WorldPose | src/Util.cc:62-88 | the upward loop yields the world pose |
| Util.InsertLevel | src/Util.cc:117-125 | the name, preceded by the type prefix and delimiter when asked, is put in front of the result |
| Util.ScopedName | src/Util.cc:91-137 | the loop inserting each level in front of the result yields the scoped name of the entity |
| Util.ScopedNameIsJoin | src/Util.cc:91-137 | when the whole chain is named and the root is typed, the scoped name is the typed levels, outermost first, joined with the delimiter |
| Util.FirstOfKind | src/Util.cc:298-314 | the first position in the chain of an entity of the kind, or None when no entity in the chain has it |
| Util.WorldEntity | src/Util.cc:298-314 | the loop climbing the parents yields the nearest ancestor-or-self that is a world, or the null entity |
| Util.FirstWorld | src/Util.cc:317-320 | either the null entity or a listed world, and a listed world is found whenever the store lists one |
| Util.LiveLength | src/Util.cc:504 | the length of the chain before its first null entity |
| Util.LastOfKind | src/Util.cc:496-518 | the last position in the chain of an entity of the kind, or None when there is none |
| Util.TopLevelModel | src/Util.cc:496-518 | the loop remembering the last model seen yields the outermost model on the live part of the ancestor chain, or the null entity |
| Util.Named | src/Util.cc:166-170 | exactly the listed entities carrying the name |
| Util.ChildrenNamed | src/Util.cc:172-192 | exactly the listed entities carrying the name whose parent is the given entity |
| Util.ChildrenOfAll | src/Util.cc:172-192 | exactly the named children of some candidate |
| Util.ResolveReaches | src/Util.cc:172-192 | starting from candidates, resolution yields exactly the entities that some candidate reaches by a path of children named by the segments |
| Util.EntitiesFromScopedNameMembers | src/Util.cc:140-195 | relative to an entity, an entity is found exactly when a path of children named by the segments leads to it from that entity; relative to nothing, exactly when such a path starts at some entity named by the first segment |
| Util.SplitNames | src/Util.cc:151-161 | the pos1/pos2 loop yields the segments of the scoped name |
| Util.Narrow | src/Util.cc:172-188 | one narrowing step yields the matching children of every candidate |
| Util.EntitiesFromScopedName | src/Util.cc:140-195 | the method yields the set the resolution specifies, empty for an empty delimiter and as soon as a segment matches nothing |
| ModelTree.Visit | src/gui/plugins/visualization_capabilities/VisualizationCapabilities.cc:1536-1550 | a walk from a model pops that model first |
| ModelTree.GatherMembers | src/gui/plugins/visualization_capabilities/VisualizationCapabilities.cc:1541-1543 | an entity is collected exactly when it is in the row of one of the popped models |
| ModelTree.GatherAppend | src/gui/plugins/visualization_capabilities/VisualizationCapabilities.cc:1541-1543 | collecting from two runs of models collects from the first, then the second |
| ModelTree.VisitRankFree | src/gui/plugins/visualization_capabilities/VisualizationCapabilities.cc:1536-1550 | the order of the walk does not depend on which ranking witnesses that it ends |
| ModelTree.VisitStackAppend | src/gui/plugins/visualization_capabilities/VisualizationCapabilities.cc:1536-1550 | a stack is walked from the top: the upper part's subtrees come out before the lower part's |
| ModelTree.PopStep | src/gui/plugins/visualization_capabilities/VisualizationCapabilities.cc:1538-1549 | popping the top yields it, and the walk goes on with its children pushed; every stacked model stays within the bound |
| ModelTree.VisitMembers | src/gui/plugins/visualization_capabilities/VisualizationCapabilities.cc:1536-1550 | a model is popped by the walk from a model exactly when it lies in that model's subtree |
| ModelTree.VisitStackMembers | src/gui/plugins/visualization_capabilities/VisualizationCapabilities.cc:1536-1550 | a model is popped by the walk from a stack exactly when it lies in the subtree of a stacked model |
| RenderScene.FirstTagged | src/gui/plugins/visualization_capabilities/VisualizationCapabilities.cc:1164-1186 | the first visual tagged with the entity; None exactly when no visual carries that tag |
| RenderScene.FirstNamed | src/gui/plugins/visualization_capabilities/VisualizationCapabilities.cc:552-553 | the first visual with the name, or None when no visual has it |
| RenderScene.SetFlags | src/gui/plugins/visualization_capabilities/VisualizationCapabilities.cc:1445-1450 | setting flags keeps the number of visuals and every tag and name |
| RenderScene.SetFlagsKeepsLookups | src/gui/plugins/visualization_capabilities/VisualizationCapabilities.cc:1164-1186 | setting flags changes neither the tags nor which visual a lookup by id or by name finds |
| RenderScene.SetFlagsAdd | src/gui/plugins/visualization_capabilities/VisualizationCapabilities.cc:1445-1450 | one more target sets the flag of the first visual tagged with it |
| RenderScene.FirstUntaken | src/gui/plugins/visualization_capabilities/VisualizationCapabilities.cc:438-443 | the first candidate below the probe bound in none of the four id spaces, or None when every one is taken |
| RenderScene.FirstFreeId | src/gui/plugins/visualization_capabilities/VisualizationCapabilities.cc:438-461 | the smallest candidate below the probe bound that is in no id space and tags no visual, or None when there is none |
| RenderScene.DecimalString | src/gui/plugins/visualization_capabilities/VisualizationCapabilities.cc:1141 | a non-empty string of decimal digits, whose value DecimalRoundTrip proves to be the id itself |
| RenderScene.DecimalRoundTrip | src/gui/plugins/visualization_capabilities/VisualizationCapabilities.cc:684 | reading the digits of an id back gives the id, and a positive id has no leading zero |
| RenderScene.DecimalStringInjective | src/gui/plugins/visualization_capabilities/VisualizationCapabilities.cc:1141 | different ids give different digit strings, so overlay names of different ids differ |
| VisualizationRules.ChildrenIn | src/gui/plugins/visualization_capabilities/VisualizationCapabilities.cc:1714-1722 | exactly the listed children of the model carrying the kind |
| VisualizationRules.StoreRanked | src/gui/plugins/visualization_capabilities/VisualizationCapabilities.cc:1710-1730 | in an acyclic store every child model ranks below its parent, so the walk over the store ends |
| VisualizationRules.LinksFromStoreMembers | src/gui/plugins/visualization_capabilities/VisualizationCapabilities.cc:1698-1735 | for a model, exactly the listed links whose parent is the model or a model nested in it; a link yields only itself; anything else yields nothing |
| VisualizationRules.ExpandQueueMembers | src/gui/plugins/visualization_capabilities/VisualizationCapabilities.cc:1642-1695 | the expanded queue holds exactly the links found for some queued entity |
| VisualizationRules.Fill | src/gui/plugins/visualization_capabilities/VisualizationCapabilities.cc:1411-1412 | reading rows through operator[] adds exactly the missing keys and changes no row as read |
| VisualizationRules.SomeRank | src/gui/plugins/visualization_capabilities/VisualizationCapabilities.cc:1536-1550 | acyclic model rows have a ranking under which every child ranks below its model |
| VisualizationRules.FillAcyclic | src/gui/plugins/visualization_capabilities/VisualizationCapabilities.cc:1545 | default-inserted empty rows keep the model rows acyclic |
| VisualizationRules.IndexChildLinksRepeatRoot | src/gui/plugins/visualization_capabilities/VisualizationCapabilities.cc:1516-1554 | when the entity has a model row, its own links come out twice, once directly and once from the walk |
| VisualizationRules.IndexChildLinksMembers | src/gui/plugins/visualization_capabilities/VisualizationCapabilities.cc:1516-1554 | a link is found exactly when it is in the entity's own link row or in the link row of a model the walk pops |
| VisualizationRules.AddRowsAppends | src/gui/plugins/visualization_capabilities/VisualizationCapabilities.cc:1830-1840 | indexing appends the newly indexed children of each parent to the end of that parent's row, in store order |
| VisualizationRules.AddRowsKeys | src/gui/plugins/visualization_capabilities/VisualizationCapabilities.cc:1830-1840 | indexing adds a row exactly for the parents of the indexed entities |
| VisualizationRules.FollowAcyclic | src/gui/plugins/visualization_capabilities/VisualizationCapabilities.cc:1874-1884 | model rows that follow an acyclic store's parent relation hold no cycle |
| VisualizationRules.AddRowsFollow | src/gui/plugins/visualization_capabilities/VisualizationCapabilities.cc:1874-1884 | indexing entities under their store parents keeps the rows following the store |
| VisualizationRules.AddRowsAcyclic | src/gui/plugins/visualization_capabilities/VisualizationCapabilities.cc:1830-1840 | indexing entities that have no rows yet under their store parents keeps acyclic model rows acyclic, stale entries included |
| VisualizationRules.EraseAcyclic | src/gui/plugins/visualization_capabilities/VisualizationCapabilities.cc:1905-1911 | erasing rows keeps acyclic model rows acyclic |
| VisualizationRules.EraseFollow | src/gui/plugins/visualization_capabilities/VisualizationCapabilities.cc:1905-1911 | erasing rows keeps the rows following the store |
| VisualizationRules.AddInertials | src/gui/plugins/visualization_capabilities/VisualizationCapabilities.cc:1843-1850 | each new entity with an inertial and a pose stores its inertial; every other entry is kept |
| VisualizationRules.AddCollisions | src/gui/plugins/visualization_capabilities/VisualizationCapabilities.cc:1887-1902 | each new collision with a name, pose, parent, geometry and collision element stores that element under its name; every other entry is kept |
| ViewRules.Touch | src/gui/plugins/visualization_capabilities/VisualizationCapabilities.cc:399 | reading a viewing record through operator[] adds the missing key as false and changes no existing record |
| ViewRules.Unrecorded | src/gui/plugins/visualization_capabilities/VisualizationCapabilities.cc:1420-1428 | no more unrecorded entries than the list has |
| ViewRules.UnrecordedMembers | src/gui/plugins/visualization_capabilities/VisualizationCapabilities.cc:1420-1428 | an entity is unrecorded exactly when it is in the list and has no viewing record |
| ViewRules.FirstRecorded | src/gui/plugins/visualization_capabilities/VisualizationCapabilities.cc:1431-1443 | the first list entry that has a viewing record, or None when none has one |
| ViewRules.Toggled | src/gui/plugins/visualization_capabilities/VisualizationCapabilities.cc:1431-1451 | toggling creates no viewing record |
| ViewRules.Repeat | src/gui/plugins/visualization_capabilities/VisualizationCapabilities.cc:1425 | the requests queued are that many copies of the requested entity |
| ViewRules.FillIds | src/gui/plugins/visualization_capabilities/VisualizationCapabilities.cc:1335 | reading overlay ids through operator[] adds exactly the recorded links of the list and changes no id as read |
| ViewRules.UnrecordedKeys | src/gui/plugins/visualization_capabilities/VisualizationCapabilities.cc:1420-1428 | which entries are unrecorded depends only on which entities have a record |
| ViewRules.AllRecorded | src/gui/plugins/visualization_capabilities/VisualizationCapabilities.cc:1420-1428 | a list whose entities all have records queues no request |
| ViewRules.FirstSeenShows | src/gui/plugins/visualization_capabilities/VisualizationCapabilities.cc:1420-1428 | a request that meets an entity with no record shows everything in the list and queues at least one request |
| ViewRules.ToggleTwiceRestores | src/gui/plugins/visualization_capabilities/VisualizationCapabilities.cc:1431-1451 | when every entry is recorded and eligible and all agree, the decision is the negation of the first state, and toggling twice gives back the original records |
| ViewRules.ToggleAllSkips | src/gui/plugins/visualization_capabilities/VisualizationCapabilities.cc:1433-1435 | a toggle loop over entries none of which is recorded changes nothing |
| ViewRules.ToggleAllClosed | src/gui/plugins/visualization_capabilities/VisualizationCapabilities.cc:1431-1451 | the direct toggle loop gives exactly the recorded entries with a visual the new state, and flags exactly their visuals |
| ViewRules.ToggleOverlaysSkips | src/gui/plugins/visualization_capabilities/VisualizationCapabilities.cc:1323-1325 | an overlay toggle loop over unrecorded links changes nothing |
| ViewRules.ToggleOverlaysClosed | src/gui/plugins/visualization_capabilities/VisualizationCapabilities.cc:1321-1343 | the overlay toggle loop gives exactly the recorded links whose overlay exists the new state, default-inserts their overlay ids and shows or hides exactly those overlays |
| RenderPasses.MarkAllAppend | src/gui/plugins/visualization_capabilities/VisualizationCapabilities.cc:392-409 | marking two runs of entities marks the first, then the second |
| RenderPasses.Marked | src/gui/plugins/visualization_capabilities/VisualizationCapabilities.cc:399-405 | after marking, every listed entity has a viewing record |
| RenderPasses.MarkAllClosed | src/gui/plugins/visualization_capabilities/VisualizationCapabilities.cc:392-410 | listed entities end up marked exactly when they were marked before or have a visual, and exactly the visuals of the entities not marked before are flagged |
| RenderPasses.ProbeOneOutcome | src/gui/plugins/visualization_capabilities/VisualizationCapabilities.cc:435-463 | a probe creates an overlay exactly when the link is unviewed, has a visual and a free id exists; the id is then the smallest candidate in no id space and tagging no visual, the link is viewed and the new overlay is found by that id; otherwise the scene, the ids and the plugin visuals are unchanged |
| RenderPasses.ProbeAllFresh | src/gui/plugins/visualization_capabilities/VisualizationCapabilities.cc:434-464 | an overlay pass only appends visuals, each with a distinct id that tagged nothing before, lies in no id space and is recorded as a plugin visual; a viewed link stays viewed |
| RenderPasses.CollideOneFresh | src/gui/plugins/visualization_capabilities/VisualizationCapabilities.cc:504-542 | a collision visual is appended at most once per collision entity, tagged with it, only when the entity has no plugin visual and is in no id space |
| RenderPasses.CollideRowOwned | src/gui/plugins/visualization_capabilities/VisualizationCapabilities.cc:504-543 | a link's collision pass only appends visuals, each tagged with a fresh collision entity and all distinct |
| RenderPasses.CollideAllOwned | src/gui/plugins/visualization_capabilities/VisualizationCapabilities.cc:498-545 | the collision pass only appends visuals, one per collision entity that had no plugin visual, each tagged with that entity and all distinct |
| VisualizationCapabilities.TargetEntity | src/gui/plugins/visualization_capabilities/VisualizationCapabilities.cc:552-559 | None when no visual has the target's name; otherwise the tag of the first visual with that name, and any entity found is such a tag |
| VisualizationCapabilities.VisualById | src/gui/plugins/visualization_capabilities/VisualizationCapabilities.cc:1164-1186 | the scan yields the first visual tagged with the id |
| VisualizationCapabilities.FindChildLinksFromECM | src/gui/plugins/visualization_capabilities/VisualizationCapabilities.cc:1698-1735 | the stack walk over the store yields the links of the entity's model subtree, in walk order, or the link itself |
| VisualizationCapabilities.ExpandRequests | src/gui/plugins/visualization_capabilities/VisualizationCapabilities.cc:1642-1695 | expanding a queue concatenates the links found for each queued model or link and drops anything else |
| VisualizationCapabilities.GatherRows | src/gui/plugins/visualization_capabilities/VisualizationCapabilities.cc:1398-1414 | the entity's own row followed by the rows of the links, with every read link row default-inserted |
| VisualizationCapabilities.ScanNew | src/gui/plugins/visualization_capabilities/VisualizationCapabilities.cc:1420-1428 | one request per unrecorded entry, and the state is decided exactly when some entry is unrecorded |
| VisualizationCapabilities.ToggleRecorded | src/gui/plugins/visualization_capabilities/VisualizationCapabilities.cc:1430-1451 | the second loop of a direct request sets the recorded entries with a visual to the decided state and flags exactly their visuals |
| VisualizationCapabilities.ToggleEntity | src/gui/plugins/visualization_capabilities/VisualizationCapabilities.cc:1444-1450 | one recorded entity is set to the decided state and its visual flagged when it has one |
| VisualizationCapabilities.ToggleLoop | src/gui/plugins/visualization_capabilities/VisualizationCapabilities.cc:1431-1451 | the source's loop, with its first-state flag, yields the toggle over the list with the decided state |
| VisualizationCapabilities.ToggleOverlayRecorded | src/gui/plugins/visualization_capabilities/VisualizationCapabilities.cc:1320-1343 | the second loop of an overlay request sets the recorded links with an existing overlay to the decided state, default-inserts their ids and shows or hides exactly those overlays |
| VisualizationCapabilities.ToggleOverlayEntity | src/gui/plugins/visualization_capabilities/VisualizationCapabilities.cc:1335-1342 | one recorded link is set to the decided state and its overlay shown or hidden when it exists |
| VisualizationCapabilities.ToggleOverlayLoop | src/gui/plugins/visualization_capabilities/VisualizationCapabilities.cc:1321-1343 | the source's loop, with its first-state flag, yields the overlay toggle over the list with the decided state |
| VisualizationCapabilities.MarkLinks | src/gui/plugins/visualization_capabilities/VisualizationCapabilities.cc:392-410 | the wireframe or transparency pass fills the rows of the queued links, marks their visual entities and flags exactly the visuals of those not marked before |
| VisualizationCapabilities.MarkEntity | src/gui/plugins/visualization_capabilities/VisualizationCapabilities.cc:397-408 | an unmarked visual entity with a visual is marked and that visual flagged; without a visual its record is only default-inserted; a marked one is left alone |
| VisualizationCapabilities.MarkRow | src/gui/plugins/visualization_capabilities/VisualizationCapabilities.cc:397-408 | the loop over a link's visual entities marks each of them in order |
| VisualizationCapabilities.MarkLink | src/gui/plugins/visualization_capabilities/VisualizationCapabilities.cc:394-408 | a link's visual row is read through operator[] and its visual entities are marked |
| VisualizationCapabilities.ProbeFreeId | src/gui/plugins/visualization_capabilities/VisualizationCapabilities.cc:437-462 | the probe loop yields the first free id when the link is unviewed and has a visual, and reads the link's record once some id is untaken |
| VisualizationCapabilities.ProbeLinks | src/gui/plugins/visualization_capabilities/VisualizationCapabilities.cc:434-464 | the centre-of-mass or inertia pass creates the overlays the probe specifies, link by link |
| VisualizationCapabilities.ProbeLink | src/gui/plugins/visualization_capabilities/VisualizationCapabilities.cc:437-462 | one link gets the overlay the probe specifies: its inertial default-inserted, a new visual under the link's visual named by the prefix and the id, and the id recorded |
| VisualizationCapabilities.CollideLinks | src/gui/plugins/visualization_capabilities/VisualizationCapabilities.cc:498-545 | the collision pass creates the collision visuals of the queued links and default-inserts their collision rows |
| VisualizationCapabilities.CollideLink | src/gui/plugins/visualization_capabilities/VisualizationCapabilities.cc:504-543 | the loop over a link's collisions creates the visuals the collision row specifies, one per collision without a plugin visual |
| VisualizationCapabilities.IndexRows | src/gui/plugins/visualization_capabilities/VisualizationCapabilities.cc:1830-1840 | indexing pushes each entity, in order, that carries the kind and the components the source checks for it onto its parent's row |
| VisualizationCapabilities.IndexInertials | src/gui/plugins/visualization_capabilities/VisualizationCapabilities.cc:1843-1850 | the loop records the inertials of the new entities |
| VisualizationCapabilities.IndexCollisions | src/gui/plugins/visualization_capabilities/VisualizationCapabilities.cc:1887-1902 | the loop records the element of each new collision with geometry and a collision element and pushes it under its link |
| VisualizationCapabilities.WalkIndex | src/gui/plugins/visualization_capabilities/VisualizationCapabilities.cc:1516-1554 | the stack walk over the index yields the entity's links and those of every popped model, default-inserting every row it reads |
| VisualizationCapabilities.DirectRequest | src/gui/plugins/visualization_capabilities/VisualizationCapabilities.cc:1396-1452 | a direct request walks the index, queues one request per unrecorded entry and toggles the recorded ones; the model rows stay acyclic |
| VisualizationCapabilities.OverlayRequest | src/gui/plugins/visualization_capabilities/VisualizationCapabilities.cc:1298-1344 | an overlay request walks the index, queues one request per unrecorded link and toggles the recorded overlays; the model rows stay acyclic |
| VisualizationCapabilities.DirectTarget | src/gui/plugins/visualization_capabilities/VisualizationCapabilities.cc:599-623 | a pending direct request runs for the entity behind the named visual, and does nothing when no visual has that name |
| VisualizationCapabilities.OverlayTarget | src/gui/plugins/visualization_capabilities/VisualizationCapabilities.cc:547-571 | a pending overlay request runs for the entity behind the named visual, and does nothing when no visual has that name |
| VisualizationCapabilities.RunPasses | src/gui/plugins/visualization_capabilities/VisualizationCapabilities.cc:391-545 | the render passes run in the source's order, and every link queue ends empty |
| VisualizationCapabilities.RenderAllDrains | src/gui/plugins/visualization_capabilities/VisualizationCapabilities.cc:391-545 | after the five render passes every link queue is empty |
| VisualizationCapabilities.HandleRequests | src/gui/plugins/visualization_capabilities/VisualizationCapabilities.cc:547-675 | the pending requests are handled in the source's order, and every target ends cleared |
| VisualizationCapabilities.HandleAllClears | src/gui/plugins/visualization_capabilities/VisualizationCapabilities.cc:547-675 | after the pending requests are handled every target is cleared and the inertial data is unchanged |
| VisualizationCapabilities.Targeted | src/gui/plugins/visualization_capabilities/VisualizationCapabilities.cc:550-559 | nothing for an empty target or one no visual is named; otherwise the tag of the first visual with that name |
| VisualizationCapabilities.EraseRows | src/gui/plugins/visualization_capabilities/VisualizationCapabilities.cc:1905-1918 | the rows of the removed entities of the kind are erased and no other row is |
| VisualizationCapabilities.Reindex | src/gui/plugins/visualization_capabilities/VisualizationCapabilities.cc:1751-1918 | the index is Reindexed of the old one; indexing and erasure keep the model rows following an acyclic store, and keep acyclic rows acyclic when the indexed entities are new to them |
| VisualizationCapabilities.ExpandAll | src/gui/plugins/visualization_capabilities/VisualizationCapabilities.cc:1920-1922 | each request queue is expanded onto its link queue and then emptied |
| VisualizationCapabilities.Plugin.constructor | src/gui/plugins/visualization_capabilities/VisualizationCapabilities.cc:1189-1236 | a new plugin has no scene, is not initialized and holds empty maps, queues and targets |
| VisualizationCapabilities.Plugin.OnViewTransparent | src/gui/plugins/visualization_capabilities/VisualizationCapabilities.cc:1189-1236 | the request service stores the node name for the next render and answers true |
| VisualizationCapabilities.Plugin.OnViewWireframes | src/gui/plugins/visualization_capabilities/VisualizationCapabilities.cc:1189-1236 | the request service stores the node name for the next render and answers true |
| VisualizationCapabilities.Plugin.OnViewCOM | src/gui/plugins/visualization_capabilities/VisualizationCapabilities.cc:1189-1236 | the request service stores the node name for the next render and answers true |
| VisualizationCapabilities.Plugin.OnViewInertia | src/gui/plugins/visualization_capabilities/VisualizationCapabilities.cc:1189-1236 | the request service stores the node name for the next render and answers true |
| VisualizationCapabilities.Plugin.OnViewCollisions | src/gui/plugins/visualization_capabilities/VisualizationCapabilities.cc:1189-1236 | the request service stores the node name for the next render and answers true |
| VisualizationCapabilities.Plugin.FindChildLinks | src/gui/plugins/visualization_capabilities/VisualizationCapabilities.cc:1516-1554 | the links found over the index maps, with every row the walk reads default-inserted |
| VisualizationCapabilities.Plugin.ViewWireframes | src/gui/plugins/visualization_capabilities/VisualizationCapabilities.cc:1396-1452 | the state after the direct wireframe request, with the wireframe flag |
| VisualizationCapabilities.Plugin.ViewTransparent | src/gui/plugins/visualization_capabilities/VisualizationCapabilities.cc:1455-1513 | the state after the direct transparency request, with the transparency flag |
| VisualizationCapabilities.Plugin.ViewCollisions | src/gui/plugins/visualization_capabilities/VisualizationCapabilities.cc:1239-1295 | the state after the direct request over the collision rows, with the visibility flag |
| VisualizationCapabilities.Plugin.ViewInertia | src/gui/plugins/visualization_capabilities/VisualizationCapabilities.cc:1298-1344 | the state after the inertia overlay request |
| VisualizationCapabilities.Plugin.ViewCOM | src/gui/plugins/visualization_capabilities/VisualizationCapabilities.cc:1347-1393 | the state after the centre-of-mass overlay request |
| VisualizationCapabilities.Plugin.RenderPasses | src/gui/plugins/visualization_capabilities/VisualizationCapabilities.cc:391-545 | the pass-side fields become the five render passes' result from the given state, with every link queue empty |
| VisualizationCapabilities.Plugin.HandleTargets | src/gui/plugins/visualization_capabilities/VisualizationCapabilities.cc:547-675 | the request-side fields become what handling the pending requests leaves over the passes' result; the collision elements, plugin visuals and link queues stay that result's; the model rows stay acyclic |
| VisualizationCapabilities.Plugin.RenderWithScene | src/gui/plugins/visualization_capabilities/VisualizationCapabilities.cc:391-675 | the whole render-side state is what the five passes and then the request handling over their result produce |
| VisualizationCapabilities.Plugin.OnRender | src/gui/plugins/visualization_capabilities/VisualizationCapabilities.cc:379-676 | with no scene and none available nothing changes; otherwise the scene is kept or acquired and the whole state is the passes over the old state followed by the request handling over their result: every link queue ends empty and every target cleared |
| VisualizationCapabilities.Plugin.UpdateIndex | src/gui/plugins/visualization_capabilities/VisualizationCapabilities.cc:1751-1918 | the index after indexing every entity on the first call and the created ones afterwards, then erasing the removed rows; the model rows keep following an acyclic store, and acyclic rows stay acyclic when the indexed entities are new to them |
| VisualizationCapabilities.Plugin.ExpandQueues | src/gui/plugins/visualization_capabilities/VisualizationCapabilities.cc:1920-1922 | every request queue expanded onto its link queue |
| VisualizationCapabilities.Plugin.Update | src/gui/plugins/visualization_capabilities/VisualizationCapabilities.cc:1748-1923 | the index is the old one with every entity indexed on the first call and the created ones afterwards, then the removed rows erased; each request queue is expanded onto its link queue and emptied; the model rows stay acyclic when they followed the store, or when they were acyclic and the indexed entities are new to them |
| Spawn.Candidate | src/gui/plugins/spawn/Spawn.cc:280-290 | every id tried is non-null |
| Spawn.FirstFreeFrom | src/gui/plugins/spawn/Spawn.cc:280-290 | the first probe position whose candidate the scene does not hold, or None when every remaining one is held |
| Spawn.UniqueIdOf | src/gui/plugins/spawn/Spawn.cc:280-290 | a non-null id is not yet held by the scene |
| Spawn.UniqueIdOfLargestFree | src/gui/plugins/spawn/Spawn.cc:280-290 | a non-null result is the largest candidate the scene does not hold; the null entity exactly when all candidates are held |
| Spawn.UniqueIdDecreases | src/gui/plugins/spawn/Spawn.cc:280-290 | registering the id just handed out makes the next one strictly smaller |
| Spawn.AllocateFresh | src/gui/plugins/spawn/Spawn.cc:383-429 | a successful allocation hands out the requested number of distinct non-null ids the scene did not hold |
| Spawn.AllocateDecreasing | src/gui/plugins/spawn/Spawn.cc:383-429 | allocated ids come out in strictly decreasing order |
| Spawn.AllocateStuck | src/gui/plugins/spawn/Spawn.cc:389-394 | nothing can be allocated once the first probe fails |
| Spawn.SpawnPlugin.constructor | src/gui/plugins/spawn/Spawn.cc:293-359 | a new plugin is not spawning or placing and has no preview |
| Spawn.SpawnPlugin.UniqueId | src/gui/plugins/spawn/Spawn.cc:280-290 | the downward probe yields the unique id of the scene |
| Spawn.SpawnPlugin.TerminateSpawnPreview | src/gui/plugins/spawn/Spawn.cc:362-368 | every preview id is removed from the scene, the preview list is empty and placing stops; nothing else changes |
| Spawn.SpawnPlugin.GenerateModelPreview | src/gui/plugins/spawn/Spawn.cc:383-429 | succeeds exactly when the allocation of the preview's ids succeeds, and the preview is then that allocation; on failure the preview is dropped and placing stops |
| Spawn.SpawnPlugin.AddModelEntity | src/gui/plugins/spawn/Spawn.cc:389-400 | the first allocated id becomes the model's and the only preview id, and the allocation is under way |
| Spawn.SpawnPlugin.GenerateLinksPreview | src/gui/plugins/spawn/Spawn.cc:401-428 | the link loop completes the allocation of the preview's ids, or on failure drops the preview and stops placing exactly when the allocation fails |
| Spawn.SpawnPlugin.GenerateLinkPreview | src/gui/plugins/spawn/Spawn.cc:401-427 | one link takes one id and then one per visual, or the preview is dropped and the allocation fails |
| Spawn.SpawnPlugin.AddPreviewEntity | src/gui/plugins/spawn/Spawn.cc:411-413 | the id just found is registered with the scene and appended to the preview |
| Spawn.SpawnPlugin.GenerateLightPreview | src/gui/plugins/spawn/Spawn.cc:430-457 | succeeds exactly when a unique id exists, and the preview is then that id twice |
| Spawn.SpawnPlugin.AddLightPreview | src/gui/plugins/spawn/Spawn.cc:448-456 | the light and its visual, sharing one new id, are registered and become the whole preview |
| Spawn.PreviewOfSpawns | src/gui/plugins/spawn/Spawn.cc:371-459 | a description spawns exactly when its preview is non-empty, and every preview id is non-null and new to the scene |
| Spawn.SpawnPlugin.GeneratePreview | src/gui/plugins/spawn/Spawn.cc:371-459 | fails when the description has neither model nor light; on success the scene is the old scene without the old preview plus the new preview ids, all new to it; on failure the preview is empty; the preview is always PreviewOf the description over that scene; either way placing is off |
| Spawn.SpawnPlugin.CreateService | src/gui/plugins/spawn/Spawn.cc:257-262 | the configured service, or the world's default create service, made a valid topic |
| Spawn.SpawnPlugin.PlaceModel | src/gui/plugins/spawn/Spawn.cc:224-276 | the preview is removed, placing stops and the create request goes to the service, or is left unsent when no service resolves |
| Spawn.SpawnPlugin.SendCreateRequest | src/gui/plugins/spawn/Spawn.cc:257-275 | the service resolves to the configured or default one made a valid topic; when non-empty the request for the description goes out, placing stops and the description is cleared, otherwise nothing else changes |
| Spawn.SpawnPlugin.HandleModelPlacement | src/gui/plugins/spawn/Spawn.cc:211-277 | nothing changes when not placing; while placing the hover flag is cleared once a preview exists, and a plain left release places the model; the scene outside the preview never changes |
| Spawn.SpawnPlugin.ProcessSpawnRequest | src/gui/plugins/spawn/Spawn.cc:327-346 | a pending spawn loads the requested description, or none when neither string nor path is set, and placing starts exactly when its preview ids can be allocated, and the preview is PreviewOf that description; the scene outside the preview is kept |
| Spawn.SpawnPlugin.ProcessEscape | src/gui/plugins/spawn/Spawn.cc:351-355 | a released escape key drops the preview and is consumed; the scene outside the preview is kept |
| Spawn.SpawnPlugin.OnRender | src/gui/plugins/spawn/Spawn.cc:293-359 | without a scene nothing happens; otherwise placing goes on from a successful spawn or from before unless escape was released, a placement click then places the preview and sends the request, the preview is empty after an escape or a placement, the new spawn's PreviewOf after a spawn, and otherwise the old one; the scene is the scene outside the preview plus that preview, or unchanged when nothing was spawned or dropped; the placing flag, service, requests and flags end as those steps leave them |
| Spawn.SpawnPlugin.OnLeftClick | src/gui/plugins/spawn/Spawn.cc:468-475 | the click is stored, and flagged for the next render only while spawning or placing; nothing else changes |
| Spawn.SpawnPlugin.OnHover | src/gui/plugins/spawn/Spawn.cc:476-482 | the hover flag is raised for the next render; nothing else changes |
| Spawn.SpawnPlugin.OnSpawnFromDescription | src/gui/plugins/spawn/Spawn.cc:483-490 | the SDF string is stored and a spawn is requested for the next render; nothing else changes |
| Spawn.SpawnPlugin.OnSpawnFromPath | src/gui/plugins/spawn/Spawn.cc:491-497 | the SDF path is stored and a spawn is requested for the next render; nothing else changes |
| Spawn.SpawnPlugin.OnKeyRelease | src/gui/plugins/spawn/Spawn.cc:498-506 | a released escape key is recorded for the next render, any other key leaves the flag as it was; nothing else changes |

## Left out

- Qt event plumbing: the event filter's dispatch, plugin configuration loading and transport service registration are outside the model. The handlers the events reach are modelled.
- SDF parsing: the parsed description is the parameter `load`. Only the model's links and visual counts and the first light are kept.
- The ray query from the mouse onto the ground plane, the camera and the preview's on-screen position are left out. The preview pose is carried as an opaque value.
- Floating-point pose arithmetic: a pose is a sequence of frame words, and composition is concatenation.
- The topic sanitiser, `joinPaths` and the parent directory of a path are parameters. Only their inputs are modelled.
- Util.AsFullPath: the Windows and Apple branches are left out. A path is absolute when it starts with '/', and the filesystem is never consulted.
- Renderer internals: visual creation beyond the checks the plugin makes and the name it gives is left out. This covers geometry and material loading and the inertia and centre-of-mass box shapes. A created visual always exists.
- Transparency is set on the one visual. The scene manager's walk over its descendants is left out.
- ViewRules.ToggleTwiceRestores: proved only for a list whose entries are all recorded, eligible and in one state. That is the case where a repeated request toggles back.
- Error and warning messages are not modelled.
- VisualizationCapabilities.TargetEntity: when the first visual with the target's name carries no entity tag, the source's `std::get<int>` throws `std::bad_variant_access`, which nothing catches (VisualizationCapabilities.cc:558-559, 584-585, 610-611, 636-637, 662-663). Exceptions are not modelled, so the model gives None there and the request does nothing.
- VisualizationCapabilities.Targeted: inherits the same gap. For a named visual without a tag it gives None, where the source throws.
- VisualizationCapabilities.VisualById: the source takes the id as an `unsigned int` and reads the tags as `int`, so an entity id of 2^32 or more is cut to 32 bits and a negative tag is sign-extended. The model compares unbounded naturals and does not model either conversion.
- `resourcePaths`, `addResourcePaths`, `topicFromScopedName` and `validTopic` of `src/Util.cc` are not part of this model.
- Threading: the model runs `Update` and `OnRender` as separate sequential calls, so no interleaving of the two threads is modelled.
- The render engine: it hands out a scene at most once, modelled as the parameter `initial`. The scene's id spaces are a per-frame parameter.
- Spawn's scene-manager results are not modelled. Only the set of registered ids is kept, and entity creation always succeeds once an id exists.
- Util.WorldPose, Util.ScopedName and Util.TopLevelModel require an acyclic parent relation, which the store guarantees; with a cycle the source would loop forever.
- VisualizationCapabilities.Plugin.Update: the index walks of `OnRender`, the `View*` calls and `FindChildLinks` require acyclic model rows. Update keeps them acyclic only on the hypothesis `NewToRows`: the entities it indexes have no non-empty row yet. That holds when the store never reuses an entity id, which the model takes as given rather than proving. Removal erases only the removed models' own rows (VisualizationCapabilities.cc:1905-1911), so a removed nested model stays in its parent's row, and from then on the rows no longer follow the store. The model keeps those stale entries, and `AddRowsAcyclic` and `EraseAcyclic` show they do not break acyclicity.
- The round trip from a scoped name back to the entity is not stated as one lemma. `ScopedNameIsJoin` and `EntitiesFromScopedNameMembers` characterise the two directions separately.
