/**
 * The spawn plugin of the GUI: it builds a preview of a model or light
 * from an SDF description, lets the user place it with the mouse and then
 * asks the server to create the entity.
 *
 * The scene manager is modelled by the set of entity ids it holds; the
 * preview is the list of ids the plugin registered there. SDF parsing,
 * topic validation and the screen-to-plane projection are external and
 * enter as parameters or are left out.
 */
module Spawn {
  import opened Util

  /** Largest value of a 64-bit entity id. */
  const UInt64Max: nat := 0xFFFF_FFFF_FFFF_FFFF

  /** Number of ids UniqueId probes before giving up. */
  const ProbeLimit: nat := 100000

  /** The i-th id UniqueId tries, counting down from the largest id. */
  function Candidate(i: nat): (id: Entity)
    requires i < ProbeLimit
    ensures id != NullEntity
  {
    UInt64Max - i
  }

  /** The first probe position at or after `i` whose candidate the scene does not hold. */
  function FirstFreeFrom(used: set<Entity>, i: nat): (r: Option<nat>)
    requires i <= ProbeLimit
    decreases ProbeLimit - i
    ensures r.Some? ==> i <= r.value < ProbeLimit && Candidate(r.value) !in used
    ensures r.Some? ==> forall j :: i <= j < r.value ==> Candidate(j) in used
    ensures r.None? ==> forall j :: i <= j < ProbeLimit ==> Candidate(j) in used
  {
    if i == ProbeLimit then None
    else if Candidate(i) !in used then Some(i)
    else FirstFreeFrom(used, i + 1)
  }

  /**
   * The id UniqueId returns: the largest of the probed ids the scene does
   * not hold, or the null entity when all of them are taken.
   */
  function UniqueIdOf(used: set<Entity>): (id: Entity)
    ensures id != NullEntity ==> id !in used
  {
    match FirstFreeFrom(used, 0)
    case None => NullEntity
    case Some(i) => Candidate(i)
  }

  /**
   * UniqueIdOf is the largest probed id the scene does not hold, and the
   * null entity exactly when every probed id is taken.
   */
  lemma UniqueIdOfLargestFree(used: set<Entity>)
    ensures UniqueIdOf(used) != NullEntity ==>
      exists i :: 0 <= i < ProbeLimit && UniqueIdOf(used) == Candidate(i) &&
                  forall j :: 0 <= j < i ==> Candidate(j) in used
    ensures UniqueIdOf(used) == NullEntity <==> forall j :: 0 <= j < ProbeLimit ==> Candidate(j) in used
  {
  }

  /** Registering the id just handed out makes the next one strictly smaller, or exhausts the probe. */
  lemma UniqueIdDecreases(used: set<Entity>)
    requires UniqueIdOf(used) != NullEntity
    ensures UniqueIdOf(used + {UniqueIdOf(used)}) < UniqueIdOf(used)
  {
    var id := UniqueIdOf(used);
    UniqueIdOfLargestFree(used);
    var i :| 0 <= i < ProbeLimit && id == Candidate(i) && forall j :: 0 <= j < i ==> Candidate(j) in used;
    var next := UniqueIdOf(used + {id});
    UniqueIdOfLargestFree(used + {id});
    if next != NullEntity {
      var i' :| 0 <= i' < ProbeLimit && next == Candidate(i') &&
                forall j :: 0 <= j < i' ==> Candidate(j) in used + {id};
      assert i' > i;
    }
  }

  /** Successive allocation of `n` ids, each registered before the next is probed. */
  function Allocate(used: set<Entity>, n: nat): (r: Option<seq<Entity>>)
    decreases n
  {
    if n == 0 then Some([])
    else
      var id := UniqueIdOf(used);
      if id == NullEntity then None
      else match Allocate(used + {id}, n - 1)
        case None => None
        case Some(rest) => Some([id] + rest)
  }

  /** Allocation hands out `n` distinct non-null ids the scene did not hold. */
  lemma {:induction false} AllocateFresh(used: set<Entity>, n: nat)
    requires Allocate(used, n).Some?
    ensures |Allocate(used, n).value| == n
    ensures forall i :: 0 <= i < n ==> Allocate(used, n).value[i] != NullEntity && Allocate(used, n).value[i] !in used
    ensures forall i, j :: 0 <= i < j < n ==> Allocate(used, n).value[i] != Allocate(used, n).value[j]
    decreases n
  {
    if n > 0 {
      var id := UniqueIdOf(used);
      AllocateFresh(used + {id}, n - 1);
    }
  }

  /** Allocation hands out ids in strictly decreasing order. */
  lemma {:induction false} AllocateDecreasing(used: set<Entity>, n: nat)
    requires Allocate(used, n).Some?
    ensures forall i :: 0 <= i < |Allocate(used, n).value| - 1 ==> Allocate(used, n).value[i] > Allocate(used, n).value[i + 1]
    decreases n
  {
    if n > 1 {
      var id := UniqueIdOf(used);
      UniqueIdDecreases(used);
      AllocateDecreasing(used + {id}, n - 1);
    }
  }

  /** `prefix` followed by the ids of an allocation, failing when it fails. */
  function Then(prefix: seq<Entity>, r: Option<seq<Entity>>): Option<seq<Entity>> {
    match r
    case None => None
    case Some(rest) => Some(prefix + rest)
  }

  lemma ThenStep(prefix: seq<Entity>, id: Entity, used: set<Entity>, n: nat)
    requires n > 0 && id == UniqueIdOf(used) && id != NullEntity
    ensures Then(prefix, Allocate(used, n)) == Then(prefix + [id], Allocate(used + {id}, n - 1))
  {
    match Allocate(used + {id}, n - 1)
    case None =>
    case Some(rest) =>
      assert prefix + ([id] + rest) == prefix + [id] + rest;
  }

  lemma ThenDone(prefix: seq<Entity>, used: set<Entity>)
    ensures Then(prefix, Allocate(used, 0)) == Some(prefix)
  {
    assert prefix + [] == prefix;
  }

  function Sum(xs: seq<nat>): nat {
    if xs == [] then 0 else Sum(xs[..|xs| - 1]) + xs[|xs| - 1]
  }

  lemma {:induction false} SumPrefix(xs: seq<nat>, j: nat)
    requires j <= |xs|
    ensures Sum(xs[..j]) <= Sum(xs)
    decreases |xs|
  {
    if j < |xs| {
      assert xs[..|xs| - 1][..j] == xs[..j];
      SumPrefix(xs[..|xs| - 1], j);
    } else {
      assert xs[..j] == xs;
    }
  }

  /** A model in an SDF description: its pose and the number of visuals of each link. */
  datatype SdfModel = SdfModel(pose: Frame, linkVisuals: seq<nat>)
  datatype SdfLight = SdfLight(pose: Frame)
  /** The first model and the first light of a parsed SDF root, when present. */
  datatype SdfRoot = SdfRoot(model: Option<SdfModel>, light: Option<SdfLight>)

  /** Where the description to spawn comes from. */
  datatype SdfSource = NoSdf | FromString(sdf: string) | FromFile(path: string)

  /** The parts of the last click the placement looks at. */
  datatype Click = Click(left: bool, release: bool, dragging: bool)

  /** A create request sent to the server. */
  datatype Request = Request(service: string, sdf: SdfSource)

  /** Ids a model preview registers: the model, each link and each link's visuals. */
  function PreviewSize(m: SdfModel): nat {
    1 + |m.linkVisuals| + Sum(m.linkVisuals)
  }

  /** The description a spawn request loads: nothing when neither a string nor a path is set. */
  function RootOf(source: SdfSource, load: SdfSource -> SdfRoot): SdfRoot {
    if source == NoSdf then SdfRoot(None, None) else load(source)
  }

  /** Whether GeneratePreview finds ids for a description over the scene `base`. */
  function Spawns(root: SdfRoot, base: set<Entity>): bool {
    if root.model.Some? then Allocate(base, PreviewSize(root.model.value)).Some?
    else root.light.Some? && UniqueIdOf(base) != NullEntity
  }

  /** The preview ids GeneratePreview registers for a description over the scene `base`: none when it fails. */
  function PreviewOf(root: SdfRoot, base: set<Entity>): seq<Entity> {
    if root.model.Some? then
      match Allocate(base, PreviewSize(root.model.value))
      case Some(ids) => ids
      case None => []
    else if root.light.Some? && UniqueIdOf(base) != NullEntity then [UniqueIdOf(base), UniqueIdOf(base)]
    else []
  }

  /** A description spawns exactly when its preview is non-empty, and the preview's ids are non-null and new to the scene. */
  lemma PreviewOfSpawns(root: SdfRoot, base: set<Entity>)
    ensures Spawns(root, base) <==> PreviewOf(root, base) != []
    ensures forall id :: id in PreviewOf(root, base) ==> id != NullEntity && id !in base
  {
    if root.model.Some? && Allocate(base, PreviewSize(root.model.value)).Some? {
      AllocateFresh(base, PreviewSize(root.model.value));
    } else if root.model.None? && root.light.Some? && UniqueIdOf(base) != NullEntity {
      UniqueIdOfLargestFree(base);
    }
  }

  function Ids(xs: seq<Entity>): set<Entity> {
    set x | x in xs
  }

  lemma PreviewGrows(base: set<Entity>, scene: set<Entity>, ids: seq<Entity>, id: Entity)
    requires scene == base + Ids(ids) && base !! Ids(ids) && id !in scene
    ensures scene + {id} == base + Ids(ids + [id]) && base !! Ids(ids + [id])
  {
    assert Ids(ids + [id]) == Ids(ids) + {id};
  }

  /** Registering the next allocated id keeps the preview on the course of the allocation. */
  lemma BuildingStep(base: set<Entity>, total: nat, scene: set<Entity>, ids: seq<Entity>, id: Entity)
    requires id != NullEntity && id == UniqueIdOf(scene) && |ids| < total
    requires scene == base + Ids(ids) && base !! Ids(ids)
    requires Allocate(base, total) == Then(ids, Allocate(scene, total - |ids|))
    ensures scene + {id} == base + Ids(ids + [id]) && base !! Ids(ids + [id])
    ensures Allocate(base, total) == Then(ids + [id], Allocate(scene + {id}, total - |ids + [id]|))
  {
    ThenStep(ids, id, scene, total - |ids|);
    PreviewGrows(base, scene, ids, id);
  }

  lemma ThenEmpty(r: Option<seq<Entity>>)
    ensures Then([], r) == r
  {
    if r.Some? {
      assert [] + r.value == r.value;
    }
  }

  /** Nothing can be allocated once the first probe comes back empty. */
  lemma AllocateStuck(used: set<Entity>, n: nat)
    requires n > 0 && UniqueIdOf(used) == NullEntity
    ensures Allocate(used, n).None?
  {
  }

  /** Before the first id: nothing allocated yet, everything still to come. */
  lemma BuildingStarts(base: set<Entity>, n: nat)
    ensures base == base + Ids([]) && base !! Ids([])
    ensures Allocate(base, n) == Then([], Allocate(base, n))
  {
    ThenEmpty(Allocate(base, n));
    assert Ids([]) == {};
  }

  /** The plugin's fields other than the preview, for stating what preview handling leaves alone. */
  datatype Controls = Controls(
    hasScene: bool, isSpawning: bool, mouseDirty: bool, hoverDirty: bool, escapeReleased: bool,
    spawnSdfString: string, spawnSdfPath: string, mouseEvent: Click, createCmdService: string,
    worldName: string, requests: seq<Request>)

  class SpawnPlugin {
    var hasScene: bool
    var isSpawning: bool
    var isPlacing: bool
    var mouseDirty: bool
    var hoverDirty: bool
    var escapeReleased: bool
    var spawnSdfString: string
    var spawnSdfPath: string
    var previewIds: seq<Entity>
    var hasPreview: bool
    var spawnPreviewPose: Frame
    var mouseEvent: Click
    var createCmdService: string
    var worldName: string
    /** Ids the scene manager holds. */
    var sceneEntities: set<Entity>
    /** Create requests sent so far. */
    var requests: seq<Request>

    function ControlState(): Controls
      reads this
    {
      Controls(hasScene, isSpawning, mouseDirty, hoverDirty, escapeReleased, spawnSdfString, spawnSdfPath,
               mouseEvent, createCmdService, worldName, requests)
    }

    constructor(worldName: string, sceneEntities: set<Entity>)
      ensures ControlState() == Controls(false, false, false, false, false, "", "", Click(false, false, false),
                                         "", worldName, [])
      ensures !isPlacing && previewIds == [] && !hasPreview && spawnPreviewPose == 0
      ensures this.sceneEntities == sceneEntities
    {
      hasScene := false;
      isSpawning := false;
      isPlacing := false;
      mouseDirty := false;
      hoverDirty := false;
      escapeReleased := false;
      spawnSdfString := "";
      spawnSdfPath := "";
      previewIds := [];
      hasPreview := false;
      spawnPreviewPose := 0;
      mouseEvent := Click(false, false, false);
      createCmdService := "";
      this.worldName := worldName;
      this.sceneEntities := sceneEntities;
      requests := [];
    }

    /** The description a spawn request refers to: the string if set, else the path. */
    function Source(): SdfSource
      reads this
    {
      if spawnSdfString != "" then FromString(spawnSdfString)
      else if spawnSdfPath != "" then FromFile(spawnSdfPath)
      else NoSdf
    }

    /** UniqueId: probe downwards from the largest id for one the scene does not hold. */
    method UniqueId() returns (id: Entity)
      ensures id == UniqueIdOf(sceneEntities)
    {
      var i := 0;
      while i < ProbeLimit
        invariant i <= ProbeLimit
        invariant FirstFreeFrom(sceneEntities, i) == FirstFreeFrom(sceneEntities, 0)
      {
        var candidate := UInt64Max - i;
        if candidate !in sceneEntities {
          return candidate;
        }
        i := i + 1;
      }
      return NullEntity;
    }

    /** TerminateSpawnPreview: remove every preview id from the scene and stop placing. */
    method TerminateSpawnPreview()
      modifies this
      ensures sceneEntities == old(sceneEntities) - Ids(old(previewIds)) && previewIds == [] && !isPlacing
      ensures ControlState() == old(ControlState())
      ensures hasPreview == old(hasPreview) && spawnPreviewPose == old(spawnPreviewPose)
    {
      var i := 0;
      while i < |previewIds|
        invariant i <= |previewIds|
        invariant sceneEntities == old(sceneEntities) - Ids(previewIds[..i])
        invariant previewIds == old(previewIds) && isPlacing == old(isPlacing)
        invariant ControlState() == old(ControlState())
        invariant hasPreview == old(hasPreview) && spawnPreviewPose == old(spawnPreviewPose)
      {
        assert Ids(previewIds[..i + 1]) == Ids(previewIds[..i]) + {previewIds[i]};
        sceneEntities := sceneEntities - {previewIds[i]};
        i := i + 1;
      }
      assert previewIds[..i] == previewIds;
      previewIds := [];
      isPlacing := false;
    }

    /** The scene holds `base` plus the preview ids, which are all new to it. */
    ghost predicate PreviewOver(base: set<Entity>)
      reads this
    {
      sceneEntities == base + Ids(previewIds) && base !! Ids(previewIds)
    }

    /** Mid-way through allocating `total` ids over `base`: the ids so far, and the rest still to come. */
    ghost predicate Building(base: set<Entity>, total: nat)
      reads this
    {
      |previewIds| <= total && PreviewOver(base) &&
      Allocate(base, total) == Then(previewIds, Allocate(sceneEntities, total - |previewIds|))
    }

    /** Registers a freshly allocated id with the scene manager and appends it to the preview. */
    method AddPreviewEntity(id: Entity, ghost base: set<Entity>, ghost total: nat)
      requires id != NullEntity && id == UniqueIdOf(sceneEntities)
      requires |previewIds| < total && Building(base, total)
      modifies this
      ensures previewIds == old(previewIds) + [id] && sceneEntities == old(sceneEntities) + {id}
      ensures Building(base, total)
      ensures ControlState() == old(ControlState()) && isPlacing == old(isPlacing)
      ensures hasPreview == old(hasPreview) && spawnPreviewPose == old(spawnPreviewPose)
    {
      BuildingStep(base, total, sceneEntities, previewIds, id);
      sceneEntities := sceneEntities + {id};
      previewIds := previewIds + [id];
    }

    /** One link of a model preview: the link id, then the ids of its `visuals` visuals. */
    method GenerateLinkPreview(visuals: nat, ghost base: set<Entity>, ghost total: nat) returns (ok: bool)
      requires |previewIds| + 1 + visuals <= total && Building(base, total)
      modifies this
      ensures ok ==> |previewIds| == |old(previewIds)| + 1 + visuals && Building(base, total)
      ensures !ok ==> Allocate(base, total).None? && previewIds == [] && sceneEntities == base && !isPlacing
      ensures ok ==> isPlacing == old(isPlacing)
      ensures ControlState() == old(ControlState())
      ensures hasPreview == old(hasPreview) && spawnPreviewPose == old(spawnPreviewPose)
    {
      var linkId := UniqueId();
      if linkId == NullEntity {
        TerminateSpawnPreview();
        return false;
      }
      AddPreviewEntity(linkId, base, total);
      for k := 0 to visuals
        invariant |previewIds| == |old(previewIds)| + 1 + k
        invariant Building(base, total)
        invariant ControlState() == old(ControlState()) && isPlacing == old(isPlacing)
        invariant hasPreview == old(hasPreview) && spawnPreviewPose == old(spawnPreviewPose)
      {
        var visualId := UniqueId();
        if visualId == NullEntity {
          TerminateSpawnPreview();
          return false;
        }
        AddPreviewEntity(visualId, base, total);
      }
      return true;
    }

    /** The links of a model preview, in order, each followed by its visuals. */
    method GenerateLinksPreview(links: seq<nat>, ghost base: set<Entity>, ghost total: nat) returns (ok: bool)
      requires |previewIds| + |links| + Sum(links) == total && Building(base, total)
      modifies this
      ensures ok ==> Allocate(base, total) == Some(previewIds) && PreviewOver(base)
      ensures !ok ==> Allocate(base, total).None? && previewIds == [] && sceneEntities == base && !isPlacing
      ensures ok ==> isPlacing == old(isPlacing)
      ensures ControlState() == old(ControlState())
      ensures hasPreview == old(hasPreview) && spawnPreviewPose == old(spawnPreviewPose)
    {
      ghost var start := |previewIds|;
      for j := 0 to |links|
        invariant |previewIds| == start + j + Sum(links[..j])
        invariant Building(base, total)
        invariant ControlState() == old(ControlState()) && isPlacing == old(isPlacing)
        invariant hasPreview == old(hasPreview) && spawnPreviewPose == old(spawnPreviewPose)
      {
        SumPrefix(links, j + 1);
        assert links[..j + 1][..j] == links[..j];
        assert Sum(links[..j + 1]) == Sum(links[..j]) + links[j];
        ok := GenerateLinkPreview(links[j], base, total);
        if !ok {
          return false;
        }
      }
      assert links[..|links|] == links;
      assert total - |previewIds| == 0;
      ThenDone(previewIds, sceneEntities);
      return true;
    }

    /** The model branch of GeneratePreview: ids for the model, then each link followed by its visuals. */
    method GenerateModelPreview(model: SdfModel, ghost base: set<Entity>) returns (ok: bool)
      requires previewIds == [] && sceneEntities == base
      modifies this
      ensures ok <==> Allocate(base, PreviewSize(model)).Some?
      ensures ok ==> previewIds == Allocate(base, PreviewSize(model)).value && PreviewOver(base) && hasPreview
      ensures !ok ==> previewIds == [] && sceneEntities == base && !isPlacing
      ensures ok ==> isPlacing == old(isPlacing)
      ensures ControlState() == old(ControlState()) && spawnPreviewPose == model.pose
    {
      ghost var total := PreviewSize(model);
      spawnPreviewPose := model.pose;
      var modelId := UniqueId();
      if modelId == NullEntity {
        AllocateStuck(base, total);
        TerminateSpawnPreview();
        return false;
      }
      AddModelEntity(modelId, base, total);
      ok := GenerateLinksPreview(model.linkVisuals, base, total);
    }

    /** Creates the model of the preview under the first allocated id. */
    method AddModelEntity(modelId: Entity, ghost base: set<Entity>, ghost total: nat)
      requires previewIds == [] && sceneEntities == base && total > 0
      requires modelId != NullEntity && modelId == UniqueIdOf(base)
      modifies this
      ensures previewIds == [modelId] && Building(base, total) && hasPreview
      ensures ControlState() == old(ControlState()) && isPlacing == old(isPlacing)
      ensures spawnPreviewPose == old(spawnPreviewPose)
    {
      BuildingStarts(base, total);
      assert Building(base, total);
      AddPreviewEntity(modelId, base, total);
      hasPreview := true;
    }

    /** The scene without the current preview. */
    function Base(): set<Entity>
      reads this
    {
      sceneEntities - Ids(previewIds)
    }

    /**
     * GeneratePreview: tear down the old preview, then register ids for the
     * first model (model, links, visuals) or else for the first light.
     */
    method GeneratePreview(root: SdfRoot) returns (ok: bool)
      modifies this
      ensures root.model.None? && root.light.None? ==> !ok
      ensures root.model.Some? ==>
        (ok <==> Allocate(old(Base()), PreviewSize(root.model.value)).Some?) &&
        (ok ==> previewIds == Allocate(old(Base()), PreviewSize(root.model.value)).value)
      ensures root.model.None? && root.light.Some? ==>
        (ok <==> UniqueIdOf(old(Base())) != NullEntity) &&
        (ok ==> previewIds == [UniqueIdOf(old(Base())), UniqueIdOf(old(Base()))])
      ensures ok ==> sceneEntities == old(Base()) + Ids(previewIds) && old(Base()) !! Ids(previewIds) && hasPreview
      ensures !ok ==> previewIds == [] && sceneEntities == old(Base())
      ensures ok == Spawns(root, old(Base()))
      ensures previewIds == PreviewOf(root, old(Base()))
      ensures !isPlacing
      ensures ControlState() == old(ControlState())
    {
      TerminateSpawnPreview();
      ghost var base := sceneEntities;
      if root.model.None? && root.light.None? {
        TerminateSpawnPreview();
        return false;
      }
      if root.model.Some? {
        ok := GenerateModelPreview(root.model.value, base);
      } else {
        ok := GenerateLightPreview(root.light.value, base);
      }
    }

    /** The light branch of GeneratePreview: one id for the light and one for its visual. */
    method GenerateLightPreview(light: SdfLight, ghost base: set<Entity>) returns (ok: bool)
      requires previewIds == [] && sceneEntities == base
      modifies this
      ensures ok <==> UniqueIdOf(base) != NullEntity
      ensures ok ==> previewIds == [UniqueIdOf(base), UniqueIdOf(base)] && PreviewOver(base) && hasPreview
      ensures !ok ==> previewIds == [] && sceneEntities == base && !isPlacing
      ensures ok ==> isPlacing == old(isPlacing)
      ensures ControlState() == old(ControlState()) && spawnPreviewPose == light.pose
    {
      spawnPreviewPose := light.pose;
      var lightVisualId := UniqueId();
      if lightVisualId == NullEntity {
        TerminateSpawnPreview();
        return false;
      }
      var lightId := UniqueId();
      if lightId == NullEntity {
        // The scene did not change since lightVisualId was found free.
        assert false;
      }
      AddLightPreview(lightId, lightVisualId);
      ok := true;
    }

    /** Registers the light and its visual, which share one id, as the whole preview. */
    method AddLightPreview(lightId: Entity, lightVisualId: Entity)
      requires previewIds == [] && lightId == lightVisualId && lightId !in sceneEntities
      modifies this
      ensures previewIds == [lightId, lightId] && hasPreview
      ensures sceneEntities == old(sceneEntities) + Ids(previewIds) && old(sceneEntities) !! Ids(previewIds)
      ensures ControlState() == old(ControlState()) && isPlacing == old(isPlacing)
      ensures spawnPreviewPose == old(spawnPreviewPose)
    {
      sceneEntities := sceneEntities + {lightId};
      hasPreview := true;
      sceneEntities := sceneEntities + {lightVisualId};
      previewIds := previewIds + [lightId];
      previewIds := previewIds + [lightVisualId];
      assert Ids(previewIds) == {lightId};
    }

    /** HandleModelPlacement: while placing, clear the hover flag and act on a plain left release. */
    method HandleModelPlacement(asValidTopic: string -> string)
      modifies this
      ensures !old(isPlacing) ==> unchanged(this)
      ensures old(isPlacing) ==> hoverDirty == (old(hoverDirty) && !old(hasPreview))
      ensures old(isPlacing) && !old(PlacementClick()) ==>
        ControlState() == old(ControlState()).(hoverDirty := hoverDirty) &&
        isPlacing && previewIds == old(previewIds) && sceneEntities == old(sceneEntities)
      ensures old(isPlacing) && old(PlacementClick()) ==>
        previewIds == [] && sceneEntities == old(sceneEntities) - Ids(old(previewIds)) && !isPlacing &&
        createCmdService == CreateService(old(createCmdService), old(worldName), asValidTopic)
      ensures old(isPlacing) && old(PlacementClick()) && createCmdService == "" ==>
        requests == old(requests) && mouseDirty && spawnSdfString == old(spawnSdfString) &&
        spawnSdfPath == old(spawnSdfPath)
      ensures old(isPlacing) && old(PlacementClick()) && createCmdService != "" ==>
        requests == old(requests) + [Request(createCmdService, old(Source()))] && !mouseDirty &&
        spawnSdfString == "" && spawnSdfPath == ""
      ensures hasScene == old(hasScene) && isSpawning == old(isSpawning) && escapeReleased == old(escapeReleased)
      ensures mouseEvent == old(mouseEvent) && worldName == old(worldName) && hasPreview == old(hasPreview)
      ensures Base() == old(Base())
    {
      if !isPlacing {
        return;
      }
      if hasPreview && hoverDirty {
        hoverDirty := false;
      }
      if PlacementClick() {
        PlaceModel(asValidTopic);
      }
    }

    /** The service a create request goes to: the configured one or the world's default, made a valid topic. */
    static function CreateService(configured: string, worldName: string, asValidTopic: string -> string): (r: string)
      ensures configured != "" ==> r == asValidTopic(configured)
      ensures configured == "" ==> r == asValidTopic("/world/" + worldName + "/create")
    {
      asValidTopic(if configured == "" then "/world/" + worldName + "/create" else configured)
    }

    /** The release branch of HandleModelPlacement: drop the preview and request the entity. */
    method PlaceModel(asValidTopic: string -> string)
      modifies this
      ensures previewIds == [] && sceneEntities == old(sceneEntities) - Ids(old(previewIds)) && !isPlacing
      ensures createCmdService == CreateService(old(createCmdService), old(worldName), asValidTopic)
      ensures createCmdService == "" ==>
        requests == old(requests) && mouseDirty == old(mouseDirty) &&
        spawnSdfString == old(spawnSdfString) && spawnSdfPath == old(spawnSdfPath)
      ensures createCmdService != "" ==>
        requests == old(requests) + [Request(createCmdService, old(Source()))] && !mouseDirty &&
        spawnSdfString == "" && spawnSdfPath == ""
      ensures hasScene == old(hasScene) && isSpawning == old(isSpawning) && hoverDirty == old(hoverDirty)
      ensures escapeReleased == old(escapeReleased) && mouseEvent == old(mouseEvent) && worldName == old(worldName)
      ensures hasPreview == old(hasPreview)
    {
      TerminateSpawnPreview();
      SendCreateRequest(asValidTopic);
    }

    /** The request part of PlaceModel, once the preview is gone. */
    method SendCreateRequest(asValidTopic: string -> string)
      modifies this`createCmdService, this`requests, this`isPlacing, this`mouseDirty,
               this`spawnSdfString, this`spawnSdfPath
      ensures createCmdService == CreateService(old(createCmdService), worldName, asValidTopic)
      ensures createCmdService == "" ==>
        requests == old(requests) && mouseDirty == old(mouseDirty) && isPlacing == old(isPlacing) &&
        spawnSdfString == old(spawnSdfString) && spawnSdfPath == old(spawnSdfPath)
      ensures createCmdService != "" ==>
        requests == old(requests) + [Request(createCmdService, old(Source()))] && !mouseDirty && !isPlacing &&
        spawnSdfString == "" && spawnSdfPath == ""
    {
      var source := Source();
      if createCmdService == "" {
        createCmdService := "/world/" + worldName + "/create";
      }
      createCmdService := asValidTopic(createCmdService);
      if createCmdService == "" {
        return;
      }
      requests := requests + [Request(createCmdService, source)];
      isPlacing := false;
      mouseDirty := false;
      spawnSdfString := "";
      spawnSdfPath := "";
    }

    /** The last click is a left-button release without dragging, after a spawn-time click. */
    predicate PlacementClick()
      reads this
    {
      mouseEvent.left && mouseEvent.release && !mouseEvent.dragging && mouseDirty
    }

    /** The spawn step of OnRender: build the preview of the requested description. */
    method ProcessSpawnRequest(load: SdfSource -> SdfRoot) returns (ghost ok: bool)
      modifies this
      ensures !old(isSpawning) ==> unchanged(this)
      ensures old(isSpawning) ==> !isSpawning && isPlacing == ok
      ensures old(isSpawning) ==> ok == Spawns(RootOf(old(Source()), load), old(Base())) && Base() == old(Base())
      ensures old(isSpawning) ==> previewIds == PreviewOf(RootOf(old(Source()), load), old(Base()))
      ensures old(isSpawning) && old(Source()) == NoSdf ==> !ok
      ensures old(isSpawning) && !ok ==> previewIds == [] && sceneEntities == old(Base())
      ensures old(isSpawning) && ok ==>
                sceneEntities == old(Base()) + Ids(previewIds) && old(Base()) !! Ids(previewIds) && |previewIds| >= 1
      ensures ControlState() == old(ControlState()).(isSpawning := isSpawning)
    {
      ok := false;
      if isSpawning {
        var source := Source();
        var root := if source == NoSdf then SdfRoot(None, None) else load(source);
        ghost var base := Base();
        var generated := GeneratePreview(root);
        if generated && root.model.Some? {
          AllocateFresh(base, PreviewSize(root.model.value));
        }
        ok := generated;
        isPlacing := generated;
        isSpawning := false;
      }
    }

    /** The escape step of OnRender: a released escape key drops the preview. */
    method ProcessEscape()
      modifies this
      ensures !old(escapeReleased) ==> unchanged(this)
      ensures old(escapeReleased) ==>
        !escapeReleased && !isPlacing && previewIds == [] && sceneEntities == old(Base()) &&
        ControlState() == old(ControlState()).(escapeReleased := false)
      ensures Base() == old(Base())
    {
      if escapeReleased {
        TerminateSpawnPreview();
        escapeReleased := false;
      }
    }

    /**
     * OnRender: once a scene exists, run the spawn, escape and placement
     * steps in order. Placing goes on from a successful spawn or from before,
     * unless escape was released; a placement click then places the preview,
     * and the scene outside the preview never changes.
     */
    method OnRender(sceneAvailable: bool, load: SdfSource -> SdfRoot, asValidTopic: string -> string)
      modifies this
      ensures !old(hasScene) && !sceneAvailable ==> unchanged(this)
      ensures old(hasScene) || sceneAvailable ==> hasScene && !isSpawning && !escapeReleased && Base() == old(Base())
      ensures old(hasScene) || sceneAvailable ==>
        var placing := !old(escapeReleased) &&
                       if old(isSpawning) then Spawns(RootOf(old(Source()), load), old(Base())) else old(isPlacing);
        var placed := placing && old(PlacementClick());
        var sent := placed && createCmdService != "";
        var preview := if old(isSpawning) then PreviewOf(RootOf(old(Source()), load), old(Base())) else old(previewIds);
        isPlacing == (placing && !old(PlacementClick())) &&
        previewIds == (if old(escapeReleased) || placed then [] else preview) &&
        sceneEntities == (if old(escapeReleased) || placed then old(Base())
                          else if old(isSpawning) then old(Base()) + Ids(preview) else old(sceneEntities)) &&
        createCmdService == (if placed then CreateService(old(createCmdService), old(worldName), asValidTopic)
                             else old(createCmdService)) &&
        requests == old(requests) + (if sent then [Request(createCmdService, old(Source()))] else []) &&
        mouseDirty == (old(mouseDirty) && !sent) &&
        spawnSdfString == (if sent then "" else old(spawnSdfString)) &&
        spawnSdfPath == (if sent then "" else old(spawnSdfPath)) &&
        hoverDirty == (old(hoverDirty) && !(placing && hasPreview))
    {
      if !hasScene {
        if !sceneAvailable {
          return;
        }
        hasScene := true;
      }
      ghost var _ := ProcessSpawnRequest(load);
      ProcessEscape();
      HandleModelPlacement(asValidTopic);
    }

    // Flag effects of the events the plugin filters.

    method OnLeftClick(click: Click)
      modifies this
      ensures mouseEvent == click && mouseDirty == (old(mouseDirty) || isSpawning || isPlacing)
      ensures ControlState() == old(ControlState()).(mouseEvent := click, mouseDirty := mouseDirty)
      ensures isPlacing == old(isPlacing) && previewIds == old(previewIds) && sceneEntities == old(sceneEntities)
    {
      mouseEvent := click;
      if isSpawning || isPlacing {
        mouseDirty := true;
      }
    }

    method OnHover()
      modifies this
      ensures ControlState() == old(ControlState()).(hoverDirty := true)
      ensures isPlacing == old(isPlacing) && previewIds == old(previewIds) && sceneEntities == old(sceneEntities)
    {
      hoverDirty := true;
    }

    method OnSpawnFromDescription(description: string)
      modifies this
      ensures ControlState() == old(ControlState()).(spawnSdfString := description, isSpawning := true)
      ensures isPlacing == old(isPlacing) && previewIds == old(previewIds) && sceneEntities == old(sceneEntities)
    {
      spawnSdfString := description;
      isSpawning := true;
    }

    method OnSpawnFromPath(path: string)
      modifies this
      ensures ControlState() == old(ControlState()).(spawnSdfPath := path, isSpawning := true)
      ensures isPlacing == old(isPlacing) && previewIds == old(previewIds) && sceneEntities == old(sceneEntities)
    {
      spawnSdfPath := path;
      isSpawning := true;
    }

    method OnKeyRelease(isEscape: bool)
      modifies this
      ensures ControlState() == old(ControlState()).(escapeReleased := old(escapeReleased) || isEscape)
      ensures isPlacing == old(isPlacing) && previewIds == old(previewIds) && sceneEntities == old(sceneEntities)
    {
      if isEscape {
        escapeReleased := true;
      }
    }
  }
}
