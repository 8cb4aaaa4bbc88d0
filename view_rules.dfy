/**
 * The display rules of the visualization-capabilities plugin: the toggle
 * rule of the View* requests (a request that meets a not-yet-shown entity
 * shows everything; otherwise it negates the state of the first entity in
 * the list and applies that to all of them), and the render-thread passes
 * that mark wireframe and transparent visuals and create centre-of-mass,
 * inertia and collision visuals.
 */
module ViewRules {
  import opened Util
  import opened RenderScene
  import opened VisualizationRules

  /** `viewing[x]` as `operator[]` reads it: false for an entity with no record. */
  function Get(viewing: map<Entity, bool>, x: Entity): bool {
    x in viewing && viewing[x]
  }

  /** The map after `viewing[x]` has been read through `operator[]`: a missing record becomes false. */
  function Touch(viewing: map<Entity, bool>, x: Entity): (r: map<Entity, bool>)
    ensures r.Keys == viewing.Keys + {x} && Get(r, x) == Get(viewing, x)
    ensures forall y :: y in viewing ==> r[y] == viewing[y]
  {
    if x in viewing then viewing else viewing[x := false]
  }

  // ---------------------------------------------------------------------
  // The toggle rule
  // ---------------------------------------------------------------------

  /** The entries of `list` with no viewing record yet, in order and with repeats: one request each. */
  function Unrecorded(viewing: map<Entity, bool>, list: seq<Entity>): (r: seq<Entity>)
    ensures |r| <= |list|
  {
    if list == [] then []
    else
      var n := |list| - 1;
      Unrecorded(viewing, list[..n]) + (if list[n] in viewing then [] else [list[n]])
  }

  /** The unrecorded entries are exactly the entries without a record. */
  lemma {:induction false} UnrecordedMembers(viewing: map<Entity, bool>, list: seq<Entity>, x: Entity)
    ensures x in Unrecorded(viewing, list) <==> x in list && x !in viewing
    decreases |list|
  {
    if list != [] {
      var n := |list| - 1;
      assert x in list <==> x in list[..n] || x == list[n];
      UnrecordedMembers(viewing, list[..n], x);
    }
  }

  function FirstRecordedFrom(viewing: map<Entity, bool>, list: seq<Entity>, from: nat): (r: Option<nat>)
    requires from <= |list|
    ensures r.Some? ==> from <= r.value < |list| && list[r.value] in viewing &&
                        forall j :: from <= j < r.value ==> list[j] !in viewing
    ensures r.None? ==> forall j :: from <= j < |list| ==> list[j] !in viewing
    decreases |list| - from
  {
    if from == |list| then None
    else if list[from] in viewing then Some(from)
    else FirstRecordedFrom(viewing, list, from + 1)
  }

  /** The index of the first entry of `list` that already has a viewing record. */
  function FirstRecorded(viewing: map<Entity, bool>, list: seq<Entity>): (r: Option<nat>)
    ensures r.Some? ==> r.value < |list| && list[r.value] in viewing && forall j :: 0 <= j < r.value ==> list[j] !in viewing
    ensures r.None? ==> forall j :: 0 <= j < |list| ==> list[j] !in viewing
  {
    FirstRecordedFrom(viewing, list, 0)
  }

  /** The state a View* request applies: shown when any entry is new, else the negation of the first recorded entry. */
  function Decision(viewing: map<Entity, bool>, list: seq<Entity>): bool {
    if Unrecorded(viewing, list) != [] then true
    else match FirstRecorded(viewing, list)
      case None => true
      case Some(i) => !viewing[list[i]]
  }

  /** The viewing map after the recorded, `eligible` entries of `list` have been set to `show`. */
  function Toggled(viewing: map<Entity, bool>, list: seq<Entity>, show: bool, eligible: set<Entity>): (r: map<Entity, bool>)
    ensures r.Keys == viewing.Keys
  {
    map x | x in viewing :: if x in list && x in eligible then show else viewing[x]
  }

  /** `n` copies of `e`: the requests queued for one entity. */
  function Repeat(e: Entity, n: nat): (r: seq<Entity>)
    ensures |r| == n && forall i :: 0 <= i < n ==> r[i] == e
  {
    seq(n, _ => e)
  }

  /** The recorded entries of `list` that tag a visual: the visuals a direct toggle changes. */
  function DirectTargets(viewing: map<Entity, bool>, list: seq<Entity>, tags: set<Entity>): set<Entity> {
    set x | x in list && x in viewing && x in tags
  }

  /** The overlay visual id recorded for a link, as `operator[]` reads it. */
  function Lookup(ids: map<Entity, Entity>, x: Entity): Entity {
    if x in ids then ids[x] else NullEntity
  }

  /** The recorded links whose overlay visual exists in the scene. */
  function ViaEligible(viewing: map<Entity, bool>, ids: map<Entity, Entity>, tags: set<Entity>): set<Entity> {
    set x | x in viewing && Lookup(ids, x) in tags
  }

  /** The overlay visuals a centre-of-mass or inertia toggle changes. */
  function ViaTargets(viewing: map<Entity, bool>, ids: map<Entity, Entity>, list: seq<Entity>, tags: set<Entity>): set<Entity> {
    set x | x in list && x in viewing && Lookup(ids, x) in tags :: Lookup(ids, x)
  }

  /** The link-to-overlay map after `operator[]` has been applied to every recorded link of `list`. */
  function FillIds(ids: map<Entity, Entity>, viewing: map<Entity, bool>, list: seq<Entity>): (r: map<Entity, Entity>)
    ensures r.Keys == ids.Keys + (set x | x in list && x in viewing)
    ensures forall x :: Lookup(r, x) == Lookup(ids, x)
  {
    map k | k in ids.Keys + (set x | x in list && x in viewing) :: Lookup(ids, k)
  }

  /** Which entries are unrecorded depends only on which entities have a record. */
  lemma {:induction false} UnrecordedKeys(v: map<Entity, bool>, w: map<Entity, bool>, list: seq<Entity>)
    requires v.Keys == w.Keys
    ensures Unrecorded(v, list) == Unrecorded(w, list)
    decreases |list|
  {
    if list != [] {
      UnrecordedKeys(v, w, list[..|list| - 1]);
    }
  }

  /** A list whose every entity has a record has no unrecorded entry. */
  lemma {:induction false} AllRecorded(viewing: map<Entity, bool>, list: seq<Entity>)
    requires forall x :: x in list ==> x in viewing
    ensures Unrecorded(viewing, list) == []
    decreases |list|
  {
    if list != [] {
      var n := |list| - 1;
      var front := list[..n];
      assert list[n] in list;
      forall x | x in front ensures x in viewing {
        var j :| 0 <= j < n && front[j] == x;
        assert list[j] == x;
      }
      AllRecorded(viewing, front);
      assert Unrecorded(viewing, list) == Unrecorded(viewing, front) + [];
    }
  }

  /** A request that meets an entity with no record shows every entity of the list. */
  lemma FirstSeenShows(viewing: map<Entity, bool>, list: seq<Entity>, x: Entity)
    requires x in list && x !in viewing
    ensures Decision(viewing, list)
    ensures |Unrecorded(viewing, list)| >= 1
  {
    UnrecordedMembers(viewing, list, x);
  }

  /**
   * Once every entity of the list is recorded, displayable and in the same
   * state, two requests in a row flip that state and flip it back.
   */
  lemma ToggleTwiceRestores(viewing: map<Entity, bool>, list: seq<Entity>, eligible: set<Entity>)
    requires list != [] && forall x :: x in list ==> x in viewing
    requires forall x :: x in list ==> x in eligible
    requires forall x :: x in list && x in viewing ==> viewing[x] == viewing[list[0]]
    ensures Decision(viewing, list) == !viewing[list[0]]
    ensures var once := Toggled(viewing, list, Decision(viewing, list), eligible);
            Decision(once, list) == viewing[list[0]] &&
            Toggled(once, list, Decision(once, list), eligible) == viewing
  {
    assert list[0] in list;
    AllRecorded(viewing, list);
    assert FirstRecorded(viewing, list) == Some(0);
    var once := Toggled(viewing, list, Decision(viewing, list), eligible);
    UnrecordedKeys(viewing, once, list);
    assert FirstRecorded(once, list) == Some(0);
    var twice := Toggled(once, list, Decision(once, list), eligible);
    assert forall x :: x in viewing ==> twice[x] == viewing[x];
  }

  // Toggle loops, specified step by step and then in closed form.

  lemma ToggledStep(v: map<Entity, bool>, front: seq<Entity>, x: Entity, show: bool, eligible: set<Entity>)
    ensures Toggled(v, front + [x], show, eligible) ==
            if x in v && x in eligible then Toggled(v, front, show, eligible)[x := show] else Toggled(v, front, show, eligible)
  {
    assert forall y :: y in front + [x] <==> y in front || y == x;
  }

  lemma DirectTargetsStep(v: map<Entity, bool>, front: seq<Entity>, x: Entity, tags: set<Entity>)
    ensures DirectTargets(v, front + [x], tags) ==
            DirectTargets(v, front, tags) + (if x in v && x in tags then {x} else {})
  {
    assert forall y :: y in front + [x] <==> y in front || y == x;
  }

  lemma ViaTargetsStep(v: map<Entity, bool>, ids: map<Entity, Entity>, front: seq<Entity>, x: Entity, tags: set<Entity>)
    ensures ViaTargets(v, ids, front + [x], tags) ==
            ViaTargets(v, ids, front, tags) + (if x in v && Lookup(ids, x) in tags then {Lookup(ids, x)} else {})
  {
    assert forall y :: y in front + [x] <==> y in front || y == x;
  }

  lemma FillIdsStep(ids: map<Entity, Entity>, v: map<Entity, bool>, front: seq<Entity>, x: Entity)
    ensures FillIds(ids, v, front + [x]) ==
            if x in v then FillIds(ids, v, front)[x := Lookup(ids, x)] else FillIds(ids, v, front)
  {
    assert forall y :: y in front + [x] <==> y in front || y == x;
  }

  /** What the scene and a viewing map look like together. */
  datatype Display = Display(viewing: map<Entity, bool>, scene: seq<SceneVisual>)

  /** One entry of the second loop of a direct View* request: a recorded entry whose visual exists gets state `show`. */
  function ToggleOne(p: Display, x: Entity, show: bool, f: Flag): Display {
    if x !in p.viewing then p
    else match FirstTagged(p.scene, x)
      case None => p
      case Some(i) => Display(p.viewing[x := show], p.scene[i := WithFlag(p.scene[i], f, show)])
  }

  /** The second loop of a direct View* request over `list`, in order. */
  function ToggleAll(d: Display, list: seq<Entity>, show: bool, f: Flag): Display {
    if list == [] then d
    else ToggleOne(ToggleAll(d, list[..|list| - 1], show, f), list[|list| - 1], show, f)
  }

  /** One more entry of the direct toggle loop. */
  lemma ToggleAllNext(d: Display, list: seq<Entity>, i: nat, show: bool, f: Flag)
    requires i < |list|
    ensures ToggleAll(d, list[..i + 1], show, f) == ToggleOne(ToggleAll(d, list[..i], show, f), list[i], show, f)
  {
    assert list[..i + 1][..i] == list[..i];
  }

  /** A toggle loop over entries none of which is recorded changes nothing. */
  lemma {:induction false} ToggleAllSkips(d: Display, list: seq<Entity>, show: bool, f: Flag)
    requires forall x :: x in list ==> x !in d.viewing
    ensures ToggleAll(d, list, show, f) == d
    decreases |list|
  {
    if list != [] {
      var n := |list| - 1;
      assert forall x :: x in list[..n] ==> x in list;
      ToggleAllSkips(d, list[..n], show, f);
      assert list[n] in list;
    }
  }

  /** The direct toggle loop sets exactly the recorded visuals of the list, and records only those. */
  lemma {:induction false} ToggleAllClosed(v: map<Entity, bool>, s: seq<SceneVisual>, list: seq<Entity>, show: bool, f: Flag)
    ensures ToggleAll(Display(v, s), list, show, f) ==
            Display(Toggled(v, list, show, Tags(s)), SetFlags(s, DirectTargets(v, list, Tags(s)), f, show))
    decreases |list|
  {
    if list == [] {
      assert Toggled(v, list, show, Tags(s)) == v;
      assert DirectTargets(v, list, Tags(s)) == {};
      SetFlagsNone(s, f, show);
    } else {
      var n := |list| - 1;
      assert list == list[..n] + [list[n]];
      ToggleAllClosed(v, s, list[..n], show, f);
      ToggleAllStep(v, s, list[..n], list[n], show, f);
    }
  }

  /** One more entry keeps the closed form of the direct toggle loop. */
  lemma ToggleAllStep(v: map<Entity, bool>, s: seq<SceneVisual>, front: seq<Entity>, x: Entity, show: bool, f: Flag)
    ensures ToggleOne(Display(Toggled(v, front, show, Tags(s)), SetFlags(s, DirectTargets(v, front, Tags(s)), f, show)), x, show, f) ==
            Display(Toggled(v, front + [x], show, Tags(s)), SetFlags(s, DirectTargets(v, front + [x], Tags(s)), f, show))
  {
    ToggledStep(v, front, x, show, Tags(s));
    DirectTargetsStep(v, front, x, Tags(s));
    var t := DirectTargets(v, front, Tags(s));
    SetFlagsKeepsLookups(s, t, f, show, x, "");
    if x in v && x in Tags(s) {
      SetFlagsAdd(s, t, x, f, show);
    }
  }

  /** What the scene, a viewing map and a link-to-overlay map look like together. */
  datatype OverlayDisplay = OverlayDisplay(viewing: map<Entity, bool>, ids: map<Entity, Entity>, scene: seq<SceneVisual>)

  /** One link of the second loop of ViewCOM and ViewInertia: a recorded link whose overlay exists gets state `show`. */
  function ToggleOverlay(p: OverlayDisplay, x: Entity, show: bool): OverlayDisplay {
    if x !in p.viewing then p
    else
      var ids := p.ids[x := Lookup(p.ids, x)];
      match FirstTagged(p.scene, Lookup(p.ids, x))
      case None => p.(ids := ids)
      case Some(i) => OverlayDisplay(p.viewing[x := show], ids, p.scene[i := WithFlag(p.scene[i], Visible, show)])
  }

  /** The second loop of ViewCOM and ViewInertia over `list`, in order. */
  function ToggleOverlays(d: OverlayDisplay, list: seq<Entity>, show: bool): OverlayDisplay {
    if list == [] then d
    else ToggleOverlay(ToggleOverlays(d, list[..|list| - 1], show), list[|list| - 1], show)
  }

  /** One more entry of the overlay toggle loop. */
  lemma ToggleOverlaysNext(d: OverlayDisplay, list: seq<Entity>, i: nat, show: bool)
    requires i < |list|
    ensures ToggleOverlays(d, list[..i + 1], show) == ToggleOverlay(ToggleOverlays(d, list[..i], show), list[i], show)
  {
    assert list[..i + 1][..i] == list[..i];
  }

  lemma {:induction false} ToggleOverlaysSkips(d: OverlayDisplay, list: seq<Entity>, show: bool)
    requires forall x :: x in list ==> x !in d.viewing
    ensures ToggleOverlays(d, list, show) == d
    decreases |list|
  {
    if list != [] {
      var n := |list| - 1;
      assert forall x :: x in list[..n] ==> x in list;
      ToggleOverlaysSkips(d, list[..n], show);
      assert list[n] in list;
    }
  }

  /** The overlay toggle loop shows or hides exactly the existing overlays of the recorded links. */
  lemma {:induction false} ToggleOverlaysClosed(v: map<Entity, bool>, ids: map<Entity, Entity>, s: seq<SceneVisual>,
                                                list: seq<Entity>, show: bool)
    ensures ToggleOverlays(OverlayDisplay(v, ids, s), list, show) ==
            OverlayDisplay(Toggled(v, list, show, ViaEligible(v, ids, Tags(s))),
                           FillIds(ids, v, list),
                           SetFlags(s, ViaTargets(v, ids, list, Tags(s)), Visible, show))
    decreases |list|
  {
    var e := ViaEligible(v, ids, Tags(s));
    if list == [] {
      assert Toggled(v, list, show, e) == v;
      assert ViaTargets(v, ids, list, Tags(s)) == {};
      assert FillIds(ids, v, list) == ids;
      SetFlagsNone(s, Visible, show);
    } else {
      var n := |list| - 1;
      assert list == list[..n] + [list[n]];
      ToggleOverlaysClosed(v, ids, s, list[..n], show);
      ToggleOverlaysStep(v, ids, s, list[..n], list[n], show);
    }
  }

  /** One more entry keeps the closed form of the overlay toggle loop. */
  lemma ToggleOverlaysStep(v: map<Entity, bool>, ids: map<Entity, Entity>, s: seq<SceneVisual>,
                           front: seq<Entity>, x: Entity, show: bool)
    ensures ToggleOverlay(OverlayDisplay(Toggled(v, front, show, ViaEligible(v, ids, Tags(s))),
                                         FillIds(ids, v, front),
                                         SetFlags(s, ViaTargets(v, ids, front, Tags(s)), Visible, show)), x, show) ==
            OverlayDisplay(Toggled(v, front + [x], show, ViaEligible(v, ids, Tags(s))),
                           FillIds(ids, v, front + [x]),
                           SetFlags(s, ViaTargets(v, ids, front + [x], Tags(s)), Visible, show))
  {
    ToggledStep(v, front, x, show, ViaEligible(v, ids, Tags(s)));
    ViaTargetsStep(v, ids, front, x, Tags(s));
    FillIdsStep(ids, v, front, x);
    var t := ViaTargets(v, ids, front, Tags(s));
    SetFlagsKeepsLookups(s, t, Visible, show, Lookup(ids, x), "");
    if x in v && Lookup(ids, x) in Tags(s) {
      SetFlagsAdd(s, t, Lookup(ids, x), Visible, show);
    }
  }
}
