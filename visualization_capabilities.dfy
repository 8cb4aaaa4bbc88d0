/**
 * The visualization-capabilities GUI plugin: it answers "view collisions /
 * inertia / centre of mass / wireframes / transparent" requests for a model
 * or link. Requests name a scene node; on the render thread the plugin looks
 * up the entity behind it, toggles what it already shows and queues the rest.
 * The simulation-thread Update indexes links, visuals, collisions and
 * inertials by parent, and expands queued requests into links, which the
 * next render pass then marks or equips with overlay visuals.
 */
module VisualizationCapabilities {
  import opened Util
  import opened ModelTree
  import opened RenderScene
  import opened VisualizationRules
  import opened ViewRules
  import opened RenderPasses

  /** The visual entities a direct toggle of `e` covers: those of `e` itself, then those of every link found for it. */
  ghost function DirectList(rows: map<Entity, seq<Entity>>, m2l: map<Entity, seq<Entity>>,
                            m2m: map<Entity, seq<Entity>>, e: Entity): seq<Entity>
    requires RowsAcyclic(m2m)
  {
    Row(rows, e) + Gather(RowOf(rows), IndexChildLinks(m2l, m2m, e))
  }

  /** The links an overlay toggle of `e` covers: those found for it, then `e` itself when it has an inertial. */
  ghost function OverlayList(inertials: map<Entity, InertialData>, m2l: map<Entity, seq<Entity>>,
                             m2m: map<Entity, seq<Entity>>, e: Entity): seq<Entity>
    requires RowsAcyclic(m2m)
  {
    if e in inertials then IndexChildLinks(m2l, m2m, e) + [e] else IndexChildLinks(m2l, m2m, e)
  }

  /** The entity a request target names: the tag of the first scene visual of that name. */
  function TargetEntity(scene: seq<SceneVisual>, name: string): (r: Option<Entity>)
    ensures (forall i :: 0 <= i < |scene| ==> scene[i].name != name) ==> r == None
    ensures forall i :: 0 <= i < |scene| && scene[i].name == name && (forall j :: 0 <= j < i ==> scene[j].name != name) ==>
              r == scene[i].tag
    ensures r.Some? ==> exists i :: 0 <= i < |scene| && scene[i].name == name && scene[i].tag == r
  {
    match FirstNamed(scene, name)
    case None => None
    case Some(i) => scene[i].tag
  }

  /** VisualById: the index of the first scene visual tagged `id`. */
  method VisualById(vs: seq<SceneVisual>, id: Entity) returns (r: Option<nat>)
    ensures r == FirstTagged(vs, id)
  {
    var i := 0;
    while i < |vs|
      invariant 0 <= i <= |vs|
      invariant FirstTaggedFrom(vs, id, i) == FirstTagged(vs, id)
    {
      if vs[i].tag == Some(id) {
        return Some(i);
      }
      i := i + 1;
    }
    return None;
  }

  /** FindChildLinksFromECM: walk the store's model tree from `e`, collecting each popped model's links. */
  method FindChildLinksFromECM(s: Store, e: Entity) returns (links: seq<Entity>)
    requires Acyclic(s)
    ensures links == LinksFromStore(s, e)
  {
    links := [];
    if Has(s, e, Model) {
      StoreRanked(s);
      ghost var children := StoreChildModels(s);
      ghost var rank := StoreRank(s);
      ghost var bound := rank(e) + 1;
      var stack := [e];
      ghost var popped: seq<Entity> := [];
      assert VisitStack(children, rank, bound, stack[..0]) == [];
      assert VisitStack(children, rank, bound, stack) == Visit(children, rank, e);
      while stack != []
        invariant forall x :: x in stack ==> rank(x) < bound
        invariant popped + VisitStack(children, rank, bound, stack) == Visit(children, rank, e)
        invariant links == Gather(StoreChildLinks(s), popped)
        decreases |VisitStack(children, rank, bound, stack)|
      {
        var model := stack[|stack| - 1];
        PopStep(children, rank, bound, stack);
        var childLinks := ChildrenIn(s, s.entities, model, Link);
        var childModels := ChildrenIn(s, s.entities, model, Model);
        assert childLinks == StoreChildLinks(s)(model) && childModels == children(model);
        GatherSnoc(StoreChildLinks(s), popped, model);
        links := links + childLinks;
        AppendAssoc(popped, [model], VisitStack(children, rank, bound, stack[..|stack| - 1] + childModels));
        stack := stack[..|stack| - 1] + childModels;
        popped := popped + [model];
      }
      assert popped == Visit(children, rank, e);
    } else if Has(s, e, Link) {
      links := [e];
    }
  }

  /** A request queue expanded into links, as PopulateViewModeVisualLinks, FindInertialLinks and FindCollisionLinks do it. */
  method ExpandRequests(s: Store, queue: seq<Entity>) returns (links: seq<Entity>)
    requires Acyclic(s)
    ensures links == ExpandQueue(s, queue)
  {
    links := [];
    var i := 0;
    while i < |queue|
      invariant 0 <= i <= |queue|
      invariant links == ExpandQueue(s, queue[..i])
    {
      var entity := queue[i];
      assert queue[..i + 1][..i] == queue[..i];
      if Has(s, entity, Model) || Has(s, entity, Link) {
        var found := FindChildLinksFromECM(s, entity);
        links := links + found;
      }
      i := i + 1;
    }
    assert queue[..i] == queue;
  }

  /** One more link read by GatherRows: its row is appended and filled in. */
  lemma GatherRowsStep(rows: map<Entity, seq<Entity>>, e: Entity, links: seq<Entity>, i: nat)
    requires i < |links|
    ensures Row(rows, e) + Gather(RowOf(rows), links[..i + 1]) ==
            Row(rows, e) + Gather(RowOf(rows), links[..i]) + Row(rows, links[i])
    ensures Fill(rows, links[..i + 1]) == Fill(rows, links[..i])[links[i] := Row(rows, links[i])]
  {
    assert links[..i + 1] == links[..i] + [links[i]];
    GatherSnoc(RowOf(rows), links[..i], links[i]);
    FillStep(rows, links[..i], links[i]);
    AppendAssoc(Row(rows, e), Gather(RowOf(rows), links[..i]), Row(rows, links[i]));
  }

  /** The visual or collision entities of `e` and of `links`, reading the link rows through `operator[]`. */
  method GatherRows(rows: map<Entity, seq<Entity>>, e: Entity, links: seq<Entity>)
    returns (list: seq<Entity>, rows': map<Entity, seq<Entity>>)
    ensures list == Row(rows, e) + Gather(RowOf(rows), links)
    ensures rows' == Fill(rows, links)
  {
    list := [];
    if e in rows {
      list := rows[e];
    }
    rows' := rows;
    var i := 0;
    assert Fill(rows, links[..0]) == rows;
    while i < |links|
      invariant 0 <= i <= |links|
      invariant list == Row(rows, e) + Gather(RowOf(rows), links[..i])
      invariant rows' == Fill(rows, links[..i])
    {
      var link := links[i];
      GatherRowsStep(rows, e, links, i);
      var row := if link in rows' then rows'[link] else [];
      assert row == Row(rows', link);
      rows' := rows'[link := row];
      list := list + row;
      i := i + 1;
    }
    assert links[..i] == links;
  }

  /** The first loop of a View* request: one request per unrecorded entry, and whether the state is already decided. */
  method ScanNew(viewing: map<Entity, bool>, list: seq<Entity>, e: Entity) returns (requests: seq<Entity>, showInit: bool)
    ensures requests == Repeat(e, |Unrecorded(viewing, list)|)
    ensures showInit == (Unrecorded(viewing, list) != [])
  {
    requests := [];
    showInit := false;
    var i := 0;
    while i < |list|
      invariant 0 <= i <= |list|
      invariant requests == Repeat(e, |Unrecorded(viewing, list[..i])|)
      invariant showInit == (Unrecorded(viewing, list[..i]) != [])
    {
      assert list[..i + 1][..i] == list[..i];
      if list[i] !in viewing {
        requests := requests + [e];
        showInit := true;
      }
      i := i + 1;
    }
    assert list[..i] == list;
  }

  /** One recorded entry in the second loop of a direct View* request. */
  method ToggleEntity(p: Display, x: Entity, show: bool, f: Flag) returns (q: Display)
    requires x in p.viewing
    ensures q == ToggleOne(p, x, show, f)
  {
    q := p;
    var found := VisualById(p.scene, x);
    if found.Some? {
      q := Display(p.viewing[x := show], p.scene[found.value := WithFlag(p.scene[found.value], f, show)]);
    }
  }

  /** The second loop of a direct View* request: give `show` to every recorded entry whose visual exists. */
  method ToggleRecorded(viewing: map<Entity, bool>, scene: seq<SceneVisual>, list: seq<Entity>, showInit: bool, f: Flag)
    returns (viewing': map<Entity, bool>, scene': seq<SceneVisual>)
    requires showInit == (Unrecorded(viewing, list) != [])
    ensures viewing' == Toggled(viewing, list, Decision(viewing, list), Tags(scene))
    ensures scene' == SetFlags(scene, DirectTargets(viewing, list, Tags(scene)), f, Decision(viewing, list))
  {
    var p := ToggleLoop(Display(viewing, scene), list, showInit, f);
    ToggleAllClosed(viewing, scene, list, Decision(viewing, list), f);
    viewing', scene' := p.viewing, p.scene;
  }

  /** The loop of ToggleRecorded: the toggle state is fixed at the first recorded entry. */
  method ToggleLoop(d: Display, list: seq<Entity>, showInit: bool, f: Flag) returns (p: Display)
    requires showInit == (Unrecorded(d.viewing, list) != [])
    ensures p == ToggleAll(d, list, Decision(d.viewing, list), f)
  {
    p := d;
    var show, init := true, showInit;
    var i := 0;
    while i < |list|
      invariant 0 <= i <= |list|
      invariant init ==> show == Decision(d.viewing, list)
      invariant init ==> p == ToggleAll(d, list[..i], show, f)
      invariant !init ==> p == d && !showInit
      invariant !init ==> forall k :: 0 <= k < i ==> list[k] !in d.viewing
    {
      var x := list[i];
      if x in p.viewing {
        if !init {
          show := !p.viewing[x];
          init := true;
          assert FirstRecorded(d.viewing, list) == Some(i);
          ToggleAllSkips(d, list[..i], show, f);
        }
        p := ToggleEntity(p, x, show, f);
      }
      ToggleAllNext(d, list, i, show, f);
      i := i + 1;
    }
    assert list[..i] == list;
    if !init {
      ToggleAllSkips(d, list, Decision(d.viewing, list), f);
    }
  }

  /** One recorded link in the second loop of ViewCOM and ViewInertia: the overlay id is read through `operator[]`. */
  method ToggleOverlayEntity(p: OverlayDisplay, x: Entity, show: bool) returns (q: OverlayDisplay)
    requires x in p.viewing
    ensures q == ToggleOverlay(p, x, show)
  {
    var overlay := if x in p.ids then p.ids[x] else NullEntity;
    var found := VisualById(p.scene, overlay);
    if found.Some? {
      q := OverlayDisplay(p.viewing[x := show], p.ids[x := overlay],
                          p.scene[found.value := WithFlag(p.scene[found.value], Visible, show)]);
    } else {
      q := p.(ids := p.ids[x := overlay]);
    }
  }

  /** The second loop of ViewCOM and ViewInertia: show or hide the overlay of every recorded link whose overlay exists. */
  method ToggleOverlayRecorded(viewing: map<Entity, bool>, ids: map<Entity, Entity>, scene: seq<SceneVisual>,
                               list: seq<Entity>, showInit: bool)
    returns (viewing': map<Entity, bool>, ids': map<Entity, Entity>, scene': seq<SceneVisual>)
    requires showInit == (Unrecorded(viewing, list) != [])
    ensures viewing' == Toggled(viewing, list, Decision(viewing, list), ViaEligible(viewing, ids, Tags(scene)))
    ensures ids' == FillIds(ids, viewing, list)
    ensures scene' == SetFlags(scene, ViaTargets(viewing, ids, list, Tags(scene)), Visible, Decision(viewing, list))
  {
    var p := ToggleOverlayLoop(OverlayDisplay(viewing, ids, scene), list, showInit);
    ToggleOverlaysClosed(viewing, ids, scene, list, Decision(viewing, list));
    viewing', ids', scene' := p.viewing, p.ids, p.scene;
  }

  /** The loop of ToggleOverlayRecorded: the toggle state is fixed at the first recorded link. */
  method ToggleOverlayLoop(d: OverlayDisplay, list: seq<Entity>, showInit: bool) returns (p: OverlayDisplay)
    requires showInit == (Unrecorded(d.viewing, list) != [])
    ensures p == ToggleOverlays(d, list, Decision(d.viewing, list))
  {
    p := d;
    var show, init := true, showInit;
    var i := 0;
    while i < |list|
      invariant 0 <= i <= |list|
      invariant init ==> show == Decision(d.viewing, list)
      invariant init ==> p == ToggleOverlays(d, list[..i], show)
      invariant !init ==> p == d && !showInit
      invariant !init ==> forall k :: 0 <= k < i ==> list[k] !in d.viewing
    {
      var x := list[i];
      if x in p.viewing {
        if !init {
          show := !p.viewing[x];
          init := true;
          assert FirstRecorded(d.viewing, list) == Some(i);
          ToggleOverlaysSkips(d, list[..i], show);
        }
        p := ToggleOverlayEntity(p, x, show);
      }
      ToggleOverlaysNext(d, list, i, show);
      i := i + 1;
    }
    assert list[..i] == list;
    if !init {
      ToggleOverlaysSkips(d, list, Decision(d.viewing, list));
    }
  }

  /** One visual entity in the wireframe or transparent pass: mark it unless it is marked already. */
  method MarkEntity(p: Display, x: Entity, f: Flag) returns (q: Display)
    ensures q == MarkOne(p, x, f)
  {
    q := p;
    if !(x in q.viewing && q.viewing[x]) {
      var viewing := q.viewing;
      if x !in viewing {
        viewing := viewing[x := false];
      }
      var found := VisualById(q.scene, x);
      if found.Some? {
        q := Display(viewing[x := true], q.scene[found.value := WithFlag(q.scene[found.value], f, true)]);
      } else {
        q := q.(viewing := viewing);
      }
    }
  }

  /** The visual entities of one link in the wireframe or transparent pass. */
  method MarkRow(p: Display, visEntities: seq<Entity>, f: Flag) returns (q: Display)
    ensures q == MarkAll(p, visEntities, f)
  {
    q := p;
    var j := 0;
    while j < |visEntities|
      invariant 0 <= j <= |visEntities|
      invariant q == MarkAll(p, visEntities[..j], f)
    {
      assert visEntities[..j + 1][..j] == visEntities[..j];
      q := MarkEntity(q, visEntities[j], f);
      j := j + 1;
    }
    assert visEntities[..j] == visEntities;
  }

  /** One queued link of the wireframe or transparent pass: read its row through `operator[]` and mark it. */
  method MarkLink(rows: map<Entity, seq<Entity>>, p: Display, link: Entity, f: Flag)
    returns (rows': map<Entity, seq<Entity>>, q: Display)
    ensures rows' == rows[link := Row(rows, link)]
    ensures q == MarkAll(p, Row(rows, link), f)
  {
    var visEntities := if link in rows then rows[link] else [];
    rows' := rows[link := visEntities];
    q := MarkRow(p, visEntities, f);
  }

  /** One more queued link in MarkLinks: its row is filled in and its visual entities are marked. */
  lemma MarkLinksStep(rows: map<Entity, seq<Entity>>, d: Display, queue: seq<Entity>, i: nat, f: Flag)
    requires i < |queue|
    ensures Fill(rows, queue[..i + 1]) == Fill(rows, queue[..i])[queue[i] := Row(rows, queue[i])]
    ensures Row(Fill(rows, queue[..i]), queue[i]) == Row(rows, queue[i])
    ensures MarkAll(d, Gather(RowOf(rows), queue[..i + 1]), f) ==
            MarkAll(MarkAll(d, Gather(RowOf(rows), queue[..i]), f), Row(rows, queue[i]), f)
  {
    assert queue[..i + 1] == queue[..i] + [queue[i]];
    GatherSnoc(RowOf(rows), queue[..i], queue[i]);
    FillStep(rows, queue[..i], queue[i]);
    MarkAllAppend(d, Gather(RowOf(rows), queue[..i]), Row(rows, queue[i]), f);
  }

  /** The wireframe or transparent pass: mark every not-yet-marked visual entity of the queued links that has a visual. */
  method MarkLinks(rows: map<Entity, seq<Entity>>, queue: seq<Entity>, viewing: map<Entity, bool>,
                   scene: seq<SceneVisual>, f: Flag)
    returns (rows': map<Entity, seq<Entity>>, viewing': map<Entity, bool>, scene': seq<SceneVisual>)
    ensures rows' == Fill(rows, queue)
    ensures Display(viewing', scene') == MarkAll(Display(viewing, scene), Gather(RowOf(rows), queue), f)
    ensures viewing' == Marked(viewing, Gather(RowOf(rows), queue), Tags(scene))
    ensures scene' == SetFlags(scene, Unmarked(viewing, Gather(RowOf(rows), queue), Tags(scene)), f, true)
  {
    var d := Display(viewing, scene);
    var p := d;
    rows' := rows;
    var i := 0;
    assert Fill(rows, queue[..0]) == rows;
    while i < |queue|
      invariant 0 <= i <= |queue|
      invariant rows' == Fill(rows, queue[..i])
      invariant p == MarkAll(d, Gather(RowOf(rows), queue[..i]), f)
    {
      MarkLinksStep(rows, d, queue, i, f);
      rows', p := MarkLink(rows', p, queue[i], f);
      i := i + 1;
    }
    assert queue[..i] == queue;
    MarkAllClosed(viewing, scene, Gather(RowOf(rows), queue), f);
    viewing', scene' := p.viewing, p.scene;
  }

  /** The candidate probe for one link: the first free id, when the link is unviewed and has a visual. */
  method ProbeFreeId(viewing: map<Entity, bool>, scene: seq<SceneVisual>, ids: SceneIds, link: Entity)
    returns (viewing': map<Entity, bool>, id: Option<nat>)
    ensures viewing' == Probed(viewing, ids, link)
    ensures id == ProbedId(viewing, scene, ids, link)
  {
    viewing' := viewing;
    var i := 0;
    while i < ProbeAttempts
      invariant 0 <= i <= ProbeAttempts
      invariant viewing' == if FirstUntaken(ids, 0).Some? && FirstUntaken(ids, 0).value < i then Touch(viewing, link) else viewing
      invariant forall j :: 0 <= j < i ==> IdTaken(ids, j) || Get(viewing, link) || j in Tags(scene) || link !in Tags(scene)
    {
      if !(i in ids.nodes) && !(i in ids.lights) && !(i in ids.sensors) && !(i in ids.visuals) {
        assert !IdTaken(ids, i);
        assert FirstUntaken(ids, 0).Some? && FirstUntaken(ids, 0).value <= i;
        if link !in viewing' {
          viewing' := viewing'[link := false];
        }
        assert viewing' == Touch(viewing, link);
        if !viewing'[link] {
          var existsVisual := VisualById(scene, i);
          var parentVisual := VisualById(scene, link);
          if existsVisual.None? && parentVisual.Some? {
            ghost var free := FirstFreeId(ids, Tags(scene), 0);
            assert free.Some? && free.value <= i;
            return viewing', Some(i);
          }
        }
      }
      else {
        assert IdTaken(ids, i);
      }
      i := i + 1;
    }
    if !Get(viewing, link) && FirstTagged(scene, link).Some? {
      assert forall j :: 0 <= j < ProbeAttempts ==> IdTaken(ids, j) || j in Tags(scene);
    }
    id := None;
  }

  /** One queued link of the centre-of-mass or inertia pass: probe a free id and create its overlay. */
  method ProbeLink(q: Overlays, ids: SceneIds, link: Entity, prefix: string) returns (q': Overlays)
    ensures q' == ProbeOne(q, ids, link, prefix)
  {
    var viewing, id := ProbeFreeId(q.viewing, q.scene, ids, link);
    if id.Some? {
      var parent := VisualById(q.scene, link);
      var inertials := if link in q.inertials then q.inertials else q.inertials[link := DefaultInertial];
      var overlay := NewVisual(id.value, q.scene[parent.value].name + "::" + prefix + DecimalString(id.value));
      q' := Overlays(viewing[link := true], q.linkTo[link := id.value], q.scene + [overlay],
                     q.visuals + {id.value}, inertials);
    } else {
      q' := q.(viewing := viewing);
    }
  }

  /** The centre-of-mass or inertia pass: one overlay per queued link, named with `prefix`. */
  method ProbeLinks(p: Overlays, ids: SceneIds, links: seq<Entity>, prefix: string) returns (q: Overlays)
    ensures q == ProbeAll(p, ids, links, prefix)
  {
    q := p;
    var k := 0;
    while k < |links|
      invariant 0 <= k <= |links|
      invariant q == ProbeAll(p, ids, links[..k], prefix)
    {
      assert links[..k + 1][..k] == links[..k];
      q := ProbeLink(q, ids, links[k], prefix);
      k := k + 1;
    }
    assert links[..k] == links;
  }

  /** The collision pass over one link's collision entities. */
  method CollideLink(c: Collisions, ids: SceneIds, link: Entity, cols: seq<Entity>) returns (d: Collisions)
    ensures d == CollideRow(c, ids, link, cols)
  {
    d := c;
    var j := 0;
    while j < |cols|
      invariant 0 <= j <= |cols|
      invariant d == CollideRow(c, ids, link, cols[..j])
    {
      var col := cols[j];
      assert cols[..j + 1][..j] == cols[..j];
      ghost var before := d;
      if !IdTaken(ids, col) {
        var viewing := d.viewing;
        if link !in viewing {
          viewing := viewing[link := false];
        }
        d := d.(viewing := viewing);
        if !viewing[link] {
          var parent := VisualById(d.scene, link);
          if parent.Some? {
            var data := if col in d.elements then d.elements[col] else DefaultCollision;
            d := d.(elements := d.elements[col := data]);
            if col !in d.visuals {
              var name := CollisionVisualName(d.scene[parent.value].name, col, data);
              if FirstNamed(d.scene, name).None? {
                d := d.(scene := d.scene + [NewVisual(col, name)]);
              }
              d := d.(viewing := d.viewing[col := true], visuals := d.visuals + {col});
            }
          }
        }
      }
      assert d == CollideOne(before, ids, link, col);
      j := j + 1;
    }
    assert cols[..j] == cols;
  }

  /** The collision pass over the queued links, reading their collision rows through `operator[]`. */
  method CollideLinks(c: Collisions, ids: SceneIds, rows: map<Entity, seq<Entity>>, links: seq<Entity>)
    returns (d: Collisions, rows': map<Entity, seq<Entity>>)
    ensures d == CollideAll(c, ids, rows, links)
    ensures rows' == Fill(rows, links)
  {
    d, rows' := c, rows;
    var k := 0;
    assert Fill(rows, links[..0]) == rows;
    while k < |links|
      invariant 0 <= k <= |links|
      invariant d == CollideAll(c, ids, rows, links[..k])
      invariant rows' == Fill(rows, links[..k])
    {
      var link := links[k];
      assert links[..k + 1] == links[..k] + [link];
      FillStep(rows, links[..k], link);
      var colEntities := if link in rows' then rows'[link] else [];
      rows' := rows'[link := colEntities];
      d := CollideLink(d, ids, link, colEntities);
      k := k + 1;
    }
    assert links[..k] == links;
  }

  /** Update's indexing of child entities under their parents, in store order. */
  method IndexRows(rows: map<Entity, seq<Entity>>, s: Store, es: seq<Entity>, k: Kind) returns (r: map<Entity, seq<Entity>>)
    ensures r == AddRows(rows, s, es, k)
  {
    r := rows;
    var i := 0;
    while i < |es|
      invariant 0 <= i <= |es|
      invariant r == AddRows(rows, s, es[..i], k)
    {
      var e := es[i];
      assert es[..i + 1][..i] == es[..i];
      if Indexed(s, e, k) {
        var parent := s.parent[e];
        r := r[parent := Row(r, parent) + [e]];
      }
      i := i + 1;
    }
    assert es[..i] == es;
  }

  /** Update's recording of inertial elements. */
  method IndexInertials(m: map<Entity, InertialData>, s: Store, es: seq<Entity>) returns (r: map<Entity, InertialData>)
    ensures r == AddInertials(m, s, es)
  {
    r := m;
    var i := 0;
    while i < |es|
      invariant 0 <= i <= |es|
      invariant r == AddInertials(m, s, es[..i])
    {
      var e := es[i];
      AddInertialsStep(m, s, es, i);
      if e in s.inertial && e in s.pose {
        r := r[e := InertialOf(e)];
      }
      i := i + 1;
    }
    assert es[..i] == es;
  }

  /** Update's recording of collisions: the element per collision and the collision under its link. */
  method IndexCollisions(m: map<Entity, CollisionData>, rows: map<Entity, seq<Entity>>, s: Store, es: seq<Entity>)
    returns (r: map<Entity, CollisionData>, rows': map<Entity, seq<Entity>>)
    ensures r == AddCollisions(m, s, es)
    ensures rows' == AddRows(rows, s, es, Collision)
  {
    r, rows' := m, rows;
    var i := 0;
    while i < |es|
      invariant 0 <= i <= |es|
      invariant r == AddCollisions(m, s, es[..i])
      invariant rows' == AddRows(rows, s, es[..i], Collision)
    {
      var e := es[i];
      AddCollisionsStep(m, s, es, i);
      assert es[..i + 1][..i] == es[..i];
      if Indexed(s, e, Collision) {
        r := r[e := CollisionNamed(s.collisionElement[e])];
        var parent := s.parent[e];
        rows' := rows'[parent := Row(rows', parent) + [e]];
      }
      i := i + 1;
    }
    assert es[..i] == es;
  }

  /** The index maps `m2l'`, `m2m'` after a FindChildLinks walk from `e` over `m2l`, `m2m`. */
  ghost predicate Walked(m2l: map<Entity, seq<Entity>>, m2m: map<Entity, seq<Entity>>,
                         m2l': map<Entity, seq<Entity>>, m2m': map<Entity, seq<Entity>>, e: Entity)
  {
    RowsAcyclic(m2m) &&
    m2l' == WalkFill(m2l, m2m, e) &&
    m2m' == WalkFill(m2m, m2m, e) &&
    RowsAcyclic(m2m')
  }

  /** What a direct View* request (wireframes, transparency, collisions) reads and changes. */
  datatype DirectState = DirectState(m2l: map<Entity, seq<Entity>>, m2m: map<Entity, seq<Entity>>,
                                     rows: map<Entity, seq<Entity>>, queue: seq<Entity>,
                                     viewing: map<Entity, bool>, scene: seq<SceneVisual>)

  /**
   * The state after a direct request for `e`: the index walked, the visited
   * link rows default-inserted, a request queued per unrecorded entry and
   * the recorded entries toggled with flag `f`.
   */
  ghost function DirectAfter(d: DirectState, e: Entity, f: Flag): (r: DirectState)
    requires RowsAcyclic(d.m2m)
    ensures RowsAcyclic(r.m2m)
  {
    FillAcyclic(d.m2m, IndexVisit(d.m2m, e));
    var list := DirectList(d.rows, d.m2l, d.m2m, e);
    var show := Decision(d.viewing, list);
    DirectState(WalkFill(d.m2l, d.m2m, e), WalkFill(d.m2m, d.m2m, e),
                Fill(d.rows, IndexChildLinks(d.m2l, d.m2m, e)),
                d.queue + Repeat(e, |Unrecorded(d.viewing, list)|),
                Toggled(d.viewing, list, show, Tags(d.scene)),
                SetFlags(d.scene, DirectTargets(d.viewing, list, Tags(d.scene)), f, show))
  }

  /** What an overlay View* request (inertia, centre of mass) reads and changes. */
  datatype OverlayState = OverlayState(m2l: map<Entity, seq<Entity>>, m2m: map<Entity, seq<Entity>>,
                                       queue: seq<Entity>, viewing: map<Entity, bool>,
                                       ids: map<Entity, Entity>, scene: seq<SceneVisual>)

  /**
   * The state after an overlay request for `e`: the index walked, a request
   * queued per unrecorded link, the overlay ids of recorded links remembered
   * and the recorded overlays toggled.
   */
  ghost function OverlayAfter(d: OverlayState, inertials: map<Entity, InertialData>, e: Entity): (r: OverlayState)
    requires RowsAcyclic(d.m2m)
    ensures RowsAcyclic(r.m2m)
  {
    FillAcyclic(d.m2m, IndexVisit(d.m2m, e));
    var list := OverlayList(inertials, d.m2l, d.m2m, e);
    var show := Decision(d.viewing, list);
    OverlayState(WalkFill(d.m2l, d.m2m, e), WalkFill(d.m2m, d.m2m, e),
                 d.queue + Repeat(e, |Unrecorded(d.viewing, list)|),
                 Toggled(d.viewing, list, show, ViaEligible(d.viewing, d.ids, Tags(d.scene))),
                 FillIds(d.ids, d.viewing, list),
                 SetFlags(d.scene, ViaTargets(d.viewing, d.ids, list, Tags(d.scene)), Visible, show))
  }

  /** One pop of the index walk keeps the walk's loop invariant and shrinks what is left to pop. */
  lemma WalkStep(m2l: map<Entity, seq<Entity>>, m2m: map<Entity, seq<Entity>>, rank: Entity -> nat, bound: nat,
                 e: Entity, stack: seq<Entity>, popped: seq<Entity>)
    requires Ranked(RowOf(m2m), rank)
    requires stack != [] && forall x :: x in stack ==> rank(x) < bound
    requires popped + VisitStack(RowOf(m2m), rank, bound, stack) == Visit(RowOf(m2m), rank, e)
    ensures var model := stack[|stack| - 1];
            var next := stack[..|stack| - 1] + Row(m2m, model);
            (forall x :: x in next ==> rank(x) < bound) &&
            (popped + [model]) + VisitStack(RowOf(m2m), rank, bound, next) == Visit(RowOf(m2m), rank, e) &&
            |VisitStack(RowOf(m2m), rank, bound, next)| < |VisitStack(RowOf(m2m), rank, bound, stack)|
    ensures var model := stack[|stack| - 1];
            (Row(m2l, e) + Gather(RowOf(m2l), popped)) + Row(m2l, model) == Row(m2l, e) + Gather(RowOf(m2l), popped + [model]) &&
            Fill(m2l, popped + [model]) == Fill(m2l, popped)[model := Row(m2l, model)] &&
            Fill(m2m, popped + [model]) == Fill(m2m, popped)[model := Row(m2m, model)]
  {
    var model := stack[|stack| - 1];
    var next := stack[..|stack| - 1] + Row(m2m, model);
    PopStep(RowOf(m2m), rank, bound, stack);
    AppendAssoc(popped, [model], VisitStack(RowOf(m2m), rank, bound, next));
    GatherSnoc(RowOf(m2l), popped, model);
    AppendAssoc(Row(m2l, e), Gather(RowOf(m2l), popped), Row(m2l, model));
    FillStep(m2l, popped, model);
    FillStep(m2m, popped, model);
  }

  /**
   * The stack walk of FindChildLinks: the entity's own links, and when it
   * has a model row, the links of every model the walk from it pops; every
   * row it reads is default-inserted.
   */
  method WalkIndex(m2l: map<Entity, seq<Entity>>, m2m: map<Entity, seq<Entity>>, e: Entity)
    returns (links: seq<Entity>, linkRows: map<Entity, seq<Entity>>, modelRows: map<Entity, seq<Entity>>)
    requires RowsAcyclic(m2m)
    ensures links == IndexChildLinks(m2l, m2m, e)
    ensures Walked(m2l, m2m, linkRows, modelRows, e)
  {
    linkRows, modelRows := m2l, m2m;
    links := [];
    if e in linkRows {
      links := linkRows[e];
    }
    if e in modelRows {
      ghost var rankMap := SomeRank(m2m);
      RowsRanked(m2m, rankMap);
      ghost var rank := RankOf(rankMap);
      ghost var bound := rank(e) + 1;
      var stack := [e];
      ghost var popped: seq<Entity> := [];
      assert VisitStack(RowOf(m2m), rank, bound, stack[..0]) == [];
      assert VisitStack(RowOf(m2m), rank, bound, stack) == Visit(RowOf(m2m), rank, e);
      assert Fill(m2l, popped) == m2l && Fill(m2m, popped) == m2m;
      while stack != []
        invariant forall x :: x in stack ==> rank(x) < bound
        invariant popped + VisitStack(RowOf(m2m), rank, bound, stack) == Visit(RowOf(m2m), rank, e)
        invariant links == Row(m2l, e) + Gather(RowOf(m2l), popped)
        invariant linkRows == Fill(m2l, popped)
        invariant modelRows == Fill(m2m, popped)
        decreases |VisitStack(RowOf(m2m), rank, bound, stack)|
      {
        var model := stack[|stack| - 1];
        WalkStep(m2l, m2m, rank, bound, e, stack, popped);
        var childLinks := if model in linkRows then linkRows[model] else [];
        assert childLinks == Row(linkRows, model);
        linkRows := linkRows[model := childLinks];
        links := links + childLinks;
        var childModels := if model in modelRows then modelRows[model] else [];
        assert childModels == Row(modelRows, model);
        modelRows := modelRows[model := childModels];
        stack := stack[..|stack| - 1] + childModels;
        popped := popped + [model];
      }
      assert popped == IndexVisit(m2m, e);
      FillAcyclic(m2m, popped);
    }
  }

  /** ViewWireframes, ViewTransparent and ViewCollisions on values: walk the index from `e`, queue a request per unrecorded entry, toggle the rest. */
  method DirectRequest(d: DirectState, e: Entity, f: Flag) returns (d': DirectState)
    requires RowsAcyclic(d.m2m)
    ensures d' == DirectAfter(d, e, f) && RowsAcyclic(d'.m2m)
  {
    var links, linkRows, modelRows := WalkIndex(d.m2l, d.m2m, e);
    var list, rows := GatherRows(d.rows, e, links);
    var requests, showInit := ScanNew(d.viewing, list, e);
    var viewing, scene := ToggleRecorded(d.viewing, d.scene, list, showInit, f);
    d' := DirectState(linkRows, modelRows, rows, d.queue + requests, viewing, scene);
  }

  /** ViewCOM and ViewInertia on values: walk the index from `e`, queue a request per unrecorded link, toggle the rest. */
  method OverlayRequest(d: OverlayState, inertials: map<Entity, InertialData>, e: Entity) returns (d': OverlayState)
    requires RowsAcyclic(d.m2m)
    ensures d' == OverlayAfter(d, inertials, e) && RowsAcyclic(d'.m2m)
  {
    var inertiaLinks, linkRows, modelRows := WalkIndex(d.m2l, d.m2m, e);
    if e in inertials {
      inertiaLinks := inertiaLinks + [e];
    }
    var requests, showInit := ScanNew(d.viewing, inertiaLinks, e);
    var viewing, ids, scene := ToggleOverlayRecorded(d.viewing, d.ids, d.scene, inertiaLinks, showInit);
    d' := OverlayState(linkRows, modelRows, d.queue + requests, viewing, ids, scene);
  }

  /** A pending direct request: nothing when no visual carries the target's name, else the request for the entity behind it. */
  ghost function DirectTargetAfter(d: DirectState, target: string, f: Flag): (r: DirectState)
    requires RowsAcyclic(d.m2m)
    ensures RowsAcyclic(r.m2m)
  {
    match Targeted(d.scene, target)
    case None => d
    case Some(e) => DirectAfter(d, e, f)
  }

  /** A pending overlay request, likewise. */
  ghost function OverlayTargetAfter(d: OverlayState, inertials: map<Entity, InertialData>, target: string): (r: OverlayState)
    requires RowsAcyclic(d.m2m)
    ensures RowsAcyclic(r.m2m)
  {
    match Targeted(d.scene, target)
    case None => d
    case Some(e) => OverlayAfter(d, inertials, e)
  }

  /** A pending direct request on values: look the target up and run the request for the entity behind it. */
  method DirectTarget(d: DirectState, target: string, f: Flag) returns (d': DirectState)
    requires RowsAcyclic(d.m2m)
    ensures d' == DirectTargetAfter(d, target, f)
  {
    d' := d;
    if target != "" {
      var t := TargetEntity(d.scene, target);
      if t.Some? {
        d' := DirectRequest(d, t.value, f);
      }
    }
  }

  /** A pending overlay request on values, likewise. */
  method OverlayTarget(d: OverlayState, inertials: map<Entity, InertialData>, target: string) returns (d': OverlayState)
    requires RowsAcyclic(d.m2m)
    ensures d' == OverlayTargetAfter(d, inertials, target)
  {
    d' := d;
    if target != "" {
      var t := TargetEntity(d.scene, target);
      if t.Some? {
        d' := OverlayRequest(d, inertials, t.value);
      }
    }
  }

  /** What OnRender's five passes read and change. */
  datatype Passes = Passes(linkVisuals: map<Entity, seq<Entity>>, linkCollisions: map<Entity, seq<Entity>>,
                           inertials: map<Entity, InertialData>, collisions: map<Entity, CollisionData>,
                           visuals: set<Entity>, scene: seq<SceneVisual>,
                           viewingWireframes: map<Entity, bool>, viewingTransparent: map<Entity, bool>,
                           viewingCollisions: map<Entity, bool>, viewingInertias: map<Entity, bool>,
                           viewingCOM: map<Entity, bool>, inertiaIds: map<Entity, Entity>, comIds: map<Entity, Entity>,
                           wireframeLinks: seq<Entity>, transparentLinks: seq<Entity>, inertiaLinks: seq<Entity>,
                           comLinks: seq<Entity>, collisionLinks: seq<Entity>)

  /** OnRender's five passes over the queued links. */
  datatype Pass = WireframePass | TransparentPass | InertiaPass | COMPass | CollisionPass

  /** The order in which OnRender runs them. */
  const RenderOrder: seq<Pass> := [WireframePass, TransparentPass, InertiaPass, COMPass, CollisionPass]

  /**
   * One pass: wireframe and transparency marking (MarkAll, in closed form by
   * MarkAllClosed), the inertia and centre-of-mass overlays (ProbeAll) or the
   * collision visuals (CollideAll); every link it reads gets a row, and its
   * queue ends empty.
   */
  ghost function PassOne(p: Passes, ids: SceneIds, k: Pass): Passes {
    match k
    case WireframePass =>
      var w := MarkAll(Display(p.viewingWireframes, p.scene), Gather(RowOf(p.linkVisuals), p.wireframeLinks), Wireframe);
      p.(linkVisuals := Fill(p.linkVisuals, p.wireframeLinks), viewingWireframes := w.viewing, scene := w.scene, wireframeLinks := [])
    case TransparentPass =>
      var t := MarkAll(Display(p.viewingTransparent, p.scene), Gather(RowOf(p.linkVisuals), p.transparentLinks), Transparent);
      p.(linkVisuals := Fill(p.linkVisuals, p.transparentLinks), viewingTransparent := t.viewing, scene := t.scene, transparentLinks := [])
    case InertiaPass =>
      var i := ProbeAll(Overlays(p.viewingInertias, p.inertiaIds, p.scene, p.visuals, p.inertials), ids, p.inertiaLinks, "Inertia_");
      p.(viewingInertias := i.viewing, inertiaIds := i.linkTo, scene := i.scene, visuals := i.visuals, inertials := i.inertials, inertiaLinks := [])
    case COMPass =>
      var c := ProbeAll(Overlays(p.viewingCOM, p.comIds, p.scene, p.visuals, p.inertials), ids, p.comLinks, "COM_");
      p.(viewingCOM := c.viewing, comIds := c.linkTo, scene := c.scene, visuals := c.visuals, inertials := c.inertials, comLinks := [])
    case CollisionPass =>
      var k := CollideAll(Collisions(p.viewingCollisions, p.collisions, p.scene, p.visuals), ids, p.linkCollisions, p.collisionLinks);
      p.(linkCollisions := Fill(p.linkCollisions, p.collisionLinks), collisions := k.elements, visuals := k.visuals,
         scene := k.scene, viewingCollisions := k.viewing, collisionLinks := [])
  }

  /** The passes `ks`, in order. */
  ghost function RenderAll(p: Passes, ids: SceneIds, ks: seq<Pass>): Passes
    decreases |ks|
  {
    if ks == [] then p else RenderAll(PassOne(p, ids, ks[0]), ids, ks[1..])
  }

  /** One pass on values. */
  method RunPass(p: Passes, ids: SceneIds, k: Pass) returns (q: Passes)
    ensures q == PassOne(p, ids, k)
  {
    match k
    case WireframePass =>
      var rows, viewing, scene := MarkLinks(p.linkVisuals, p.wireframeLinks, p.viewingWireframes, p.scene, Wireframe);
      q := p.(linkVisuals := rows, viewingWireframes := viewing, scene := scene, wireframeLinks := []);
    case TransparentPass =>
      var rows, viewing, scene := MarkLinks(p.linkVisuals, p.transparentLinks, p.viewingTransparent, p.scene, Transparent);
      q := p.(linkVisuals := rows, viewingTransparent := viewing, scene := scene, transparentLinks := []);
    case InertiaPass =>
      var i := ProbeLinks(Overlays(p.viewingInertias, p.inertiaIds, p.scene, p.visuals, p.inertials), ids, p.inertiaLinks, "Inertia_");
      q := p.(viewingInertias := i.viewing, inertiaIds := i.linkTo, scene := i.scene, visuals := i.visuals, inertials := i.inertials, inertiaLinks := []);
    case COMPass =>
      var c := ProbeLinks(Overlays(p.viewingCOM, p.comIds, p.scene, p.visuals, p.inertials), ids, p.comLinks, "COM_");
      q := p.(viewingCOM := c.viewing, comIds := c.linkTo, scene := c.scene, visuals := c.visuals, inertials := c.inertials, comLinks := []);
    case CollisionPass =>
      var k, rows := CollideLinks(Collisions(p.viewingCollisions, p.collisions, p.scene, p.visuals), ids, p.linkCollisions, p.collisionLinks);
      q := p.(linkCollisions := rows, collisions := k.elements, visuals := k.visuals, scene := k.scene, viewingCollisions := k.viewing, collisionLinks := []);
  }

  /** OnRender's passes on values, in RenderOrder; every link queue ends empty. */
  method RunPasses(p: Passes, ids: SceneIds) returns (q: Passes)
    ensures q == RenderAll(p, ids, RenderOrder)
    ensures q.wireframeLinks == [] && q.transparentLinks == [] && q.inertiaLinks == [] && q.comLinks == [] && q.collisionLinks == []
  {
    var w := RunPass(p, ids, WireframePass);
    var t := RunPass(w, ids, TransparentPass);
    var i := RunPass(t, ids, InertiaPass);
    var c := RunPass(i, ids, COMPass);
    q := RunPass(c, ids, CollisionPass);
    assert RenderAll(c, ids, [CollisionPass]) == q;
    assert RenderAll(i, ids, [COMPass, CollisionPass]) == q;
    assert RenderAll(t, ids, [InertiaPass, COMPass, CollisionPass]) == q;
    assert RenderAll(w, ids, [TransparentPass, InertiaPass, COMPass, CollisionPass]) == q;
  }

  /** After OnRender's five passes every link queue is empty. */
  lemma {:induction false} RenderAllDrains(p: Passes, ids: SceneIds)
    ensures var q := RenderAll(p, ids, RenderOrder);
            q.wireframeLinks == [] && q.transparentLinks == [] && q.inertiaLinks == [] && q.comLinks == [] && q.collisionLinks == []
  {
    var w := PassOne(p, ids, WireframePass);
    var t := PassOne(w, ids, TransparentPass);
    var i := PassOne(t, ids, InertiaPass);
    var c := PassOne(i, ids, COMPass);
    var q := PassOne(c, ids, CollisionPass);
    assert RenderAll(c, ids, [CollisionPass]) == q;
    assert RenderAll(i, ids, [COMPass, CollisionPass]) == q;
    assert RenderAll(t, ids, [InertiaPass, COMPass, CollisionPass]) == q;
    assert RenderAll(w, ids, [TransparentPass, InertiaPass, COMPass, CollisionPass]) == q;
  }

  /** What OnRender's handling of the pending requests reads and changes. */
  datatype Requests = Requests(m2l: map<Entity, seq<Entity>>, m2m: map<Entity, seq<Entity>>,
                               linkVisuals: map<Entity, seq<Entity>>, linkCollisions: map<Entity, seq<Entity>>,
                               inertials: map<Entity, InertialData>, scene: seq<SceneVisual>,
                               viewingWireframes: map<Entity, bool>, viewingTransparent: map<Entity, bool>,
                               viewingCollisions: map<Entity, bool>, viewingInertias: map<Entity, bool>,
                               viewingCOM: map<Entity, bool>, inertiaIds: map<Entity, Entity>, comIds: map<Entity, Entity>,
                               newWireframes: seq<Entity>, newTransparent: seq<Entity>, newCollisions: seq<Entity>,
                               newInertias: seq<Entity>, newCOM: seq<Entity>,
                               wireframesTarget: string, transparentTarget: string, collisionsTarget: string,
                               inertiaTarget: string, comTarget: string)

  /** The five pending requests OnRender handles. */
  datatype Pending = PendingCOM | PendingInertia | PendingTransparent | PendingCollisions | PendingWireframes

  /** The order in which OnRender handles them. */
  const HandlingOrder: seq<Pending> := [PendingCOM, PendingInertia, PendingTransparent, PendingCollisions, PendingWireframes]

  /** The pending centre-of-mass request: its target looked up by name and its request run, then the target cleared. */
  ghost function HandleCOM(r: Requests): (h: Requests)
    requires RowsAcyclic(r.m2m)
    ensures RowsAcyclic(h.m2m)
  {
    var a := OverlayTargetAfter(OverlayState(r.m2l, r.m2m, r.newCOM, r.viewingCOM, r.comIds, r.scene), r.inertials, r.comTarget);
    r.(m2l := a.m2l, m2m := a.m2m, newCOM := a.queue, viewingCOM := a.viewing, comIds := a.ids, scene := a.scene, comTarget := "")
  }

  /** The pending inertia request, likewise. */
  ghost function HandleInertia(r: Requests): (h: Requests)
    requires RowsAcyclic(r.m2m)
    ensures RowsAcyclic(h.m2m)
  {
    var a := OverlayTargetAfter(OverlayState(r.m2l, r.m2m, r.newInertias, r.viewingInertias, r.inertiaIds, r.scene), r.inertials, r.inertiaTarget);
    r.(m2l := a.m2l, m2m := a.m2m, newInertias := a.queue, viewingInertias := a.viewing, inertiaIds := a.ids, scene := a.scene, inertiaTarget := "")
  }

  /** The pending transparency request, likewise. */
  ghost function HandleTransparent(r: Requests): (h: Requests)
    requires RowsAcyclic(r.m2m)
    ensures RowsAcyclic(h.m2m)
  {
    var d := DirectTargetAfter(DirectState(r.m2l, r.m2m, r.linkVisuals, r.newTransparent, r.viewingTransparent, r.scene), r.transparentTarget, Transparent);
    r.(m2l := d.m2l, m2m := d.m2m, linkVisuals := d.rows, newTransparent := d.queue, viewingTransparent := d.viewing, scene := d.scene, transparentTarget := "")
  }

  /** The pending collisions request, likewise. */
  ghost function HandleCollisions(r: Requests): (h: Requests)
    requires RowsAcyclic(r.m2m)
    ensures RowsAcyclic(h.m2m)
  {
    var d := DirectTargetAfter(DirectState(r.m2l, r.m2m, r.linkCollisions, r.newCollisions, r.viewingCollisions, r.scene), r.collisionsTarget, Visible);
    r.(m2l := d.m2l, m2m := d.m2m, linkCollisions := d.rows, newCollisions := d.queue, viewingCollisions := d.viewing, scene := d.scene, collisionsTarget := "")
  }

  /** The pending wireframes request, likewise. */
  ghost function HandleWireframes(r: Requests): (h: Requests)
    requires RowsAcyclic(r.m2m)
    ensures RowsAcyclic(h.m2m)
  {
    var d := DirectTargetAfter(DirectState(r.m2l, r.m2m, r.linkVisuals, r.newWireframes, r.viewingWireframes, r.scene), r.wireframesTarget, Wireframe);
    r.(m2l := d.m2l, m2m := d.m2m, linkVisuals := d.rows, newWireframes := d.queue, viewingWireframes := d.viewing, scene := d.scene, wireframesTarget := "")
  }

  /** One pending request. */
  ghost function HandleOne(r: Requests, k: Pending): (h: Requests)
    requires RowsAcyclic(r.m2m)
    ensures RowsAcyclic(h.m2m)
  {
    match k
    case PendingCOM => HandleCOM(r)
    case PendingInertia => HandleInertia(r)
    case PendingTransparent => HandleTransparent(r)
    case PendingCollisions => HandleCollisions(r)
    case PendingWireframes => HandleWireframes(r)
  }

  /** The pending requests `ks`, in order. */
  ghost function HandleAll(r: Requests, ks: seq<Pending>): (h: Requests)
    requires RowsAcyclic(r.m2m)
    ensures RowsAcyclic(h.m2m)
    decreases |ks|
  {
    if ks == [] then r else HandleAll(HandleOne(r, ks[0]), ks[1..])
  }

  /** The request handling's view of a state whose passes-side fields are those of `p`. */
  function AfterPasses(r: Requests, p: Passes): Requests {
    r.(linkVisuals := p.linkVisuals, linkCollisions := p.linkCollisions, inertials := p.inertials, scene := p.scene,
       viewingWireframes := p.viewingWireframes, viewingTransparent := p.viewingTransparent,
       viewingCollisions := p.viewingCollisions, viewingInertias := p.viewingInertias, viewingCOM := p.viewingCOM,
       inertiaIds := p.inertiaIds, comIds := p.comIds)
  }

  /** One pending request on values. */
  method HandleRequest(r: Requests, k: Pending) returns (h: Requests)
    requires RowsAcyclic(r.m2m)
    ensures h == HandleOne(r, k) && h.inertials == r.inertials
  {
    match k
    case PendingCOM =>
      var a := OverlayTarget(OverlayState(r.m2l, r.m2m, r.newCOM, r.viewingCOM, r.comIds, r.scene), r.inertials, r.comTarget);
      h := r.(m2l := a.m2l, m2m := a.m2m, newCOM := a.queue, viewingCOM := a.viewing, comIds := a.ids, scene := a.scene, comTarget := "");
    case PendingInertia =>
      var a := OverlayTarget(OverlayState(r.m2l, r.m2m, r.newInertias, r.viewingInertias, r.inertiaIds, r.scene), r.inertials, r.inertiaTarget);
      h := r.(m2l := a.m2l, m2m := a.m2m, newInertias := a.queue, viewingInertias := a.viewing, inertiaIds := a.ids, scene := a.scene, inertiaTarget := "");
    case PendingTransparent =>
      var d := DirectTarget(DirectState(r.m2l, r.m2m, r.linkVisuals, r.newTransparent, r.viewingTransparent, r.scene), r.transparentTarget, Transparent);
      h := r.(m2l := d.m2l, m2m := d.m2m, linkVisuals := d.rows, newTransparent := d.queue, viewingTransparent := d.viewing, scene := d.scene, transparentTarget := "");
    case PendingCollisions =>
      var d := DirectTarget(DirectState(r.m2l, r.m2m, r.linkCollisions, r.newCollisions, r.viewingCollisions, r.scene), r.collisionsTarget, Visible);
      h := r.(m2l := d.m2l, m2m := d.m2m, linkCollisions := d.rows, newCollisions := d.queue, viewingCollisions := d.viewing, scene := d.scene, collisionsTarget := "");
    case PendingWireframes =>
      var d := DirectTarget(DirectState(r.m2l, r.m2m, r.linkVisuals, r.newWireframes, r.viewingWireframes, r.scene), r.wireframesTarget, Wireframe);
      h := r.(m2l := d.m2l, m2m := d.m2m, linkVisuals := d.rows, newWireframes := d.queue, viewingWireframes := d.viewing, scene := d.scene, wireframesTarget := "");
  }

  /** OnRender's handling of the pending requests on values, in HandlingOrder; every target ends cleared. */
  method HandleRequests(r: Requests) returns (h: Requests)
    requires RowsAcyclic(r.m2m)
    ensures h == HandleAll(r, HandlingOrder) && h.inertials == r.inertials
    ensures h.wireframesTarget == "" && h.transparentTarget == "" && h.collisionsTarget == "" &&
            h.inertiaTarget == "" && h.comTarget == ""
  {
    var a := HandleRequest(r, PendingCOM);
    var b := HandleRequest(a, PendingInertia);
    var c := HandleRequest(b, PendingTransparent);
    var d := HandleRequest(c, PendingCollisions);
    h := HandleRequest(d, PendingWireframes);
    assert HandleAll(d, [PendingWireframes]) == h;
    assert HandleAll(c, [PendingCollisions, PendingWireframes]) == h;
    assert HandleAll(b, [PendingTransparent, PendingCollisions, PendingWireframes]) == h;
    assert HandleAll(a, [PendingInertia, PendingTransparent, PendingCollisions, PendingWireframes]) == h;
  }

  /** After OnRender's handling of the pending requests every target is cleared and the inertial data is as it was. */
  lemma {:induction false} HandleAllClears(r: Requests)
    requires RowsAcyclic(r.m2m)
    ensures var h := HandleAll(r, HandlingOrder);
            h.wireframesTarget == "" && h.transparentTarget == "" && h.collisionsTarget == "" &&
            h.inertiaTarget == "" && h.comTarget == "" && h.inertials == r.inertials
  {
    var a := HandleOne(r, PendingCOM);
    var b := HandleOne(a, PendingInertia);
    var c := HandleOne(b, PendingTransparent);
    var d := HandleOne(c, PendingCollisions);
    var h := HandleOne(d, PendingWireframes);
    assert HandleAll(d, [PendingWireframes]) == h;
    assert HandleAll(c, [PendingCollisions, PendingWireframes]) == h;
    assert HandleAll(b, [PendingTransparent, PendingCollisions, PendingWireframes]) == h;
    assert HandleAll(a, [PendingInertia, PendingTransparent, PendingCollisions, PendingWireframes]) == h;
  }

  /** The entity a pending request target names: none when nothing is pending or no tagged visual has that name. */
  function Targeted(scene: seq<SceneVisual>, target: string): (r: Option<Entity>)
    ensures target == "" || (forall i :: 0 <= i < |scene| ==> scene[i].name != target) ==> r == None
    ensures target != "" ==>
              forall i :: 0 <= i < |scene| && scene[i].name == target && (forall j :: 0 <= j < i ==> scene[j].name != target) ==>
                r == scene[i].tag
    ensures r.Some? ==> target != "" && exists i :: 0 <= i < |scene| && scene[i].name == target && scene[i].tag == r
  {
    if target == "" then None else TargetEntity(scene, target)
  }

  /** Update's erasure of the rows of the removed entities of kind `k`. */
  method EraseRows(rows: map<Entity, seq<Entity>>, s: Store, removed: seq<Entity>, k: Kind) returns (r: map<Entity, seq<Entity>>)
    ensures r == rows - OfKind(s, removed, k)
  {
    r := rows;
    var i := 0;
    while i < |removed|
      invariant 0 <= i <= |removed|
      invariant r == rows - OfKind(s, removed[..i], k)
    {
      var e := removed[i];
      assert OfKind(s, removed[..i + 1], k) == OfKind(s, removed[..i], k) + (if Has(s, e, k) then {e} else {}) by {
        assert forall x :: x in removed[..i + 1] <==> x in removed[..i] || x == e;
      }
      if Has(s, e, k) {
        r := r - {e};
      }
      i := i + 1;
    }
    assert removed[..i] == removed;
  }

  /** The index maps Update maintains. */
  datatype Index = Index(modelLinks: map<Entity, seq<Entity>>, modelModels: map<Entity, seq<Entity>>,
                         linkVisuals: map<Entity, seq<Entity>>, linkCollisions: map<Entity, seq<Entity>>,
                         inertials: map<Entity, InertialData>, collisions: map<Entity, CollisionData>)

  /**
   * The index maps after Update has indexed the entities `es` of the store
   * and erased the rows of the removed models (link and model rows) and links
   * (visual rows).
   */
  ghost function Reindexed(x: Index, s: Store, es: seq<Entity>, removed: seq<Entity>): Index {
    Index(AddRows(x.modelLinks, s, es, Link) - OfKind(s, removed, Model),
          AddRows(x.modelModels, s, es, Model) - OfKind(s, removed, Model),
          AddRows(x.linkVisuals, s, es, Visual) - OfKind(s, removed, Link),
          AddRows(x.linkCollisions, s, es, Collision),
          AddInertials(x.inertials, s, es),
          AddCollisions(x.collisions, s, es))
  }

  /** Update's indexing and erasure on values. */
  method Reindex(x: Index, s: Store, es: seq<Entity>, removed: seq<Entity>) returns (y: Index)
    ensures y == Reindexed(x, s, es, removed)
    ensures RowsFollow(x.modelModels, s) && Acyclic(s) ==> RowsFollow(y.modelModels, s) && RowsAcyclic(y.modelModels)
    ensures Acyclic(s) && RowsAcyclic(x.modelModels) && NewToRows(x.modelModels, s, es, Model) ==> RowsAcyclic(y.modelModels)
  {
    var m2l := IndexRows(x.modelLinks, s, es, Link);
    var inertials := IndexInertials(x.inertials, s, es);
    var l2v := IndexRows(x.linkVisuals, s, es, Visual);
    var m2m := IndexRows(x.modelModels, s, es, Model);
    var cols, l2c := IndexCollisions(x.collisions, x.linkCollisions, s, es);
    m2l := EraseRows(m2l, s, removed, Model);
    m2m := EraseRows(m2m, s, removed, Model);
    l2v := EraseRows(l2v, s, removed, Link);
    if RowsFollow(x.modelModels, s) && Acyclic(s) {
      AddRowsFollow(x.modelModels, s, es, Model);
      EraseFollow(AddRows(x.modelModels, s, es, Model), s, OfKind(s, removed, Model));
      FollowAcyclic(m2m, s);
    }
    if Acyclic(s) && RowsAcyclic(x.modelModels) && NewToRows(x.modelModels, s, es, Model) {
      AddRowsAcyclic(x.modelModels, s, es, Model);
      EraseAcyclic(AddRows(x.modelModels, s, es, Model), OfKind(s, removed, Model));
    }
    y := Index(m2l, m2m, l2v, l2c, inertials, cols);
  }

  /** The five request queues and the five link queues they expand into. */
  datatype Queues = Queues(wireframes: seq<Entity>, transparent: seq<Entity>, collisions: seq<Entity>,
                           inertias: seq<Entity>, coms: seq<Entity>,
                           wireframeLinks: seq<Entity>, transparentLinks: seq<Entity>, collisionLinks: seq<Entity>,
                           inertiaLinks: seq<Entity>, comLinks: seq<Entity>)

  /** PopulateViewModeVisualLinks, FindInertialLinks and FindCollisionLinks: each request queue expanded onto its link queue, then emptied. */
  ghost function Expanded(s: Store, q: Queues): Queues
    requires Acyclic(s)
  {
    Queues([], [], [], [], [],
           q.wireframeLinks + ExpandQueue(s, q.wireframes), q.transparentLinks + ExpandQueue(s, q.transparent),
           q.collisionLinks + ExpandQueue(s, q.collisions), q.inertiaLinks + ExpandQueue(s, q.inertias),
           q.comLinks + ExpandQueue(s, q.coms))
  }

  method ExpandAll(s: Store, q: Queues) returns (r: Queues)
    requires Acyclic(s)
    ensures r == Expanded(s, q)
  {
    var wireframeLinks := ExpandRequests(s, q.wireframes);
    var transparentLinks := ExpandRequests(s, q.transparent);
    var inertiaLinks := ExpandRequests(s, q.inertias);
    var comLinks := ExpandRequests(s, q.coms);
    var collisionLinks := ExpandRequests(s, q.collisions);
    r := Queues([], [], [], [], [],
                q.wireframeLinks + wireframeLinks, q.transparentLinks + transparentLinks,
                q.collisionLinks + collisionLinks, q.inertiaLinks + inertiaLinks, q.comLinks + comLinks);
  }

  class Plugin {
    var initialized: bool
    var hasScene: bool
    /** The renderer's visuals, as the plugin finds and changes them. */
    var scene: seq<SceneVisual>

    var modelToLinkEntities: map<Entity, seq<Entity>>
    var modelToModelEntities: map<Entity, seq<Entity>>
    var linkToVisualEntities: map<Entity, seq<Entity>>
    var linkToCollisionEntities: map<Entity, seq<Entity>>
    var entityInertials: map<Entity, InertialData>
    var entityCollisions: map<Entity, CollisionData>
    /** The entities the plugin created (or adopted) a visual for. */
    var visuals: set<Entity>

    var viewingWireframes: map<Entity, bool>
    var viewingTransparent: map<Entity, bool>
    var viewingCollisions: map<Entity, bool>
    var viewingInertias: map<Entity, bool>
    var viewingCOM: map<Entity, bool>
    var linkToInertiaVisuals: map<Entity, Entity>
    var linkToCOMVisuals: map<Entity, Entity>

    /** Entities whose request met something not yet shown, for Update to expand. */
    var newWireframes: seq<Entity>
    var newTransparentEntities: seq<Entity>
    var newCollisions: seq<Entity>
    var newInertias: seq<Entity>
    var newCOMVisuals: seq<Entity>

    /** Links expanded by Update, for the next render pass. */
    var newWireframeVisualLinks: seq<Entity>
    var newTransparentVisualLinks: seq<Entity>
    var newCollisionLinks: seq<Entity>
    var newInertiaLinks: seq<Entity>
    var newCOMLinks: seq<Entity>

    /** Node names received by the request services, handled on the next render. */
    var viewWireframesTarget: string
    var viewTransparentTarget: string
    var viewCollisionsTarget: string
    var viewInertiaTarget: string
    var viewCOMTarget: string

    constructor()
      ensures !initialized && !hasScene && scene == []
      ensures modelToLinkEntities == map[] && modelToModelEntities == map[] && linkToVisualEntities == map[]
      ensures linkToCollisionEntities == map[] && entityInertials == map[] && entityCollisions == map[] && visuals == {}
      ensures viewingWireframes == map[] && viewingTransparent == map[] && viewingCollisions == map[]
      ensures viewingInertias == map[] && viewingCOM == map[] && linkToInertiaVisuals == map[] && linkToCOMVisuals == map[]
      ensures newWireframes == [] && newTransparentEntities == [] && newCollisions == [] && newInertias == [] && newCOMVisuals == []
      ensures newWireframeVisualLinks == [] && newTransparentVisualLinks == [] && newCollisionLinks == []
      ensures newInertiaLinks == [] && newCOMLinks == []
      ensures viewWireframesTarget == "" && viewTransparentTarget == "" && viewCollisionsTarget == ""
      ensures viewInertiaTarget == "" && viewCOMTarget == ""
      ensures RowsAcyclic(modelToModelEntities)
    {
      initialized, hasScene := false, false;
      scene := [];
      modelToLinkEntities, modelToModelEntities := map[], map[];
      linkToVisualEntities, linkToCollisionEntities := map[], map[];
      entityInertials, entityCollisions, visuals := map[], map[], {};
      viewingWireframes, viewingTransparent, viewingCollisions := map[], map[], map[];
      viewingInertias, viewingCOM := map[], map[];
      linkToInertiaVisuals, linkToCOMVisuals := map[], map[];
      newWireframes, newTransparentEntities, newCollisions, newInertias, newCOMVisuals := [], [], [], [], [];
      newWireframeVisualLinks, newTransparentVisualLinks, newCollisionLinks := [], [], [];
      newInertiaLinks, newCOMLinks := [], [];
      viewWireframesTarget, viewTransparentTarget, viewCollisionsTarget := "", "", "";
      viewInertiaTarget, viewCOMTarget := "", "";
      new;
      assert RanksRows(modelToModelEntities, map[]);
    }

    // Request services: record the target and answer true.

    method OnViewTransparent(data: string) returns (res: bool)
      modifies this`viewTransparentTarget
      ensures viewTransparentTarget == data && res
    {
      viewTransparentTarget := data;
      res := true;
    }

    method OnViewWireframes(data: string) returns (res: bool)
      modifies this`viewWireframesTarget
      ensures viewWireframesTarget == data && res
    {
      viewWireframesTarget := data;
      res := true;
    }

    method OnViewCOM(data: string) returns (res: bool)
      modifies this`viewCOMTarget
      ensures viewCOMTarget == data && res
    {
      viewCOMTarget := data;
      res := true;
    }

    method OnViewInertia(data: string) returns (res: bool)
      modifies this`viewInertiaTarget
      ensures viewInertiaTarget == data && res
    {
      viewInertiaTarget := data;
      res := true;
    }

    method OnViewCollisions(data: string) returns (res: bool)
      modifies this`viewCollisionsTarget
      ensures viewCollisionsTarget == data && res
    {
      viewCollisionsTarget := data;
      res := true;
    }

    /** FindChildLinks: the walk of WalkIndex over this object's index maps. */
    method FindChildLinks(e: Entity) returns (links: seq<Entity>)
      requires RowsAcyclic(modelToModelEntities)
      modifies this`modelToLinkEntities, this`modelToModelEntities
      ensures links == IndexChildLinks(old(modelToLinkEntities), old(modelToModelEntities), e)
      ensures Walked(old(modelToLinkEntities), old(modelToModelEntities), modelToLinkEntities, modelToModelEntities, e)
    {
      var linkRows, modelRows;
      links, linkRows, modelRows := WalkIndex(modelToLinkEntities, modelToModelEntities, e);
      modelToLinkEntities, modelToModelEntities := linkRows, modelRows;
    }

    /** ViewWireframes: toggle the wireframe state of every visual of `e` and of its links. */
    method ViewWireframes(e: Entity)
      requires RowsAcyclic(modelToModelEntities)
      modifies this`modelToLinkEntities, this`modelToModelEntities, this`linkToVisualEntities,
               this`newWireframes, this`viewingWireframes, this`scene
      ensures DirectState(modelToLinkEntities, modelToModelEntities, linkToVisualEntities, newWireframes, viewingWireframes, scene) ==
              DirectAfter(DirectState(old(modelToLinkEntities), old(modelToModelEntities), old(linkToVisualEntities), old(newWireframes), old(viewingWireframes), old(scene)), e, Wireframe)
      ensures RowsAcyclic(modelToModelEntities)
    {
      var d := DirectRequest(DirectState(modelToLinkEntities, modelToModelEntities, linkToVisualEntities, newWireframes, viewingWireframes, scene), e, Wireframe);
      assert d == DirectState(d.m2l, d.m2m, d.rows, d.queue, d.viewing, d.scene);
      modelToLinkEntities, modelToModelEntities, linkToVisualEntities := d.m2l, d.m2m, d.rows;
      newWireframes, viewingWireframes, scene := d.queue, d.viewing, d.scene;
    }

    /** ViewTransparent: toggle the transparency of every visual of `e` and of its links. */
    method ViewTransparent(e: Entity)
      requires RowsAcyclic(modelToModelEntities)
      modifies this`modelToLinkEntities, this`modelToModelEntities, this`linkToVisualEntities,
               this`newTransparentEntities, this`viewingTransparent, this`scene
      ensures DirectState(modelToLinkEntities, modelToModelEntities, linkToVisualEntities, newTransparentEntities, viewingTransparent, scene) ==
              DirectAfter(DirectState(old(modelToLinkEntities), old(modelToModelEntities), old(linkToVisualEntities), old(newTransparentEntities), old(viewingTransparent), old(scene)), e, Transparent)
      ensures RowsAcyclic(modelToModelEntities)
    {
      var d := DirectRequest(DirectState(modelToLinkEntities, modelToModelEntities, linkToVisualEntities, newTransparentEntities, viewingTransparent, scene), e, Transparent);
      assert d == DirectState(d.m2l, d.m2m, d.rows, d.queue, d.viewing, d.scene);
      modelToLinkEntities, modelToModelEntities, linkToVisualEntities := d.m2l, d.m2m, d.rows;
      newTransparentEntities, viewingTransparent, scene := d.queue, d.viewing, d.scene;
    }

    /** ViewCollisions: toggle the visibility of every collision visual of `e` and of its links. */
    method ViewCollisions(e: Entity)
      requires RowsAcyclic(modelToModelEntities)
      modifies this`modelToLinkEntities, this`modelToModelEntities, this`linkToCollisionEntities,
               this`newCollisions, this`viewingCollisions, this`scene
      ensures DirectState(modelToLinkEntities, modelToModelEntities, linkToCollisionEntities, newCollisions, viewingCollisions, scene) ==
              DirectAfter(DirectState(old(modelToLinkEntities), old(modelToModelEntities), old(linkToCollisionEntities), old(newCollisions), old(viewingCollisions), old(scene)), e, Visible)
      ensures RowsAcyclic(modelToModelEntities)
    {
      var d := DirectRequest(DirectState(modelToLinkEntities, modelToModelEntities, linkToCollisionEntities, newCollisions, viewingCollisions, scene), e, Visible);
      assert d == DirectState(d.m2l, d.m2m, d.rows, d.queue, d.viewing, d.scene);
      modelToLinkEntities, modelToModelEntities, linkToCollisionEntities := d.m2l, d.m2m, d.rows;
      newCollisions, viewingCollisions, scene := d.queue, d.viewing, d.scene;
    }

    /** ViewInertia: toggle the inertia overlay of every link of `e`, and of `e` when it has an inertial. */
    method ViewInertia(e: Entity)
      requires RowsAcyclic(modelToModelEntities)
      modifies this`modelToLinkEntities, this`modelToModelEntities, this`newInertias,
               this`viewingInertias, this`linkToInertiaVisuals, this`scene
      ensures OverlayState(modelToLinkEntities, modelToModelEntities, newInertias, viewingInertias, linkToInertiaVisuals, scene) ==
              OverlayAfter(OverlayState(old(modelToLinkEntities), old(modelToModelEntities), old(newInertias), old(viewingInertias), old(linkToInertiaVisuals), old(scene)), old(entityInertials), e)
      ensures RowsAcyclic(modelToModelEntities)
    {
      var d := OverlayRequest(OverlayState(modelToLinkEntities, modelToModelEntities, newInertias, viewingInertias, linkToInertiaVisuals, scene), entityInertials, e);
      assert d == OverlayState(d.m2l, d.m2m, d.queue, d.viewing, d.ids, d.scene);
      modelToLinkEntities, modelToModelEntities := d.m2l, d.m2m;
      newInertias, viewingInertias, linkToInertiaVisuals, scene := d.queue, d.viewing, d.ids, d.scene;
    }

    /** ViewCOM: toggle the centre-of-mass overlay of every link of `e`, and of `e` when it has an inertial. */
    method ViewCOM(e: Entity)
      requires RowsAcyclic(modelToModelEntities)
      modifies this`modelToLinkEntities, this`modelToModelEntities, this`newCOMVisuals,
               this`viewingCOM, this`linkToCOMVisuals, this`scene
      ensures OverlayState(modelToLinkEntities, modelToModelEntities, newCOMVisuals, viewingCOM, linkToCOMVisuals, scene) ==
              OverlayAfter(OverlayState(old(modelToLinkEntities), old(modelToModelEntities), old(newCOMVisuals), old(viewingCOM), old(linkToCOMVisuals), old(scene)), old(entityInertials), e)
      ensures RowsAcyclic(modelToModelEntities)
    {
      var d := OverlayRequest(OverlayState(modelToLinkEntities, modelToModelEntities, newCOMVisuals, viewingCOM, linkToCOMVisuals, scene), entityInertials, e);
      assert d == OverlayState(d.m2l, d.m2m, d.queue, d.viewing, d.ids, d.scene);
      modelToLinkEntities, modelToModelEntities := d.m2l, d.m2m;
      newCOMVisuals, viewingCOM, linkToCOMVisuals, scene := d.queue, d.viewing, d.ids, d.scene;
    }

    // Field writers. These have no counterpart in the source: they write a
    // state computed on values back into several fields at once, which keeps
    // the verification of the render methods small.

    method SetViewing(wireframes: map<Entity, bool>, transparent: map<Entity, bool>, collisions: map<Entity, bool>,
                      inertias: map<Entity, bool>, com: map<Entity, bool>)
      modifies this`viewingWireframes, this`viewingTransparent, this`viewingCollisions, this`viewingInertias, this`viewingCOM
      ensures viewingWireframes == wireframes && viewingTransparent == transparent && viewingCollisions == collisions
      ensures viewingInertias == inertias && viewingCOM == com
    {
      viewingWireframes, viewingTransparent, viewingCollisions := wireframes, transparent, collisions;
      viewingInertias, viewingCOM := inertias, com;
    }

    method SetOverlayIds(inertia: map<Entity, Entity>, com: map<Entity, Entity>)
      modifies this`linkToInertiaVisuals, this`linkToCOMVisuals
      ensures linkToInertiaVisuals == inertia && linkToCOMVisuals == com
    {
      linkToInertiaVisuals, linkToCOMVisuals := inertia, com;
    }

    method SetPassedState(linkVisuals: map<Entity, seq<Entity>>, linkCollisions: map<Entity, seq<Entity>>,
                          inertials: map<Entity, InertialData>, collisions: map<Entity, CollisionData>,
                          created: set<Entity>, current: seq<SceneVisual>)
      modifies this`linkToVisualEntities, this`linkToCollisionEntities, this`entityInertials, this`entityCollisions,
               this`visuals, this`scene
      ensures linkToVisualEntities == linkVisuals && linkToCollisionEntities == linkCollisions
      ensures entityInertials == inertials && entityCollisions == collisions && visuals == created && scene == current
    {
      linkToVisualEntities, linkToCollisionEntities := linkVisuals, linkCollisions;
      entityInertials, entityCollisions, visuals, scene := inertials, collisions, created, current;
    }

    method SetLinkQueues(wireframes: seq<Entity>, transparent: seq<Entity>, inertias: seq<Entity>, com: seq<Entity>,
                         collisions: seq<Entity>)
      modifies this`newWireframeVisualLinks, this`newTransparentVisualLinks, this`newInertiaLinks, this`newCOMLinks,
               this`newCollisionLinks
      ensures newWireframeVisualLinks == wireframes && newTransparentVisualLinks == transparent
      ensures newInertiaLinks == inertias && newCOMLinks == com && newCollisionLinks == collisions
    {
      newWireframeVisualLinks, newTransparentVisualLinks := wireframes, transparent;
      newInertiaLinks, newCOMLinks, newCollisionLinks := inertias, com, collisions;
    }

    method SetRequestedState(m2l: map<Entity, seq<Entity>>, m2m: map<Entity, seq<Entity>>,
                             linkVisuals: map<Entity, seq<Entity>>, linkCollisions: map<Entity, seq<Entity>>,
                             current: seq<SceneVisual>)
      modifies this`modelToLinkEntities, this`modelToModelEntities, this`linkToVisualEntities,
               this`linkToCollisionEntities, this`scene
      ensures modelToLinkEntities == m2l && modelToModelEntities == m2m
      ensures linkToVisualEntities == linkVisuals && linkToCollisionEntities == linkCollisions && scene == current
    {
      modelToLinkEntities, modelToModelEntities := m2l, m2m;
      linkToVisualEntities, linkToCollisionEntities, scene := linkVisuals, linkCollisions, current;
    }

    method SetRequestQueues(wireframes: seq<Entity>, transparent: seq<Entity>, collisions: seq<Entity>,
                            inertias: seq<Entity>, com: seq<Entity>)
      modifies this`newWireframes, this`newTransparentEntities, this`newCollisions, this`newInertias, this`newCOMVisuals
      ensures newWireframes == wireframes && newTransparentEntities == transparent && newCollisions == collisions
      ensures newInertias == inertias && newCOMVisuals == com
    {
      newWireframes, newTransparentEntities, newCollisions := wireframes, transparent, collisions;
      newInertias, newCOMVisuals := inertias, com;
    }

    method SetTargets(wireframes: string, transparent: string, collisions: string, inertia: string, com: string)
      modifies this`viewWireframesTarget, this`viewTransparentTarget, this`viewCollisionsTarget,
               this`viewInertiaTarget, this`viewCOMTarget
      ensures viewWireframesTarget == wireframes && viewTransparentTarget == transparent
      ensures viewCollisionsTarget == collisions && viewInertiaTarget == inertia && viewCOMTarget == com
    {
      viewWireframesTarget, viewTransparentTarget, viewCollisionsTarget := wireframes, transparent, collisions;
      viewInertiaTarget, viewCOMTarget := inertia, com;
    }

    /** Write a state of the passes back into the fields. */
    method SetPasses(q: Passes)
      modifies this`linkToVisualEntities, this`linkToCollisionEntities, this`entityInertials, this`entityCollisions, this`visuals,
               this`scene, this`viewingWireframes, this`viewingTransparent, this`viewingCollisions, this`viewingInertias,
               this`viewingCOM, this`linkToInertiaVisuals, this`linkToCOMVisuals, this`newWireframeVisualLinks, this`newTransparentVisualLinks,
               this`newInertiaLinks, this`newCOMLinks, this`newCollisionLinks
      ensures linkToVisualEntities == q.linkVisuals && linkToCollisionEntities == q.linkCollisions && entityInertials == q.inertials
      ensures entityCollisions == q.collisions && visuals == q.visuals && scene == q.scene
      ensures viewingWireframes == q.viewingWireframes && viewingTransparent == q.viewingTransparent && viewingCollisions == q.viewingCollisions
      ensures viewingInertias == q.viewingInertias && viewingCOM == q.viewingCOM
      ensures linkToInertiaVisuals == q.inertiaIds && linkToCOMVisuals == q.comIds
      ensures newWireframeVisualLinks == q.wireframeLinks && newTransparentVisualLinks == q.transparentLinks
      ensures newInertiaLinks == q.inertiaLinks && newCOMLinks == q.comLinks && newCollisionLinks == q.collisionLinks
      ensures hasScene == old(hasScene) && modelToModelEntities == old(modelToModelEntities)
    {
      SetPassedView(q);
      SetPassedLinks(q);
    }

    /** The link rows, the elements, the scene and the viewing maps of a state of the passes. */
    method SetPassedView(q: Passes)
      modifies this`linkToVisualEntities, this`linkToCollisionEntities, this`entityInertials, this`entityCollisions, this`visuals,
               this`scene, this`viewingWireframes, this`viewingTransparent, this`viewingCollisions, this`viewingInertias, this`viewingCOM
      ensures linkToVisualEntities == q.linkVisuals && linkToCollisionEntities == q.linkCollisions && entityInertials == q.inertials
      ensures entityCollisions == q.collisions && visuals == q.visuals && scene == q.scene
      ensures viewingWireframes == q.viewingWireframes && viewingTransparent == q.viewingTransparent && viewingCollisions == q.viewingCollisions
      ensures viewingInertias == q.viewingInertias && viewingCOM == q.viewingCOM
    {
      SetPassedState(q.linkVisuals, q.linkCollisions, q.inertials, q.collisions, q.visuals, q.scene);
      SetViewing(q.viewingWireframes, q.viewingTransparent, q.viewingCollisions, q.viewingInertias, q.viewingCOM);
    }

    /** The overlay ids and the link queues of a state of the passes. */
    method SetPassedLinks(q: Passes)
      modifies this`linkToInertiaVisuals, this`linkToCOMVisuals, this`newWireframeVisualLinks, this`newTransparentVisualLinks,
               this`newInertiaLinks, this`newCOMLinks, this`newCollisionLinks
      ensures linkToInertiaVisuals == q.inertiaIds && linkToCOMVisuals == q.comIds
      ensures newWireframeVisualLinks == q.wireframeLinks && newTransparentVisualLinks == q.transparentLinks
      ensures newInertiaLinks == q.inertiaLinks && newCOMLinks == q.comLinks && newCollisionLinks == q.collisionLinks
    {
      SetOverlayIds(q.inertiaIds, q.comIds);
      SetLinkQueues(q.wireframeLinks, q.transparentLinks, q.inertiaLinks, q.comLinks, q.collisionLinks);
    }

    /** The indexes, the scene and the viewing maps of a state of the requests. */
    method SetRequestedView(h: Requests)
      modifies this`modelToLinkEntities, this`modelToModelEntities, this`linkToVisualEntities, this`linkToCollisionEntities, this`scene,
               this`viewingWireframes, this`viewingTransparent, this`viewingCollisions, this`viewingInertias, this`viewingCOM
      ensures modelToLinkEntities == h.m2l && modelToModelEntities == h.m2m && linkToVisualEntities == h.linkVisuals
      ensures linkToCollisionEntities == h.linkCollisions && scene == h.scene
      ensures viewingWireframes == h.viewingWireframes && viewingTransparent == h.viewingTransparent
      ensures viewingCollisions == h.viewingCollisions && viewingInertias == h.viewingInertias && viewingCOM == h.viewingCOM
    {
      SetRequestedState(h.m2l, h.m2m, h.linkVisuals, h.linkCollisions, h.scene);
      SetViewing(h.viewingWireframes, h.viewingTransparent, h.viewingCollisions, h.viewingInertias, h.viewingCOM);
    }

    /** The overlay ids, the queues and the targets of a state of the requests. */
    method SetRequestedPending(h: Requests)
      modifies this`linkToInertiaVisuals, this`linkToCOMVisuals, this`newWireframes, this`newTransparentEntities, this`newCollisions,
               this`newInertias, this`newCOMVisuals, this`viewWireframesTarget, this`viewTransparentTarget, this`viewCollisionsTarget,
               this`viewInertiaTarget, this`viewCOMTarget
      ensures linkToInertiaVisuals == h.inertiaIds && linkToCOMVisuals == h.comIds
      ensures newWireframes == h.newWireframes && newTransparentEntities == h.newTransparent && newCollisions == h.newCollisions
      ensures newInertias == h.newInertias && newCOMVisuals == h.newCOM
      ensures viewWireframesTarget == h.wireframesTarget && viewTransparentTarget == h.transparentTarget
      ensures viewCollisionsTarget == h.collisionsTarget && viewInertiaTarget == h.inertiaTarget && viewCOMTarget == h.comTarget
    {
      SetOverlayIds(h.inertiaIds, h.comIds);
      SetRequestQueues(h.newWireframes, h.newTransparent, h.newCollisions, h.newInertias, h.newCOM);
      SetTargets(h.wireframesTarget, h.transparentTarget, h.collisionsTarget, h.inertiaTarget, h.comTarget);
    }

    /** Write a state of the request handling back into the fields. */
    method SetRequests(h: Requests)
      modifies this`modelToLinkEntities, this`modelToModelEntities, this`linkToVisualEntities, this`linkToCollisionEntities, this`scene,
               this`viewingWireframes, this`viewingTransparent, this`viewingCollisions, this`viewingInertias, this`viewingCOM,
               this`linkToInertiaVisuals, this`linkToCOMVisuals, this`newWireframes, this`newTransparentEntities, this`newCollisions,
               this`newInertias, this`newCOMVisuals, this`viewWireframesTarget, this`viewTransparentTarget, this`viewCollisionsTarget,
               this`viewInertiaTarget, this`viewCOMTarget
      ensures modelToLinkEntities == h.m2l && modelToModelEntities == h.m2m && linkToVisualEntities == h.linkVisuals
      ensures linkToCollisionEntities == h.linkCollisions && scene == h.scene
      ensures viewingWireframes == h.viewingWireframes && viewingTransparent == h.viewingTransparent
      ensures viewingCollisions == h.viewingCollisions && viewingInertias == h.viewingInertias && viewingCOM == h.viewingCOM
      ensures linkToInertiaVisuals == h.inertiaIds && linkToCOMVisuals == h.comIds
      ensures newWireframes == h.newWireframes && newTransparentEntities == h.newTransparent && newCollisions == h.newCollisions
      ensures newInertias == h.newInertias && newCOMVisuals == h.newCOM
      ensures viewWireframesTarget == h.wireframesTarget && viewTransparentTarget == h.transparentTarget
      ensures viewCollisionsTarget == h.collisionsTarget && viewInertiaTarget == h.inertiaTarget && viewCOMTarget == h.comTarget
      ensures entityCollisions == old(entityCollisions) && visuals == old(visuals)
      ensures newWireframeVisualLinks == old(newWireframeVisualLinks) && newTransparentVisualLinks == old(newTransparentVisualLinks) &&
              newInertiaLinks == old(newInertiaLinks) && newCOMLinks == old(newCOMLinks) && newCollisionLinks == old(newCollisionLinks)
    {
      SetRequestedView(h);
      SetRequestedPending(h);
    }

    /**
     * OnRender: acquire the scene on first use (nothing happens while there
     * is none), run the five passes over the expanded links, then handle the
     * pending requests. `available` and `initial` stand for the first render
     * engine's scene, `ids` for its id spaces in this frame.
     */
    method OnRender(available: bool, initial: seq<SceneVisual>, ids: SceneIds)
      requires RowsAcyclic(modelToModelEntities)
      modifies this`hasScene, this`scene, this`modelToLinkEntities, this`modelToModelEntities, this`linkToVisualEntities,
               this`linkToCollisionEntities, this`entityInertials, this`entityCollisions, this`visuals,
               this`viewingWireframes, this`viewingTransparent, this`viewingCollisions, this`viewingInertias, this`viewingCOM,
               this`linkToInertiaVisuals, this`linkToCOMVisuals,
               this`newWireframes, this`newTransparentEntities, this`newCollisions, this`newInertias, this`newCOMVisuals,
               this`newWireframeVisualLinks, this`newTransparentVisualLinks, this`newCollisionLinks,
               this`newInertiaLinks, this`newCOMLinks,
               this`viewWireframesTarget, this`viewTransparentTarget, this`viewCollisionsTarget,
               this`viewInertiaTarget, this`viewCOMTarget
      ensures !old(hasScene) && !available ==> unchanged(this)
      ensures old(hasScene) || available ==>
                hasScene &&
                Rendered(RenderAll(Passes(old(linkToVisualEntities), old(linkToCollisionEntities),
                                                   old(entityInertials), old(entityCollisions), old(visuals),
                                                   if old(hasScene) then old(scene) else initial,
                                                   old(viewingWireframes), old(viewingTransparent),
                                                   old(viewingCollisions), old(viewingInertias), old(viewingCOM),
                                                   old(linkToInertiaVisuals), old(linkToCOMVisuals),
                                                   old(newWireframeVisualLinks), old(newTransparentVisualLinks),
                                                   old(newInertiaLinks), old(newCOMLinks), old(newCollisionLinks)),
                                   ids, RenderOrder),
                         Requests(old(modelToLinkEntities), old(modelToModelEntities), old(linkToVisualEntities),
                                  old(linkToCollisionEntities), old(entityInertials), old(scene),
                                  old(viewingWireframes), old(viewingTransparent), old(viewingCollisions),
                                  old(viewingInertias), old(viewingCOM), old(linkToInertiaVisuals),
                                  old(linkToCOMVisuals), old(newWireframes), old(newTransparentEntities),
                                  old(newCollisions), old(newInertias), old(newCOMVisuals),
                                  old(viewWireframesTarget), old(viewTransparentTarget), old(viewCollisionsTarget),
                                  old(viewInertiaTarget), old(viewCOMTarget)))
      ensures RowsAcyclic(modelToModelEntities)
    {
      if !hasScene && !available {
        return;
      }
      var passes := Passes(linkToVisualEntities, linkToCollisionEntities, entityInertials, entityCollisions, visuals,
                           if hasScene then scene else initial, viewingWireframes, viewingTransparent,
                           viewingCollisions, viewingInertias, viewingCOM, linkToInertiaVisuals, linkToCOMVisuals,
                           newWireframeVisualLinks, newTransparentVisualLinks, newInertiaLinks, newCOMLinks,
                           newCollisionLinks);
      var requests := Requests(modelToLinkEntities, modelToModelEntities, linkToVisualEntities,
                               linkToCollisionEntities, entityInertials, scene, viewingWireframes,
                               viewingTransparent, viewingCollisions, viewingInertias, viewingCOM,
                               linkToInertiaVisuals, linkToCOMVisuals, newWireframes, newTransparentEntities,
                               newCollisions, newInertias, newCOMVisuals, viewWireframesTarget,
                               viewTransparentTarget, viewCollisionsTarget, viewInertiaTarget, viewCOMTarget);
      hasScene := true;
      RenderWithScene(passes, requests, ids);
    }

    /** OnRender's five passes, from the state `passes`, written back into the fields. */
    method RenderPasses(passes: Passes, ids: SceneIds)
      modifies this`linkToVisualEntities, this`linkToCollisionEntities, this`entityInertials, this`entityCollisions, this`visuals,
               this`scene, this`viewingWireframes, this`viewingTransparent, this`viewingCollisions, this`viewingInertias,
               this`viewingCOM, this`linkToInertiaVisuals, this`linkToCOMVisuals, this`newWireframeVisualLinks, this`newTransparentVisualLinks,
               this`newInertiaLinks, this`newCOMLinks, this`newCollisionLinks
      ensures Passes(linkToVisualEntities, linkToCollisionEntities, entityInertials, entityCollisions, visuals,
                     scene, viewingWireframes, viewingTransparent, viewingCollisions, viewingInertias, viewingCOM,
                     linkToInertiaVisuals, linkToCOMVisuals, newWireframeVisualLinks, newTransparentVisualLinks,
                     newInertiaLinks, newCOMLinks, newCollisionLinks) ==
              RenderAll(passes, ids, RenderOrder)
      ensures newWireframeVisualLinks == [] && newTransparentVisualLinks == [] &&
              newInertiaLinks == [] && newCOMLinks == [] && newCollisionLinks == []
    {
      var q := RunPasses(passes, ids);
      SetPasses(q);
    }

    /** OnRender's handling of the pending requests `requests` over the state `p` the passes left. */
    method HandleTargets(requests: Requests, p: Passes)
      requires RowsAcyclic(requests.m2m)
      requires entityInertials == p.inertials && entityCollisions == p.collisions && visuals == p.visuals
      requires newWireframeVisualLinks == p.wireframeLinks && newTransparentVisualLinks == p.transparentLinks
      requires newInertiaLinks == p.inertiaLinks && newCOMLinks == p.comLinks && newCollisionLinks == p.collisionLinks
      modifies this`modelToLinkEntities, this`modelToModelEntities, this`linkToVisualEntities, this`linkToCollisionEntities, this`scene,
               this`viewingWireframes, this`viewingTransparent, this`viewingCollisions, this`viewingInertias, this`viewingCOM,
               this`linkToInertiaVisuals, this`linkToCOMVisuals, this`newWireframes, this`newTransparentEntities, this`newCollisions,
               this`newInertias, this`newCOMVisuals, this`viewWireframesTarget, this`viewTransparentTarget, this`viewCollisionsTarget,
               this`viewInertiaTarget, this`viewCOMTarget
      ensures Rendered(p, requests)
      ensures RowsAcyclic(modelToModelEntities)
    {
      var h := HandleRequests(AfterPasses(requests, p));
      SetRequests(h);
    }

    /** OnRender's passes from `passes`, then its handling of `requests` over their result, on the fields. */
    method RenderWithScene(passes: Passes, requests: Requests, ids: SceneIds)
      requires RowsAcyclic(requests.m2m)
      modifies this`scene, this`modelToLinkEntities, this`modelToModelEntities, this`linkToVisualEntities,
               this`linkToCollisionEntities, this`entityInertials, this`entityCollisions, this`visuals,
               this`viewingWireframes, this`viewingTransparent, this`viewingCollisions, this`viewingInertias, this`viewingCOM,
               this`linkToInertiaVisuals, this`linkToCOMVisuals,
               this`newWireframes, this`newTransparentEntities, this`newCollisions, this`newInertias, this`newCOMVisuals,
               this`newWireframeVisualLinks, this`newTransparentVisualLinks, this`newCollisionLinks,
               this`newInertiaLinks, this`newCOMLinks,
               this`viewWireframesTarget, this`viewTransparentTarget, this`viewCollisionsTarget,
               this`viewInertiaTarget, this`viewCOMTarget
      ensures Rendered(RenderAll(passes, ids, RenderOrder), requests)
      ensures RowsAcyclic(modelToModelEntities)
    {
      RenderPasses(passes, ids);
      var p := Passes(linkToVisualEntities, linkToCollisionEntities, entityInertials, entityCollisions,
                      visuals, scene, viewingWireframes, viewingTransparent, viewingCollisions,
                      viewingInertias, viewingCOM, linkToInertiaVisuals, linkToCOMVisuals,
                      newWireframeVisualLinks, newTransparentVisualLinks, newInertiaLinks, newCOMLinks,
                      newCollisionLinks);
      HandleTargets(requests, p);
    }

    /**
     * The plugin state is what handling the requests `r` leaves over the
     * passes' result `p`: the request-side fields as HandleAll computes them
     * (every target cleared, by HandleAllClears), the collision elements, the
     * plugin visuals and the link queues as the passes left them (every queue
     * empty, by RenderAllDrains).
     */
    ghost predicate Rendered(p: Passes, r: Requests)
      requires RowsAcyclic(r.m2m)
      reads this
    {
      Requests(modelToLinkEntities, modelToModelEntities, linkToVisualEntities, linkToCollisionEntities,
               entityInertials, scene, viewingWireframes, viewingTransparent, viewingCollisions, viewingInertias,
               viewingCOM, linkToInertiaVisuals, linkToCOMVisuals, newWireframes, newTransparentEntities,
               newCollisions, newInertias, newCOMVisuals, viewWireframesTarget, viewTransparentTarget,
               viewCollisionsTarget, viewInertiaTarget, viewCOMTarget) ==
      HandleAll(AfterPasses(r, p), HandlingOrder) &&
      entityCollisions == p.collisions && visuals == p.visuals &&
      newWireframeVisualLinks == p.wireframeLinks && newTransparentVisualLinks == p.transparentLinks &&
      newInertiaLinks == p.inertiaLinks && newCOMLinks == p.comLinks && newCollisionLinks == p.collisionLinks
    }

    /** Update's indexing: every entity the first time, the newly created ones afterwards; then the rows of removed entities go. */
    method UpdateIndex(s: Store, created: seq<Entity>, removed: seq<Entity>)
      modifies this`initialized, this`modelToLinkEntities, this`modelToModelEntities, this`linkToVisualEntities,
               this`linkToCollisionEntities, this`entityInertials, this`entityCollisions
      ensures initialized
      ensures Index(modelToLinkEntities, modelToModelEntities, linkToVisualEntities, linkToCollisionEntities,
                    entityInertials, entityCollisions) ==
              Reindexed(Index(old(modelToLinkEntities), old(modelToModelEntities), old(linkToVisualEntities),
                              old(linkToCollisionEntities), old(entityInertials), old(entityCollisions)),
                        s, if old(initialized) then created else s.entities, removed)
      ensures RowsFollow(old(modelToModelEntities), s) && Acyclic(s) ==> RowsFollow(modelToModelEntities, s) && RowsAcyclic(modelToModelEntities)
      ensures Acyclic(s) && RowsAcyclic(old(modelToModelEntities)) &&
              NewToRows(old(modelToModelEntities), s, if old(initialized) then created else s.entities, Model) ==>
                RowsAcyclic(modelToModelEntities)
    {
      var es := if initialized then created else s.entities;
      var x := Reindex(Index(modelToLinkEntities, modelToModelEntities, linkToVisualEntities, linkToCollisionEntities,
                             entityInertials, entityCollisions), s, es, removed);
      assert x == Index(x.modelLinks, x.modelModels, x.linkVisuals, x.linkCollisions, x.inertials, x.collisions);
      initialized := true;
      modelToLinkEntities, modelToModelEntities, linkToVisualEntities := x.modelLinks, x.modelModels, x.linkVisuals;
      linkToCollisionEntities, entityInertials, entityCollisions := x.linkCollisions, x.inertials, x.collisions;
    }

    /** PopulateViewModeVisualLinks, FindInertialLinks and FindCollisionLinks: expand every request queue into links. */
    method ExpandQueues(s: Store)
      requires Acyclic(s)
      modifies this`newWireframes, this`newTransparentEntities, this`newCollisions, this`newInertias, this`newCOMVisuals,
               this`newWireframeVisualLinks, this`newTransparentVisualLinks, this`newCollisionLinks,
               this`newInertiaLinks, this`newCOMLinks
      ensures Queues(newWireframes, newTransparentEntities, newCollisions, newInertias, newCOMVisuals,
                     newWireframeVisualLinks, newTransparentVisualLinks, newCollisionLinks, newInertiaLinks, newCOMLinks) ==
              Expanded(s, Queues(old(newWireframes), old(newTransparentEntities), old(newCollisions), old(newInertias),
                                 old(newCOMVisuals), old(newWireframeVisualLinks), old(newTransparentVisualLinks),
                                 old(newCollisionLinks), old(newInertiaLinks), old(newCOMLinks)))
    {
      var q := ExpandAll(s, Queues(newWireframes, newTransparentEntities, newCollisions, newInertias, newCOMVisuals,
                                  newWireframeVisualLinks, newTransparentVisualLinks, newCollisionLinks,
                                  newInertiaLinks, newCOMLinks));
      assert q == Queues(q.wireframes, q.transparent, q.collisions, q.inertias, q.coms,
                         q.wireframeLinks, q.transparentLinks, q.collisionLinks, q.inertiaLinks, q.comLinks);
      newWireframes, newTransparentEntities, newCollisions, newInertias, newCOMVisuals :=
        q.wireframes, q.transparent, q.collisions, q.inertias, q.coms;
      newWireframeVisualLinks, newTransparentVisualLinks, newCollisionLinks, newInertiaLinks, newCOMLinks :=
        q.wireframeLinks, q.transparentLinks, q.collisionLinks, q.inertiaLinks, q.comLinks;
    }

    /**
     * Update: index the store (UpdateIndex), then expand every queued
     * request into links for the next render (ExpandQueues). The model index
     * stays acyclic whenever its rows followed the store's parent relation, and
     * also after a removal has left stale entries behind, as long as the entities
     * indexed are new to the rows.
     */
    method Update(s: Store, created: seq<Entity>, removed: seq<Entity>)
      requires Acyclic(s)
      modifies this`initialized, this`modelToLinkEntities, this`modelToModelEntities, this`linkToVisualEntities,
               this`linkToCollisionEntities, this`entityInertials, this`entityCollisions,
               this`newWireframes, this`newTransparentEntities, this`newCollisions, this`newInertias, this`newCOMVisuals,
               this`newWireframeVisualLinks, this`newTransparentVisualLinks, this`newCollisionLinks,
               this`newInertiaLinks, this`newCOMLinks
      ensures initialized
      ensures Index(modelToLinkEntities, modelToModelEntities, linkToVisualEntities, linkToCollisionEntities,
                    entityInertials, entityCollisions) ==
              Reindexed(Index(old(modelToLinkEntities), old(modelToModelEntities), old(linkToVisualEntities),
                              old(linkToCollisionEntities), old(entityInertials), old(entityCollisions)),
                        s, if old(initialized) then created else s.entities, removed)
      ensures Queues(newWireframes, newTransparentEntities, newCollisions, newInertias, newCOMVisuals,
                     newWireframeVisualLinks, newTransparentVisualLinks, newCollisionLinks, newInertiaLinks, newCOMLinks) ==
              Expanded(s, Queues(old(newWireframes), old(newTransparentEntities), old(newCollisions), old(newInertias),
                                 old(newCOMVisuals), old(newWireframeVisualLinks), old(newTransparentVisualLinks),
                                 old(newCollisionLinks), old(newInertiaLinks), old(newCOMLinks)))
      ensures newWireframes == [] && newTransparentEntities == [] && newCollisions == [] && newInertias == [] && newCOMVisuals == []
      ensures RowsFollow(old(modelToModelEntities), s) ==> RowsFollow(modelToModelEntities, s) && RowsAcyclic(modelToModelEntities)
      ensures RowsAcyclic(old(modelToModelEntities)) &&
              NewToRows(old(modelToModelEntities), s, if old(initialized) then created else s.entities, Model) ==>
                RowsAcyclic(modelToModelEntities)
    {
      ghost var es := if initialized then created else s.entities;
      ghost var index0 := Index(modelToLinkEntities, modelToModelEntities, linkToVisualEntities, linkToCollisionEntities,
                                entityInertials, entityCollisions);
      ghost var queues := Queues(newWireframes, newTransparentEntities, newCollisions, newInertias, newCOMVisuals,
                                 newWireframeVisualLinks, newTransparentVisualLinks, newCollisionLinks, newInertiaLinks, newCOMLinks);
      UpdateIndex(s, created, removed);
      ghost var index := Index(modelToLinkEntities, modelToModelEntities, linkToVisualEntities, linkToCollisionEntities,
                               entityInertials, entityCollisions);
      assert index == Reindexed(index0, s, es, removed);
      assert Queues(newWireframes, newTransparentEntities, newCollisions, newInertias, newCOMVisuals,
                    newWireframeVisualLinks, newTransparentVisualLinks, newCollisionLinks, newInertiaLinks, newCOMLinks) == queues;
      ExpandQueues(s);
      assert Index(modelToLinkEntities, modelToModelEntities, linkToVisualEntities, linkToCollisionEntities,
                   entityInertials, entityCollisions) == index;
      assert Queues(newWireframes, newTransparentEntities, newCollisions, newInertias, newCOMVisuals,
                    newWireframeVisualLinks, newTransparentVisualLinks, newCollisionLinks, newInertiaLinks, newCOMLinks) ==
             Expanded(s, queues);
    }
  }
}
