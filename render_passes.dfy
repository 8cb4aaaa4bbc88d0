/**
 * The passes the visualization-capabilities plugin runs on the render
 * thread over the links its requests expanded into: marking visuals as
 * wireframe or transparent, creating one centre-of-mass or inertia overlay
 * per link under a fresh id, and creating collision visuals.
 */
module RenderPasses {
  import opened Util
  import opened RenderScene
  import opened VisualizationRules
  import opened ViewRules

  // ---------------------------------------------------------------------
  // Wireframe and transparent marking
  // ---------------------------------------------------------------------

  /** One visual entity of a link: marked and flagged unless it already is, or has no visual. */
  function MarkOne(p: Display, x: Entity, f: Flag): Display {
    if Get(p.viewing, x) then p
    else match FirstTagged(p.scene, x)
      case None => p.(viewing := Touch(p.viewing, x))
      case Some(i) => Display(p.viewing[x := true], p.scene[i := WithFlag(p.scene[i], f, true)])
  }

  /** The marking pass over the visual entities `all`, in order. */
  function MarkAll(d: Display, all: seq<Entity>, f: Flag): Display {
    if all == [] then d
    else MarkOne(MarkAll(d, all[..|all| - 1], f), all[|all| - 1], f)
  }

  /** Marking `a + b` marks `a`, then `b`. */
  lemma {:induction false} MarkAllAppend(d: Display, a: seq<Entity>, b: seq<Entity>, f: Flag)
    ensures MarkAll(d, a + b, f) == MarkAll(MarkAll(d, a, f), b, f)
    decreases |b|
  {
    if b == [] {
      assert a + b == a;
    } else {
      var n := |b| - 1;
      assert (a + b)[..|a + b| - 1] == a + b[..n];
      MarkAllAppend(d, a, b[..n], f);
    }
  }

  /** The viewing map after marking: every entity of `all` gets a record, true once its visual exists. */
  function Marked(viewing: map<Entity, bool>, all: seq<Entity>, tags: set<Entity>): (r: map<Entity, bool>)
    ensures r.Keys == viewing.Keys + (set y | y in all)
  {
    map x | x in viewing.Keys + (set y | y in all) :: Get(viewing, x) || (x in all && x in tags)
  }

  /** The entities whose visual the marking pass flags: not yet marked, and with a visual. */
  function Unmarked(viewing: map<Entity, bool>, all: seq<Entity>, tags: set<Entity>): set<Entity> {
    set x | x in all && !Get(viewing, x) && x in tags
  }

  lemma MarkedStep(v: map<Entity, bool>, front: seq<Entity>, x: Entity, tags: set<Entity>)
    ensures Marked(v, front + [x], tags) ==
            Marked(v, front, tags)[x := Get(v, x) || x in tags]
    ensures Unmarked(v, front + [x], tags) ==
            Unmarked(v, front, tags) + (if !Get(v, x) && x in tags then {x} else {})
  {
    assert forall y :: y in front + [x] <==> y in front || y == x;
  }

  /** One marking step keeps the closed form. */
  lemma MarkOneClosed(v: map<Entity, bool>, s: seq<SceneVisual>, front: seq<Entity>, x: Entity, f: Flag)
    ensures MarkOne(Display(Marked(v, front, Tags(s)), SetFlags(s, Unmarked(v, front, Tags(s)), f, true)), x, f) ==
            Display(Marked(v, front + [x], Tags(s)), SetFlags(s, Unmarked(v, front + [x], Tags(s)), f, true))
  {
    MarkedStep(v, front, x, Tags(s));
    if Get(Marked(v, front, Tags(s)), x) {
      MarkOneKept(v, s, front, x, f);
    } else {
      MarkOneFresh(v, s, front, x, f);
    }
  }

  /** An entity marked already changes nothing. */
  lemma MarkOneKept(v: map<Entity, bool>, s: seq<SceneVisual>, front: seq<Entity>, x: Entity, f: Flag)
    requires Get(Marked(v, front, Tags(s)), x)
    ensures Marked(v, front, Tags(s))[x := Get(v, x) || x in Tags(s)] == Marked(v, front, Tags(s))
    ensures Unmarked(v, front, Tags(s)) + (if !Get(v, x) && x in Tags(s) then {x} else {}) == Unmarked(v, front, Tags(s))
  {
    var t := Tags(s);
    var m := Marked(v, front, t);
    assert Get(v, x) || (x in front && x in t);
    assert m[x := Get(v, x) || x in t] == m;
  }

  /** An entity not marked yet gets its record, and its visual, when it has one, the flag. */
  lemma MarkOneFresh(v: map<Entity, bool>, s: seq<SceneVisual>, front: seq<Entity>, x: Entity, f: Flag)
    requires !Get(Marked(v, front, Tags(s)), x)
    ensures MarkOne(Display(Marked(v, front, Tags(s)), SetFlags(s, Unmarked(v, front, Tags(s)), f, true)), x, f) ==
            Display(Marked(v, front, Tags(s))[x := Get(v, x) || x in Tags(s)],
                    SetFlags(s, Unmarked(v, front, Tags(s)) + (if !Get(v, x) && x in Tags(s) then {x} else {}), f, true))
  {
    var t := Tags(s);
    var u := Unmarked(v, front, t);
    SetFlagsKeepsLookups(s, u, f, true, x, "");
    if x in t {
      SetFlagsAdd(s, u, x, f, true);
    }
  }

  /**
   * The marking pass in closed form: each listed visual entity ends up
   * marked exactly when it was marked before or has a visual, and the flag is
   * set on the visuals of those that were not marked before.
   */
  lemma {:induction false} MarkAllClosed(v: map<Entity, bool>, s: seq<SceneVisual>, all: seq<Entity>, f: Flag)
    ensures MarkAll(Display(v, s), all, f) ==
            Display(Marked(v, all, Tags(s)), SetFlags(s, Unmarked(v, all, Tags(s)), f, true))
    decreases |all|
  {
    if all == [] {
      assert Marked(v, all, Tags(s)) == v;
      assert Unmarked(v, all, Tags(s)) == {};
      SetFlagsNone(s, f, true);
    } else {
      var n := |all| - 1;
      assert all == all[..n] + [all[n]];
      MarkAllClosed(v, s, all[..n], f);
      MarkOneClosed(v, s, all[..n], all[n], f);
    }
  }

  // ---------------------------------------------------------------------
  // Centre-of-mass and inertia overlays
  // ---------------------------------------------------------------------

  /** What an overlay pass reads and writes. */
  datatype Overlays = Overlays(viewing: map<Entity, bool>, linkTo: map<Entity, Entity>, scene: seq<SceneVisual>,
                               visuals: set<Entity>, inertials: map<Entity, InertialData>)

  /** The viewing map after the probe for `link`: it reads `viewing[link]` once some candidate is untaken. */
  function Probed(viewing: map<Entity, bool>, ids: SceneIds, link: Entity): map<Entity, bool> {
    if FirstUntaken(ids, 0).Some? then Touch(viewing, link) else viewing
  }

  /** The id the probe for `link` settles on: the first free one, when the link is unviewed and has a visual. */
  function ProbedId(viewing: map<Entity, bool>, scene: seq<SceneVisual>, ids: SceneIds, link: Entity): Option<nat> {
    if !Get(viewing, link) && FirstTagged(scene, link).Some? then FirstFreeId(ids, Tags(scene), 0) else None
  }

  /**
   * The overlay for one link: under the first free id, a visual named after
   * the link's visual, `prefix` and the id, tagged with the id; viewed and
   * recorded for the link.
   */
  function ProbeOne(p: Overlays, ids: SceneIds, link: Entity, prefix: string): Overlays {
    var viewing := Probed(p.viewing, ids, link);
    match ProbedId(p.viewing, p.scene, ids, link)
    case None => p.(viewing := viewing)
    case Some(id) =>
      var parent := p.scene[FirstTagged(p.scene, link).value];
      Overlays(viewing[link := true], p.linkTo[link := id],
               p.scene + [NewVisual(id, parent.name + "::" + prefix + DecimalString(id))],
               p.visuals + {id},
               if link in p.inertials then p.inertials else p.inertials[link := DefaultInertial])
  }

  /** The overlay pass over `links`, in order. */
  function ProbeAll(p: Overlays, ids: SceneIds, links: seq<Entity>, prefix: string): Overlays {
    if links == [] then p
    else ProbeOne(ProbeAll(p, ids, links[..|links| - 1], prefix), ids, links[|links| - 1], prefix)
  }

  /**
   * One probe creates a visual exactly when the link is unviewed, has a visual
   * and a free id exists; the id is then the smallest candidate in no id space
   * and tagging no visual, and the link is viewed with that overlay.
   */
  lemma ProbeOneOutcome(p: Overlays, ids: SceneIds, link: Entity, prefix: string)
    ensures var q := ProbeOne(p, ids, link, prefix);
            (|q.scene| == |p.scene| + 1 <==>
               !Get(p.viewing, link) && link in Tags(p.scene) && FirstFreeId(ids, Tags(p.scene), 0).Some?) &&
            (|q.scene| == |p.scene| ==> q.scene == p.scene && q.linkTo == p.linkTo && q.visuals == p.visuals)
    ensures var q := ProbeOne(p, ids, link, prefix);
            |q.scene| == |p.scene| + 1 ==>
              var id := q.linkTo[link];
              id < ProbeAttempts && !IdTaken(ids, id) && id !in Tags(p.scene) &&
              (forall j :: 0 <= j < id ==> IdTaken(ids, j) || j in Tags(p.scene)) &&
              Get(q.viewing, link) && id in q.visuals && FirstTagged(q.scene, id) == Some(|p.scene|)
  {
    var q := ProbeOne(p, ids, link, prefix);
    if ProbedId(p.viewing, p.scene, ids, link).Some? {
      var id := ProbedId(p.viewing, p.scene, ids, link).value;
      assert q.scene[|p.scene|].tag == Some(id);
      assert forall j :: 0 <= j < |p.scene| ==> q.scene[j] == p.scene[j];
    }
  }

  /** The tags of the visuals an overlay pass appended, which all differ and tagged nothing before. */
  ghost predicate FreshTags(before: seq<SceneVisual>, after: seq<SceneVisual>) {
    |before| <= |after| && after[..|before|] == before &&
    (forall j :: |before| <= j < |after| ==> after[j].tag.Some? && after[j].tag.value !in Tags(before)) &&
    (forall j, k :: |before| <= j < k < |after| ==> after[j].tag != after[k].tag)
  }

  /** Appending a visual tagged with an entity no visual carries keeps the appended tags fresh. */
  lemma FreshTagsExtend(before: seq<SceneVisual>, mid: seq<SceneVisual>, w: SceneVisual)
    requires FreshTags(before, mid)
    requires w.tag.Some? && w.tag.value !in Tags(mid)
    ensures FreshTags(before, mid + [w])
  {
    var after := mid + [w];
    assert after[..|before|] == mid[..|before|];
    assert forall x :: x in Tags(before) ==> x in Tags(mid) by {
      forall x | x in Tags(before) ensures x in Tags(mid) {
        var i :| 0 <= i < |before| && before[i].tag.Some? && before[i].tag.value == x;
        assert mid[i] == before[i];
      }
    }
    assert forall j :: |before| <= j < |mid| ==> mid[j].tag.value in Tags(mid);
  }

  /** What an overlay pass guarantees about its result. */
  ghost predicate OverlayGrowth(p: Overlays, q: Overlays, ids: SceneIds) {
    FreshTags(p.scene, q.scene) &&
    (forall j :: |p.scene| <= j < |q.scene| ==> !IdTaken(ids, q.scene[j].tag.value) && q.scene[j].tag.value in q.visuals) &&
    (forall x :: Get(p.viewing, x) ==> Get(q.viewing, x)) &&
    p.visuals <= q.visuals
  }

  lemma ProbeOneGrowth(p: Overlays, m: Overlays, ids: SceneIds, link: Entity, prefix: string)
    requires OverlayGrowth(p, m, ids)
    ensures OverlayGrowth(p, ProbeOne(m, ids, link, prefix), ids)
  {
    var q := ProbeOne(m, ids, link, prefix);
    ProbeOneOutcome(m, ids, link, prefix);
    if |q.scene| == |m.scene| + 1 {
      assert q.scene == m.scene + [q.scene[|m.scene|]];
      FreshTagsExtend(p.scene, m.scene, q.scene[|m.scene|]);
    }
  }

  /**
   * An overlay pass only appends visuals, each tagged with a distinct id that
   * tagged no visual before, is in no id space and is recorded as a plugin visual;
   * and a link that was viewed stays viewed.
   */
  lemma {:induction false} ProbeAllFresh(p: Overlays, ids: SceneIds, links: seq<Entity>, prefix: string)
    ensures OverlayGrowth(p, ProbeAll(p, ids, links, prefix), ids)
    decreases |links|
  {
    if links == [] {
      assert p.scene[..|p.scene|] == p.scene;
    } else {
      var front := links[..|links| - 1];
      ProbeAllFresh(p, ids, front, prefix);
      ProbeOneGrowth(p, ProbeAll(p, ids, front, prefix), ids, links[|links| - 1], prefix);
    }
  }

  // ---------------------------------------------------------------------
  // Collision visuals
  // ---------------------------------------------------------------------

  /** What the collision pass reads and writes. */
  datatype Collisions = Collisions(viewing: map<Entity, bool>, elements: map<Entity, CollisionData>,
                                   scene: seq<SceneVisual>, visuals: set<Entity>)

  /** The name CreateVisual gives a collision visual under the parent visual named `parent`. */
  function CollisionVisualName(parent: string, col: Entity, data: CollisionData): string {
    parent + "::" + (if CollisionName(data) == "" then DecimalString(col) else CollisionName(data))
  }

  /**
   * One collision entity `col` of `link`: skipped when its id is taken or the
   * link is viewed, else (the link's visual existing) its element is read and,
   * unless the plugin already holds a visual for it, a visual is created, or an
   * existing visual of the same name reused; the collision is then viewed.
   */
  function CollideOne(c: Collisions, ids: SceneIds, link: Entity, col: Entity): Collisions {
    if IdTaken(ids, col) || Get(c.viewing, link) then c
    else
      var viewing := Touch(c.viewing, link);
      match FirstTagged(c.scene, link)
      case None => c.(viewing := viewing)
      case Some(i) =>
        var data := if col in c.elements then c.elements[col] else DefaultCollision;
        var elements := c.elements[col := data];
        if col in c.visuals then c.(viewing := viewing, elements := elements)
        else
          var name := CollisionVisualName(c.scene[i].name, col, data);
          var scene := if FirstNamed(c.scene, name).Some? then c.scene else c.scene + [NewVisual(col, name)];
          Collisions(viewing[col := true], elements, scene, c.visuals + {col})
  }

  /** The collision entities `cols` of `link`, in order. */
  function CollideRow(c: Collisions, ids: SceneIds, link: Entity, cols: seq<Entity>): Collisions {
    if cols == [] then c
    else CollideOne(CollideRow(c, ids, link, cols[..|cols| - 1]), ids, link, cols[|cols| - 1])
  }

  /** The collision pass over `links`, each with its row of the link-to-collision index. */
  function CollideAll(c: Collisions, ids: SceneIds, l2c: map<Entity, seq<Entity>>, links: seq<Entity>): Collisions {
    if links == [] then c
    else
      var link := links[|links| - 1];
      CollideRow(CollideAll(c, ids, l2c, links[..|links| - 1]), ids, link, Row(l2c, link))
  }

  /** A collision visual is created at most once per collision entity, tagged with it. */
  lemma CollideOneFresh(c: Collisions, ids: SceneIds, link: Entity, col: Entity)
    ensures var d := CollideOne(c, ids, link, col);
            c.visuals <= d.visuals &&
            (d.scene == c.scene || (d.scene == c.scene + [d.scene[|c.scene|]] &&
                                    d.scene[|c.scene|].tag == Some(col) && col !in c.visuals && col in d.visuals &&
                                    !IdTaken(ids, col)))
  {
  }

  /** The collision entities keep their tags unique: a visual is appended only for one without a plugin visual. */
  ghost predicate CollisionTagsOwned(before: seq<SceneVisual>, visuals0: set<Entity>, after: seq<SceneVisual>, visuals: set<Entity>) {
    |before| <= |after| && after[..|before|] == before &&
    (forall j :: |before| <= j < |after| ==> after[j].tag.Some? && after[j].tag.value in visuals - visuals0) &&
    (forall j, k :: |before| <= j < k < |after| ==> after[j].tag != after[k].tag)
  }

  lemma {:induction false} CollideRowOwned(c: Collisions, ids: SceneIds, link: Entity, cols: seq<Entity>)
    ensures var d := CollideRow(c, ids, link, cols);
            CollisionTagsOwned(c.scene, c.visuals, d.scene, d.visuals) && c.visuals <= d.visuals
    decreases |cols|
  {
    if cols != [] {
      var front := cols[..|cols| - 1];
      CollideRowOwned(c, ids, link, front);
      var m := CollideRow(c, ids, link, front);
      CollideOneFresh(m, ids, link, cols[|cols| - 1]);
      assert m.scene[..|c.scene|] == c.scene;
    }
  }

  /**
   * The collision pass only appends visuals, one per collision entity that
   * had no plugin visual, each tagged with that entity and all distinct.
   */
  lemma {:induction false} CollideAllOwned(c: Collisions, ids: SceneIds, l2c: map<Entity, seq<Entity>>, links: seq<Entity>)
    ensures var d := CollideAll(c, ids, l2c, links);
            CollisionTagsOwned(c.scene, c.visuals, d.scene, d.visuals) && c.visuals <= d.visuals
    decreases |links|
  {
    if links != [] {
      var front := links[..|links| - 1];
      var link := links[|links| - 1];
      CollideAllOwned(c, ids, l2c, front);
      var m := CollideAll(c, ids, l2c, front);
      CollideRowOwned(m, ids, link, Row(l2c, link));
      var d := CollideRow(m, ids, link, Row(l2c, link));
      assert d.scene[..|m.scene|] == m.scene;
      assert d.scene[..|c.scene|] == c.scene;
    }
  }
}
