/**
 * The value-level rules of the visualization-capabilities plugin: which
 * links a model stands for (from the entity store and from the plugin's own
 * index maps), how pending requests expand into links, how the index maps
 * grow, the first-seen / negate-the-first toggle rule, and the renderer
 * model the plugin looks visuals up in.
 */
module VisualizationRules {
  import opened Util
  import opened ModelTree

  // ---------------------------------------------------------------------
  // Entity store queries
  // ---------------------------------------------------------------------

  /** EntitiesByComponents(ParentEntity(m), k) over the listed entities `es`: the children of `m` of kind `k`. */
  function ChildrenIn(s: Store, es: seq<Entity>, m: Entity, k: Kind): (r: seq<Entity>)
    ensures forall x :: x in r <==> x in es && x in s.parent && s.parent[x] == m && Has(s, x, k)
  {
    if es == [] then []
    else
      assert forall x :: x in es <==> x == es[0] || x in es[1..];
      (if es[0] in s.parent && s.parent[es[0]] == m && Has(s, es[0], k) then [es[0]] else []) +
      ChildrenIn(s, es[1..], m, k)
  }

  /** Child models and child links of a model, in store order. */
  function StoreChildModels(s: Store): Entity -> seq<Entity> {
    m => ChildrenIn(s, s.entities, m, Model)
  }

  function StoreChildLinks(s: Store): Entity -> seq<Entity> {
    m => ChildrenIn(s, s.entities, m, Link)
  }

  /** The listed entities strictly further from the root than `m`. */
  ghost function Deeper(s: Store, m: Entity): set<Entity> {
    set e | e in s.entities && Height(s, e) > Height(s, m)
  }

  /** A ranking of the store's model tree: the number of listed entities deeper than the model. */
  ghost function StoreRank(s: Store): Entity -> nat {
    m => |Deeper(s, m)|
  }

  lemma StoreRanked(s: Store)
    requires Acyclic(s)
    ensures Ranked(StoreChildModels(s), StoreRank(s))
  {
    forall m, c | c in StoreChildModels(s)(m)
      ensures StoreRank(s)(c) < StoreRank(s)(m)
    {
      assert c in s.entities && c in s.parent && s.parent[c] == m;
      assert Height(s, c) > Height(s, m);
      var a := Deeper(s, c);
      var b := Deeper(s, m);
      assert a <= b;
      assert c in b - a;
      assert b == a + (b - a);
      assert |b| == |a| + |b - a|;
    }
  }

  /** `v` is `m` or a model nested (at any depth) in model `m` of the store. */
  ghost predicate NestedIn(s: Store, m: Entity, v: Entity)
    requires Acyclic(s)
  {
    StoreRanked(s);
    Reaches(StoreChildModels(s), StoreRank(s), m, v)
  }

  /** FindChildLinksFromECM: every link of a model and of its nested models; a link stands for itself. */
  ghost function LinksFromStore(s: Store, e: Entity): seq<Entity>
    requires Acyclic(s)
  {
    if Has(s, e, Model) then
      StoreRanked(s);
      Gather(StoreChildLinks(s), Visit(StoreChildModels(s), StoreRank(s), e))
    else if Has(s, e, Link) then [e]
    else []
  }

  /** The links found from the store are exactly the links of the entity's model subtree. */
  lemma LinksFromStoreMembers(s: Store, e: Entity, x: Entity)
    requires Acyclic(s)
    ensures Has(s, e, Model) ==>
      (x in LinksFromStore(s, e) <==>
       x in s.entities && Has(s, x, Link) && x in s.parent && NestedIn(s, e, s.parent[x]))
    ensures !Has(s, e, Model) && Has(s, e, Link) ==> LinksFromStore(s, e) == [e]
    ensures !Has(s, e, Model) && !Has(s, e, Link) ==> LinksFromStore(s, e) == []
  {
    if Has(s, e, Model) {
      StoreRanked(s);
      var visit := Visit(StoreChildModels(s), StoreRank(s), e);
      GatherMembers(StoreChildLinks(s), visit, x);
      if x in LinksFromStore(s, e) {
        var i :| 0 <= i < |visit| && x in StoreChildLinks(s)(visit[i]);
        VisitMembers(StoreChildModels(s), StoreRank(s), e, visit[i]);
      }
      if x in s.entities && Has(s, x, Link) && x in s.parent && NestedIn(s, e, s.parent[x]) {
        VisitMembers(StoreChildModels(s), StoreRank(s), e, s.parent[x]);
        var i :| 0 <= i < |visit| && visit[i] == s.parent[x];
        assert x in StoreChildLinks(s)(visit[i]);
      }
    }
  }

  /** A pending queue expanded into links: models and links by their links, anything else dropped. */
  ghost function ExpandQueue(s: Store, queue: seq<Entity>): seq<Entity>
    requires Acyclic(s)
  {
    if queue == [] then []
    else
      var e := queue[|queue| - 1];
      ExpandQueue(s, queue[..|queue| - 1]) +
      (if Has(s, e, Model) || Has(s, e, Link) then LinksFromStore(s, e) else [])
  }

  /** Expanding a queue keeps exactly the links of the queued entities, in queue order. */
  lemma {:induction false} ExpandQueueMembers(s: Store, queue: seq<Entity>, x: Entity)
    requires Acyclic(s)
    ensures x in ExpandQueue(s, queue) <==> exists i :: 0 <= i < |queue| && x in LinksFromStore(s, queue[i])
    decreases |queue|
  {
    if queue != [] {
      var n := |queue| - 1;
      var front := queue[..n];
      ExpandQueueMembers(s, front, x);
      LinksFromStoreMembers(s, queue[n], x);
      assert forall i :: 0 <= i < n ==> front[i] == queue[i];
      if x in ExpandQueue(s, front) {
        var i :| 0 <= i < |front| && x in LinksFromStore(s, front[i]);
        assert x in LinksFromStore(s, queue[i]);
      }
    }
  }

  // ---------------------------------------------------------------------
  // The plugin's index maps
  // ---------------------------------------------------------------------

  /** A row of an index map as `operator[]` reads it: the stored vector, or the empty default. */
  function Row(rows: map<Entity, seq<Entity>>, k: Entity): seq<Entity> {
    if k in rows then rows[k] else []
  }

  function RowOf(rows: map<Entity, seq<Entity>>): Entity -> seq<Entity> {
    k => Row(rows, k)
  }

  /** The map after `operator[]` has been applied to each of `keys`: missing rows become empty rows. */
  function Fill(rows: map<Entity, seq<Entity>>, keys: seq<Entity>): (r: map<Entity, seq<Entity>>)
    ensures r.Keys == rows.Keys + (set j | j in keys)
    ensures forall k :: Row(r, k) == Row(rows, k)
  {
    map k | k in rows.Keys + (set j | j in keys) :: Row(rows, k)
  }

  /** Reading one more row through `operator[]`. */
  lemma FillStep(rows: map<Entity, seq<Entity>>, keys: seq<Entity>, k: Entity)
    ensures Fill(rows, keys + [k]) == Fill(rows, keys)[k := Row(rows, k)]
  {
    assert forall j :: j in keys + [k] <==> j in keys || j == k;
  }

  /** `rank` witnesses that the model rows hold no cycle. */
  ghost predicate RanksRows(rows: map<Entity, seq<Entity>>, rank: map<Entity, nat>) {
    forall p :: p in rows ==> forall c :: c in rows[p] ==> p in rank && c in rank && rank[c] < rank[p]
  }

  ghost predicate RowsAcyclic(rows: map<Entity, seq<Entity>>) {
    exists rank :: RanksRows(rows, rank)
  }

  ghost function SomeRank(rows: map<Entity, seq<Entity>>): (rank: map<Entity, nat>)
    requires RowsAcyclic(rows)
    ensures RanksRows(rows, rank)
  {
    var rank :| RanksRows(rows, rank); rank
  }

  ghost function RankOf(rank: map<Entity, nat>): Entity -> nat {
    m => if m in rank then rank[m] else 0
  }

  lemma RowsRanked(rows: map<Entity, seq<Entity>>, rank: map<Entity, nat>)
    requires RanksRows(rows, rank)
    ensures Ranked(RowOf(rows), RankOf(rank))
  {
  }

  /** Filling in empty rows adds no edge, so the rows stay acyclic. */
  lemma FillAcyclic(rows: map<Entity, seq<Entity>>, keys: seq<Entity>)
    requires RowsAcyclic(rows)
    ensures RowsAcyclic(Fill(rows, keys))
  {
    var rank := SomeRank(rows);
    var filled := Fill(rows, keys);
    forall p | p in filled ensures forall c :: c in filled[p] ==> p in rank && c in rank && rank[c] < rank[p] {
      assert filled[p] == Row(rows, p);
    }
    assert RanksRows(filled, rank);
  }

  /** The models the index walk from `e` pops. */
  ghost function IndexVisit(m2m: map<Entity, seq<Entity>>, e: Entity): seq<Entity>
    requires RowsAcyclic(m2m)
  {
    RowsRanked(m2m, SomeRank(m2m));
    Visit(RowOf(m2m), RankOf(SomeRank(m2m)), e)
  }

  /**
   * FindChildLinks: the entity's own link row, and when it has a model row,
   * the link rows of every model the walk pops, the entity's own first.
   */
  ghost function IndexChildLinks(m2l: map<Entity, seq<Entity>>, m2m: map<Entity, seq<Entity>>, e: Entity): seq<Entity>
    requires RowsAcyclic(m2m)
  {
    Row(m2l, e) + (if e in m2m then Gather(RowOf(m2l), IndexVisit(m2m, e)) else [])
  }

  /** The index maps after FindChildLinks: rows read by the walk exist afterwards. */
  ghost function WalkFill(rows: map<Entity, seq<Entity>>, m2m: map<Entity, seq<Entity>>, e: Entity): map<Entity, seq<Entity>>
    requires RowsAcyclic(m2m)
  {
    if e in m2m then Fill(rows, IndexVisit(m2m, e)) else rows
  }

  /** With a model row, the entity's own links come out twice: once directly, once from the walk. */
  lemma IndexChildLinksRepeatRoot(m2l: map<Entity, seq<Entity>>, m2m: map<Entity, seq<Entity>>, e: Entity)
    requires RowsAcyclic(m2m) && e in m2m
    ensures exists rest :: IndexChildLinks(m2l, m2m, e) == Row(m2l, e) + Row(m2l, e) + rest
  {
    var visit := IndexVisit(m2m, e);
    assert visit == [e] + visit[1..];
    GatherAppend(RowOf(m2l), [e], visit[1..]);
    var rest := Gather(RowOf(m2l), visit[1..]);
    assert IndexChildLinks(m2l, m2m, e) == Row(m2l, e) + Row(m2l, e) + rest;
  }

  /** The index walk collects exactly the link rows of models reachable through model rows. */
  lemma IndexChildLinksMembers(m2l: map<Entity, seq<Entity>>, m2m: map<Entity, seq<Entity>>, e: Entity, x: Entity)
    requires RowsAcyclic(m2m)
    ensures x in IndexChildLinks(m2l, m2m, e) <==>
            x in Row(m2l, e) ||
            (e in m2m && exists v :: Reaches(RowOf(m2m), RankOf(SomeRank(m2m)), e, v) && x in Row(m2l, v))
  {
    RowsRanked(m2m, SomeRank(m2m));
    var visit := IndexVisit(m2m, e);
    if e in m2m {
      GatherMembers(RowOf(m2l), visit, x);
      if x in Gather(RowOf(m2l), visit) {
        var i :| 0 <= i < |visit| && x in RowOf(m2l)(visit[i]);
        VisitMembers(RowOf(m2m), RankOf(SomeRank(m2m)), e, visit[i]);
      }
      if exists v :: Reaches(RowOf(m2m), RankOf(SomeRank(m2m)), e, v) && x in Row(m2l, v) {
        var v :| Reaches(RowOf(m2m), RankOf(SomeRank(m2m)), e, v) && x in Row(m2l, v);
        VisitMembers(RowOf(m2m), RankOf(SomeRank(m2m)), e, v);
        var i :| 0 <= i < |visit| && visit[i] == v;
        assert x in RowOf(m2l)(visit[i]);
      }
    }
  }

  // Update's index maintenance.

  /**
   * The components an entity needs to be indexed under its parent as a `k`: kind, name, pose and
   * parent, and besides these a visual's geometry, shadow, transparency and visibility components
   * and a collision's geometry and collision element.
   */
  predicate Indexed(s: Store, e: Entity, k: Kind) {
    Has(s, e, k) && e in s.name && e in s.pose && e in s.parent &&
    (k == Visual ==> e in s.geometry && e in s.castShadows && e in s.transparency && e in s.visibilityFlags) &&
    (k == Collision ==> e in s.geometry && e in s.collisionElement)
  }

  /** The entities of `es` indexed as `k` under parent `p`, in order. */
  function IndexedUnder(s: Store, es: seq<Entity>, k: Kind, p: Entity): seq<Entity> {
    if es == [] then []
    else
      var e := es[|es| - 1];
      IndexedUnder(s, es[..|es| - 1], k, p) + (if Indexed(s, e, k) && s.parent[e] == p then [e] else [])
  }

  /** The row map after each indexed entity of `es`, in order, has been pushed onto its parent's row. */
  function AddRows(rows: map<Entity, seq<Entity>>, s: Store, es: seq<Entity>, k: Kind): map<Entity, seq<Entity>> {
    if es == [] then rows
    else
      var r := AddRows(rows, s, es[..|es| - 1], k);
      var e := es[|es| - 1];
      if Indexed(s, e, k) then r[s.parent[e] := Row(r, s.parent[e]) + [e]] else r
  }

  /** Indexing appends each new child to the end of its parent's row and touches no other row. */
  lemma {:induction false} AddRowsAppends(rows: map<Entity, seq<Entity>>, s: Store, es: seq<Entity>, k: Kind, p: Entity)
    ensures Row(AddRows(rows, s, es, k), p) == Row(rows, p) + IndexedUnder(s, es, k, p)
    decreases |es|
  {
    if es != [] {
      AddRowsAppends(rows, s, es[..|es| - 1], k, p);
    }
  }

  /** Indexing adds a row exactly for the parents of the indexed entities. */
  lemma {:induction false} AddRowsKeys(rows: map<Entity, seq<Entity>>, s: Store, es: seq<Entity>, k: Kind)
    ensures AddRows(rows, s, es, k).Keys == rows.Keys + (set e | e in es && Indexed(s, e, k) :: s.parent[e])
    decreases |es|
  {
    if es != [] {
      var front := es[..|es| - 1];
      AddRowsKeys(rows, s, front, k);
      assert forall x :: x in es <==> x in front || x == es[|es| - 1];
    }
  }

  /** Every row lists children of its key: the index agrees with the store's parent relation. */
  ghost predicate RowsFollow(rows: map<Entity, seq<Entity>>, s: Store) {
    forall p, c :: p in rows && c in rows[p] ==> c in s.parent && s.parent[c] == p
  }

  /** The entities with a parent that lie strictly further from the root than `m`. */
  ghost function Below(s: Store, m: Entity): set<Entity> {
    set e | e in s.parent && Height(s, e) > Height(s, m)
  }

  /** Rows that follow an acyclic store hold no cycle, so the index walk from any entity ends. */
  lemma FollowAcyclic(rows: map<Entity, seq<Entity>>, s: Store)
    requires Acyclic(s) && RowsFollow(rows, s)
    ensures RowsAcyclic(rows)
  {
    var rank := map x | x in rows.Keys + s.parent.Keys :: |Below(s, x)|;
    forall p, c | p in rows && c in rows[p]
      ensures p in rank && c in rank && rank[c] < rank[p]
    {
      assert c in s.parent && s.parent[c] == p;
      assert Height(s, c) > Height(s, p);
      var a := Below(s, c);
      var b := Below(s, p);
      assert a <= b;
      assert c in b - a;
      assert b == a + (b - a);
      assert |b| == |a| + |b - a|;
    }
    assert RanksRows(rows, rank);
  }

  /** Indexing entities of the store under their parents keeps the index following the store. */
  lemma {:induction false} AddRowsFollow(rows: map<Entity, seq<Entity>>, s: Store, es: seq<Entity>, k: Kind)
    requires RowsFollow(rows, s)
    ensures RowsFollow(AddRows(rows, s, es, k), s)
    decreases |es|
  {
    if es != [] {
      AddRowsFollow(rows, s, es[..|es| - 1], k);
    }
  }

  /**
   * The entities of `es` to be indexed as `k` have no non-empty row yet. The store never
   * reuses an entity id, so an entity reported as created has no children in the index.
   */
  ghost predicate NewToRows(rows: map<Entity, seq<Entity>>, s: Store, es: seq<Entity>, k: Kind) {
    forall e :: e in es && Indexed(s, e, k) ==> Row(rows, e) == []
  }

  lemma {:induction false} IndexedUnderMembers(s: Store, es: seq<Entity>, k: Kind, p: Entity, c: Entity)
    requires c in IndexedUnder(s, es, k, p)
    ensures c in es && Indexed(s, c, k) && s.parent[c] == p
    decreases |es|
  {
    var front := es[..|es| - 1];
    if c in IndexedUnder(s, front, k, p) {
      IndexedUnderMembers(s, front, k, p, c);
      assert c in es by { var i :| 0 <= i < |front| && front[i] == c; assert es[i] == c; }
    }
  }

  /** Every Below set lies among the entities with a parent. */
  lemma BelowBounded(s: Store, m: Entity)
    ensures |Below(s, m)| < |s.parent.Keys| + 1
  {
    var a := Below(s, m);
    var b := s.parent.Keys;
    assert b == a + (b - a);
  }

  /** A child with a parent in the store has a strictly smaller Below set than its parent. */
  lemma BelowShrinks(s: Store, c: Entity)
    requires Acyclic(s) && c in s.parent && s.parent[c] in s.parent
    ensures |Below(s, c)| < |Below(s, s.parent[c])|
  {
    var p := s.parent[c];
    assert Height(s, c) > Height(s, p);
    var a := Below(s, c);
    var b := Below(s, p);
    assert a <= b;
    assert c in b - a;
    assert b == a + (b - a);
  }

  /**
   * Indexing entities that are new to the rows keeps acyclic rows acyclic, even
   * when the rows no longer follow the store (a removed nested model stays in its
   * parent's row): every new edge leads to a new entity, whose only children are
   * new entities under their store parents.
   */
  lemma AddRowsAcyclic(rows: map<Entity, seq<Entity>>, s: Store, es: seq<Entity>, k: Kind)
    requires Acyclic(s) && RowsAcyclic(rows) && NewToRows(rows, s, es, k)
    ensures RowsAcyclic(AddRows(rows, s, es, k))
  {
    var rank := SomeRank(rows);
    var grown := AddRows(rows, s, es, k);
    var rank' := GrownRank(rank, s, Newcomers(s, es, k));
    forall p | p in grown
      ensures forall c :: c in grown[p] ==> p in rank' && c in rank' && rank'[c] < rank'[p]
    {
      forall c | c in grown[p] ensures p in rank' && c in rank' && rank'[c] < rank'[p] {
        GrownEdgeRanked(rows, rank, s, es, k, p, c);
      }
    }
    assert RanksRows(grown, rank');
  }

  /** The entities of `es` that indexing as `k` adds. */
  ghost function Newcomers(s: Store, es: seq<Entity>, k: Kind): set<Entity> {
    set e | e in es && Indexed(s, e, k)
  }

  /** Every edge of the grown rows descends in GrownRank. */
  lemma GrownEdgeRanked(rows: map<Entity, seq<Entity>>, rank: map<Entity, nat>, s: Store, es: seq<Entity>, k: Kind,
                        p: Entity, c: Entity)
    requires Acyclic(s) && RanksRows(rows, rank) && NewToRows(rows, s, es, k)
    requires p in AddRows(rows, s, es, k) && c in AddRows(rows, s, es, k)[p]
    ensures var r := GrownRank(rank, s, Newcomers(s, es, k)); p in r && c in r && r[c] < r[p]
  {
    AddRowsAppends(rows, s, es, k, p);
    if c in Row(rows, p) {
      OldEdgeRanked(rows, rank, s, Newcomers(s, es, k), p, c);
    } else {
      IndexedUnderMembers(s, es, k, p, c);
      NewEdgeRanked(rank, s, Newcomers(s, es, k), c);
    }
  }

  /**
   * The ranking of the grown rows: a newly indexed entity ranks by its depth in the
   * store, every other entity keeps its old rank lifted above all of those.
   */
  ghost function GrownRank(rank: map<Entity, nat>, s: Store, added: set<Entity>): map<Entity, nat> {
    map x | x in rank.Keys + added + (set e | e in added && e in s.parent :: s.parent[e]) ::
      if x in added then |Below(s, x)| else (if x in rank then rank[x] else 0) + |s.parent.Keys| + 1
  }

  /** An edge the rows already had, from an entity that is not new, still descends. */
  lemma OldEdgeRanked(rows: map<Entity, seq<Entity>>, rank: map<Entity, nat>, s: Store, added: set<Entity>,
                      p: Entity, c: Entity)
    requires RanksRows(rows, rank) && p in rows && c in rows[p] && p !in added
    ensures p in GrownRank(rank, s, added) && c in GrownRank(rank, s, added) &&
            GrownRank(rank, s, added)[c] < GrownRank(rank, s, added)[p]
  {
    BelowBounded(s, c);
  }

  /** An edge from a store parent to a new entity descends. */
  lemma NewEdgeRanked(rank: map<Entity, nat>, s: Store, added: set<Entity>, c: Entity)
    requires Acyclic(s) && c in added && c in s.parent && (forall e :: e in added ==> e in s.parent)
    ensures s.parent[c] in GrownRank(rank, s, added) && c in GrownRank(rank, s, added) &&
            GrownRank(rank, s, added)[c] < GrownRank(rank, s, added)[s.parent[c]]
  {
    BelowBounded(s, c);
    if s.parent[c] in added {
      BelowShrinks(s, c);
    }
  }

  /** Erasing rows removes edges only, so acyclic rows stay acyclic. */
  lemma EraseAcyclic(rows: map<Entity, seq<Entity>>, drop: set<Entity>)
    requires RowsAcyclic(rows)
    ensures RowsAcyclic(rows - drop)
  {
    var rank := SomeRank(rows);
    assert RanksRows(rows - drop, rank);
  }

  /** Erasing rows keeps the index following the store. */
  lemma EraseFollow(rows: map<Entity, seq<Entity>>, s: Store, drop: set<Entity>)
    requires RowsFollow(rows, s)
    ensures RowsFollow(rows - drop, s)
  {
  }

  /** Entity data the plugin keeps per entity: loaded from the store, or default-constructed by `operator[]`. */
  datatype InertialData = DefaultInertial | InertialOf(entity: Entity)
  datatype CollisionData = DefaultCollision | CollisionNamed(name: string)

  /** The collision element's name, empty for a default-constructed one. */
  function CollisionName(c: CollisionData): string {
    match c
    case DefaultCollision => ""
    case CollisionNamed(n) => n
  }

  /** The inertial map after the entities of `es` with an Inertial and a Pose have stored theirs. */
  function AddInertials(m: map<Entity, InertialData>, s: Store, es: seq<Entity>): (r: map<Entity, InertialData>)
    ensures forall e :: e in es && e in s.inertial && e in s.pose ==> e in r && r[e] == InertialOf(e)
    ensures forall e :: e in r && !(e in es && e in s.inertial && e in s.pose) ==> e in m && r[e] == m[e]
    ensures forall e :: e in m ==> e in r
  {
    if es == [] then m
    else
      var e := es[|es| - 1];
      var r := AddInertials(m, s, es[..|es| - 1]);
      assert forall x :: x in es <==> x in es[..|es| - 1] || x == e;
      if e in s.inertial && e in s.pose then r[e := InertialOf(e)] else r
  }

  /** The collision map after the indexed collisions of `es` have stored their elements. */
  function AddCollisions(m: map<Entity, CollisionData>, s: Store, es: seq<Entity>): (r: map<Entity, CollisionData>)
    ensures forall e :: e in es && Indexed(s, e, Collision) ==> e in r && r[e] == CollisionNamed(s.collisionElement[e])
    ensures forall e :: e in r && !(e in es && Indexed(s, e, Collision)) ==> e in m && r[e] == m[e]
    ensures forall e :: e in m ==> e in r
  {
    if es == [] then m
    else
      var e := es[|es| - 1];
      var r := AddCollisions(m, s, es[..|es| - 1]);
      assert forall x :: x in es <==> x in es[..|es| - 1] || x == e;
      if Indexed(s, e, Collision) then r[e := CollisionNamed(s.collisionElement[e])] else r
  }

  /** Recording one more element. */
  lemma AddInertialsStep(m: map<Entity, InertialData>, s: Store, es: seq<Entity>, i: nat)
    requires i < |es|
    ensures AddInertials(m, s, es[..i + 1]) ==
            (if es[i] in s.inertial && es[i] in s.pose then AddInertials(m, s, es[..i])[es[i] := InertialOf(es[i])]
             else AddInertials(m, s, es[..i]))
  {
    assert es[..i + 1][..i] == es[..i];
  }

  /** Recording one more collision. */
  lemma AddCollisionsStep(m: map<Entity, CollisionData>, s: Store, es: seq<Entity>, i: nat)
    requires i < |es|
    ensures AddCollisions(m, s, es[..i + 1]) ==
            (if Indexed(s, es[i], Collision) then AddCollisions(m, s, es[..i])[es[i] := CollisionNamed(s.collisionElement[es[i]])]
             else AddCollisions(m, s, es[..i]))
  {
    assert es[..i + 1][..i] == es[..i];
  }

  /** The entities of `es` that carry kind `k` (the removed models, the removed links). */
  function OfKind(s: Store, es: seq<Entity>, k: Kind): set<Entity> {
    set e | e in es && Has(s, e, k)
  }
}
