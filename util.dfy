/**
 * Entity-hierarchy helpers of the simulator core: pose accumulation, scoped
 * names, kind classification and the string/path helpers around them.
 *
 * The entity/component store is a value: a parent map, name and pose maps,
 * the set of kind-marker components of each entity, the entities carrying
 * an inertial or the other components the index queries need, and the
 * order in which store queries list entities.
 */
module Util {

  type Entity = nat

  /** The reserved "no entity" id. */
  const NullEntity: Entity := 0

  datatype Option<T> = None | Some(value: T)

  /** Kind-marker components looked at by the classifier. */
  datatype Kind = World | Model | Light | Link | Collision | Visual | Joint | Sensor | Actor | ParticleEmitter

  /** Fixed classification priority: the first kind an entity carries wins. */
  const KindOrder: seq<Kind> := [World, Model, Light, Link, Collision, Visual, Joint, Sensor, Actor, ParticleEmitter]

  /**
   * A stored pose is an opaque frame token; a composed pose is the word of
   * frames it is built from, innermost first. Pose addition is associative
   * with the default pose as identity, so concatenation is its most general
   * model.
   */
  type Frame = nat
  type Pose = seq<Frame>
  const DefaultPose: Pose := []

  datatype Store = Store(
    entities: seq<Entity>,            // order in which queries list entities
    parent: map<Entity, Entity>,      // ParentEntity component
    name: map<Entity, string>,        // Name component
    pose: map<Entity, Frame>,         // Pose component
    kinds: map<Entity, set<Kind>>,    // kind-marker components
    inertial: set<Entity>,            // entities with an Inertial component
    geometry: set<Entity>,            // entities with a Geometry component
    castShadows: set<Entity>,         // entities with a CastShadows component
    transparency: set<Entity>,        // entities with a Transparency component
    visibilityFlags: set<Entity>,     // entities with a VisibilityFlags component
    collisionElement: map<Entity, string>, // CollisionElement component, by the element's own name
    depth: map<Entity, nat>)          // witness that the parent relation has no cycle

  predicate Has(s: Store, e: Entity, k: Kind) {
    e in s.kinds && k in s.kinds[e]
  }

  /** The store never lets an entity be its own ancestor. */
  predicate Acyclic(s: Store) {
    (forall e :: e in s.parent ==> e in s.depth) &&
    (forall e {:trigger s.parent[e]} :: e in s.parent && s.parent[e] in s.parent ==> s.depth[s.parent[e]] < s.depth[e])
  }

  /** Termination measure of every upward walk. */
  function Height(s: Store, e: Entity): nat {
    if e in s.parent && e in s.depth then s.depth[e] + 1 else 0
  }

  // ---------------------------------------------------------------------
  // Kind classification
  // ---------------------------------------------------------------------

  function KindName(k: Kind): (r: string)
    ensures r != ""
  {
    match k
    case World => "world"
    case Model => "model"
    case Light => "light"
    case Link => "link"
    case Collision => "collision"
    case Visual => "visual"
    case Joint => "joint"
    case Sensor => "sensor"
    case Actor => "actor"
    case ParticleEmitter => "particle_emitter"
  }

  /** Position of a kind in the classification priority. */
  function Rank(k: Kind): (r: nat)
    ensures r < |KindOrder| && KindOrder[r] == k
  {
    match k
    case World => 0
    case Model => 1
    case Light => 2
    case Link => 3
    case Collision => 4
    case Visual => 5
    case Joint => 6
    case Sensor => 7
    case Actor => 8
    case ParticleEmitter => 9
  }

  /** entityTypeId: the type of the highest-priority kind marker, None for the invalid id. */
  function EntityTypeId(s: Store, e: Entity): (r: Option<Kind>)
    ensures r.Some? ==> Has(s, e, r.value) && forall j :: 0 <= j < Rank(r.value) ==> !Has(s, e, KindOrder[j])
    ensures r.None? ==> forall j :: 0 <= j < |KindOrder| ==> !Has(s, e, KindOrder[j])
  {
    if Has(s, e, World) then Some(World)
    else if Has(s, e, Model) then Some(Model)
    else if Has(s, e, Light) then Some(Light)
    else if Has(s, e, Link) then Some(Link)
    else if Has(s, e, Collision) then Some(Collision)
    else if Has(s, e, Visual) then Some(Visual)
    else if Has(s, e, Joint) then Some(Joint)
    else if Has(s, e, Sensor) then Some(Sensor)
    else if Has(s, e, Actor) then Some(Actor)
    else if Has(s, e, ParticleEmitter) then Some(ParticleEmitter)
    else None
  }

  /** entityTypeStr: the name of the highest-priority kind marker, "" when there is none. */
  function EntityTypeStr(s: Store, e: Entity): (r: string)
    ensures r == "" <==> EntityTypeId(s, e).None?
    ensures r != "" ==> r == KindName(EntityTypeId(s, e).value)
  {
    if Has(s, e, World) then "world"
    else if Has(s, e, Model) then "model"
    else if Has(s, e, Light) then "light"
    else if Has(s, e, Link) then "link"
    else if Has(s, e, Collision) then "collision"
    else if Has(s, e, Visual) then "visual"
    else if Has(s, e, Joint) then "joint"
    else if Has(s, e, Sensor) then "sensor"
    else if Has(s, e, Actor) then "actor"
    else if Has(s, e, ParticleEmitter) then "particle_emitter"
    else ""
  }

  /** Distinct kinds have distinct names, so the string determines the id. */
  lemma KindNameInjective(a: Kind, b: Kind)
    ensures KindName(a) == KindName(b) ==> a == b
  {
  }

  // ---------------------------------------------------------------------
  // Searching, splitting and joining strings
  // ---------------------------------------------------------------------

  predicate OccursAt(s: string, d: string, i: int) {
    0 <= i && i + |d| <= |s| && s[i..i + |d|] == d
  }

  /** std::string::find from position `from`: the leftmost occurrence at or after it. */
  function Find(s: string, d: string, from: nat): (r: Option<nat>)
    decreases |s| - from
    ensures r.Some? ==> from <= r.value && OccursAt(s, d, r.value)
    ensures r.Some? ==> forall j :: from <= j < r.value ==> !OccursAt(s, d, j)
    ensures r.None? ==> forall j :: from <= j ==> !OccursAt(s, d, j)
  {
    if from + |d| > |s| then None
    else if s[from..from + |d|] == d then Some(from)
    else Find(s, d, from + 1)
  }

  /** The segments between successive leftmost occurrences of `d`, starting at `from`. */
  function SplitFrom(s: string, d: string, from: nat): (parts: seq<string>)
    requires |d| > 0 && from <= |s|
    decreases |s| - from
    ensures |parts| >= 1
  {
    match Find(s, d, from)
    case None => [s[from..]]
    case Some(i) => [s[from..i]] + SplitFrom(s, d, i + |d|)
  }

  function Split(s: string, d: string): (parts: seq<string>)
    requires |d| > 0
    ensures |parts| >= 1
  {
    SplitFrom(s, d, 0)
  }

  function Join(d: string, parts: seq<string>): string {
    if |parts| == 0 then ""
    else if |parts| == 1 then parts[0]
    else parts[0] + d + Join(d, parts[1..])
  }

  lemma {:induction false} JoinSnoc(d: string, parts: seq<string>, last: string)
    requires |parts| >= 1
    ensures Join(d, parts + [last]) == Join(d, parts) + d + last
    decreases |parts|
  {
    if |parts| == 1 {
      assert parts + [last] == [parts[0], last];
      assert [parts[0], last][1..] == [last];
    } else {
      assert (parts + [last])[1..] == parts[1..] + [last];
      JoinSnoc(d, parts[1..], last);
    }
  }

  /** A suffix is its three consecutive slices. */
  lemma SliceThree(s: string, lo: nat, i: nat, j: nat)
    requires lo <= i <= j <= |s|
    ensures s[lo..] == s[lo..i] + s[i..j] + s[j..]
  {
    var t := s[lo..i] + s[i..j] + s[j..];
    forall k | 0 <= k < |s| - lo ensures s[lo..][k] == t[k] {
      if k < i - lo {
        assert t[k] == s[lo..i][k];
      } else if k < j - lo {
        assert t[k] == s[i..j][k - (i - lo)];
      } else {
        assert t[k] == s[j..][k - (j - lo)];
      }
    }
  }

  /** Joining the segments with the delimiter gives back the string. */
  lemma {:induction false} SplitFromJoin(s: string, d: string, from: nat)
    requires |d| > 0 && from <= |s|
    ensures Join(d, SplitFrom(s, d, from)) == s[from..]
    decreases |s| - from
  {
    match Find(s, d, from)
    case None =>
    case Some(i) =>
      var rest := SplitFrom(s, d, i + |d|);
      var parts := [s[from..i]] + rest;
      SplitFromJoin(s, d, i + |d|);
      assert SplitFrom(s, d, from) == parts;
      assert parts[1..] == rest;
      assert Join(d, parts) == s[from..i] + d + s[i + |d|..];
      assert s[i..i + |d|] == d;
      SliceThree(s, from, i, i + |d|);
  }

  lemma SplitJoin(s: string, d: string)
    requires |d| > 0
    ensures Join(d, Split(s, d)) == s
  {
    SplitFromJoin(s, d, 0);
  }

  lemma OccursInSlice(s: string, d: string, lo: nat, hi: nat, j: int)
    requires lo <= hi <= |s|
    requires OccursAt(s[lo..hi], d, j)
    ensures OccursAt(s, d, lo + j) && lo + j + |d| <= hi
  {
    var a, b := s[lo..hi][j..j + |d|], s[lo + j..lo + j + |d|];
    forall m | 0 <= m < |d| ensures a[m] == b[m] {
    }
    assert a == b;
  }

  /** No segment contains the delimiter. */
  lemma {:induction false} SplitFromSegmentsFree(s: string, d: string, from: nat)
    requires |d| > 0 && from <= |s|
    ensures forall k, j :: 0 <= k < |SplitFrom(s, d, from)| ==> !OccursAt(SplitFrom(s, d, from)[k], d, j)
    decreases |s| - from
  {
    var parts := SplitFrom(s, d, from);
    match Find(s, d, from)
    case None =>
      assert s[from..] == s[from..|s|];
      forall j | OccursAt(s[from..], d, j) ensures false {
        OccursInSlice(s, d, from, |s|, j);
      }
    case Some(i) =>
      SplitFromSegmentsFree(s, d, i + |d|);
      forall k, j | 0 <= k < |parts| && OccursAt(parts[k], d, j) ensures false {
        if k == 0 {
          OccursInSlice(s, d, from, i, j);
        }
      }
  }

  /** A slice with no occurrence of the one-character delimiter does not contain it. */
  lemma AbsentBetween(s: string, c: char, lo: nat, hi: nat)
    requires lo <= hi <= |s|
    requires forall j :: lo <= j < hi ==> !OccursAt(s, [c], j)
    ensures multiset(s[lo..hi])[c] == 0
  {
    forall j | lo <= j < hi ensures s[j] != c {
      assert s[j..j + 1] == [s[j]];
      assert !OccursAt(s, [c], j);
    }
    assert c !in s[lo..hi];
  }

  /** With a one-character delimiter there is one segment more than delimiter occurrences. */
  lemma {:induction false} SplitFromCount(s: string, c: char, from: nat)
    requires from <= |s|
    ensures |SplitFrom(s, [c], from)| == multiset(s[from..])[c] + 1
    decreases |s| - from
  {
    var f := Find(s, [c], from);
    if f.None? {
      CountWithout(s, c, from);
    } else {
      CountPastFirst(s, c, from, f.value);
      SplitFromCount(s, c, f.value + 1);
    }
  }

  /** Without an occurrence at or after `from`, one segment remains and the rest holds no delimiter. */
  lemma CountWithout(s: string, c: char, from: nat)
    requires from <= |s| && Find(s, [c], from).None?
    ensures |SplitFrom(s, [c], from)| == 1 && multiset(s[from..])[c] == 0
  {
    AbsentBetween(s, c, from, |s|);
    assert s[from..] == s[from..|s|];
  }

  /** Past the first occurrence at `i`, one segment and one occurrence fewer remain. */
  lemma CountPastFirst(s: string, c: char, from: nat, i: nat)
    requires from <= |s| && Find(s, [c], from) == Some(i)
    ensures i + 1 <= |s|
    ensures |SplitFrom(s, [c], from)| == |SplitFrom(s, [c], i + 1)| + 1
    ensures multiset(s[from..])[c] == multiset(s[i + 1..])[c] + 1
  {
    var d := [c];
    assert |d| == 1;
    assert SplitFrom(s, d, from) == [s[from..i]] + SplitFrom(s, d, i + |d|);
    assert s[i..i + 1] == [c];
    AbsentBetween(s, c, from, i);
    SliceThree(s, from, i, i + 1);
    assert multiset(s[from..]) == multiset(s[from..i]) + multiset([c]) + multiset(s[i + 1..]);
  }

  lemma SplitCount(s: string, c: char)
    ensures |Split(s, [c])| == multiset(s)[c] + 1
  {
    SplitFromCount(s, c, 0);
    assert s[0..] == s;
  }

  lemma SplitSegmentsFree(s: string, d: string)
    requires |d| > 0
    ensures forall k, j :: 0 <= k < |Split(s, d)| ==> !OccursAt(Split(s, d)[k], d, j)
  {
    SplitFromSegmentsFree(s, d, 0);
  }

  // ---------------------------------------------------------------------
  // removeParentScope and asFullPath
  // ---------------------------------------------------------------------

  /** The name with everything up to and including the first delimiter removed. */
  function RemoveParentScope(name: string, delim: string): (r: string)
    ensures (forall j :: !OccursAt(name, delim, j)) ==> r == name
    ensures (exists j :: OccursAt(name, delim, j)) ==>
      exists i :: OccursAt(name, delim, i) && (forall j :: 0 <= j < i ==> !OccursAt(name, delim, j)) &&
                  name == name[..i] + delim + r
  {
    match Find(name, delim, 0)
    case None => name
    case Some(sepPos) =>
      if sepPos + |delim| > |name| then name
      else
        assert name == name[..sepPos] + name[sepPos..sepPos + |delim|] + name[sepPos + |delim|..];
        name[sepPos + |delim|..]
  }

  /** Removing the scope from `parent + delim + n` gives back `n` when no earlier delimiter occurs. */
  lemma RemoveParentScopeOfScoped(parent: string, delim: string, n: string)
    requires forall j :: 0 <= j < |parent| ==> !OccursAt(parent + delim + n, delim, j)
    ensures RemoveParentScope(parent + delim + n, delim) == n
  {
    var name := parent + delim + n;
    assert name[|parent|..|parent| + |delim|] == delim;
    assert OccursAt(name, delim, |parent|);
    var r := RemoveParentScope(name, delim);
    var i :| OccursAt(name, delim, i) && (forall j :: 0 <= j < i ==> !OccursAt(name, delim, j)) &&
             name == name[..i] + delim + r;
    assert i == |parent|;
    assert name[..i] + delim == parent + delim;
  }

  /** The string parsers use as the file path of SDF loaded from memory. */
  const SdfStringSource: string := "data-string"

  ghost predicate Contains(s: string, d: string) {
    exists j :: OccursAt(s, d, j)
  }

  /** A POSIX path is absolute when it starts at the root directory. */
  predicate IsAbsolute(path: string) {
    |path| > 0 && path[0] == '/'
  }

  /** The uri after std::replace of every backslash by a slash. */
  function Slashed(uri: string): (r: string)
    ensures |r| == |uri|
    ensures forall i :: 0 <= i < |uri| ==> r[i] == (if uri[i] == '\\' then '/' else uri[i])
  {
    if uri == [] then [] else [if uri[0] == '\\' then '/' else uri[0]] + Slashed(uri[1..])
  }

  /** In-place replacement of backslashes on a copy of the uri. */
  method ReplaceBackslashes(uri: string) returns (r: string)
    ensures r == Slashed(uri)
    ensures forall i :: 0 <= i < |r| ==> r[i] != '\\'
  {
    r := uri;
    var i := 0;
    while i < |r|
      invariant 0 <= i <= |r| == |uri|
      invariant forall j :: 0 <= j < i ==> r[j] == (if uri[j] == '\\' then '/' else uri[j])
      invariant forall j :: i <= j < |r| ==> r[j] == uri[j]
    {
      if r[i] == '\\' {
        r := r[i := '/'];
      }
      i := i + 1;
    }
  }

  /**
   * asFullPath on a non-Windows host. `parentPath` and `joinPaths` are the
   * path helpers of the common library, passed in as functions.
   */
  method AsFullPath(uri: string, filePath: string,
                    parentPath: string -> string, joinPaths: (string, string) -> string)
    returns (r: string)
    ensures filePath == "" ==> r == uri
    ensures Contains(uri, "://") || IsAbsolute(uri) ==> r == uri
    ensures filePath == SdfStringSource ==> r == uri
    ensures filePath != "" && !Contains(uri, "://") && !IsAbsolute(uri) && filePath != SdfStringSource ==>
      r == (if Contains(parentPath(filePath), "://") then parentPath(filePath) + "/" + Slashed(uri)
            else joinPaths(parentPath(filePath), Slashed(uri)))
  {
    if filePath == "" {
      return uri;
    }
    if Find(uri, "://", 0).Some? || IsAbsolute(uri) {
      return uri;
    }
    if filePath == SdfStringSource {
      return uri;
    }
    var path := parentPath(filePath);
    var u := ReplaceBackslashes(uri);
    if Find(path, "://", 0).Some? {
      return path + "/" + u;
    }
    return joinPaths(path, u);
  }

  // ---------------------------------------------------------------------
  // Upward walks
  // ---------------------------------------------------------------------

  /** The entity followed by all its ancestors, up to the first entity without a parent. */
  function Ancestors(s: Store, e: Entity): (chain: seq<Entity>)
    requires Acyclic(s)
    decreases Height(s, e)
    ensures |chain| >= 1 && chain[0] == e
    ensures forall i :: 0 <= i < |chain| - 1 ==> chain[i] in s.parent && s.parent[chain[i]] == chain[i + 1]
    ensures chain[|chain| - 1] !in s.parent
  {
    if e !in s.parent then [e] else [e] + Ancestors(s, s.parent[e])
  }

  /** The poses of the longest prefix of `chain` whose entities all have a pose. */
  function PosedPrefix(s: Store, chain: seq<Entity>): (r: Pose)
    ensures |r| <= |chain|
    ensures forall i :: 0 <= i < |r| ==> chain[i] in s.pose && r[i] == s.pose[chain[i]]
    ensures |r| < |chain| ==> chain[|r|] !in s.pose
  {
    if chain == [] || chain[0] !in s.pose then [] else [s.pose[chain[0]]] + PosedPrefix(s, chain[1..])
  }

  /** The poses of the ancestors of `e`, parent first, up to the first ancestor without a pose. */
  function PosesAbove(s: Store, e: Entity): Pose
    requires Acyclic(s)
    decreases Height(s, e)
  {
    if e !in s.parent || s.parent[e] !in s.pose then []
    else [s.pose[s.parent[e]]] + PosesAbove(s, s.parent[e])
  }

  /**
   * World pose: the entity's own pose composed with the pose of each
   * ancestor, stopping at the first ancestor without a pose; the default
   * pose when the entity itself has none.
   */
  function WorldPoseOf(s: Store, e: Entity): Pose
    requires Acyclic(s)
  {
    if e !in s.pose then DefaultPose else [s.pose[e]] + PosesAbove(s, e)
  }

  /** The world pose is the composition of the poses along the longest posed prefix of the ancestor chain. */
  lemma {:induction false} WorldPoseAlongChain(s: Store, e: Entity)
    requires Acyclic(s)
    ensures WorldPoseOf(s, e) == PosedPrefix(s, Ancestors(s, e))
    decreases Height(s, e)
  {
    if e in s.pose && e in s.parent {
      var p := s.parent[e];
      var above := Ancestors(s, p);
      assert Ancestors(s, e) == [e] + above;
      assert PosedPrefix(s, [e] + above) == [s.pose[e]] + PosedPrefix(s, above) by {
        assert ([e] + above)[1..] == above;
      }
      if p in s.pose {
        WorldPoseAlongChain(s, p);
      } else {
        assert above[0] == p;
      }
    }
  }

  /** worldPose: the upward loop composing ancestor poses. */
  method WorldPose(s: Store, e: Entity) returns (pose: Pose)
    requires Acyclic(s)
    ensures pose == WorldPoseOf(s, e)
  {
    if e !in s.pose {
      return DefaultPose;
    }
    pose := [s.pose[e]];
    var cur := e;
    while cur in s.parent
      invariant WorldPoseOf(s, e) == pose + PosesAbove(s, cur)
      decreases Height(s, cur)
    {
      var p := s.parent[cur];
      if p !in s.pose {
        break;
      }
      pose := pose + [s.pose[p]];
      cur := p;
    }
  }

  /** The part one level contributes to a scoped name: "" for an entity of unknown kind. */
  function Level(s: Store, e: Entity, delim: string, includePrefix: bool): string
    requires e in s.name
  {
    var prefix := EntityTypeStr(s, e);
    if prefix == "" then "" else if includePrefix then prefix + delim + s.name[e] else s.name[e]
  }

  /** The scoped name the upward walk builds, written as a recursion on the parent. */
  function ScopedNameOf(s: Store, e: Entity, delim: string, includePrefix: bool): string
    requires Acyclic(s)
    decreases Height(s, e)
  {
    if e !in s.name then ""
    else if e !in s.parent then Level(s, e, delim, includePrefix)
    else ScopedNameOf(s, s.parent[e], delim, includePrefix)
         + (if EntityTypeStr(s, e) == "" then "" else delim)
         + Level(s, e, delim, includePrefix)
  }

  /** Inserts the name, and when asked the kind prefix and delimiter, in front of `result`. */
  method InsertLevel(result: string, prefix: string, delim: string, name: string, includePrefix: bool)
    returns (r: string)
    ensures r == (if includePrefix then prefix + delim + name else name) + result
  {
    r := name + result;
    if includePrefix {
      r := delim + r;
      r := prefix + r;
    }
  }

  lemma ConcatAssoc(a: string, b: string, c: string, d: string)
    ensures a + b + c + d == a + (b + (c + d))
  {
  }

  /** scopedName: the loop inserting each level in front of the result. */
  method ScopedName(s: Store, e: Entity, delim: string, includePrefix: bool) returns (result: string)
    requires Acyclic(s)
    ensures result == ScopedNameOf(s, e, delim, includePrefix)
  {
    result := "";
    var entity := e;
    while true
      invariant ScopedNameOf(s, e, delim, includePrefix) == ScopedNameOf(s, entity, delim, includePrefix) + result
      decreases Height(s, entity)
    {
      if entity !in s.name {
        break;
      }
      ghost var before := result;
      ghost var level := Level(s, entity, delim, includePrefix);
      var name := s.name[entity];
      var prefix := EntityTypeStr(s, entity);
      var hasParent := entity in s.parent;
      if prefix != "" {
        result := InsertLevel(result, prefix, delim, name, includePrefix);
      }
      assert result == level + before;
      if !hasParent {
        break;
      }
      ghost var sep := if prefix == "" then "" else delim;
      if prefix != "" {
        result := delim + result;
      }
      assert result == sep + (level + before);
      ghost var up := ScopedNameOf(s, s.parent[entity], delim, includePrefix);
      assert ScopedNameOf(s, entity, delim, includePrefix) == up + sep + level;
      ConcatAssoc(up, sep, level, before);
      entity := s.parent[entity];
    }
  }

  /** The levels of the typed entities of `chain`, outermost first. */
  function TypedLevels(s: Store, chain: seq<Entity>, delim: string, includePrefix: bool): seq<string>
    requires forall i :: 0 <= i < |chain| ==> chain[i] in s.name
  {
    if chain == [] then []
    else TypedLevels(s, chain[1..], delim, includePrefix)
         + (if EntityTypeStr(s, chain[0]) == "" then [] else [Level(s, chain[0], delim, includePrefix)])
  }

  /**
   * When every entity up to the root is named and the root has a known kind,
   * the scoped name is the levels of the typed entities, outermost first,
   * joined by the delimiter; entities of unknown kind contribute nothing.
   */
  lemma {:induction false} ScopedNameIsJoin(s: Store, e: Entity, delim: string, includePrefix: bool)
    requires Acyclic(s)
    requires forall i :: 0 <= i < |Ancestors(s, e)| ==> Ancestors(s, e)[i] in s.name
    requires EntityTypeStr(s, Ancestors(s, e)[|Ancestors(s, e)| - 1]) != ""
    ensures |TypedLevels(s, Ancestors(s, e), delim, includePrefix)| >= 1
    ensures ScopedNameOf(s, e, delim, includePrefix) == Join(delim, TypedLevels(s, Ancestors(s, e), delim, includePrefix))
    decreases Height(s, e)
  {
    var chain := Ancestors(s, e);
    if e in s.parent {
      var p := s.parent[e];
      assert chain[1..] == Ancestors(s, p);
      ScopedNameIsJoin(s, p, delim, includePrefix);
      var up := TypedLevels(s, Ancestors(s, p), delim, includePrefix);
      assert TypedLevels(s, chain, delim, includePrefix) ==
        up + (if EntityTypeStr(s, e) == "" then [] else [Level(s, e, delim, includePrefix)]);
      if EntityTypeStr(s, e) != "" {
        JoinSnoc(delim, up, Level(s, e, delim, includePrefix));
      } else {
        assert up + [] == up;
      }
    } else {
      assert chain == [e];
      assert chain[1..] == [];
    }
  }

  /** The first position in `chain` of an entity of kind `k`. */
  function FirstOfKind(s: Store, chain: seq<Entity>, k: Kind): (r: Option<nat>)
    ensures r.Some? ==> r.value < |chain| && Has(s, chain[r.value], k)
    ensures r.Some? ==> forall j :: 0 <= j < r.value ==> !Has(s, chain[j], k)
    ensures r.None? ==> forall j :: 0 <= j < |chain| ==> !Has(s, chain[j], k)
  {
    if chain == [] then None
    else if Has(s, chain[0], k) then Some(0)
    else match FirstOfKind(s, chain[1..], k)
      case None => None
      case Some(i) => Some(i + 1)
  }

  /** The nearest ancestor-or-self that is a world, or the null entity when the chain ends first. */
  function WorldEntityOf(s: Store, e: Entity): (r: Entity)
    requires Acyclic(s)
  {
    match FirstOfKind(s, Ancestors(s, e), World)
    case None => NullEntity
    case Some(i) => Ancestors(s, e)[i]
  }

  /** worldEntity(entity): the loop climbing until a world is found. */
  method WorldEntity(s: Store, e: Entity) returns (entity: Entity)
    requires Acyclic(s)
    ensures entity == WorldEntityOf(s, e)
  {
    ghost var chain := Ancestors(s, e);
    ghost var k := 0;
    entity := e;
    while !Has(s, entity, World)
      invariant 0 <= k < |chain| && chain[k] == entity
      invariant forall j :: 0 <= j < k ==> !Has(s, chain[j], World)
      decreases |chain| - k
    {
      if entity !in s.parent {
        entity := NullEntity;
        return;
      }
      entity := s.parent[entity];
      k := k + 1;
    }
  }

  /** worldEntity(ecm): the first listed entity that is a world, or the null entity. */
  function FirstWorld(s: Store): (r: Entity)
    ensures r == NullEntity || (r in s.entities && Has(s, r, World))
    ensures (exists i :: 0 <= i < |s.entities| && Has(s, s.entities[i], World)) ==>
      exists i :: 0 <= i < |s.entities| && r == s.entities[i] && Has(s, r, World) &&
                  forall j :: 0 <= j < i ==> !Has(s, s.entities[j], World)
  {
    match FirstOfKind(s, s.entities, World)
    case None => NullEntity
    case Some(i) => s.entities[i]
  }

  /** The length of the prefix of `chain` before its first null entity. */
  function LiveLength(chain: seq<Entity>): (n: nat)
    ensures n <= |chain|
    ensures forall j :: 0 <= j < n ==> chain[j] != NullEntity
    ensures n < |chain| ==> chain[n] == NullEntity
  {
    if chain == [] || chain[0] == NullEntity then 0 else 1 + LiveLength(chain[1..])
  }

  /** The last position in `chain` of an entity of kind `k`. */
  function LastOfKind(s: Store, chain: seq<Entity>, k: Kind): (r: Option<nat>)
    ensures r.Some? ==> r.value < |chain| && Has(s, chain[r.value], k)
    ensures r.Some? ==> forall j :: r.value < j < |chain| ==> !Has(s, chain[j], k)
    ensures r.None? ==> forall j :: 0 <= j < |chain| ==> !Has(s, chain[j], k)
  {
    if chain == [] then None
    else if Has(s, chain[|chain| - 1], k) then Some(|chain| - 1)
    else LastOfKind(s, chain[..|chain| - 1], k)
  }

  /**
   * The outermost model among the entity and its ancestors, stopping at the
   * first null entity; the null entity when no model is met.
   */
  function TopLevelModelOf(s: Store, e: Entity): (r: Entity)
    requires Acyclic(s)
  {
    var chain := Ancestors(s, e);
    OutermostModel(s, chain[..LiveLength(chain)])
  }

  /** The last model in `live`, or the null entity. */
  function OutermostModel(s: Store, live: seq<Entity>): Entity {
    match LastOfKind(s, live, Model)
    case None => NullEntity
    case Some(i) => live[i]
  }

  lemma OutermostModelStep(s: Store, live: seq<Entity>, k: nat)
    requires k < |live|
    ensures OutermostModel(s, live[..k + 1]) ==
            if Has(s, live[k], Model) then live[k] else OutermostModel(s, live[..k])
  {
    assert live[..k + 1][..k] == live[..k];
  }

  /** topLevelModel: the loop remembering the last model seen while climbing. */
  method TopLevelModel(s: Store, e: Entity) returns (modelEntity: Entity)
    requires Acyclic(s)
    ensures modelEntity == TopLevelModelOf(s, e)
  {
    ghost var chain := Ancestors(s, e);
    ghost var live := chain[..LiveLength(chain)];
    ghost var k := 0;
    var entity := e;
    modelEntity := NullEntity;
    while entity != NullEntity
      invariant 0 <= k <= |live|
      invariant k < |chain| && chain[k] == entity
      invariant k < |live| <==> entity != NullEntity
      invariant modelEntity == OutermostModel(s, live[..k])
      decreases |chain| - k
    {
      OutermostModelStep(s, live, k);
      if Has(s, entity, Model) {
        modelEntity := entity;
      }
      if entity !in s.parent {
        assert live == live[..k + 1];
        return;
      }
      entity := s.parent[entity];
      k := k + 1;
    }
    assert live[..k] == live;
  }

  // ---------------------------------------------------------------------
  // entitiesFromScopedName
  // ---------------------------------------------------------------------

  /** The store query EntitiesByComponents(Name(n)) over the listed entities `es`. */
  function Named(s: Store, es: seq<Entity>, n: string): (r: seq<Entity>)
    ensures forall x :: x in r <==> x in es && x in s.name && s.name[x] == n
  {
    if es == [] then []
    else (if es[0] in s.name && s.name[es[0]] == n then [es[0]] else []) + Named(s, es[1..], n)
  }

  /** The store query EntitiesByComponents(Name(n), ParentEntity(p)) over `es`. */
  function ChildrenNamed(s: Store, es: seq<Entity>, n: string, p: Entity): (r: seq<Entity>)
    ensures forall x :: x in r <==> x in es && x in s.name && s.name[x] == n && x in s.parent && s.parent[x] == p
  {
    if es == [] then []
    else (if es[0] in s.name && s.name[es[0]] == n && es[0] in s.parent && s.parent[es[0]] == p then [es[0]] else [])
         + ChildrenNamed(s, es[1..], n, p)
  }

  /** The matches of `n` under each candidate of `res`, concatenated in candidate order. */
  function ChildrenOfAll(s: Store, n: string, res: seq<Entity>): (r: seq<Entity>)
    ensures forall x :: x in r <==>
      x in s.entities && x in s.name && s.name[x] == n && x in s.parent && s.parent[x] in res
  {
    if res == [] then []
    else ChildrenOfAll(s, n, res[..|res| - 1]) + ChildrenNamed(s, s.entities, n, res[|res| - 1])
  }

  /** One segment of resolution: every entity of that name when there are no candidates yet. */
  function Step(s: Store, n: string, res: seq<Entity>): seq<Entity> {
    if res == [] then Named(s, s.entities, n) else ChildrenOfAll(s, n, res)
  }

  /** Resolves the remaining segments from candidates `res`; empty as soon as one segment matches nothing. */
  function Resolve(s: Store, names: seq<string>, res: seq<Entity>): seq<Entity> {
    if names == [] then res
    else
      var current := Step(s, names[0], res);
      if current == [] then [] else Resolve(s, names[1..], current)
  }

  /** The set entitiesFromScopedName returns. */
  function EntitiesFromScopedNameOf(s: Store, scopedName: string, relativeTo: Entity, delim: string): set<Entity> {
    if delim == [] then {}
    else
      var seed := if relativeTo != NullEntity then [relativeTo] else [];
      var r := Resolve(s, Split(scopedName, delim), seed);
      set x | x in r
  }

  /**
   * `x` is reached from `root` through `names`: x is a listed entity named
   * by the last segment whose parent is reached through the others.
   */
  ghost predicate PathTo(s: Store, x: Entity, names: seq<string>, root: Entity)
    decreases |names|
  {
    if names == [] then x == root
    else x in s.entities && x in s.name && s.name[x] == names[|names| - 1] && x in s.parent &&
         PathTo(s, s.parent[x], names[..|names| - 1], root)
  }

  /** A path through [n] + rest goes through a child of the root named n. */
  lemma {:induction false} PathToFront(s: Store, x: Entity, n: string, rest: seq<string>, root: Entity)
    ensures PathTo(s, x, [n] + rest, root) <==>
      exists c :: c in s.entities && c in s.name && s.name[c] == n && c in s.parent && s.parent[c] == root &&
                  PathTo(s, x, rest, c)
    decreases |rest|
  {
    var names := [n] + rest;
    if rest == [] {
      if PathTo(s, x, names, root) {
        assert names[..|names| - 1] == [];
        assert PathTo(s, x, rest, x);
      }
      if exists c :: c in s.entities && c in s.name && s.name[c] == n && c in s.parent && s.parent[c] == root &&
                     PathTo(s, x, rest, c) {
        assert names[..|names| - 1] == [];
      }
    } else {
      assert names[..|names| - 1] == [n] + rest[..|rest| - 1];
      assert names[|names| - 1] == rest[|rest| - 1];
      if x in s.entities && x in s.name && s.name[x] == rest[|rest| - 1] && x in s.parent {
        PathToFront(s, s.parent[x], n, rest[..|rest| - 1], root);
      }
    }
  }

  /** With candidates, resolution yields exactly the entities reached from some candidate. */
  lemma {:induction false} ResolveReaches(s: Store, names: seq<string>, res: seq<Entity>, x: Entity)
    requires res != []
    ensures x in Resolve(s, names, res) <==> exists r :: r in res && PathTo(s, x, names, r)
    decreases |names|
  {
    if names != [] {
      var n, rest := names[0], names[1..];
      assert names == [n] + rest;
      var current := Step(s, n, res);
      forall r | r in res
        ensures PathTo(s, x, names, r) <==> exists c :: c in current && c in s.parent && s.parent[c] == r && PathTo(s, x, rest, c)
      {
        PathToFront(s, x, n, rest, r);
      }
      if current != [] {
        ResolveReaches(s, rest, current, x);
      }
    }
  }

  /**
   * Membership in the result of entitiesFromScopedName: with a non-null
   * `relativeTo`, the entities reached from it through all segments;
   * otherwise the entities reached through the remaining segments from any
   * listed entity named by the first segment.
   */
  lemma EntitiesFromScopedNameMembers(s: Store, scopedName: string, relativeTo: Entity, delim: string, x: Entity)
    requires delim != []
    ensures relativeTo != NullEntity ==>
      (x in EntitiesFromScopedNameOf(s, scopedName, relativeTo, delim) <==>
       PathTo(s, x, Split(scopedName, delim), relativeTo))
    ensures relativeTo == NullEntity ==>
      (x in EntitiesFromScopedNameOf(s, scopedName, relativeTo, delim) <==>
       exists y :: y in s.entities && y in s.name && s.name[y] == Split(scopedName, delim)[0] &&
                   PathTo(s, x, Split(scopedName, delim)[1..], y))
  {
    var names := Split(scopedName, delim);
    if relativeTo != NullEntity {
      ResolveReaches(s, names, [relativeTo], x);
    } else {
      var current := Named(s, s.entities, names[0]);
      if current != [] {
        ResolveReaches(s, names[1..], current, x);
      }
    }
  }

  /** The pos1/pos2 loop of entitiesFromScopedName cutting the name at each delimiter. */
  method SplitNames(scopedName: string, delim: string) returns (names: seq<string>)
    requires delim != []
    ensures names == Split(scopedName, delim)
  {
    names := [];
    var pos1 := 0;
    var pos2 := Find(scopedName, delim, 0);
    while pos2.Some?
      invariant pos1 <= |scopedName|
      invariant pos2 == Find(scopedName, delim, pos1)
      invariant names + SplitFrom(scopedName, delim, pos1) == Split(scopedName, delim)
      decreases |scopedName| - pos1
    {
      names := names + [scopedName[pos1..pos2.value]];
      pos1 := pos2.value + |delim|;
      pos2 := Find(scopedName, delim, pos1);
    }
    names := names + [scopedName[pos1..]];
  }

  /** The candidates of the next level: the named children of every current candidate. */
  method Narrow(s: Store, name: string, resVector: seq<Entity>) returns (current: seq<Entity>)
    ensures current == Step(s, name, resVector)
  {
    current := [];
    if resVector == [] {
      current := Named(s, s.entities, name);
    } else {
      for j := 0 to |resVector|
        invariant current == ChildrenOfAll(s, name, resVector[..j])
      {
        assert resVector[..j + 1][..j] == resVector[..j];
        current := current + ChildrenNamed(s, s.entities, name, resVector[j]);
      }
      assert resVector[..|resVector|] == resVector;
    }
  }

  /** entitiesFromScopedName: split on the delimiter, then narrow the candidates segment by segment. */
  method EntitiesFromScopedName(s: Store, scopedName: string, relativeTo: Entity, delim: string)
    returns (r: set<Entity>)
    ensures r == EntitiesFromScopedNameOf(s, scopedName, relativeTo, delim)
  {
    if delim == [] {
      return {};
    }
    var names := SplitNames(scopedName, delim);

    var resVector: seq<Entity> := [];
    if relativeTo != NullEntity {
      resVector := [relativeTo];
    }
    ghost var seed := resVector;

    for k := 0 to |names|
      invariant Resolve(s, names, seed) == Resolve(s, names[k..], resVector)
    {
      var current := Narrow(s, names[k], resVector);
      assert names[k..][0] == names[k] && names[k..][1..] == names[k + 1..];
      if current == [] {
        return {};
      }
      resVector := current;
    }
    return set x | x in resVector;
  }
}
