/**
 * The parts of the rendering scene the visualization plugin consults: the
 * scene's visuals in index order, each with the entity it is tagged with
 * (its "gazebo-entity" user data), its name and its display flags, and the
 * four id spaces (node, light, sensor and visual ids) that new overlay
 * visuals must avoid.
 */
module RenderScene {
  import opened Util

  datatype SceneVisual = SceneVisual(tag: Option<Entity>, name: string, visible: bool, wireframe: bool, transparent: bool)

  /** A visual the plugin creates for entity `id`: tagged, shown, solid and opaque. */
  function NewVisual(id: Entity, name: string): SceneVisual {
    SceneVisual(Some(id), name, true, false, false)
  }

  /** The entities some visual is tagged with. */
  function Tags(vs: seq<SceneVisual>): set<Entity> {
    set i | 0 <= i < |vs| && vs[i].tag.Some? :: vs[i].tag.value
  }

  /** The index of the first visual at or after `from` tagged `id`. */
  function FirstTaggedFrom(vs: seq<SceneVisual>, id: Entity, from: nat): (r: Option<nat>)
    requires from <= |vs|
    ensures r.Some? ==> from <= r.value < |vs| && vs[r.value].tag == Some(id) &&
                        forall j :: from <= j < r.value ==> vs[j].tag != Some(id)
    ensures r.None? ==> forall j :: from <= j < |vs| ==> vs[j].tag != Some(id)
    decreases |vs| - from
  {
    if from == |vs| then None
    else if vs[from].tag == Some(id) then Some(from)
    else FirstTaggedFrom(vs, id, from + 1)
  }

  /** VisualById: the first visual tagged `id`, if any. */
  function FirstTagged(vs: seq<SceneVisual>, id: Entity): (r: Option<nat>)
    ensures r.Some? ==> r.value < |vs| && vs[r.value].tag == Some(id) && forall j :: 0 <= j < r.value ==> vs[j].tag != Some(id)
    ensures r.None? <==> id !in Tags(vs)
  {
    var r := FirstTaggedFrom(vs, id, 0);
    assert r.Some? ==> id in Tags(vs);
    r
  }

  /** The index of the first visual at or after `from` named `n`. */
  function FirstNamedFrom(vs: seq<SceneVisual>, n: string, from: nat): (r: Option<nat>)
    requires from <= |vs|
    ensures r.Some? ==> from <= r.value < |vs| && vs[r.value].name == n &&
                        forall j :: from <= j < r.value ==> vs[j].name != n
    ensures r.None? ==> forall j :: from <= j < |vs| ==> vs[j].name != n
    decreases |vs| - from
  {
    if from == |vs| then None
    else if vs[from].name == n then Some(from)
    else FirstNamedFrom(vs, n, from + 1)
  }

  /** VisualByName: the first visual named `n`, if any. */
  function FirstNamed(vs: seq<SceneVisual>, n: string): (r: Option<nat>)
    ensures r.Some? ==> r.value < |vs| && vs[r.value].name == n && forall j :: 0 <= j < r.value ==> vs[j].name != n
    ensures r.None? ==> forall j :: 0 <= j < |vs| ==> vs[j].name != n
  {
    FirstNamedFrom(vs, n, 0)
  }

  /** The display flags a toggle can set. */
  datatype Flag = Visible | Wireframe | Transparent

  function WithFlag(v: SceneVisual, f: Flag, b: bool): SceneVisual {
    match f
    case Visible => v.(visible := b)
    case Wireframe => v.(wireframe := b)
    case Transparent => v.(transparent := b)
  }

  /** The scene after flag `f` of the visual VisualById finds for each of `targets` is set to `b`. */
  function SetFlags(vs: seq<SceneVisual>, targets: set<Entity>, f: Flag, b: bool): (r: seq<SceneVisual>)
    ensures |r| == |vs|
    ensures forall i :: 0 <= i < |vs| ==> r[i].tag == vs[i].tag && r[i].name == vs[i].name
  {
    seq(|vs|, i requires 0 <= i < |vs| =>
      if vs[i].tag.Some? && vs[i].tag.value in targets && FirstTagged(vs, vs[i].tag.value) == Some(i)
      then WithFlag(vs[i], f, b) else vs[i])
  }

  /** Setting flags never changes which visual VisualById or VisualByName finds. */
  lemma SetFlagsKeepsLookups(vs: seq<SceneVisual>, targets: set<Entity>, f: Flag, b: bool, id: Entity, n: string)
    ensures Tags(SetFlags(vs, targets, f, b)) == Tags(vs)
    ensures FirstTagged(SetFlags(vs, targets, f, b), id) == FirstTagged(vs, id)
    ensures FirstNamed(SetFlags(vs, targets, f, b), n) == FirstNamed(vs, n)
  {
    var r := SetFlags(vs, targets, f, b);
    SameTagsSameLookups(vs, r, id, n);
  }

  lemma SameTagsSameLookups(vs: seq<SceneVisual>, ws: seq<SceneVisual>, id: Entity, n: string)
    requires |ws| == |vs| && forall i :: 0 <= i < |vs| ==> ws[i].tag == vs[i].tag && ws[i].name == vs[i].name
    ensures Tags(ws) == Tags(vs)
    ensures FirstTagged(ws, id) == FirstTagged(vs, id)
    ensures FirstNamed(ws, n) == FirstNamed(vs, n)
  {
    assert forall x :: x in Tags(vs) ==> x in Tags(ws) by {
      forall x | x in Tags(vs) ensures x in Tags(ws) {
        var i :| 0 <= i < |vs| && vs[i].tag.Some? && vs[i].tag.value == x;
        assert ws[i].tag == vs[i].tag;
      }
    }
    assert forall x :: x in Tags(ws) ==> x in Tags(vs) by {
      forall x | x in Tags(ws) ensures x in Tags(vs) {
        var i :| 0 <= i < |ws| && ws[i].tag.Some? && ws[i].tag.value == x;
        assert ws[i].tag == vs[i].tag;
      }
    }
    var a := FirstTagged(ws, id);
    var c := FirstTagged(vs, id);
    if a.Some? && c.Some? {
      assert !(a.value < c.value) && !(c.value < a.value);
    }
    var d := FirstNamed(ws, n);
    var e := FirstNamed(vs, n);
    if d.Some? && e.Some? {
      assert !(d.value < e.value) && !(e.value < d.value);
    }
  }

  lemma SetFlagsNone(vs: seq<SceneVisual>, f: Flag, b: bool)
    ensures SetFlags(vs, {}, f, b) == vs
  {
  }

  /** Adding one target sets the flag of the first visual tagged with it, whether or not it was a target before. */
  lemma SetFlagsAdd(vs: seq<SceneVisual>, targets: set<Entity>, t: Entity, f: Flag, b: bool)
    requires FirstTagged(vs, t).Some?
    ensures SetFlags(vs, targets + {t}, f, b) ==
            SetFlags(vs, targets, f, b)[FirstTagged(vs, t).value :=
              WithFlag(SetFlags(vs, targets, f, b)[FirstTagged(vs, t).value], f, b)]
  {
    var i := FirstTagged(vs, t).value;
    var r := SetFlags(vs, targets, f, b);
    var r' := SetFlags(vs, targets + {t}, f, b);
    assert forall j :: 0 <= j < |vs| && j != i ==> r'[j] == r[j];
    assert r'[i] == WithFlag(r[i], f, b) by {
      assert r[i] == vs[i] || r[i] == WithFlag(vs[i], f, b);
    }
  }

  // ---------------------------------------------------------------------
  // Free ids for overlay visuals
  // ---------------------------------------------------------------------

  /** The candidates tried for the id of a centre-of-mass or inertia visual: 0 up to this bound. */
  const ProbeAttempts: nat := 100000

  /** The scene's id spaces: HasNodeId, HasLightId, HasSensorId and HasVisualId. */
  datatype SceneIds = SceneIds(nodes: set<nat>, lights: set<nat>, sensors: set<nat>, visuals: set<nat>)

  predicate IdTaken(ids: SceneIds, i: nat) {
    i in ids.nodes || i in ids.lights || i in ids.sensors || i in ids.visuals
  }

  /** The first candidate at or after `from` in none of the id spaces. */
  function FirstUntaken(ids: SceneIds, from: nat): (r: Option<nat>)
    requires from <= ProbeAttempts
    ensures r.Some? ==> from <= r.value < ProbeAttempts && !IdTaken(ids, r.value) &&
                        forall j :: from <= j < r.value ==> IdTaken(ids, j)
    ensures r.None? ==> forall j :: from <= j < ProbeAttempts ==> IdTaken(ids, j)
    decreases ProbeAttempts - from
  {
    if from == ProbeAttempts then None
    else if !IdTaken(ids, from) then Some(from)
    else FirstUntaken(ids, from + 1)
  }

  /** The first candidate at or after `from` in none of the id spaces and tagging no visual. */
  function FirstFreeId(ids: SceneIds, tags: set<Entity>, from: nat): (r: Option<nat>)
    requires from <= ProbeAttempts
    ensures r.Some? ==> from <= r.value < ProbeAttempts && !IdTaken(ids, r.value) && r.value !in tags &&
                        forall j :: from <= j < r.value ==> IdTaken(ids, j) || j in tags
    ensures r.None? ==> forall j :: from <= j < ProbeAttempts ==> IdTaken(ids, j) || j in tags
    decreases ProbeAttempts - from
  {
    if from == ProbeAttempts then None
    else if !IdTaken(ids, from) && from !in tags then Some(from)
    else FirstFreeId(ids, tags, from + 1)
  }

  /** std::to_string of a non-negative id. */
  function DecimalString(n: nat): (r: string)
    ensures |r| >= 1 && forall i :: 0 <= i < |r| ==> '0' <= r[i] <= '9'
    decreases n
  {
    if n < 10 then ["0123456789"[n]] else DecimalString(n / 10) + ["0123456789"[n % 10]]
  }

  /** The number a string of decimal digits spells. */
  function DecimalValue(s: string): nat
    requires forall i :: 0 <= i < |s| ==> '0' <= s[i] <= '9'
  {
    if s == [] then 0 else 10 * DecimalValue(s[..|s| - 1]) + (s[|s| - 1] as int - '0' as int)
  }

  /** The digit character for `d` stands for `d`. */
  lemma DigitValue(d: nat)
    requires d < 10
    ensures "0123456789"[d] as int - '0' as int == d
  {
    if d == 0 {} else if d == 1 {} else if d == 2 {} else if d == 3 {} else if d == 4 {}
    else if d == 5 {} else if d == 6 {} else if d == 7 {} else if d == 8 {} else {}
  }

  /** Reading back the digits of an id gives the id, and there is no leading zero. */
  lemma {:induction false} DecimalRoundTrip(n: nat)
    ensures DecimalValue(DecimalString(n)) == n
    ensures n > 0 ==> DecimalString(n)[0] != '0'
    decreases n
  {
    var r := DecimalString(n);
    if n < 10 {
      DigitValue(n);
      assert r[..0] == [];
    } else {
      DecimalRoundTrip(n / 10);
      DigitValue(n % 10);
      assert r[..|r| - 1] == DecimalString(n / 10);
    }
  }

  /** Different ids get different names. */
  lemma DecimalStringInjective(m: nat, n: nat)
    ensures DecimalString(m) == DecimalString(n) ==> m == n
  {
    DecimalRoundTrip(m);
    DecimalRoundTrip(n);
  }
}
