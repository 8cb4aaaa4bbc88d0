/**
 * The stack walk both link finders of the visualization plugin perform over
 * a model hierarchy: push the root, then repeatedly pop a model, collect its
 * links and push its child models in order. The hierarchy is given by a
 * child-list function; `rank` strictly decreases from a model to its
 * children, which is what makes the walk finish.
 */
module ModelTree {
  import opened Util

  /** Every child ranks strictly below its model. */
  ghost predicate Ranked(children: Entity -> seq<Entity>, rank: Entity -> nat) {
    forall m, c :: c in children(m) ==> rank(c) < rank(m)
  }

  /** The models a walk from `m` pops, in order: `m`, then its children's subtrees, last child first. */
  ghost function Visit(children: Entity -> seq<Entity>, rank: Entity -> nat, m: Entity): (r: seq<Entity>)
    requires Ranked(children, rank)
    ensures |r| >= 1 && r[0] == m
    decreases rank(m) + 1, 0
  {
    [m] + VisitStack(children, rank, rank(m), children(m))
  }

  /** The models a walk pops from `stack` (top at the end): the subtree of the top, then the rest. */
  ghost function VisitStack(children: Entity -> seq<Entity>, rank: Entity -> nat, bound: nat, stack: seq<Entity>): seq<Entity>
    requires Ranked(children, rank)
    requires forall x :: x in stack ==> rank(x) < bound
    decreases bound, |stack|
  {
    if stack == [] then []
    else Visit(children, rank, stack[|stack| - 1]) + VisitStack(children, rank, bound, stack[..|stack| - 1])
  }

  /** `v` lies in the subtree of `m`: it is `m` or lies in the subtree of a child of `m`. */
  ghost predicate Reaches(children: Entity -> seq<Entity>, rank: Entity -> nat, m: Entity, v: Entity)
    requires Ranked(children, rank)
    decreases rank(m)
  {
    v == m || exists c :: c in children(m) && Reaches(children, rank, c, v)
  }

  /** The rows of `models`, concatenated in order. */
  function Gather(row: Entity -> seq<Entity>, models: seq<Entity>): seq<Entity> {
    if models == [] then [] else row(models[0]) + Gather(row, models[1..])
  }

  /** An entity is gathered exactly when it is in the row of one of the models. */
  lemma {:induction false} GatherMembers(row: Entity -> seq<Entity>, models: seq<Entity>, x: Entity)
    ensures x in Gather(row, models) <==> exists i :: 0 <= i < |models| && x in row(models[i])
    decreases |models|
  {
    if models != [] {
      GatherMembers(row, models[1..], x);
      assert forall i :: 0 <= i < |models| - 1 ==> models[1..][i] == models[i + 1];
      if x in row(models[0]) {
        assert 0 < |models| && x in row(models[0]);
      }
    }
  }

  lemma {:induction false} GatherAppend(row: Entity -> seq<Entity>, a: seq<Entity>, b: seq<Entity>)
    ensures Gather(row, a + b) == Gather(row, a) + Gather(row, b)
    decreases |a|
  {
    if a == [] {
      assert a + b == b;
    } else {
      assert (a + b)[1..] == a[1..] + b;
      GatherAppend(row, a[1..], b);
    }
  }

  lemma AppendAssoc(a: seq<Entity>, b: seq<Entity>, c: seq<Entity>)
    ensures (a + b) + c == a + (b + c)
  {
  }

  /** Gathering one more model appends its row. */
  lemma GatherSnoc(row: Entity -> seq<Entity>, a: seq<Entity>, m: Entity)
    ensures Gather(row, a + [m]) == Gather(row, a) + row(m)
  {
    GatherAppend(row, a, [m]);
    assert Gather(row, [m]) == row(m) + Gather(row, []);
  }

  /** The walk's result does not depend on which ranking or bound witnesses its termination. */
  lemma {:induction false} VisitRankFree(children: Entity -> seq<Entity>, r1: Entity -> nat, r2: Entity -> nat, m: Entity)
    requires Ranked(children, r1) && Ranked(children, r2)
    ensures Visit(children, r1, m) == Visit(children, r2, m)
    decreases r1(m) + 1, 0
  {
    VisitStackRankFree(children, r1, r2, r1(m), r2(m), children(m));
  }

  lemma {:induction false} VisitStackRankFree(children: Entity -> seq<Entity>, r1: Entity -> nat, r2: Entity -> nat,
                                              b1: nat, b2: nat, stack: seq<Entity>)
    requires Ranked(children, r1) && Ranked(children, r2)
    requires forall x :: x in stack ==> r1(x) < b1
    requires forall x :: x in stack ==> r2(x) < b2
    ensures VisitStack(children, r1, b1, stack) == VisitStack(children, r2, b2, stack)
    decreases b1, |stack|
  {
    if stack != [] {
      VisitRankFree(children, r1, r2, stack[|stack| - 1]);
      VisitStackRankFree(children, r1, r2, b1, b2, stack[..|stack| - 1]);
    }
  }

  /** Walking `a + b` walks `b` (the upper part of the stack) first, then `a`. */
  lemma {:induction false} VisitStackAppend(children: Entity -> seq<Entity>, rank: Entity -> nat, bound: nat,
                                            a: seq<Entity>, b: seq<Entity>)
    requires Ranked(children, rank)
    requires forall x :: x in a + b ==> rank(x) < bound
    ensures VisitStack(children, rank, bound, a + b) ==
            VisitStack(children, rank, bound, b) + VisitStack(children, rank, bound, a)
    decreases |b|
  {
    if b == [] {
      assert a + b == a;
    } else {
      var top := b[|b| - 1];
      assert (a + b)[..|a + b| - 1] == a + b[..|b| - 1];
      assert (a + b)[|a + b| - 1] == top;
      VisitStackAppend(children, rank, bound, a, b[..|b| - 1]);
    }
  }

  /** One step of the walk: popping the top `m` yields `m`, and its children are pushed. */
  lemma PopStep(children: Entity -> seq<Entity>, rank: Entity -> nat, bound: nat, stack: seq<Entity>)
    requires Ranked(children, rank)
    requires stack != [] && forall x :: x in stack ==> rank(x) < bound
    ensures forall x :: x in stack[..|stack| - 1] + children(stack[|stack| - 1]) ==> rank(x) < bound
    ensures VisitStack(children, rank, bound, stack) ==
            [stack[|stack| - 1]] + VisitStack(children, rank, bound, stack[..|stack| - 1] + children(stack[|stack| - 1]))
  {
    var m := stack[|stack| - 1];
    var front := stack[..|stack| - 1];
    assert m in stack;
    assert forall x :: x in front ==> x in stack;
    VisitStackAppend(children, rank, bound, front, children(m));
    VisitStackRankFree(children, rank, rank, rank(m), bound, children(m));
  }

  /** Everything the walk from `m` pops lies in the subtree of `m`, and conversely. */
  lemma {:induction false} VisitMembers(children: Entity -> seq<Entity>, rank: Entity -> nat, m: Entity, v: Entity)
    requires Ranked(children, rank)
    ensures v in Visit(children, rank, m) <==> Reaches(children, rank, m, v)
    decreases rank(m) + 1, 0
  {
    VisitStackMembers(children, rank, rank(m), children(m), v);
  }

  lemma {:induction false} VisitStackMembers(children: Entity -> seq<Entity>, rank: Entity -> nat, bound: nat,
                                             stack: seq<Entity>, v: Entity)
    requires Ranked(children, rank)
    requires forall x :: x in stack ==> rank(x) < bound
    ensures v in VisitStack(children, rank, bound, stack) <==>
            exists x :: x in stack && Reaches(children, rank, x, v)
    decreases bound, |stack|
  {
    if stack != [] {
      var top := stack[|stack| - 1];
      var front := stack[..|stack| - 1];
      VisitMembers(children, rank, top, v);
      VisitStackMembers(children, rank, bound, front, v);
      assert forall x :: x in stack <==> x == top || x in front;
    }
  }
}
