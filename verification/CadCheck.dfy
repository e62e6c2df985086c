/**
 Checking samples against constraints, with a memo table in each sample: which constraints have
 been evaluated there, and which of them hold.
 */
module CadChecks {
  import opened Cells
  import opened SampleTrees
  import opened LiftingTrees

  datatype Answer = SAT | UNSAT

  /** `what` stands for the constraint itself; `level` is the first depth at which it can be evaluated. */
  datatype Constraint = Constraint(what: nat, level: nat)

  type Constraints = map<nat, Constraint>

  /** Whether a constraint holds at a point, possibly one with some of the coordinates only. */
  type Evaluator = (Constraint, seq<real>) -> bool

  /** The memo of one sample agrees with evaluating at its point. */
  ghost predicate MemoOk(s: Sample, point: seq<real>, cs: Constraints, holds: Evaluator) {
    && s.evaluationResult <= s.evaluatedWith
    && forall id :: id in s.evaluatedWith ==> id in cs && (id in s.evaluationResult <==> holds(cs[id], point))
  }

  ghost predicate AllMemosOk(tree: Tree, cs: Constraints, holds: Evaluator) {
    forall n {:trigger MemoOk(tree[n].sample, Path(tree, n), cs, holds)} ::
      n in tree ==> MemoOk(tree[n].sample, Path(tree, n), cs, holds)
  }

  predicate Satisfies(point: seq<real>, cs: Constraints, holds: Evaluator) {
    forall id | id in cs :: holds(cs[id], point)
  }

  // ---------------------------------------------------------------- what keeps the memos right

  /** Growing a row merges samples, which keep their memos, and adds samples without memos. */
  lemma MemosGrown(before: Tree, after: Tree, p: nat, cs: Constraints, holds: Evaluator)
    requires WellFormed(before) && GrownAt(before, after, p) && AllMemosOk(before, cs, holds)
    ensures AllMemosOk(after, cs, holds)
  {
    forall n | n in after
      ensures MemoOk(after[n].sample, Path(after, n), cs, holds)
    {
      if n in before {
        GrownPath(before, after, p, n);
        assert MemoOk(before[n].sample, Path(before, n), cs, holds);
        assert Stays(before[n], after[n], n, p);
      } else {
        assert NewChild(after[n], p);
      }
    }
  }

  lemma GrownPath(before: Tree, after: Tree, p: nat, n: nat)
    requires WellFormed(before) && GrownAt(before, after, p) && n in before
    ensures Path(after, n) == Path(before, n)
  {
    forall m | m in before
      ensures SamePlace(before[m], after[m]) && before[m].parent in after
    {
      assert Stays(before[m], after[m], m, p);
      assert m != ROOT ==> HasParent(before, m);
    }
    SamePath(before, after, n);
  }

  /** Withdrawing polynomials erases samples, and does not touch the memos of the others. */
  lemma MemosPurged(before: Tree, level: nat, mask: set<nat>, cs: Constraints, holds: Evaluator)
    requires WellFormed(before) && AllComplete(before) && level > 0 && AllMemosOk(before, cs, holds)
    ensures AllMemosOk(Purge(before, level, mask), cs, holds)
  {
    var after := Purge(before, level, mask);
    PurgeKeeps(before, level, mask);
    forall n | n in after
      ensures MemoOk(after[n].sample, Path(after, n), cs, holds)
    {
      PurgedPath(before, level, mask, n);
      assert MemoOk(before[n].sample, Path(before, n), cs, holds);
    }
  }

  lemma PurgedPath(before: Tree, level: nat, mask: set<nat>, n: nat)
    requires WellFormed(before) && WellFormed(Purge(before, level, mask)) && n in Purge(before, level, mask)
    ensures n in before && Path(Purge(before, level, mask), n) == Path(before, n)
  {
    var after := Purge(before, level, mask);
    forall m | m in before && m in after && m != ROOT
      ensures before[m].parent in after
    {
      assert HasParent(after, m);
    }
    SamePath(before, after, n);
  }

  /** Forgetting a constraint together with its bits keeps the other memos. */
  lemma MemosForgotten(before: Tree, mask: set<nat>, cs: Constraints, holds: Evaluator)
    requires WellFormed(before) && AllMemosOk(before, cs, holds)
    ensures AllMemosOk(Forget(before, mask), cs - mask, holds)
  {
    var after := Forget(before, mask);
    forall n | n in after
      ensures MemoOk(after[n].sample, Path(after, n), cs - mask, holds)
    {
      ShapedPath(before, after, n);
      assert MemoOk(before[n].sample, Path(before, n), cs, holds);
    }
  }

  lemma ShapedPath(before: Tree, after: Tree, n: nat)
    requires WellFormed(before) && after.Keys == before.Keys && n in before
    requires forall m :: m in before ==> SameShape(before[m], after[m])
    ensures Path(after, n) == Path(before, n)
  {
    forall m | m in before && m != ROOT
      ensures before[m].parent in after
    {
      assert HasParent(before, m);
    }
    SamePath(before, after, n);
  }

  /** A constraint under an id that is not in use has no bits anywhere. */
  lemma MemosWithMore(tree: Tree, id: nat, c: Constraint, cs: Constraints, holds: Evaluator)
    requires AllMemosOk(tree, cs, holds) && id !in cs
    ensures AllMemosOk(tree, cs[id := c], holds)
  {
    forall n | n in tree
      ensures MemoOk(tree[n].sample, Path(tree, n), cs[id := c], holds)
    {
      assert MemoOk(tree[n].sample, Path(tree, n), cs, holds);
    }
  }

  lemma MemosEvaluated(tree: Tree, n: nat, id: nat, cs: Constraints, holds: Evaluator)
    requires WellFormed(tree) && AllMemosOk(tree, cs, holds) && n in tree && id in cs
      && id !in tree[n].sample.evaluatedWith
    ensures var tree' := SetSample(tree, n, Evaluated(tree[n].sample, id, holds(cs[id], Path(tree, n))));
      AllMemosOk(tree', cs, holds) && forall m :: m in tree ==> Path(tree', m) == Path(tree, m)
  {
    var tree' := SetSample(tree, n, Evaluated(tree[n].sample, id, holds(cs[id], Path(tree, n))));
    forall m | m in tree'
      ensures Path(tree', m) == Path(tree, m) && MemoOk(tree'[m].sample, Path(tree', m), cs, holds)
    {
      ShapedPath(tree, tree', m);
      assert MemoOk(tree[m].sample, Path(tree, m), cs, holds);
    }
  }

  /** A conflict bit is right: the constraint is violated at the point. */
  lemma ConflictMeansViolated(s: Sample, point: seq<real>, cs: Constraints, holds: Evaluator)
    requires MemoOk(s, point, cs, holds) && s.HasConflictWithConstraint()
    ensures !Satisfies(point, cs, holds)
  {
    var id :| id in s.evaluatedWith - s.evaluationResult;
    assert !holds(cs[id], point);
  }

  /** Samples gain bits, and nothing else changes. */
  ghost predicate MoreBits(before: Tree, after: Tree) {
    && after.Keys == before.Keys
    && forall n :: n in before ==> GainsBits(before[n], after[n])
  }

  predicate GainsBits(t: TreeNode, t': TreeNode) {
    && SameShape(t, t') && t'.sample.rootOf == t.sample.rootOf && t'.sample.liftedWith == t.sample.liftedWith
    && t.sample.evaluatedWith <= t'.sample.evaluatedWith
    && t'.sample.evaluationResult * t.sample.evaluatedWith == t.sample.evaluationResult * t.sample.evaluatedWith
  }

  lemma MoreBitsTransitive(tree: Tree, tree': Tree, tree'': Tree)
    requires MoreBits(tree, tree') && MoreBits(tree', tree'')
    ensures MoreBits(tree, tree'')
  {
    forall n | n in tree
      ensures GainsBits(tree[n], tree''[n])
    {
      assert GainsBits(tree[n], tree'[n]) && GainsBits(tree'[n], tree''[n]);
      var e, e' := tree[n].sample.evaluatedWith, tree'[n].sample.evaluatedWith;
      assert forall id :: id in e ==>
        (id in tree''[n].sample.evaluationResult * e' <==> id in tree'[n].sample.evaluationResult * e');
    }
  }

  predicate InConflict(tree: Tree, n: nat) {
    n in tree && tree[n].sample.HasConflictWithConstraint()
  }

  /** Queued samples still wait, or have a conflict, or are what was looked for. */
  ghost predicate Settled(tree: Tree, queue: seq<nat>, left: seq<nat>, found: bool, point: seq<real>) {
    forall n {:trigger Count(queue, n)} ::
      Count(queue, n) > 0 ==> Count(left, n) > 0 || InConflict(tree, n) || (found && Path(tree, n) == point)
  }

  ghost predicate Fewer(left: seq<nat>, queue: seq<nat>) {
    forall n {:trigger Count(left, n)} :: Count(left, n) <= Count(queue, n)
  }

  lemma SettledNext(before: Tree, after: Tree, queue: seq<nat>, left: seq<nat>, next: nat, sat: bool)
    requires MoreBits(before, after) && Settled(before, queue, left, false, []) && Fewer(left, queue) && next < |left|
    requires !sat ==> InConflict(after, left[next])
    ensures Fewer(RemoveIndex(left, next), queue) && Count(queue, left[next]) > 0
    ensures Settled(after, queue, RemoveIndex(left, next), sat, Path(after, left[next]))
    ensures !sat ==> Settled(after, queue, RemoveIndex(left, next), false, [])
  {
    var left' := RemoveIndex(left, next);
    InMultiset(left, next);
    forall n
      ensures Count(left', n) == Count(left, n) - (if n == left[next] then 1 else 0)
        && Count(left, n) <= Count(queue, n)
      ensures InConflict(before, n) ==> InConflict(after, n)
    {
      if InConflict(before, n) {
        ConflictsStay(before, after, n);
      }
    }
    assert Count(left, left[next]) <= Count(queue, left[next]);
  }

  lemma ConflictsStay(before: Tree, after: Tree, n: nat)
    requires MoreBits(before, after) && n in before && before[n].sample.HasConflictWithConstraint()
    ensures after[n].sample.HasConflictWithConstraint()
  {
    assert GainsBits(before[n], after[n]);
    var id :| id in before[n].sample.evaluatedWith - before[n].sample.evaluationResult;
    assert id !in after[n].sample.evaluationResult * before[n].sample.evaluatedWith;
    assert id in after[n].sample.evaluatedWith - after[n].sample.evaluationResult;
  }

  /** A point that satisfies all constraints, of a sample in the queue. */
  ghost predicate IsSolution(a: seq<real>, tree: Tree, queue: seq<nat>, cs: Constraints, holds: Evaluator) {
    Satisfies(a, cs, holds) && exists n :: Count(queue, n) > 0 && a == Path(tree, n)
  }

  /** The solutions found when `left` is what is left of the queue. */
  ghost predicate Enumerated(tree: Tree, queue: seq<nat>, left: seq<nat>, res: seq<seq<real>>, cs: Constraints,
                             holds: Evaluator) {
    && (forall n {:trigger Count(left, n)} :: Count(left, n) <= Count(queue, n))
    && (forall i :: 0 <= i < |res| ==> IsSolution(res[i], tree, queue, cs, holds))
    && (forall n {:trigger Count(queue, n)} :: Count(queue, n) > 0 && Satisfies(Path(tree, n), cs, holds)
          ==> Count(left, n) > 0 || Path(tree, n) in res)
  }

  lemma EnumeratedNext(tree: Tree, queue: seq<nat>, left: seq<nat>, next: nat, res: seq<seq<real>>, cs: Constraints,
                       holds: Evaluator)
    requires Enumerated(tree, queue, left, res, cs, holds) && next < |left|
    ensures var a := Path(tree, left[next]);
      Enumerated(tree, queue, RemoveIndex(left, next), if Satisfies(a, cs, holds) then res + [a] else res, cs, holds)
  {
    var a, left' := Path(tree, left[next]), RemoveIndex(left, next);
    var res' := if Satisfies(a, cs, holds) then res + [a] else res;
    InMultiset(left, next);
    assert Count(left, left[next]) <= Count(queue, left[next]);
    forall i | 0 <= i < |res'|
      ensures IsSolution(res'[i], tree, queue, cs, holds)
    {
      assert if i < |res| then res'[i] == res[i] else res'[i] == a;
    }
    forall n
      ensures Count(left', n) <= Count(queue, n)
      ensures Count(queue, n) > 0 && Satisfies(Path(tree, n), cs, holds) ==>
        Count(left', n) > 0 || Path(tree, n) in res'
    {
      StillEnumerated(tree, queue, left, next, res, cs, holds, n);
    }
  }

  lemma StillEnumerated(tree: Tree, queue: seq<nat>, left: seq<nat>, next: nat, res: seq<seq<real>>, cs: Constraints,
                        holds: Evaluator, n: nat)
    requires Enumerated(tree, queue, left, res, cs, holds) && next < |left|
    ensures var a, left' := Path(tree, left[next]), RemoveIndex(left, next);
      var res' := if Satisfies(a, cs, holds) then res + [a] else res;
      && Count(left', n) <= Count(queue, n)
      && (Count(queue, n) > 0 && Satisfies(Path(tree, n), cs, holds) ==> Count(left', n) > 0 || Path(tree, n) in res')
  {
    var a, left' := Path(tree, left[next]), RemoveIndex(left, next);
    assert Count(left', n) == Count(left, n) - if n == left[next] then 1 else 0;
    assert Count(left, n) <= Count(queue, n);
    if n == left[next] && Satisfies(a, cs, holds) {
      assert (res + [a])[|res|] == a;
    }
  }

  lemma EnumeratedAll(tree: Tree, queue: seq<nat>, res: seq<seq<real>>, cs: Constraints, holds: Evaluator)
    requires Enumerated(tree, queue, [], res, cs, holds)
    ensures forall a :: IsSolution(a, tree, queue, cs, holds) ==> a in res
  {
    forall a | IsSolution(a, tree, queue, cs, holds)
      ensures a in res
    {
      var n :| Count(queue, n) > 0 && a == Path(tree, n);
      assert Count([], n) == 0;
    }
  }

  // ---------------------------------------------------------------- steps, on values

  /** Everything a CAD consists of. */
  datatype CadState = CadState(constraints: Constraints, tree: Tree, lifting: seq<nat>, removed: seq<nat>,
    checking: seq<nat>)

  /** What lifting a node with a polynomial does, given its roots and the bounds of the variable. */
  ghost predicate LiftStep(s: CadState, n: nat, roots: seq<real>, pid: nat, lower: Bound, upper: Bound, picker: Picker,
                           dim: nat, s': CadState) {
    && GrowStep(s, n, dim, s')
    && exists ss :: UniqueOf(SamplesFor(roots, pid, lower, upper), ss) && RowAt(s'.tree,
      n) == Merged(RowAt(s.tree, n), ss, picker)
  }

  ghost predicate TrivialStep(s: CadState, n: nat, center: real, dim: nat, s': CadState) {
    && GrowStep(s, n, dim, s')
    && RowAt(s'.tree, n) == if RowAt(s.tree, n) == [] then [Plain(center, false)] else RowAt(s.tree, n)
  }

  /** One row has grown; its new nodes of full depth are to be checked. */
  ghost predicate GrowStep(s: CadState, n: nat, dim: nat, s': CadState) {
    && GrownAt(s.tree, s'.tree, n) && QueuesNew(s.tree, s.checking, s'.tree, s'.checking, dim)
    && s'.constraints == s.constraints && s'.removed == s.removed
  }

  ghost predicate WithdrawStep(s: CadState, level: nat, mask: set<nat>, s': CadState) {
    && s'.tree == Purge(s.tree, level, mask) && s'.constraints == s.constraints
    && s'.lifting == Alive(s.lifting, s'.tree) && s'.removed == Alive(s.removed, s'.tree)
    && s'.checking == Alive(s.checking, s'.tree)
  }

  class Cad {
    const lifting: LiftingTree
    const holds: Evaluator
    var constraints: Constraints

    ghost predicate Valid()
      reads this, lifting
    {
      lifting.Valid() && AllMemosOk(lifting.tree, constraints, holds)
    }

    ghost function Look(): CadState
      reads this, lifting
    {
      CadState(constraints, lifting.tree, lifting.liftingQueue, lifting.removedFromLiftingQueue, lifting.checkingQueue)
    }

    constructor (dim: nat, picker: Picker, holds: Evaluator)
      requires dim > 0 && Picks(picker)
      ensures Valid() && fresh(lifting) && this.holds == holds && lifting.dim == dim && lifting.picker == picker
      ensures Look() == CadState(map[], map[ROOT := TreeNode(Plain(0.0, false), ROOT, 0, [])], [ROOT], [], [])
    {
      this.lifting := new LiftingTree(dim, picker);
      this.holds, this.constraints := holds, map[];
    }

    method AddConstraint(id: nat, c: Constraint)
      requires Valid() && id !in constraints
      modifies `constraints
      ensures Valid() && constraints == old(constraints)[id := c]
    {
      MemosWithMore(lifting.tree, id, c, constraints, holds);
      constraints := constraints[id := c];
    }

    method RemoveConstraints(mask: set<nat>)
      requires Valid()
      modifies `constraints, lifting`tree
      ensures Valid() && constraints == old(constraints) - mask && lifting.tree == Forget(old(lifting.tree), mask)
    {
      MemosForgotten(lifting.tree, mask, constraints, holds);
      lifting.RemovedConstraint(mask);
      constraints := constraints - mask;
    }

    method Withdraw(level: nat, mask: set<nat>)
      requires Valid() && level > 0
      modifies lifting
      ensures Valid() && WithdrawStep(old(Look()), level, mask, Look())
    {
      MemosPurged(lifting.tree, level, mask, constraints, holds);
      lifting.RemovedPolynomialsFromLevel(level, mask);
    }

    method Lift(n: nat, roots: seq<real>, pid: nat, lower: Bound, upper: Bound)
      requires Valid() && n in lifting.tree && lifting.tree[n].depth < lifting.dim
      modifies lifting
      ensures Valid() && LiftStep(old(Look()), n, roots, pid, lower, upper, lifting.picker, lifting.dim, Look())
    {
      ghost var before := lifting.tree;
      ghost var ss;
      var news;
      news, ss := lifting.LiftSample(n, roots, pid, lower, upper);
      MemosGrown(before, lifting.tree, n, constraints, holds);
    }

    method AddTrivial(n: nat, center: real)
      requires Valid() && n in lifting.tree && lifting.tree[n].depth < lifting.dim
      modifies lifting
      ensures Valid() && TrivialStep(old(Look()), n, center, lifting.dim, Look())
    {
      ghost var before := lifting.tree;
      var _ := lifting.AddTrivialSample(n, center);
      MemosGrown(before, lifting.tree, n, constraints, holds);
    }

    /** Looks the constraint up in the memo of the sample, and evaluates it only if it is not there. */
    method EvaluateSample(it: nat, id: nat) returns (result: bool)
      requires Valid() && it in lifting.tree && id in constraints
      modifies lifting`tree
      ensures Valid() && MoreBits(old(lifting.tree), lifting.tree)
      ensures forall m :: m in lifting.tree ==> Path(lifting.tree, m) == Path(old(lifting.tree), m)
      ensures result == holds(constraints[id], Path(lifting.tree, it))
      ensures !result ==> lifting.tree[it].sample.HasConflictWithConstraint()
    {
      var sample := lifting.tree[it].sample;
      assert MemoOk(sample, Path(lifting.tree, it), constraints, holds);
      if id in sample.evaluatedWith {
        result := id in sample.evaluationResult;
        assert !result ==> id in sample.evaluatedWith - sample.evaluationResult;
      } else {
        result := holds(constraints[id], Path(lifting.tree, it));
        MemosEvaluated(lifting.tree, it, id, constraints, holds);
        lifting.SetBits(it, id, result);
        assert !result ==> id in lifting.tree[it].sample.evaluatedWith - lifting.tree[it].sample.evaluationResult;
      }
    }
  
    /** The loop over the constraints that every check of a full sample consists of. */
    method CheckSample(it: nat) returns (sat: bool)
      requires Valid() && it in lifting.tree
      modifies lifting`tree
      ensures Valid() && MoreBits(old(lifting.tree), lifting.tree)
      ensures forall m :: m in lifting.tree ==> Path(lifting.tree, m) == Path(old(lifting.tree), m)
      ensures sat <==> Satisfies(Path(lifting.tree, it), constraints, holds)
      ensures !sat ==> lifting.tree[it].sample.HasConflictWithConstraint()
    {
      sat := true;
      ghost var point := Path(lifting.tree, it);
      var todo := constraints.Keys;
      while todo != {} && sat
        invariant todo <= constraints.Keys && Valid() && MoreBits(old(lifting.tree), lifting.tree)
        invariant forall m :: m in lifting.tree ==> Path(lifting.tree, m) == Path(old(lifting.tree), m)
        invariant sat ==> forall id :: id in constraints && id !in todo ==> holds(constraints[id], point)
        invariant !sat ==> !Satisfies(point, constraints, holds) && lifting.tree[it].sample.HasConflictWithConstraint()
        decreases todo, sat
      {
        var id :| id in todo;
        ghost var before := lifting.tree;
        sat := EvaluateSample(it, id);
        MoreBitsTransitive(old(lifting.tree), before, lifting.tree);
        todo := todo - {id};
      }
    }

    /** Takes the next full sample out of the queue and checks it. */
    method CheckNext(next: nat) returns (it: nat, sat: bool)
      requires Valid() && next < |lifting.checkingQueue|
      modifies lifting`tree, lifting`checkingQueue
      ensures Valid() && MoreBits(old(lifting.tree), lifting.tree)
      ensures forall m :: m in lifting.tree ==> Path(lifting.tree, m) == Path(old(lifting.tree), m)
      ensures it in lifting.tree && it == old(lifting.checkingQueue)[next]
      ensures lifting.checkingQueue == RemoveIndex(old(lifting.checkingQueue), next)
      ensures sat <==> Satisfies(Path(lifting.tree, it), constraints, holds)
      ensures !sat ==> lifting.tree[it].sample.HasConflictWithConstraint()
    {
      it := lifting.GetNextFullSample(next);
      sat := CheckSample(it);
    }

    /**
     Checks the queued full samples, in any order, until one satisfies all constraints. SAT comes
     with the satisfying point of a queued sample; UNSAT means that every queued sample violates
     a constraint, and carries a bit that says so.
     */
    method CheckFullSamples(top: seq<nat> -> nat) returns (answer: Answer, assignment: seq<real>)
      requires Valid()
      modifies lifting`tree, lifting`checkingQueue
      ensures Valid() && MoreBits(old(lifting.tree), lifting.tree)
      ensures answer == SAT ==> IsSolution(assignment, lifting.tree, old(lifting.checkingQueue), constraints, holds)
      ensures answer == UNSAT ==> lifting.checkingQueue == []
      ensures Settled(lifting.tree, old(lifting.checkingQueue), lifting.checkingQueue, answer == SAT, assignment)
    {
      ghost var queue := lifting.checkingQueue;
      assignment := [];
      while lifting.checkingQueue != []
        invariant Valid() && MoreBits(old(lifting.tree), lifting.tree)
        invariant Fewer(lifting.checkingQueue, queue) && Settled(lifting.tree, queue, lifting.checkingQueue, false, [])
        decreases |lifting.checkingQueue|
      {
        var next := top(lifting.checkingQueue) % |lifting.checkingQueue|;
        ghost var before, left := lifting.tree, lifting.checkingQueue;
        var it, sat := CheckNext(next);
        MoreBitsTransitive(old(lifting.tree), before, lifting.tree);
        SettledNext(before, lifting.tree, queue, left, next, sat);
        if sat {
          return SAT, PointOf(it);
        }
      }
      answer := UNSAT;
    }

    function PointOf(it: nat): seq<real>
      reads lifting`tree
    {
      Path(lifting.tree, it)
    }

    predicate Refuted(n: nat)
      reads lifting`tree
    {
      n in lifting.tree && lifting.tree[n].sample.HasConflictWithConstraint()
    }

    lemma StillRefuted(before: Tree, n: nat)
      requires MoreBits(before, lifting.tree)
      ensures n in before && before[n].sample.HasConflictWithConstraint() ==> Refuted(n)
    {
      if n in before && before[n].sample.HasConflictWithConstraint() {
        ConflictsStay(before, lifting.tree, n);
      }
    }

    /** Checks all queued full samples, and returns the points of exactly those that satisfy everything. */
    method EnumerateSolutions(top: seq<nat> -> nat) returns (res: seq<seq<real>>)
      requires Valid()
      modifies lifting`tree, lifting`checkingQueue
      ensures Valid() && MoreBits(old(lifting.tree), lifting.tree) && lifting.checkingQueue == []
      ensures forall i :: 0 <= i < |res| ==>
        IsSolution(res[i], old(lifting.tree), old(lifting.checkingQueue), constraints, holds)
      ensures forall a :: IsSolution(a, old(lifting.tree), old(lifting.checkingQueue), constraints, holds) ==> a in res
    {
      ghost var queue, tree0 := lifting.checkingQueue, lifting.tree;
      res := [];
      while lifting.checkingQueue != []
        invariant Valid() && MoreBits(tree0, lifting.tree)
        invariant forall m :: m in lifting.tree ==> Path(lifting.tree, m) == Path(tree0, m)
        invariant Enumerated(tree0, queue, lifting.checkingQueue, res, constraints, holds)
        decreases |lifting.checkingQueue|
      {
        var next := top(lifting.checkingQueue) % |lifting.checkingQueue|;
        ghost var before, left, res0 := lifting.tree, lifting.checkingQueue, res;
        var it, sat := CheckNext(next);
        MoreBitsTransitive(tree0, before, lifting.tree);
        if sat {
          res := res + [PointOf(it)];
        }
        EnumeratedNext(tree0, queue, left, next, res0, constraints, holds);
      }
      EnumeratedAll(tree0, queue, res, constraints, holds);
    }

    predicate Violates(level: nat, ids: set<nat>, point: seq<real>)
      reads this
    {
      exists id :: id in ids && id in constraints && constraints[id].level == level && !holds(constraints[id], point)
    }

    /** A partial sample is in conflict if it was before, or violates a constraint of this level. */
    method CheckPartialSample(it: nat, level: nat) returns (answer: Answer)
      requires Valid() && it in lifting.tree
      modifies lifting`tree
      ensures Valid() && MoreBits(old(lifting.tree), lifting.tree)
      ensures answer == UNSAT <==> old(Refuted(it)) || Violates(level, constraints.Keys, Path(old(lifting.tree), it))
      ensures answer == UNSAT ==> Refuted(it)
    {
      ghost var tree0 := lifting.tree;
      answer := if Refuted(it) then UNSAT else SAT;
      var todo := constraints.Keys;
      while todo != {}
        invariant todo <= constraints.Keys && Valid() && MoreBits(tree0, lifting.tree)
        invariant Path(lifting.tree, it) == Path(tree0, it)
        invariant answer == UNSAT <==> old(Refuted(it)) || Violates(level, constraints.Keys - todo, Path(tree0, it))
        invariant answer == UNSAT ==> Refuted(it)
        decreases todo
      {
        var id :| id in todo;
        todo := todo - {id};
        if constraints[id].level == level {
          ghost var before := lifting.tree;
          var ok := EvaluateSample(it, id);
          MoreBitsTransitive(tree0, before, lifting.tree);
          StillRefuted(before, it);
          if !ok {
            answer := UNSAT;
          }
        }
      }
    }
  }

  // ---------------------------------------------------------------- whole runs

  /** What may be done to a CAD, in any order. The parameters stand for what other parts compute. */
  datatype Step =
    | AddConstraint(id: nat, c: Constraint)
    | RemoveConstraints(mask: set<nat>)
    | Withdraw(level: nat, mask: set<nat>)
    | Lift(n: nat, roots: seq<real>, pid: nat, lower: Bound, upper: Bound)
    | Trivial(n: nat, center: real)
    | TakeSample(next: nat)
    | RestoreSamples
    | ResetFull
    | CheckFull(top: seq<nat> -> nat)
    | CheckPartial(n: nat, level: nat)

  /** Every real number is in the cell of some child of the node. */
  ghost predicate LineCovered(tree: Tree, n: nat) {
    forall x :: Covers(RowAt(tree, n), x)
  }

  lemma LiftedNodesCover(tree: Tree, n: nat)
    requires AllComplete(tree) && n in tree && tree[n].children != []
    ensures LineCovered(tree, n)
  {
    assert Complete(RowAt(tree, n));
    forall x
      ensures Covers(RowAt(tree, n), x)
    {
      EveryCellSampled(RowAt(tree, n), x);
    }
  }

  /** What a check says; the point is the one it found. */
  datatype Reply = Silent | Verdict(answer: Answer, point: seq<real>)

  ghost predicate CheckFullStep(s: CadState, holds: Evaluator, reply: Reply, s': CadState) {
    && MoreBits(s.tree, s'.tree) && s' == s.(tree := s'.tree, checking := s'.checking)
    && reply.Verdict?
    && (reply.answer == SAT ==> IsSolution(reply.point, s'.tree, s.checking, s.constraints, holds))
    && (reply.answer == UNSAT ==> s'.checking == [])
    && Settled(s'.tree, s.checking, s'.checking, reply.answer == SAT, reply.point)
  }

  ghost predicate CheckPartialStep(s: CadState, n: nat, level: nat, holds: Evaluator, reply: Reply, s': CadState) {
    && MoreBits(s.tree, s'.tree) && s' == s.(tree := s'.tree)
    && reply.Verdict?
    && (reply.answer == UNSAT <==> InConflict(s.tree, n) || Violated(s, level, n, holds))
    && (reply.answer == UNSAT ==> InConflict(s'.tree, n))
  }

  predicate Violated(s: CadState, level: nat, n: nat, holds: Evaluator) {
    exists id :: id in s.constraints && s.constraints[id].level == level && !holds(s.constraints[id], Path(s.tree, n))
  }

  predicate MayGrow(s: CadState, n: nat, dim: nat) {
    n in s.tree && s.tree[n].depth < dim
  }

  /** What one step makes of a CAD; a step that does not apply does nothing. */
  ghost predicate Steps(dim: nat, picker: Picker, holds: Evaluator, s: CadState, step: Step, reply: Reply,
                        s': CadState) {
    match step
    case AddConstraint(id, c) => s' == if id in s.constraints then s else s.(constraints := s.constraints[id := c])
    case RemoveConstraints(mask) => s' == s.(constraints := s.constraints - mask, tree := Forget(s.tree, mask))
    case Withdraw(level, mask) => if level > 0 then WithdrawStep(s, level, mask, s') else s' == s
    case Lift(n, roots, pid, lower, upper) =>
      if MayGrow(s, n, dim) then LiftStep(s, n, roots, pid, lower, upper, picker, dim, s') else s' == s
    case Trivial(n, center) => if MayGrow(s, n, dim) then TrivialStep(s, n, center, dim, s') else s' == s
    case TakeSample(next) =>
      s' == if next >= |s.lifting| then s else
        s.(lifting := RemoveIndex(s.lifting, next), removed := s.removed + [s.lifting[next]])
    case RestoreSamples => s' == s.(lifting := s.lifting + s.removed, removed := [])
    case ResetFull =>
      && s' == s.(checking := s'.checking)
      && forall n :: Count(s'.checking, n) == if n in s.tree && s.tree[n].depth == dim then 1 else 0
    case CheckFull(_) => CheckFullStep(s, holds, reply, s')
    case CheckPartial(n, level) => if n in s.tree then CheckPartialStep(s, n, level, holds, reply, s') else s' == s
  }

  method Apply(cad: Cad, step: Step) returns (reply: Reply)
    requires cad.Valid()
    modifies cad, cad.lifting
    ensures cad.Valid() && Steps(cad.lifting.dim, cad.lifting.picker, cad.holds, old(cad.Look()), step, reply,
      cad.Look())
  {
    if step.CheckFull? {
      var answer, point := cad.CheckFullSamples(step.top);
      reply := Verdict(answer, point);
    } else if step.CheckPartial? {
      reply := ApplyPartial(cad, step);
    } else if step.TakeSample? || step.RestoreSamples? || step.ResetFull? {
      ApplyToQueues(cad, step);
      reply := Silent;
    } else {
      ApplyToTree(cad, step);
      reply := Silent;
    }
  }

  method ApplyPartial(cad: Cad, step: Step) returns (reply: Reply)
    requires cad.Valid() && step.CheckPartial?
    modifies cad, cad.lifting
    ensures cad.Valid() && Steps(cad.lifting.dim, cad.lifting.picker, cad.holds, old(cad.Look()), step, reply,
      cad.Look())
  {
    reply := Silent;
    if step.n in cad.lifting.tree {
      var answer := cad.CheckPartialSample(step.n, step.level);
      reply := Verdict(answer, []);
    }
  }

  /** The steps that only move samples between the queues. */
  method ApplyToQueues(cad: Cad, step: Step)
    requires cad.Valid() && (step.TakeSample? || step.RestoreSamples? || step.ResetFull?)
    modifies cad, cad.lifting
    ensures cad.Valid() && Steps(cad.lifting.dim, cad.lifting.picker, cad.holds, old(cad.Look()), step, Silent,
      cad.Look())
  {
    var lifting := cad.lifting;
    if step.TakeSample? {
      if step.next < |lifting.liftingQueue| {
        var _ := lifting.RemoveNextSample(step.next);
      }
    } else if step.RestoreSamples? {
      lifting.RestoreRemovedSamples();
    } else {
      lifting.ResetFullSamples();
    }
  }

  /** The steps that change the tree or what its samples are known to satisfy. */
  method ApplyToTree(cad: Cad, step: Step)
    requires cad.Valid()
    requires step.AddConstraint? || step.RemoveConstraints? || step.Withdraw? || step.Lift? || step.Trivial?
    modifies cad, cad.lifting
    ensures cad.Valid() && Steps(cad.lifting.dim, cad.lifting.picker, cad.holds, old(cad.Look()), step, Silent,
      cad.Look())
  {
    var lifting := cad.lifting;
    if step.AddConstraint? {
      if step.id !in cad.constraints {
        cad.AddConstraint(step.id, step.c);
      }
    } else if step.RemoveConstraints? {
      cad.RemoveConstraints(step.mask);
    } else if step.Withdraw? {
      if step.level > 0 {
        cad.Withdraw(step.level, step.mask);
      }
    } else if step.n in lifting.tree && lifting.tree[step.n].depth < lifting.dim {
      if step.Lift? {
        cad.Lift(step.n, step.roots, step.pid, step.lower, step.upper);
      } else {
        cad.AddTrivial(step.n, step.center);
      }
    }
  }

  /** What every state is like: rows are complete, queues agree with the tree, memos are right. */
  ghost predicate StateOk(dim: nat, holds: Evaluator, s: CadState) {
    && WellFormed(s.tree) && AllComplete(s.tree)
    && Queued(s.tree, dim, s.lifting, s.removed) && Checked(s.tree, dim, s.checking)
    && AllMemosOk(s.tree, s.constraints, holds)
  }

  const START := CadState(map[], map[ROOT := TreeNode(Plain(0.0, false), ROOT, 0, [])], [ROOT], [], [])

  ghost predicate IsRun(dim: nat, picker: Picker, holds: Evaluator, steps: seq<Step>, replies: seq<Reply>,
                        states: seq<CadState>) {
    && |replies| == |steps| == |states| - 1 && states[0] == START
    && (forall k {:trigger replies[k]} ::
          0 <= k < |steps| ==> Steps(dim, picker, holds, states[k], steps[k], replies[k], states[k + 1]))
    && forall k {:trigger StateOk(dim, holds, states[k])} :: 0 <= k < |states| ==> StateOk(dim, holds, states[k])
  }

  lemma RunNext(dim: nat, picker: Picker, holds: Evaluator, steps: seq<Step>, k: nat, replies: seq<Reply>,
                states: seq<CadState>,
                reply: Reply, s: CadState)
    requires k < |steps| && IsRun(dim, picker, holds, steps[..k], replies, states)
    requires Steps(dim, picker, holds, states[k], steps[k], reply, s) && StateOk(dim, holds, s)
    ensures IsRun(dim, picker, holds, steps[..k + 1], replies + [reply], states + [s])
  {
    var states' := states + [s];
    forall j | 0 <= j < k
      ensures Steps(dim, picker, holds, states'[j], steps[..k + 1][j], (replies + [reply])[j], states'[j + 1])
    {
      assert Steps(dim, picker, holds, states[j], steps[..k][j], replies[j], states[j + 1]);
    }
  }

  method ApplyNext(cad: Cad, steps: seq<Step>, k: nat, replies: seq<Reply>, ghost states: seq<CadState>)
    returns (replies': seq<Reply>, ghost states': seq<CadState>)
    requires cad.Valid() && k < |steps| && |states| == k + 1 && states[k] == cad.Look()
    requires IsRun(cad.lifting.dim, cad.lifting.picker, cad.holds, steps[..k], replies, states)
    modifies cad, cad.lifting
    ensures cad.Valid() && |states'| == k + 2 && states'[k + 1] == cad.Look()
    ensures IsRun(cad.lifting.dim, cad.lifting.picker, cad.holds, steps[..k + 1], replies', states')
  {
    var reply := Apply(cad, steps[k]);
    RunNext(cad.lifting.dim, cad.lifting.picker, cad.holds, steps, k, replies, states, reply, cad.Look());
    replies', states' := replies + [reply], states + [cad.Look()];
  }

  /**
   After every step of any run, each step has done what it should, the memos are right, the
   queues agree with the tree, and every node that has been lifted covers the line.
   */
  method Run(dim: nat, picker: Picker, holds: Evaluator, steps: seq<Step>)
    returns (cad: Cad, replies: seq<Reply>, ghost states: seq<CadState>)
    requires dim > 0 && Picks(picker)
    ensures cad.Valid() && IsRun(dim, picker, holds, steps, replies, states) && states[|steps|] == cad.Look()
    ensures forall n :: n in cad.lifting.tree && cad.lifting.tree[n].children != [] ==> LineCovered(cad.lifting.tree, n)
  {
    cad := new Cad(dim, picker, holds);
    replies, states := [], [START];
    for k := 0 to |steps|
      invariant fresh(cad) && fresh(cad.lifting) && cad.Valid() && |states| == k + 1 && states[k] == cad.Look()
      invariant cad.lifting.dim == dim && cad.lifting.picker == picker && cad.holds == holds
      invariant IsRun(dim, picker, holds, steps[..k], replies, states)
    {
      replies, states := ApplyNext(cad, steps, k, replies, states);
    }
    assert steps[..|steps|] == steps;
    forall n | n in cad.lifting.tree && cad.lifting.tree[n].children != []
      ensures LineCovered(cad.lifting.tree, n)
    {
      LiftedNodesCover(cad.lifting.tree, n);
    }
  }

  // ---------------------------------------------------------------- roots over a run

  /** A step that withdraws the polynomial from the children of a node. */
  predicate Withdraws(step: Step, level: nat, pid: nat) {
    step.Withdraw? && step.level == level && pid in step.mask
  }

  /** No other step takes a marked root from a row that stays. */
  lemma StepKeepsRoots(dim: nat, picker: Picker, holds: Evaluator, s: CadState, step: Step, reply: Reply, s': CadState,
                       n: nat, pid: nat)
    requires StateOk(dim, holds, s) && StateOk(dim, holds, s') && Steps(dim, picker, holds, s, step, reply, s')
    requires n in s.tree && n in s'.tree && !Withdraws(step, s.tree[n].depth + 1, pid)
    ensures s'.tree[n].depth == s.tree[n].depth && RootsOf(RowAt(s.tree, n), pid) <= RootsOf(RowAt(s'.tree, n), pid)
  {
    match step {
      case Lift(m, roots, q, lower, upper) =>
        if MayGrow(s, m, dim) {
          GrowKeepsRoots(s, m, dim, s', n, pid);
        }
      case Trivial(m, center) =>
        if MayGrow(s, m, dim) {
          GrowKeepsRoots(s, m, dim, s', n, pid);
        }
      case Withdraw(level, mask) =>
        if level > 0 {
          PurgeKeepsRoots(s.tree, level, mask, n, pid);
        }
      case RemoveConstraints(mask) => SameMarksRow(s.tree, s'.tree, n, pid);
      case CheckFull(_) => SameMarksRow(s.tree, s'.tree, n, pid);
      case CheckPartial(_, _) => SameMarksRow(s.tree, s'.tree, n, pid);
      case _ =>
    }
  }

  lemma GrowKeepsRoots(s: CadState, m: nat, dim: nat, s': CadState, n: nat, pid: nat)
    requires WellFormed(s.tree) && WellFormed(s'.tree) && n in s.tree && GrowStep(s, m, dim, s')
    ensures n in s'.tree && s'.tree[n].depth == s.tree[n].depth
    ensures RootsOf(RowAt(s.tree, n), pid) <= RootsOf(RowAt(s'.tree, n), pid)
  {
    assert Stays(s.tree[n], s'.tree[n], n, m);
    var ids, ids' := s.tree[n].children, s'.tree[n].children;
    forall i | 0 <= i < |ids| && RowAt(s.tree, n)[i].isRoot && pid in RowAt(s.tree, n)[i].rootOf
      ensures RowAt(s.tree, n)[i].value in RootsOf(RowAt(s'.tree, n), pid)
    {
      assert IsChild(s.tree, ids[i], n);
      assert Stays(s.tree[ids[i]], s'.tree[ids[i]], ids[i], m);
      assert HasParent(s'.tree, ids[i]);
      var j :| 0 <= j < |ids'| && ids'[j] == ids[i];
      assert RowAt(s'.tree, n)[j] == s'.tree[ids[i]].sample;
    }
  }

  lemma PurgeKeepsRoots(tree: Tree, level: nat, mask: set<nat>, n: nat, pid: nat)
    requires WellFormed(tree) && AllComplete(tree) && level > 0 && n in tree && n in Purge(tree, level, mask)
    requires tree[n].depth + 1 == level ==> pid !in mask
    ensures Purge(tree, level, mask)[n].depth == tree[n].depth
    ensures RootsOf(RowAt(tree, n), pid) <= RootsOf(RowAt(Purge(tree, level, mask), n), pid)
  {
    if tree[n].depth + 1 != level {
      PurgedElsewhere(tree, level, mask, n, pid);
    } else if tree[n].children != [] {
      assert Complete(RowAt(tree, n));
      PurgedMarks(tree, level, mask, n, pid);
    }
  }

  lemma SameMarksRow(tree: Tree, tree': Tree, n: nat, pid: nat)
    requires WellFormed(tree) && tree'.Keys == tree.Keys && n in tree
    requires forall m :: m in tree ==> SameShape(tree[m], tree'[m]) && tree'[m].sample.rootOf == tree[m].sample.rootOf
    ensures tree'[n].depth == tree[n].depth && RootsOf(RowAt(tree', n), pid) == RootsOf(RowAt(tree, n), pid)
  {
    forall i | 0 <= i < |tree[n].children|
      ensures var s, s' := RowAt(tree, n)[i], RowAt(tree', n)[i];
        s'.value == s.value && s'.isRoot == s.isRoot && s'.rootOf == s.rootOf
    {
      assert IsChild(tree, tree[n].children[i], n);
    }
  }

  lemma LiftGivesRoots(dim: nat, picker: Picker, s: CadState, step: Step, s': CadState)
    requires WellFormed(s.tree) && WellFormed(s'.tree) && step.Lift? && step.n in s.tree
    requires LiftStep(s, step.n, step.roots, step.pid, step.lower, step.upper, picker, dim, s')
    ensures step.n in s'.tree && s'.tree[step.n].depth == s.tree[step.n].depth
    ensures RootValues(step.roots) - Limit(step.lower) - Limit(step.upper) <= RootsOf(RowAt(s'.tree, step.n), step.pid)
  {
    var row, row' := RowAt(s.tree, step.n), RowAt(s'.tree, step.n);
    var ss :| UniqueOf(SamplesFor(step.roots, step.pid, step.lower, step.upper), ss) && row' == Merged(row, ss, picker);
    LiftMarks(row, step.roots, step.pid, step.lower, step.upper, ss, picker);
    GrowKeepsRoots(s, step.n, dim, s', step.n, step.pid);
  }

  /** The node is there from one state to another, and no step in between withdraws the polynomial from its row. */
  predicate Undisturbed(steps: seq<Step>, states: seq<CadState>, first: nat, last: nat, n: nat, level: nat, pid: nat)
    requires |states| == |steps| + 1 && first <= last < |states|
  {
    && (forall j :: first <= j <= last ==> n in states[j].tree)
    && forall j :: first <= j < last ==> !Withdraws(steps[j], level, pid)
  }

  predicate KeepsRoots(tree: Tree, tree': Tree, n: nat, pid: nat) {
    n in tree && n in tree' && tree'[n].depth == tree[n].depth
      && RootsOf(RowAt(tree, n), pid) <= RootsOf(RowAt(tree', n), pid)
  }

  lemma {:induction false} RootsKept(states: seq<CadState>, first: nat, last: nat, n: nat, pid: nat)
    requires first <= last < |states| && n in states[first].tree
    requires forall j :: first <= j < last ==> KeepsRoots(states[j].tree, states[j + 1].tree, n, pid)
    ensures KeepsRoots(states[first].tree, states[last].tree, n, pid)
    decreases last
  {
    if first < last {
      RootsKept(states, first, last - 1, n, pid);
      assert KeepsRoots(states[last - 1].tree, states[last].tree, n, pid);
    }
  }

  lemma RunAt(dim: nat, picker: Picker, holds: Evaluator, steps: seq<Step>, replies: seq<Reply>,
              states: seq<CadState>, j: nat)
    requires IsRun(dim, picker, holds, steps, replies, states) && j < |steps|
    ensures StateOk(dim, holds, states[j]) && StateOk(dim, holds, states[j + 1])
    ensures Steps(dim, picker, holds, states[j], steps[j], replies[j], states[j + 1])
  {
    assert StateOk(dim, holds, states[j]) && StateOk(dim, holds, states[j + 1]);
  }

  lemma {:induction false} RunKeepsRoots(dim: nat, picker: Picker, holds: Evaluator, steps: seq<Step>,
                                         replies: seq<Reply>,
                                         states: seq<CadState>, first: nat, j: nat, n: nat, level: nat, pid: nat)
    requires IsRun(dim, picker, holds, steps, replies, states) && first <= j < |steps| && level > 0
    requires Undisturbed(steps, states, first, j + 1, n, level, pid) && states[first].tree[n].depth + 1 == level
    ensures states[j].tree[n].depth + 1 == level && KeepsRoots(states[j].tree, states[j + 1].tree, n, pid)
    decreases j
  {
    if first < j {
      RunKeepsRoots(dim, picker, holds, steps, replies, states, first, j - 1, n, level, pid);
    }
    RunAt(dim, picker, holds, steps, replies, states, j);
    StepKeepsRoots(dim, picker, holds, states[j], steps[j], replies[j], states[j + 1], n, pid);
  }

  lemma RunKeepsAll(dim: nat, picker: Picker, holds: Evaluator, steps: seq<Step>, replies: seq<Reply>,
                    states: seq<CadState>,
                    first: nat, last: nat, n: nat, level: nat, pid: nat)
    requires IsRun(dim, picker, holds, steps, replies, states) && first <= last < |states| && level > 0
    requires Undisturbed(steps, states, first, last, n, level, pid) && states[first].tree[n].depth + 1 == level
    ensures KeepsRoots(states[first].tree, states[last].tree, n, pid)
  {
    forall j | first <= j < last
      ensures KeepsRoots(states[j].tree, states[j + 1].tree, n, pid)
    {
      RunKeepsRoots(dim, picker, holds, steps, replies, states, first, j, n, level, pid);
    }
    RootsKept(states, first, last, n, pid);
  }

  lemma LiftInRun(dim: nat, picker: Picker, holds: Evaluator, steps: seq<Step>, replies: seq<Reply>,
                  states: seq<CadState>, k: nat)
    requires IsRun(dim, picker, holds, steps, replies, states) && k < |steps|
    requires steps[k].Lift? && MayGrow(states[k], steps[k].n, dim)
    ensures var step, tree, tree' := steps[k], states[k].tree, states[k + 1].tree;
      && step.n in tree' && tree'[step.n].depth == tree[step.n].depth
      && RootValues(step.roots) - Limit(step.lower) - Limit(step.upper) <= RootsOf(RowAt(tree', step.n), step.pid)
  {
    RunAt(dim, picker, holds, steps, replies, states, k);
    LiftGivesRoots(dim, picker, states[k], steps[k], states[k + 1]);
  }

  /**
   A node has been lifted with a polynomial that has a root at v, which is no bound. As long as
   the node is there and the polynomial is not withdrawn, its row has a root sample at v.
   */
  lemma RootsStay(dim: nat, picker: Picker, holds: Evaluator, steps: seq<Step>, replies: seq<Reply>,
                  states: seq<CadState>,
                  k: nat, l: nat, v: real)
    requires IsRun(dim, picker, holds, steps, replies, states) && k < l < |states|
    requires steps[k].Lift? && MayGrow(states[k], steps[k].n, dim)
    requires v in RootValues(steps[k].roots) - Limit(steps[k].lower) - Limit(steps[k].upper)
    requires Undisturbed(steps, states, k + 1, l, steps[k].n, states[k].tree[steps[k].n].depth + 1, steps[k].pid)
    ensures v in RootsOf(RowAt(states[l].tree, steps[k].n), steps[k].pid)
  {
    LiftInRun(dim, picker, holds, steps, replies, states, k);
    var n, pid, level := steps[k].n, steps[k].pid, states[k].tree[steps[k].n].depth + 1;
    RunKeepsAll(dim, picker, holds, steps, replies, states, k + 1, l, n, level, pid);
  }
}
