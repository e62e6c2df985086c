/**
 The manager: the assertion stack on top of the module tree, and the objectives to optimise.
 */
module Managers {
  import opened Basics
  import opened Formulas
  import opened ModuleInputs
  import opened Origins
  import opened Modules

  datatype Variable = Variable(id: nat, integral: bool)

  datatype Poly = Poly(id: nat, integerValued: bool)

  datatype Objective = Objective(poly: Poly, variable: Variable, minimize: bool)

  /** Where to backtrack to: the last formula, None for an empty list, and the last objective's index. */
  datatype BacktrackPoint = BacktrackPoint(formula: Option<nat>, objective: int)

  /** The assertions and objectives there were at a push. */
  datatype Frame = Frame(order: seq<nat>, formulas: seq<Formula>, objectives: seq<Objective>)

  /**
   What a check with objectives uses: the equation of an objective and its variable, the bound
   that a value puts on an objective, and the model that the n-th run of the solver leaves.
   */
  datatype Oracle = Oracle(equation: Objective -> Formula, bound: (Objective, real) -> Formula, model: nat -> map<nat,
    real>)

  /** A check answers, unless it fails to find the next objective's variable in the model. */
  datatype Outcome = Answered(answer: Answer) | NoValue

  function VarsOf(fs: set<Formula>): set<nat> {
    set f, v | f in fs && v in Vars(f) :: v
  }

  ghost predicate AlwaysSat(solver: Solver) {
    forall fs, k :: solver(fs, k).0 == SAT
  }

  function LastOf(order: seq<nat>): Option<nat> {
    if order == [] then None else Some(order[|order| - 1])
  }

  predicate PointAt(p: BacktrackPoint, frame: Frame) {
    p.formula == LastOf(frame.order) && p.objective == |frame.objectives| - 1
  }

  /** The assertions of one level are the first assertions of another. */
  predicate Below(low: Frame, high: Frame) {
    |low.order| == |low.formulas| && low.order <= high.order && low.formulas <= high.formulas
  }

  /** Every backtrack point is where its level ended, and the levels lie on top of each other. */
  predicate Stacked(points: seq<BacktrackPoint>, frames: seq<Frame>, now: Frame) {
    && |points| == |frames|
    && (forall k :: 0 <= k < |frames| ==> PointAt(points[k], frames[k]) && Below(frames[k], now))
    && forall k, l :: 0 <= k < l < |frames| ==> Below(frames[k], frames[l])
  }

  /** No objective has been removed that one of the levels from `low` on relies on. */
  predicate Intact(frames: seq<Frame>, low: nat, objectives: seq<Objective>) {
    && (forall k :: low <= k < |frames| ==> frames[k].objectives <= objectives)
    && forall k, l :: low <= k < l < |frames| ==> frames[k].objectives <= frames[l].objectives
  }

  /**
   What popping a level keeps of the objectives: as many as there were at the push. If there are
   not so many any more, all of them go.
   */
  function KeptObjectives(objectives: seq<Objective>, level: nat): seq<Objective> {
    if level <= |objectives| then objectives[..level] else []
  }

  /** A pool of variables for reuse: of one type, all different, none used by an objective. */
  predicate Stock(pool: seq<Variable>, integral: bool, objectives: seq<Objective>, next: nat) {
    && (forall i :: 0 <= i < |pool| ==> pool[i].integral == integral && pool[i].id < next)
    && (forall i, j :: 0 <= i < j < |pool| ==> pool[i] != pool[j])
    && (forall i, j :: 0 <= i < |pool| && 0 <= j < |objectives| ==> pool[i] != objectives[j].variable)
  }

  /** Every objective has a variable of its own, of the right type, and so have the pools. */
  predicate Separate(objectives: seq<Objective>, ints: seq<Variable>, reals: seq<Variable>, next: nat) {
    && (forall i :: 0 <= i < |objectives| ==> objectives[i].variable.id < next)
    && (forall i :: 0 <= i < |objectives| ==> objectives[i].variable.integral == objectives[i].poly.integerValued)
    && (forall i, j :: 0 <= i < j < |objectives| ==> objectives[i].variable != objectives[j].variable)
    && Stock(ints, true, objectives, next)
    && Stock(reals, false, objectives, next)
  }

  /** A variable that neither an objective nor a pool has. */
  predicate Unused(v: Variable, objectives: seq<Objective>, ints: seq<Variable>, reals: seq<Variable>, next: nat) {
    && v.id < next && v !in ints && v !in reals
    && forall i :: 0 <= i < |objectives| ==> objectives[i].variable != v
  }

  /** The last objective leaves a variable behind that may go to the pool of its type. */
  lemma LastGivenBack(objectives: seq<Objective>, rest: seq<Objective>, v: Variable, ints: seq<Variable>,
                      reals: seq<Variable>, next: nat)
    requires objectives != [] && Separate(objectives, ints, reals, next)
    requires rest == objectives[..|objectives| - 1] && v == objectives[|objectives| - 1].variable
    ensures v.integral ==> Separate(rest, ints + [v], reals, next)
    ensures !v.integral ==> Separate(rest, ints, reals + [v], next)
  {
  }

  /** The order of the objectives does not matter, nor does it when one is missing. */
  lemma SeparateWithout(objectives: seq<Objective>, i: nat, ints: seq<Variable>, reals: seq<Variable>, next: nat)
    requires Separate(objectives, ints, reals, next) && i < |objectives|
    ensures Separate(objectives[..i] + objectives[i + 1..], ints, reals, next)
  {
    var rest := objectives[..i] + objectives[i + 1..];
    assert forall j :: 0 <= j < |rest| ==> rest[j] == objectives[if j < i then j else j + 1];
  }

  /** The index of the last objective for a polynomial, or -1. */
  function LastIndex(objectives: seq<Objective>, p: Poly): (i: int)
    ensures -1 <= i < |objectives|
    ensures i >= 0 ==> objectives[i].poly == p
    ensures forall j :: i < j < |objectives| ==> objectives[j].poly != p
  {
    if objectives == [] then -1
    else if objectives[|objectives| - 1].poly == p then |objectives| - 1
    else LastIndex(objectives[..|objectives| - 1], p)
  }

  /** Removing an objective removes the last one for the polynomial, if there is one. */
  function WithoutLast(objectives: seq<Objective>, p: Poly): seq<Objective> {
    var i := LastIndex(objectives, p);
    if i < 0 then objectives else objectives[..i] + objectives[i + 1..]
  }

  function Lower(frames: seq<Frame>): seq<Frame>
    requires frames != []
  {
    frames[..|frames| - 1]
  }

  /** What popping the last level comes back to. */
  function Popped(frames: seq<Frame>, objectives: seq<Objective>): Frame
    requires frames != []
  {
    var level := frames[|frames| - 1];
    Frame(level.order, level.formulas, KeptObjectives(objectives, |level.objectives|))
  }

  /** What popping all levels from the one at `low` on comes back to. */
  function PoppedTo(frames: seq<Frame>, low: nat, objectives: seq<Objective>): Frame
    requires low < |frames|
    decreases |frames|
  {
    if low == |frames| - 1 then Popped(frames, objectives)
    else PoppedTo(Lower(frames), low, Popped(frames, objectives).objectives)
  }

  /** Popping a level brings back its objectives exactly if none of them has been removed. */
  lemma PoppedIsLevel(frames: seq<Frame>, objectives: seq<Objective>)
    requires frames != []
    ensures Popped(frames, objectives) == frames[|frames| - 1] <==> frames[|frames| - 1].objectives <= objectives
  {
  }

  /** How many objectives the levels from `low` on had does not decrease, up to what there is now. */
  predicate Ascending(frames: seq<Frame>, low: nat, count: nat)
    requires low < |frames|
  {
    && |frames[|frames| - 1].objectives| <= count
    && forall k :: low <= k < |frames| - 1 ==> |frames[k].objectives| <= |frames[k + 1].objectives|
  }

  /** Popping several levels at once comes back to the lowest of them exactly under this condition. */
  lemma {:induction false} PoppedToIsLevel(frames: seq<Frame>, low: nat, objectives: seq<Objective>)
    requires low < |frames|
    ensures PoppedTo(frames, low, objectives) == frames[low] <==>
      || frames[low].objectives == []
      || (Ascending(frames, low, |objectives|) && frames[low].objectives <= objectives)
    decreases |frames|
  {
    var top, fs := |frames| - 1, Lower(frames);
    if low < top {
      var kept := Popped(frames, objectives).objectives;
      PoppedToIsLevel(fs, low, kept);
      assert fs[low] == frames[low];
      var count := |frames[top].objectives|;
      assert Ascending(frames, low, |objectives|) <==> count <= |objectives| && Ascending(fs, low, count) by {
        assert forall k :: low <= k < top ==> frames[k] == fs[k];
      }
      if count <= |objectives| && Ascending(fs, low, count) {
        AscendingBelow(fs, low, count);
      }
    }
  }

  lemma {:induction false} AscendingBelow(frames: seq<Frame>, low: nat, count: nat)
    requires low < |frames| && Ascending(frames, low, count)
    ensures |frames[low].objectives| <= count
    decreases |frames|
  {
    if low < |frames| - 1 {
      AscendingBelow(Lower(frames), low, |frames[|frames| - 2].objectives|);
    }
  }

  /** Popping several levels comes back to the lowest of them, if they are intact. */
  lemma {:induction false} PoppedToLevel(frames: seq<Frame>, low: nat, objectives: seq<Objective>)
    requires low < |frames| && Intact(frames, low, objectives)
    ensures PoppedTo(frames, low, objectives) == frames[low]
    decreases |frames|
  {
    if low < |frames| - 1 {
      PoppedToLevel(Lower(frames), low, Popped(frames, objectives).objectives);
    }
  }

  /** The conjuncts of a formula. */
  function ConjunctSet(f: Formula): set<Formula> {
    Elements(Flatten(f))
  }

  /** The assertions with the first k bounds. */
  function WithBounds(base: set<Formula>, bounds: seq<Formula>, k: nat): set<Formula>
    requires k <= |bounds|
  {
    if k == 0 then base else WithBounds(base, bounds, k - 1) + ConjunctSet(bounds[k - 1])
  }

  ghost predicate IsBound(oracle: Oracle, o: Objective, bound: Formula) {
    exists x: real :: oracle.bound(o, x) == bound
  }

  /** After each success there is a bound on the next objective. */
  ghost predicate Bounded(oracle: Oracle, objectives: seq<Objective>, bounds: seq<Formula>) {
    |bounds| < |objectives|
    && forall j :: 0 <= j < |bounds| ==> IsBound(oracle, objectives[j + 1], bounds[j])
  }

  /** The assertions, the bounds so far, and the equation of one objective. */
  function AskedAt(oracle: Oracle, objectives: seq<Objective>, base: set<Formula>, bounds: seq<Formula>,
                   k: nat): set<Formula>
    requires k <= |bounds| && k < |objectives|
  {
    WithBounds(base, bounds, k) + ConjunctSet(oracle.equation(objectives[k]))
  }

  ghost predicate Asks(oracle: Oracle, objectives: seq<Objective>, base: set<Formula>, bounds: seq<Formula>,
                       asked: seq<set<Formula>>)
    requires |asked| <= |objectives| && |asked| <= |bounds| + 1
  {
    forall k :: 0 <= k < |asked| ==> asked[k] == AskedAt(oracle, objectives, base, bounds, k)
  }

  /** What a check with objectives asks for. */
  ghost predicate Optimised(oracle: Oracle, objectives: seq<Objective>, base: set<Formula>, asked: seq<set<Formula>>) {
    exists bounds ::
      |asked| == |bounds| + 1 <= |objectives| && Bounded(oracle, objectives, bounds)
      && Asks(oracle, objectives, base, bounds, asked)
  }

  lemma {:induction false} WithMoreBounds(base: set<Formula>, bounds: seq<Formula>, bound: Formula, k: nat)
    requires k <= |bounds|
    ensures WithBounds(base, bounds + [bound], k) == WithBounds(base, bounds, k)
    decreases k
  {
    if k > 0 {
      WithMoreBounds(base, bounds, bound, k - 1);
    }
  }

  lemma AsksNext(oracle: Oracle, objectives: seq<Objective>, base: set<Formula>, bounds: seq<Formula>,
                 asked: seq<set<Formula>>, now: set<Formula>)
    requires |asked| == |bounds| < |objectives| && Bounded(oracle, objectives, bounds)
    requires Asks(oracle, objectives, base, bounds, asked)
    requires now == AskedAt(oracle, objectives, base, bounds, |asked|)
    ensures Asks(oracle, objectives, base, bounds, asked + [now])
    ensures Optimised(oracle, objectives, base, asked + [now])
  {
    var all := asked + [now];
    forall k | 0 <= k < |all|
      ensures all[k] == AskedAt(oracle, objectives, base, bounds, k)
    {
      if k < |asked| {
        assert all[k] == asked[k];
      }
    }
  }

  lemma BoundedNext(oracle: Oracle, objectives: seq<Objective>, base: set<Formula>, bounds: seq<Formula>,
                    asked: seq<set<Formula>>, bound: Formula)
    requires |asked| == |bounds| + 1 < |objectives| && Bounded(oracle, objectives, bounds)
    requires Asks(oracle, objectives, base, bounds, asked) && IsBound(oracle, objectives[|asked|], bound)
    ensures Bounded(oracle, objectives, bounds + [bound]) && Asks(oracle, objectives, base, bounds + [bound], asked)
    ensures WithBounds(base, bounds + [bound], |asked|) == WithBounds(base, bounds, |bounds|) + ConjunctSet(bound)
  {
    forall k | 0 <= k < |asked|
      ensures AskedAt(oracle, objectives, base, bounds + [bound], k) == AskedAt(oracle, objectives, base, bounds, k)
    {
      WithMoreBounds(base, bounds, bound, k);
    }
    WithMoreBounds(base, bounds, bound, |bounds|);
  }

  /** Adding formulas asserts them, and nothing else. */
  lemma {:induction false} AddedElements(es: seq<Entry>, fs: seq<Formula>, extra: Option<seq<Formula>>)
    ensures Elements(Names(AddAll(es, fs, extra))) == Elements(Names(es)) + Elements(fs)
    decreases |fs|
  {
    if fs != [] {
      assert Elements(fs) == {fs[0]} + Elements(fs[1..]) by {
        assert fs == [fs[0]] + fs[1..];
      }
      AddedElement(es, fs[0], extra);
      AddedElements(AddOne(es, fs[0], extra), fs[1..], extra);
    }
  }

  lemma AddedElement(es: seq<Entry>, f: Formula, extra: Option<seq<Formula>>)
    ensures Elements(Names(AddOne(es, f, extra))) == Elements(Names(es)) + {f}
  {
    var r := AddOne(es, f, extra);
    var i := Position(es, f);
    if i < |es| {
      assert Names(r) == Names(es);
      assert Names(es)[i] == f;
    } else {
      assert Names(r) == Names(es) + [f];
    }
  }

  /** A script of commands in which every push has its pop. */
  datatype Script = Assert(f: Formula) | Optimum(p: Poly, minimize: bool) | CheckSat | Level(body: seq<Script>)

  class Manager {
    const passed: ModuleInput
    /** The module at the root of the tree, which is of the base class. */
    const primary: Backend
    const oracle: Oracle
    var backtrackPoints: seq<BacktrackPoint>
    var objectives: seq<Objective>
    var reusableInts: seq<Variable>
    var reusableReals: seq<Variable>
    var nextVariable: nat
    /** What there was at each push that has not been popped. */
    ghost var frames: seq<Frame>

    function Asserted(): seq<Formula>
      reads passed
    {
      Names(passed.View())
    }

    ghost function Now(): Frame
      reads this`objectives, passed
    {
      Frame(passed.order, Asserted(), objectives)
    }

    /** The root of the module tree has been told exactly the assertions, in order. */
    ghost predicate Told()
      reads passed, primary
    {
      passed.Valid() && primary.Valid() && primary.lazy && primary.told == Asserted()
    }

    /** The assertion stack and the objectives are in order. */
    ghost predicate InOrder()
      reads this, passed
    {
      Stacked(backtrackPoints, frames, Now()) && Separate(objectives, reusableInts, reusableReals, nextVariable)
    }

    constructor (oracle: Oracle, solver: Solver, ghost theory: Theory)
      requires Sound(theory, solver)
      ensures Told() && InOrder() && Asserted() == [] && objectives == [] && frames == []
      ensures fresh(passed) && fresh(primary) && primary.solver == solver && this.oracle == oracle
    {
      this.passed := new ModuleInput();
      this.primary := new Backend(0, solver, true, theory);
      this.oracle := oracle;
      backtrackPoints, objectives, reusableInts, reusableReals, nextVariable := [], [], [], [], 0;
      frames := [];
    }

    /** Adds a formula, taken apart, and tells the root of the tree what is new. */
    method Add(f: Formula) returns (ok: bool)
      requires Told() && InOrder()
      modifies passed, primary
      ensures Told() && InOrder() && ok
      ensures old(passed.order) <= passed.order && old(Asserted()) <= Asserted()
      ensures Asserted() == Names(AddAll(old(passed.View()), Flatten(f), None))
    {
      ghost var now := Now();
      passed.ViewHasNoDuplicates();
      AddNamesGrows(passed.Formulas(), Flatten(f));
      assert Asserted() == passed.Formulas();
      var count := |passed.order|;
      var it, added := passed.Add(f, NoOrigins, true);
      assert Asserted() == passed.Formulas();
      ok := TellFrom(count);
      StackedAbove(backtrackPoints, frames, now, Now());
    }

    /** The loop of `add`: nothing more is told once a formula is refused, but none ever is. */
    method TellFrom(count: nat) returns (ok: bool)
      requires passed.Valid() && primary.Valid() && primary.lazy
      requires count <= |Asserted()| && primary.told == Asserted()[..count]
      modifies primary
      ensures Told() && ok
    {
      ok := true;
      for k := count to |passed.order|
        invariant ok && primary.Valid() && primary.told == Asserted()[..k]
      {
        assert Asserted()[..k + 1] == Asserted()[..k] + [Asserted()[k]];
        if ok {
          ok := primary.Add(passed.nodes[passed.order[k]].formula);
        }
      }
    }

    method Push()
      requires InOrder()
      modifies `backtrackPoints, `frames
      ensures InOrder() && frames == old(frames) + [Now()]
    {
      backtrackPoints := backtrackPoints + [BacktrackPoint(LastOf(passed.order), |objectives| - 1)];
      frames := frames + [Now()];
    }

    method AddObjective(p: Poly, minimize: bool)
      requires InOrder()
      modifies `objectives, `reusableInts, `reusableReals, `nextVariable
      ensures InOrder() && |objectives| == |old(objectives)| + 1
      ensures old(objectives) == objectives[..|old(objectives)|]
      ensures objectives[|old(objectives)|].poly == p && objectives[|old(objectives)|].minimize == minimize
    {
      var v := TakeVariable(p.integerValued);
      objectives := objectives + [Objective(p, v, minimize)];
    }

    /** A variable from the pool for the type, or a new one. */
    method TakeVariable(integral: bool) returns (v: Variable)
      requires Separate(objectives, reusableInts, reusableReals, nextVariable)
      modifies `reusableInts, `reusableReals, `nextVariable
      ensures v.integral == integral && Separate(objectives, reusableInts, reusableReals, nextVariable)
      ensures Unused(v, objectives, reusableInts, reusableReals, nextVariable)
    {
      var pool := if integral then reusableInts else reusableReals;
      if pool == [] {
        v := Variable(nextVariable, integral);
        nextVariable := nextVariable + 1;
      } else {
        var top := |pool| - 1;
        v := pool[top];
        if integral {
          reusableInts := pool[..top];
        } else {
          reusableReals := pool[..top];
        }
      }
    }

    /** Removes the last objective for a polynomial; its variable is not used again. */
    method RemoveObjective(p: Poly)
      requires InOrder()
      modifies `objectives
      ensures InOrder()
      ensures objectives == WithoutLast(old(objectives), p)
    {
      var i := |objectives| - 1;
      while i >= 0 && objectives[i].poly != p
        invariant -1 <= i < |objectives|
        invariant forall j :: i < j < |objectives| ==> objectives[j].poly != p
      {
        i := i - 1;
      }
      if i >= 0 {
        SeparateWithout(objectives, i, reusableInts, reusableReals, nextVariable);
        objectives := objectives[..i] + objectives[i + 1..];
      }
    }

    // -------------------------------------------------------------- popping

    /** The loop of `pop` over the formulas: it stops at the backtrack point. */
    method PopFormulas(ghost order: seq<nat>, ghost formulas: seq<Formula>)
      requires Told() && backtrackPoints != [] && backtrackPoints[|backtrackPoints| - 1].formula == LastOf(order)
      requires OnTop(order, formulas)
      modifies passed, primary
      ensures Told() && passed.order == order && Asserted() == formulas
    {
      while passed.order != []
        invariant Told() && OnTop(order, formulas)
        decreases |passed.order|
      {
        var it := passed.order[|passed.order| - 1];
        if backtrackPoints[|backtrackPoints| - 1].formula == Some(it) {
          LastInPrefix(order, passed.order);
          break;
        }
        LastNotInPrefix(order, passed.order);
        RemoveLast();
      }
    }

    /** The assertions lie on top of these, which are a prefix of them. */
    ghost predicate OnTop(order: seq<nat>, formulas: seq<Formula>)
      reads passed
    {
      |order| == |formulas| <= |passed.order| && order == passed.order[..|order|] && formulas == Asserted()[..|order|]
    }

    /** `remove` of the last formula: the root of the tree is told first. */
    method RemoveLast()
      requires Told() && passed.order != []
      modifies passed, primary
      ensures Told()
      ensures passed.order == old(passed.order)[..|old(passed.order)| - 1]
      ensures Asserted() == old(Asserted())[..|old(Asserted())| - 1]
    {
      var last := |passed.order| - 1;
      LastFormula();
      primary.Remove(last, passed.nodes[passed.order[last]].formula);
      passed.Erase(passed.order[last]);
    }

    lemma LastFormula()
      requires passed.Valid() && passed.order != []
      ensures var order, last := passed.order, |passed.order| - 1;
        && order[last] in passed.nodes && IndexOf(order, order[last]) == last
        && Asserted()[last] == passed.nodes[order[last]].formula
        && Asserted()[last] !in Asserted()[..last]
        && order[..last] + order[last + 1..] == order[..last]
        && Asserted()[..last] + Asserted()[last + 1..] == Asserted()[..last]
        && Names(ViewOf(order[..last], passed.nodes - {order[last]}, passed.vectors)) == Asserted()[..last]
    {
      var order, last := passed.order, |passed.order| - 1;
      passed.ViewHasNoDuplicates();
      ViewErase(order, passed.nodes, passed.vectors, last);
      assert order[..last] + order[last + 1..] == order[..last];
    }

    /** The loop of `pop` over the objectives, whose variables go to the pools. */
    method PopObjectives(saved: int)
      requires saved >= -1 && Separate(objectives, reusableInts, reusableReals, nextVariable)
      modifies `objectives, `reusableInts, `reusableReals
      ensures Separate(objectives, reusableInts, reusableReals, nextVariable)
      ensures objectives == KeptObjectives(old(objectives), saved + 1)
    {
      var pos := |objectives|;
      while objectives != []
        invariant Separate(objectives, reusableInts, reusableReals, nextVariable)
        invariant pos == |objectives| && objectives == old(objectives)[..pos]
        invariant saved < |old(objectives)| ==> saved < pos
        decreases |objectives|
      {
        pos := pos - 1;
        if pos == saved {
          break;
        }
        GiveBackLast();
      }
    }

    method GiveBackLast()
      requires objectives != [] && Separate(objectives, reusableInts, reusableReals, nextVariable)
      modifies `objectives, `reusableInts, `reusableReals
      ensures Separate(objectives, reusableInts, reusableReals, nextVariable)
      ensures objectives == old(objectives)[..|old(objectives)| - 1]
    {
      var rest, v := objectives[..|objectives| - 1], objectives[|objectives| - 1].variable;
      LastGivenBack(objectives, rest, v, reusableInts, reusableReals, nextVariable);
      objectives := rest;
      if v.integral {
        reusableInts := reusableInts + [v];
      } else {
        reusableReals := reusableReals + [v];
      }
    }

    /** Drops the last level, once the assertions are back to it. */
    method PopLevel(ghost now: Frame)
      requires backtrackPoints != [] && Stacked(backtrackPoints, frames, now)
      requires Separate(objectives, reusableInts, reusableReals, nextVariable)
      requires passed.order == frames[|frames| - 1].order && Asserted() == frames[|frames| - 1].formulas
      modifies `objectives, `reusableInts, `reusableReals, `backtrackPoints, `frames
      ensures InOrder()
      ensures frames == Lower(old(frames)) && Now() == Popped(old(frames), old(objectives))
    {
      PopObjectives(backtrackPoints[|backtrackPoints| - 1].objective);
      StackedBelow(backtrackPoints, frames, now, Now());
      backtrackPoints := backtrackPoints[..|backtrackPoints| - 1];
      frames := frames[..|frames| - 1];
    }

    /**
     Undoes everything since the last push: the assertions are what they were then. The
     objectives are too, unless ones that were there at the push have been removed.
     */
    method Pop() returns (ok: bool)
      requires Told() && InOrder()
      modifies this, passed, primary
      ensures Told() && InOrder()
      ensures ok <==> old(frames) != []
      ensures !ok ==> Now() == old(Now()) && frames == []
      ensures ok ==> frames == Lower(old(frames)) && Now() == Popped(old(frames), old(objectives))
    {
      if backtrackPoints == [] {
        return false;
      }
      ghost var now := Now();
      PopFormulas(frames[|frames| - 1].order, frames[|frames| - 1].formulas);
      assert frames == old(frames) && objectives == old(objectives);
      PopLevel(now);
      ok := true;
    }

    /** Undoes the last `levels` pushes. */
    method PopLevels(levels: nat)
      requires Told() && InOrder() && levels <= |frames|
      modifies this, passed, primary
      ensures Told() && InOrder()
      ensures frames == old(frames)[..|old(frames)| - levels]
      ensures Now()
           == if levels == 0 then old(Now()) else PoppedTo(old(frames), |old(frames)| - levels, old(objectives))
      decreases levels
    {
      if levels > 0 {
        var _ := Pop();
        PopLevels(levels - 1);
      }
    }

    // -------------------------------------------------------------- checking

    /** Opens a level, asserts the equation of the objective at k, and checks. */
    method TryObjective(k: nat) returns (answer: Answer, ghost asked: set<Formula>)
      requires Told() && InOrder() && k < |objectives|
      modifies `backtrackPoints, `frames, passed, primary
      ensures Told() && InOrder() && frames == old(frames) + [old(Now())] && asked == Elements(Asserted())
      ensures asked == old(Elements(Asserted())) + ConjunctSet(oracle.equation(objectives[k]))
      ensures answer == UNSAT ==> Unsat(primary.theory, asked)
      ensures AlwaysSat(primary.solver) ==> answer == SAT
    {
      Push();
      AddedElements(passed.View(), Flatten(oracle.equation(objectives[k])), None);
      var _ := Add(oracle.equation(objectives[k]));
      asked := Elements(Asserted());
      answer := AskPrimary();
    }

    method TryNext(k: nat, ghost start: set<Formula>, ghost bounds: seq<Formula>, ghost before: seq<set<Formula>>)
      returns (answer: Answer, ghost asked: seq<set<Formula>>)
      requires Told() && InOrder() && |before| == |bounds| == k < |objectives|
      requires Bounded(oracle, objectives, bounds) && Asks(oracle, objectives, start, bounds, before)
      requires Elements(Asserted()) == WithBounds(start, bounds, k)
      modifies `backtrackPoints, `frames, passed, primary
      ensures Told() && InOrder() && frames == old(frames) + [old(Now())]
      ensures asked == before + [Elements(Asserted())] && Asks(oracle, objectives, start, bounds, asked)
      ensures Optimised(oracle, objectives, start, asked)
      ensures answer == UNSAT ==> Unsat(primary.theory, asked[k])
      ensures AlwaysSat(primary.solver) ==> answer == SAT
    {
      ghost var now;
      answer, now := TryObjective(k);
      AsksNext(oracle, objectives, start, bounds, before, now);
      asked := before + [now];
    }

    /** Whatever is asked is asked of all assertions. */
    method AskPrimary() returns (answer: Answer)
      requires Told()
      modifies primary`infeasibleSubsets, primary`solverState, primary`calls
      ensures Told()
      ensures answer == UNSAT ==> Unsat(primary.theory, Elements(Asserted()))
      ensures AlwaysSat(primary.solver) ==> answer == SAT
    {
      answer := primary.Check();
      if answer == UNSAT {
        primary.KnowsConflict();
      }
    }

    /** The variables of the assertions, as far as the loop has got. */
    method GatherVariables() returns (vars: set<nat>)
      ensures vars == VarsOf(Elements(Asserted()))
    {
      vars := {};
      for k := 0 to |passed.order|
        invariant vars == VarsOf(Elements(Asserted()[..k]))
      {
        assert Asserted()[..k + 1] == Asserted()[..k] + [Asserted()[k]];
        vars := vars + Vars(passed.View()[k].formula);
      }
      assert Asserted()[..|passed.order|] == Asserted();
    }

    /** Erases the entries of a model one by one whose variable no assertion mentions. */
    method ExcludeNotReceivedVariables(model: map<nat, real>) returns (received: map<nat, real>)
      ensures received == map v | v in model && v in VarsOf(Elements(Asserted())) :: model[v]
    {
      received := model;
      if received == map[] {
        return;
      }
      var vars := GatherVariables();
      var rest := model.Keys;
      while rest != {}
        invariant rest <= model.Keys
        invariant received == map v | v in model && (v in rest || v in vars) :: model[v]
        decreases rest
      {
        var v :| v in rest;
        rest := rest - {v};
        if v !in vars {
          received := received - {v};
        }
      }
    }

    /** Looks the variable up in the model of the last run, without variables that no assertion mentions. */
    method LookUp(v: Variable) returns (value: Option<real>)
      ensures value.Some? <==> v.id in VarsOf(Elements(Asserted())) && v.id in oracle.model(primary.calls)
      ensures value.Some? ==> value.value == oracle.model(primary.calls)[v.id]
    {
      var model := ExcludeNotReceivedVariables(oracle.model(primary.calls));
      value := if v.id in model then Some(model[v.id]) else None;
    }

    /** Closes the level, and asserts a bound on the objective at k. */
    method Improve(k: nat, x: real, ghost level: Frame) returns (bound: Formula)
      requires Told() && InOrder() && k < |objectives|
      requires frames != [] && frames[|frames| - 1] == level && level.objectives == objectives
      modifies this, passed, primary
      ensures Told() && InOrder() && frames == Lower(old(frames)) && objectives == old(objectives)
      ensures IsBound(oracle, objectives[k], bound)
      ensures Elements(Asserted()) == Elements(level.formulas) + ConjunctSet(bound)
    {
      var _ := Pop();
      bound := oracle.bound(objectives[k], x);
      AddedElements(passed.View(), Flatten(bound), None);
      var _ := Add(bound);
    }

    /**
     However it ends, a check that answers leaves assertions, objectives and backtrack points as
     they were. Without objectives it asks for the assertions; else see `Optimised`. It does not
     answer exactly if a try was successful, but did not give the next objective's variable a value.
     */
    method Check() returns (outcome: Outcome, ghost asked: seq<set<Formula>>, ghost answers: seq<Answer>)
      requires Told() && InOrder()
      modifies this, passed, primary
      ensures Told() && InOrder()
      ensures outcome.Answered? ==>
        Now() == old(Now()) && frames == old(frames) && backtrackPoints == old(backtrackPoints)
      ensures old(objectives) == [] ==> asked == [old(Elements(Asserted()))] && outcome.Answered?
      ensures old(objectives) != [] ==> Optimised(oracle, old(objectives), old(Elements(Asserted())), asked)
      ensures AnswersFit(outcome, old(objectives), asked, answers)
      ensures old(objectives) != [] ==> (outcome == NoValue <==> Last(answers) == SAT && |asked| < |old(objectives)|)
      ensures old(SecondUnmentioned()) ==> (outcome == NoValue <==> answers[0] == SAT)
      ensures AlwaysSat(primary.solver) ==> Last(answers) == SAT
    {
      if objectives == [] {
        var answer := AskPrimary();
        outcome, asked, answers := Answered(answer), [Elements(Asserted())], [answer];
        return;
      }
      outcome, asked, answers := Optimise();
      if outcome.Answered? {
        PointsOfFrames(backtrackPoints, frames, Now(), old(backtrackPoints), old(Now()));
      }
    }

    /** There is a second objective, whose variable occurs in nothing that the first try is about. */
    ghost predicate SecondUnmentioned()
      reads this, passed
    {
      && |objectives| >= 2
      && objectives[1].variable.id !in VarsOf(Elements(Asserted()) + ConjunctSet(oracle.equation(objectives[0])))
    }

    /** The tries and their answers: all but the last are successful, and give the next variable a value. */
    ghost predicate AnswersFit(outcome: Outcome, objectives: seq<Objective>, asked: seq<set<Formula>>,
                               answers: seq<Answer>)
      reads primary
    {
      && |answers| == |asked| > 0
      && (outcome.Answered? ==> outcome.answer == Last(answers))
      && (Last(answers) == UNSAT ==> Unsat(primary.theory, asked[|asked| - 1]))
      && WentOn(objectives, asked, answers, |asked| - 1)
    }

    /** Closes the level of the equation and that of the bounds. */
    method CloseLevels(ghost base: seq<Frame>, ghost bottom: Frame, ghost level: Frame)
      requires Told() && InOrder() && frames == base + [bottom, level]
      requires bottom.objectives == level.objectives == objectives
      modifies this, passed, primary
      ensures Told() && InOrder() && Now() == bottom && frames == base
    {
      TwoLevels(base, bottom, level, objectives);
      PopLevels(2);
    }

    /** The level of the bounds is open, and so many objectives have been tried with success. */
    ghost predicate Trying(base: seq<Frame>, bottom: Frame, start: set<Formula>, bounds: seq<Formula>,
                           asked: seq<set<Formula>>, answers: seq<Answer>)
      reads this, passed, primary
    {
      && Told() && InOrder() && frames == base + [bottom] && objectives == bottom.objectives
      && |answers| == |asked| == |bounds| < |objectives| && Bounded(oracle, objectives, bounds)
      && Asks(oracle, objectives, start, bounds, asked)
      && WentOn(objectives, asked, answers, |asked|)
      && Elements(Asserted()) == WithBounds(start, bounds, |bounds|)
    }

    /** A check is over: see the contract of `Check`. */
    ghost predicate Over(base: seq<Frame>, bottom: Frame, start: set<Formula>, asked: seq<set<Formula>>,
                         answers: seq<Answer>, outcome: Outcome)
      reads this, passed, primary
    {
      && Told() && InOrder() && (outcome.Answered? ==> Now() == bottom && frames == base)
      && Optimised(oracle, bottom.objectives, start, asked)
      && AnswersFit(outcome, bottom.objectives, asked, answers)
      && (outcome == NoValue <==> Last(answers) == SAT && |asked| < |bottom.objectives|)
      && (AlwaysSat(primary.solver) ==> Last(answers) == SAT)
    }

    /** Both levels are open, and the last try has had its answer. */
    ghost predicate Tried(base: seq<Frame>, bottom: Frame, level: Frame, start: set<Formula>, bounds: seq<Formula>,
                          asked: seq<set<Formula>>, answers: seq<Answer>)
      reads this, passed, primary
    {
      && Told() && InOrder() && frames == base + [bottom, level] && objectives == bottom.objectives == level.objectives
      && |answers| == |asked| == |bounds| + 1 && Bounded(oracle, objectives, bounds)
      && Asks(oracle, objectives, start, bounds, asked) && Optimised(oracle, objectives, start, asked)
      && WentOn(objectives, asked, answers, |bounds|) && asked[|bounds|] == Elements(Asserted())
      && Elements(level.formulas) == WithBounds(start, bounds, |bounds|)
      && (Last(answers) == UNSAT ==> Unsat(primary.theory, asked[|bounds|]))
      && (AlwaysSat(primary.solver) ==> Last(answers) == SAT)
    }

    method TryRound(k: nat, ghost base: seq<Frame>, ghost bottom: Frame, ghost start: set<Formula>,
                    ghost bounds: seq<Formula>, ghost asked0: seq<set<Formula>>, ghost answers0: seq<Answer>)
      returns (answer: Answer, ghost asked: seq<set<Formula>>, ghost answers: seq<Answer>)
      requires Trying(base, bottom, start, bounds, asked0, answers0) && k == |asked0|
      modifies `backtrackPoints, `frames, passed, primary
      ensures Tried(base, bottom, old(Now()), start, bounds, asked, answers) && answer == Last(answers)
        && |asked| == k + 1
    {
      ghost var level := Now();
      answer, asked := TryNext(k, start, bounds, asked0);
      answers := answers0 + [answer];
      assert frames == base + [bottom, level];
      WentOnSoFar(objectives, asked0, answers0, asked, answers);
    }

    /** After a success the bound on the next objective is asserted, if its variable has a value. */
    method GoOn(k: nat, ghost base: seq<Frame>, ghost bottom: Frame, ghost level: Frame, ghost start: set<Formula>,
                ghost bounds0: seq<Formula>, ghost asked: seq<set<Formula>>, ghost answers: seq<Answer>)
      returns (failed: bool, ghost bounds: seq<Formula>)
      requires Tried(base, bottom, level, start, bounds0, asked, answers) && |asked| == k < |objectives|
        && Last(answers) == SAT
      modifies this, passed, primary
      ensures !failed ==> Trying(base, bottom, start, bounds, asked, answers)
      ensures failed ==> Over(base, bottom, start, asked, answers, NoValue)
    {
      bounds := bounds0;
      var value := LookUp(objectives[k].variable);
      failed := value.None?;
      if failed {
        NoValueIsOver(base, bottom, level, start, bounds, asked, answers);
      } else {
        bounds := ImproveNext(k, value.value, base, bottom, level, start, bounds, asked, answers);
      }
    }

    lemma NoValueIsOver(base: seq<Frame>, bottom: Frame, level: Frame, start: set<Formula>, bounds: seq<Formula>,
                        asked: seq<set<Formula>>, answers: seq<Answer>)
      requires Tried(base, bottom, level, start, bounds, asked, answers) && |asked| < |objectives|
        && Last(answers) == SAT
      ensures Over(base, bottom, start, asked, answers, NoValue)
    {
    }

    method ImproveNext(k: nat, x: real, ghost base: seq<Frame>, ghost bottom: Frame, ghost level: Frame,
                       ghost start: set<Formula>,
                       ghost bounds0: seq<Formula>, ghost asked: seq<set<Formula>>, ghost answers: seq<Answer>)
      returns (ghost bounds: seq<Formula>)
      requires Tried(base, bottom, level, start, bounds0, asked, answers) && |asked| == k < |objectives|
      requires WentOn(objectives, asked, answers, k)
      modifies this, passed, primary
      ensures Trying(base, bottom, start, bounds, asked, answers)
    {
      var bound := Improve(k, x, level);
      assert frames == base + [bottom];
      NowTrying(base, bottom, start, bounds0, asked, answers, bound);
      bounds := bounds0 + [bound];
    }

    lemma NowTrying(base: seq<Frame>, bottom: Frame, start: set<Formula>, bounds0: seq<Formula>,
                    asked: seq<set<Formula>>, answers: seq<Answer>, bound: Formula)
      requires Told() && InOrder() && frames == base + [bottom] && objectives == bottom.objectives
      requires |answers| == |asked| == |bounds0| + 1 < |objectives| && Bounded(oracle, objectives, bounds0)
      requires Asks(oracle, objectives, start, bounds0, asked) && IsBound(oracle, objectives[|asked|], bound)
      requires WentOn(objectives, asked, answers, |asked|)
      requires Elements(Asserted()) == WithBounds(start, bounds0, |bounds0|) + ConjunctSet(bound)
      ensures Trying(base, bottom, start, bounds0 + [bound], asked, answers)
    {
      BoundedNext(oracle, objectives, start, bounds0, asked, bound);
    }

    /** One round of the loop below: it goes on after a success, if there is a further objective. */
    method Round(k: nat, ghost base: seq<Frame>, ghost bottom: Frame, ghost start: set<Formula>,
                 ghost bounds0: seq<Formula>, ghost asked0: seq<set<Formula>>, ghost answers0: seq<Answer>)
      returns (outcome: Outcome, done: bool, ghost bounds: seq<Formula>, ghost asked: seq<set<Formula>>,
        ghost answers: seq<Answer>)
      requires Trying(base, bottom, start, bounds0, asked0, answers0) && k == |asked0|
      modifies this, passed, primary
      ensures |asked| == k + 1
      ensures !done ==> Trying(base, bottom, start, bounds, asked, answers)
      ensures done ==> Over(base, bottom, start, asked, answers, outcome)
    {
      ghost var level := Now();
      bounds := bounds0;
      var answer;
      answer, asked, answers := TryRound(k, base, bottom, start, bounds, asked0, answers0);
      if answer != SAT || k + 1 == |objectives| {
        CloseLevels(base, bottom, level);
        outcome, done := Answered(answer), true;
      } else {
        outcome := NoValue;
        done, bounds := GoOn(k + 1, base, bottom, level, start, bounds, asked, answers);
      }
    }

    method Optimise() returns (outcome: Outcome, ghost asked: seq<set<Formula>>, ghost answers: seq<Answer>)
      requires Told() && InOrder() && objectives != []
      modifies this, passed, primary
      ensures Over(old(frames), old(Now()), old(Elements(Asserted())), asked, answers, outcome)
      ensures old(SecondUnmentioned()) ==> |asked| == 1
    {
      ghost var base, bottom, start, bounds := frames, Now(), Elements(Asserted()), [];
      Push();
      outcome, asked, answers := NoValue, [], [];
      var k, done := 0, false;
      while !done
        invariant !done ==> Trying(base, bottom, start, bounds, asked, answers) && k == |asked|
        invariant done ==> Over(base, bottom, start, asked, answers, outcome)
        decreases !done, |bottom.objectives| - k
      {
        outcome, done, bounds, asked, answers := Round(k, base, bottom, start, bounds, asked, answers);
        k := k + 1;
      }
      FirstTry(oracle, bottom.objectives, start, asked);
    }

    // -------------------------------------------------------------- scripts

    /** A well-nested script only adds to what there is. It is broken off if a check fails. */
    method Run(body: seq<Script>) returns (ok: bool)
      requires Told() && InOrder()
      modifies this, passed, primary
      ensures Told() && InOrder()
      ensures ok ==> frames == old(frames) && Below(old(Now()), Now()) && old(objectives) <= objectives
      ensures !MayFail(body, |old(objectives)|) ==> ok
      decreases body, 0
    {
      ok := true;
      ghost var safe := !MayFail(body, |objectives|);
      var k := 0;
      while k < |body| && ok
        invariant k <= |body| && Told() && InOrder()
        invariant ok ==> frames == old(frames) && Below(old(Now()), Now()) && old(objectives) <= objectives
        invariant safe ==> ok && !MayFail(body[k..], |objectives|)
      {
        ok := RunCommand(body[k]);
        k := k + 1;
      }
    }

    method RunCommand(command: Script) returns (ok: bool)
      requires Told() && InOrder()
      modifies this, passed, primary
      ensures Told() && InOrder()
      ensures ok ==> frames == old(frames) && Below(old(Now()), Now()) && old(objectives) <= objectives
      ensures ok ==> |objectives| == |old(objectives)| + Optima(command)
      ensures !MayFailAt(command, |old(objectives)|) ==> ok
      decreases command, 2
    {
      ok := true;
      match command {
        case Assert(f) => var _ := Add(f);
        case Optimum(p, minimize) => AddObjective(p, minimize);
        case CheckSat =>
          var outcome, _, _ := Check();
          ok := outcome.Answered?;
        case Level(inner) => ok := RunLevel(inner);
      }
    }

    /** After a push, a well-nested script and a pop, everything is as it was before the push. */
    method RunLevel(body: seq<Script>) returns (ok: bool)
      requires Told() && InOrder()
      modifies this, passed, primary
      ensures Told() && InOrder()
      ensures ok ==> Now() == old(Now()) && frames == old(frames) && backtrackPoints == old(backtrackPoints)
      ensures !MayFail(body, |old(objectives)|) ==> ok
      decreases body, 1
    {
      Push();
      ok := Run(body);
      if ok {
        CloseLevel(old(frames), old(Now()));
        PointsOfFrames(backtrackPoints, frames, Now(), old(backtrackPoints), old(Now()));
      }
    }

    method CloseLevel(ghost base: seq<Frame>, ghost level: Frame)
      requires Told() && InOrder() && frames == base + [level] && level.objectives <= objectives
      modifies this, passed, primary
      ensures Told() && InOrder() && Now() == level && frames == base
    {
      var _ := Pop();
    }
  }

  /** Whether a script, begun with n objectives, checks when there are two or more. */
  predicate MayFail(body: seq<Script>, n: nat)
    decreases body, 0
  {
    body != [] && (MayFailAt(body[0], n) || MayFail(body[1..], n + Optima(body[0])))
  }

  predicate MayFailAt(command: Script, n: nat)
    decreases command, 1
  {
    match command
    case CheckSat => n >= 2
    case Level(body) => MayFail(body, n)
    case _ => false
  }

  function Optima(command: Script): nat {
    if command.Optimum? then 1 else 0
  }

  function Last(answers: seq<Answer>): Answer {
    if answers == [] then UNKNOWN else answers[|answers| - 1]
  }

  /** The first n tries were successful, and mention the variable of the objective after them. */
  predicate WentOn(objectives: seq<Objective>, asked: seq<set<Formula>>, answers: seq<Answer>, n: nat) {
    && n <= |asked| == |answers| && n <= |objectives|
    && forall k :: 0 <= k < n ==>
      answers[k] == SAT && (k + 1 < |objectives| ==> objectives[k + 1].variable.id in VarsOf(asked[k]))
  }

  lemma WentOnSoFar(objectives: seq<Objective>, asked: seq<set<Formula>>, answers: seq<Answer>,
                    asked': seq<set<Formula>>, answers': seq<Answer>)
    requires WentOn(objectives, asked, answers, |asked|) && asked <= asked' && answers <= answers'
      && |asked'| == |answers'|
    ensures WentOn(objectives, asked', answers', |asked|)
  {
  }

  lemma FirstTry(oracle: Oracle, objectives: seq<Objective>, start: set<Formula>, asked: seq<set<Formula>>)
    requires Optimised(oracle, objectives, start, asked)
    ensures asked[0] == start + ConjunctSet(oracle.equation(objectives[0]))
  {
    var bounds :| |asked| == |bounds| + 1 <= |objectives| && Bounded(oracle, objectives, bounds)
                  && Asks(oracle, objectives, start, bounds, asked);
    assert asked[0] == AskedAt(oracle, objectives, start, bounds, 0);
  }

  /** The frames say where the backtrack points are. */
  lemma PointsOfFrames(points: seq<BacktrackPoint>, frames: seq<Frame>, now: Frame, points': seq<BacktrackPoint>,
                       now': Frame)
    requires Stacked(points, frames, now) && Stacked(points', frames, now')
    ensures points == points'
  {
    assert forall k :: 0 <= k < |frames| ==> PointAt(points[k], frames[k]) && PointAt(points'[k], frames[k]);
  }

  lemma TwoLevels(base: seq<Frame>, bottom: Frame, level: Frame, objectives: seq<Objective>)
    requires bottom.objectives == level.objectives == objectives
    ensures var frames := base + [bottom, level];
      PoppedTo(frames, |base|, objectives) == bottom && frames[..|base|] == base
  {
    assert Lower(base + [bottom, level]) == base + [bottom];
  }

  lemma StackedBelow(points: seq<BacktrackPoint>, frames: seq<Frame>, now: Frame, now': Frame)
    requires Stacked(points, frames, now) && frames != []
    requires now'.order == frames[|frames| - 1].order && now'.formulas == frames[|frames| - 1].formulas
    ensures Stacked(points[..|points| - 1], frames[..|frames| - 1], now')
  {
    assert forall k :: 0 <= k < |frames| - 1 ==> Below(frames[k], frames[|frames| - 1]);
  }

  lemma StackedAbove(points: seq<BacktrackPoint>, frames: seq<Frame>, now: Frame, now': Frame)
    requires Stacked(points, frames, now) && now.order <= now'.order && now.formulas <= now'.formulas
    ensures Stacked(points, frames, now')
  {
    assert forall k :: 0 <= k < |frames| ==> Below(frames[k], now);
  }

  lemma LastInPrefix(low: seq<nat>, high: seq<nat>)
    requires low <= high && Distinct(high) && LastOf(low) == LastOf(high)
    ensures low == high
  {
    if low != [] {
      assert high[|low| - 1] == low[|low| - 1] == high[|high| - 1];
    }
  }

  lemma LastNotInPrefix(low: seq<nat>, high: seq<nat>)
    requires low <= high && LastOf(low) != LastOf(high)
    ensures |low| < |high|
  {
  }

  /** Removing an objective leaves the levels intact exactly if it came after the last push. */
  lemma IntactWithout(frames: seq<Frame>, objectives: seq<Objective>, i: nat)
    requires Intact(frames, 0, objectives) && i < |objectives|
    requires forall j, k :: 0 <= j < k < |objectives| ==> objectives[j].variable != objectives[k].variable
    ensures Intact(frames, 0, objectives[..i] + objectives[i + 1..])
       <==> frames == [] || |frames[|frames| - 1].objectives| <= i
  {
    var rest := objectives[..i] + objectives[i + 1..];
    if frames != [] {
      var level := frames[|frames| - 1].objectives;
      if |level| <= i {
        forall k | 0 <= k < |frames|
          ensures frames[k].objectives <= rest
        {
          assert |frames[k].objectives| <= |level|;
        }
      } else {
        assert level[i] == objectives[i];
        assert i < |rest| ==> rest[i] == objectives[i + 1];
        assert !(level <= rest);
      }
    }
  }

  /**
   What a pop leaves after an objective has been removed. If that was there at the push, popping
   does not come back to it: all objectives go if none has been added since, else the objectives
   after the removed one move up, and one that should have gone with the level stays.
   */
  lemma RemovedThenPopped(frames: seq<Frame>, objectives: seq<Objective>, p: Poly)
    requires frames != [] && frames[|frames| - 1].objectives <= objectives && LastIndex(objectives, p) >= 0
    requires forall j, k :: 0 <= j < k < |objectives| ==> objectives[j].variable != objectives[k].variable
    ensures
      var i, level := LastIndex(objectives, p), frames[|frames| - 1].objectives;
      var left := Popped(frames, WithoutLast(objectives, p)).objectives;
      && (left == level <==> |level| <= i)
      && (i < |level| == |objectives| ==> left == [])
      && (i < |level| < |objectives| ==> left == level[..i] + objectives[i + 1..|level| + 1])
  {
    var i, level := LastIndex(objectives, p), frames[|frames| - 1].objectives;
    if i < |level| < |objectives| {
      assert objectives[i].variable != objectives[i + 1].variable;
      MovedUp(level, objectives, i);
    } else if |level| <= i {
      StillThere(level, objectives, i);
    }
  }

  lemma StillThere(level: seq<Objective>, objectives: seq<Objective>, i: nat)
    requires level <= objectives && |level| <= i < |objectives|
    ensures (objectives[..i] + objectives[i + 1..])[..|level|] == level
  {
  }

  lemma MovedUp(level: seq<Objective>, objectives: seq<Objective>, i: nat)
    requires level <= objectives && i < |level| < |objectives| && objectives[i] != objectives[i + 1]
    ensures
      var left := (objectives[..i] + objectives[i + 1..])[..|level|];
      left == level[..i] + objectives[i + 1..|level| + 1] && left != level
  {
    assert level[i] == objectives[i] && (objectives[..i] + objectives[i + 1..])[..|level|][i] == objectives[i + 1];
  }

  /** Two objectives, a push, the first one removed, a pop: both are lost. */
  lemma AllLost(level: Frame, a: Objective, b: Objective)
    requires level.objectives == [a, b] && a.poly != b.poly
    ensures WithoutLast([a, b], a.poly) == [b] && Popped([level], [b]).objectives == []
  {
    assert LastIndex([a, b], a.poly) == 0 by {
      assert [a, b][0].poly == a.poly;
    }
  }

  /** The same with a third objective added after the push: it takes the place of the first. */
  lemma WrongKept(level: Frame, a: Objective, b: Objective, c: Objective)
    requires level.objectives == [a, b] && a.poly != b.poly && a.poly != c.poly
    ensures WithoutLast([a, b, c], a.poly) == [b, c] && Popped([level], [b, c]).objectives == [b, c]
  {
    assert LastIndex([a, b, c], a.poly) == 0 by {
      assert [a, b, c][0].poly == a.poly;
    }
  }

  const DEFAULT_ORACLE := Oracle(_ => Atom(0, 1, {}), (_, _) => Atom(1, 1, {}), _ => map[])

  /** With two objectives on different variables and a solver that finds a model, a check fails. */
  method SecondHasNoValue(p: Poly, q: Poly)
    returns (m: Manager, objectives: seq<Objective>, outcome: Outcome, ghost asked: seq<set<Formula>>,
      ghost answers: seq<Answer>)
    ensures |objectives| == 2 && objectives[0].poly == p && objectives[1].poly == q
    ensures m.oracle == DEFAULT_ORACLE && AlwaysSat(m.primary.solver)
    ensures Optimised(m.oracle, objectives, {}, asked) && m.AnswersFit(outcome, objectives, asked, answers)
    ensures asked == [ConjunctSet(m.oracle.equation(objectives[0]))] && answers == [SAT] && outcome == NoValue
  {
    m := TwoObjectives((_, _) => (SAT, []), p, q);
    objectives := m.objectives;
    outcome, asked, answers := m.Check();
    FirstTry(m.oracle, objectives, {}, asked);
    assert {} + asked[0] == asked[0];
  }

  method TwoObjectives(solver: Solver, p: Poly, q: Poly) returns (m: Manager)
    requires AlwaysSat(solver) && forall fs, k :: solver(fs, k).1 == []
    ensures fresh(m) && fresh(m.passed) && fresh(m.primary) && m.Told() && m.InOrder()
    ensures m.oracle == DEFAULT_ORACLE && AlwaysSat(m.primary.solver) && m.Asserted() == []
    ensures |m.objectives| == 2 && m.objectives[0].poly == p && m.objectives[1].poly == q && m.SecondUnmentioned()
  {
    m := new Manager(DEFAULT_ORACLE, solver, iset{});
    m.AddObjective(p, true);
    m.AddObjective(q, true);
    assert forall f :: f in ConjunctSet(m.oracle.equation(m.objectives[0])) ==> f == Atom(0, 1, {});
  }
}
