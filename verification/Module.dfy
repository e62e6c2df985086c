/**
 One module of the solver's module tree: what it has received, what it passes on, and the
 backends it passes it on to. A backend is a module too, but seen from its parent only.
 */
module Modules {
  import opened Basics
  import opened Formulas
  import opened ModuleInputs
  import opened Origins

  lemma NamesWithout(es: seq<Entry>, i: nat)
    requires i < |es|
    ensures Names(es[..i] + es[i + 1..]) == Names(es)[..i] + Names(es)[i + 1..]
  {
  }

  /** In how many of the formulas a variable occurs. */
  function Occurrences(fs: seq<Formula>, v: nat): nat {
    if fs == [] then 0 else (if v in Vars(fs[0]) then 1 else 0) + Occurrences(fs[1..], v)
  }

  lemma {:induction false} OccurrencesAppend(fs: seq<Formula>, gs: seq<Formula>, v: nat)
    ensures Occurrences(fs + gs, v) == Occurrences(fs, v) + Occurrences(gs, v)
  {
    if fs == [] {
      assert fs + gs == gs;
    } else {
      assert (fs + gs)[0] == fs[0] && (fs + gs)[1..] == fs[1..] + gs;
      OccurrencesAppend(fs[1..], gs, v);
    }
  }

  lemma OccurrencesRemove(fs: seq<Formula>, i: nat, v: nat)
    requires i < |fs|
    ensures Occurrences(fs, v) == Occurrences(fs[..i] + fs[i + 1..], v) + (if v in Vars(fs[i]) then 1 else 0)
  {
    assert fs == fs[..i] + ([fs[i]] + fs[i + 1..]);
    OccurrencesAppend(fs[..i], [fs[i]] + fs[i + 1..], v);
    OccurrencesAppend([fs[i]], fs[i + 1..], v);
    OccurrencesAppend(fs[..i], fs[i + 1..], v);
    assert Occurrences([fs[i]], v) == if v in Vars(fs[i]) then 1 else 0;
  }

  /**
   What a module owes its parent: what it calls unsatisfiable is, and every infeasible subset
   it stores consists of received formulas that have no common model.
   */
  ghost predicate Explains(theory: Theory, received: set<Formula>, state: Answer, subsets: seq<set<Formula>>) {
    && (state == UNSAT ==> Unsat(theory, received))
    && forall s :: s in subsets ==> s <= received && Unsat(theory, s)
  }

  /** The loop of `remove` that drops every infeasible subset containing f, by swap and pop. */
  method DropSubsets(before: seq<set<Formula>>, f: Formula) returns (after: seq<set<Formula>>)
    ensures forall s :: s in after <==> s in before && f !in s
  {
    after := before;
    var pos := 0;
    while pos < |after|
      invariant pos <= |after|
      invariant forall j :: 0 <= j < pos ==> f !in after[j]
      invariant forall s :: f !in s ==> (s in after <==> s in before)
      invariant forall s :: s in after ==> s in before
      decreases |after| - pos
    {
      if f in after[pos] {
        ghost var was := after;
        after := after[pos := after[|after| - 1]][..|after| - 1];
        DropKeepsOthers(was, pos);
      } else {
        pos := pos + 1;
      }
    }
  }

  lemma DropKeepsOthers(s: seq<set<Formula>>, pos: nat)
    requires pos < |s|
    ensures forall x :: x != s[pos] ==> (x in s[pos := s[|s| - 1]][..|s| - 1] <==> x in s)
    ensures forall x :: x in s[pos := s[|s| - 1]][..|s| - 1] ==> x in s
  {
    var r := s[pos := s[|s| - 1]][..|s| - 1];
    forall x | x in s && x != s[pos]
      ensures x in r
    {
      var j :| 0 <= j < |s| && s[j] == x;
      assert if j == |s| - 1 then r[pos] == x else r[j] == x;
    }
  }

  /**
   How a module of some derived class solves: the answer and the infeasible subsets it comes
   up with for the formulas it knows. The number makes it free to answer differently each time.
   */
  type Solver = (seq<Formula>, nat) -> (Answer, seq<set<Formula>>)

  ghost predicate Sound(theory: Theory, solver: Solver) {
    forall fs, k :: Explains(theory, Elements(fs), solver(fs, k).0, solver(fs, k).1)
  }

  /** The solver has come up with this subset at some time. */
  ghost predicate Known(solver: Solver, s: set<Formula>) {
    exists fs, k :: s in solver(fs, k).1
  }

  /** UNSAT comes with infeasible subsets, none of which is empty, and nothing else does. */
  ghost predicate Explaining(solver: Solver) {
    forall fs, k :: (solver(fs, k).0 == UNSAT <==> solver(fs, k).1 != []) && {} !in solver(fs, k).1
  }

  /** Once the solver knows a conflict, it answers UNSAT whenever it is told these formulas. */
  ghost predicate Recalls(solver: Solver) {
    forall s, fs, k :: Known(solver, s) && s <= Elements(fs) ==> solver(fs, k).0 == UNSAT
  }

  ghost predicate Reliable(solver: Solver, lazy: bool) {
    Explaining(solver) && (lazy || Recalls(solver))
  }

  ghost predicate Tidy(state: Answer, subsets: seq<set<Formula>>) {
    (state == UNSAT <==> subsets != []) && {} !in subsets
  }

  lemma WithoutOne(fs: seq<Formula>, i: nat)
    requires i < |fs|
    ensures forall f :: f in fs && f != fs[i] ==> f in fs[..i] + fs[i + 1..]
  {
    assert fs == fs[..i] + [fs[i]] + fs[i + 1..];
  }

  /** A module as its parent sees it: the receiving side. */
  class Backend {
    const priority: nat
    const solver: Solver
    /** Whether the class leaves `addCore` as it is: then being told a formula does nothing yet. */
    const lazy: bool
    ghost const theory: Theory
    /** The formulas this module has been told and not been told to forget, in order. */
    var told: seq<Formula>
    var variableCounters: map<nat, nat>
    var infeasibleSubsets: seq<set<Formula>>
    var solverState: Answer
    var calls: nat

    function Counter(v: nat): nat
      reads `variableCounters
    {
      if v in variableCounters then variableCounters[v] else 0
    }

    ghost predicate Valid()
      reads this
    {
      && Sound(theory, solver)
      && (forall v: nat :: Counter(v) == Occurrences(told, v))
      && Explains(theory, Elements(told), solverState, infeasibleSubsets)
      && (forall s :: s in infeasibleSubsets ==> Known(solver, s))
      && (Explaining(solver) ==> Tidy(solverState, infeasibleSubsets))
    }

    constructor (priority: nat, solver: Solver, lazy: bool, ghost theory: Theory)
      requires Sound(theory, solver)
      ensures Valid() && told == [] && this.priority == priority && this.lazy == lazy && this.theory == theory
      ensures this.solver == solver && infeasibleSubsets == []
    {
      this.priority, this.solver, this.lazy, this.theory := priority, solver, lazy, theory;
      told, variableCounters, infeasibleSubsets, solverState, calls := [], map[], [], UNKNOWN, 0;
    }

    method Solve()
      requires Sound(theory, solver) && forall v: nat :: Counter(v) == Occurrences(told, v)
      modifies `infeasibleSubsets, `solverState, `calls
      ensures Valid() && (solverState, infeasibleSubsets) == solver(told, old(calls))
    {
      var verdict := solver(told, calls);
      assert forall s :: s in verdict.1 ==> Known(solver, s);
      calls := calls + 1;
      solverState, infeasibleSubsets := verdict.0, verdict.1;
    }

    /** False means that the formula was found to be in conflict, which then is explained. */
    method Add(f: Formula) returns (ok: bool)
      requires Valid()
      modifies this
      ensures Valid() && told == old(told) + [f]
      ensures !ok ==> Unsat(theory, Elements(told))
      ensures lazy ==> ok && solverState == old(solverState) && infeasibleSubsets == old(infeasibleSubsets)
      ensures !lazy ==> (solverState, infeasibleSubsets) == solver(told, old(calls)) && ok == (solverState != UNSAT)
      ensures Reliable(solver, lazy) && (!ok || old(infeasibleSubsets) != []) ==> infeasibleSubsets != []
    {
      CountVariables(f);
      ExplainsMore(f);
      told := told + [f];
      ok := true;
      if !lazy {
        ghost var subsets := infeasibleSubsets;
        Solve();
        ok := solverState != UNSAT;
        if subsets != [] {
          assert subsets[0] in subsets && subsets[0] <= Elements(told);
        }
      }
    }

    lemma ExplainsMore(f: Formula)
      requires Explains(theory, Elements(told), solverState, infeasibleSubsets)
      ensures Explains(theory, Elements(told + [f]), solverState, infeasibleSubsets)
    {
      if solverState == UNSAT {
        UnsatWithMore(theory, Elements(told), Elements(told + [f]));
      }
      assert Elements(told) <= Elements(told + [f]);
    }

    lemma KnowsConflict()
      requires Valid() && (solverState == UNSAT || infeasibleSubsets != [])
      ensures Unsat(theory, Elements(told))
    {
      if infeasibleSubsets != [] {
        UnsatWithMore(theory, infeasibleSubsets[0], Elements(told));
      }
    }

    method CountVariables(f: Formula)
      requires forall v: nat :: Counter(v) == Occurrences(told, v)
      modifies `variableCounters
      ensures forall v: nat :: Counter(v) == Occurrences(told + [f], v)
    {
      var vars := Vars(f);
      while vars != {}
        invariant vars <= Vars(f)
        invariant forall v: nat ::
          Counter(v) == Occurrences(told, v) + if v in Vars(f) && v !in vars then 1 else 0
        decreases vars
      {
        var v :| v in vars;
        variableCounters := variableCounters[v := Counter(v) + 1];
        vars := vars - {v};
      }
      forall v: nat
        ensures Counter(v) == Occurrences(told + [f], v)
      {
        OccurrencesAppend(told, [f], v);
        assert Occurrences([f], v) == if v in Vars(f) then 1 else 0;
      }
    }

    /** The formula must be one this module was told: only then the counters cannot underflow. */
    method Remove(i: nat, f: Formula)
      requires Valid() && i < |told| && told[i] == f
      requires f !in told[..i] && f !in told[i + 1..]
      modifies this
      ensures Valid() && told == old(told)[..i] + old(told)[i + 1..]
    {
      UncountVariables(i, f);
      WithoutOne(told, i);
      told := told[..i] + told[i + 1..];
      infeasibleSubsets := DropSubsets(infeasibleSubsets, f);
      if infeasibleSubsets == [] {
        solverState := UNKNOWN;
      } else {
        UnsatWithMore(theory, infeasibleSubsets[0], Elements(told));
      }
    }

    method UncountVariables(ghost i: nat, f: Formula)
      requires i < |told| && told[i] == f
      requires forall v: nat :: Counter(v) == Occurrences(told, v)
      modifies `variableCounters
      ensures forall v: nat :: Counter(v) == Occurrences(told[..i] + told[i + 1..], v)
    {
      forall v: nat
        ensures Occurrences(told, v)
             == Occurrences(told[..i] + told[i + 1..], v) + (if v in Vars(f) then 1 else 0)
      {
        OccurrencesRemove(told, i, v);
      }
      var vars := Vars(f);
      while vars != {}
        invariant vars <= Vars(f)
        invariant forall v: nat ::
          Counter(v) == Occurrences(told[..i] + told[i + 1..], v) + if v in vars then 1 else 0
        decreases vars
      {
        var v :| v in vars;
        assert Counter(v) > 0;
        variableCounters := variableCounters[v := Counter(v) - 1];
        vars := vars - {v};
      }
    }

    method Check() returns (answer: Answer)
      requires Valid()
      modifies `infeasibleSubsets, `solverState, `calls
      ensures Valid() && answer == solverState
      ensures told == [] ==> answer == SAT && infeasibleSubsets == old(infeasibleSubsets)
      ensures told != [] ==> (solverState, infeasibleSubsets) == solver(told, old(calls))
    {
      if told == [] {
        assert forall s :: s in infeasibleSubsets ==> s == {};
        assert infeasibleSubsets != [] ==> infeasibleSubsets[0] in infeasibleSubsets;
        solverState := SAT;
      } else {
        Solve();
      }
      answer := solverState;
    }
  }

  /** A strategy edge whose condition holds: the backend's priority and how to build it. */
  datatype Edge = Edge(priority: nat, solver: Solver, lazy: bool)

  /** The backends from `low` up to `high` have been told these formulas. */
  ghost predicate BackendsTold(bs: seq<Backend>, low: nat, high: nat, theory: Theory, fs: seq<Formula>)
    requires low <= high <= |bs|
    reads bs
  {
    forall i :: low <= i < high ==> bs[i].Valid() && bs[i].theory == theory && bs[i].told == fs
  }

  ghost predicate MadeFor(wanted: seq<Edge>, b: Backend) {
    exists k :: 0 <= k < |wanted| && wanted[k] == Edge(b.priority, b.solver, b.lazy)
  }

  /** All these backends explain what they call unsatisfiable, and do not forget it. */
  ghost predicate AllReliable(bs: seq<Backend>) {
    forall i :: 0 <= i < |bs| ==> Reliable(bs[i].solver, bs[i].lazy)
  }

  /** Some of these backends has an infeasible subset. */
  ghost predicate SomeConflict(bs: seq<Backend>)
    reads bs
  {
    exists i :: 0 <= i < |bs| && bs[i].infeasibleSubsets != []
  }

  /** A backend that is told something new refuses it, whenever it is asked. */
  predicate Eager(b: Backend, from: nat, fs: seq<Formula>) {
    !b.lazy && from < |fs|
  }

  ghost predicate Refuses(b: Backend, fs: seq<Formula>) {
    forall k :: b.solver(fs, k).0 == UNSAT
  }

  /** There is one backend for each priority; in particular no backend is listed twice. */
  predicate DistinctBackends(bs: seq<Backend>) {
    forall i, j :: 0 <= i < j < |bs| ==> bs[i].priority != bs[j].priority
  }

  /** The conflicts that backends with the answer UNSAT report, backend by backend. */
  ghost function Conflicts(bs: seq<Backend>): seq<set<Formula>>
    reads bs
  {
    if bs == [] then [] else
      var last := bs[|bs| - 1];
      Conflicts(bs[..|bs| - 1]) + if last.solverState == UNSAT then last.infeasibleSubsets else []
  }

  /** Conflicts come from backends that answered UNSAT and say why. */
  lemma {:induction false} ConflictsSome(bs: seq<Backend>)
    ensures Conflicts(bs) != [] <==>
      exists i :: 0 <= i < |bs| && bs[i].solverState == UNSAT && bs[i].infeasibleSubsets != []
  {
    if bs != [] {
      var rest := bs[..|bs| - 1];
      ConflictsSome(rest);
      assert forall i :: 0 <= i < |rest| ==> rest[i] == bs[i];
    }
  }

  ghost function LiftAll(received: set<Formula>, es: seq<Entry>, conflicts: seq<set<Formula>>): (r: seq<set<Formula>>)
    ensures |r| == |conflicts|
  {
    seq(|conflicts|, i requires 0 <= i < |conflicts| => Lifted(received, es, conflicts[i]))
  }

  lemma LiftAllAppend(received: set<Formula>, es: seq<Entry>, cs: seq<set<Formula>>, ds: seq<set<Formula>>)
    ensures LiftAll(received, es, cs + ds) == LiftAll(received, es, cs) + LiftAll(received, es, ds)
  {
  }

  lemma UnsatWithMore(theory: Theory, fs: set<Formula>, gs: set<Formula>)
    requires Unsat(theory, fs) && fs <= gs
    ensures Unsat(theory, gs)
  {
    forall v | v in theory
      ensures exists f :: f in gs && !Satisfies(v, f)
    {
      var f :| f in fs && !Satisfies(v, f);
      assert f in gs;
    }
  }

  predicate NoOriginsIn(es: seq<Entry>) {
    forall i :: 0 <= i < |es| ==> es[i].origins.None?
  }

  class Module {
    ghost const theory: Theory
    const received: ModuleInput
    const passed: ModuleInput
    /** The first passed formula the backends have not been told; None is the end of the list. */
    var first: Option<nat>
    var allBackends: seq<Backend>
    /** Whether the manager knows the backends of this module; looking them up before fails. */
    var registered: bool
    var used: seq<Backend>
    var infeasibleSubsets: seq<set<Formula>>
    var solverState: Answer
    /** What the backends have been told. */
    ghost var told: seq<Formula>

    function FirstIndex(): nat
      reads `first, passed
    {
      IndexFrom(passed.order, first)
    }

    function Passed(): seq<Formula>
      reads passed
    {
      Names(passed.View())
    }

    ghost predicate BackendsSynced()
      reads `allBackends, `registered, `used, `told, allBackends
    {
      && DistinctBackends(allBackends)
      && BackendsTold(allBackends, 0, |allBackends|, theory, told)
      && (!registered ==> allBackends == [] && told == [])
      && (forall b :: b in used ==> b in allBackends)
    }

    ghost predicate PassedSynced()
      reads `first, `told, passed
    {
      && passed.Valid()
      && (first.Some? ==> first.value in passed.nodes)
      && FirstIndex() <= |Passed()|
      && told == Passed()[..FirstIndex()]
    }

    /** Every backend has been told exactly the passed formulas before `first`, in order. */
    ghost predicate Synced()
      reads this, passed, allBackends
    {
      PassedSynced() && BackendsSynced()
    }

    constructor (received: ModuleInput, ghost theory: Theory)
      ensures Synced() && fresh(passed) && passed.order == [] && this.received == received && this.theory == theory
      ensures infeasibleSubsets == [] && allBackends == [] && told == [] && solverState == UNKNOWN
    {
      this.received, this.theory := received, theory;
      passed := new ModuleInput();
      first, allBackends, registered, used, told := None, [], false, [], [];
      infeasibleSubsets, solverState := [], UNKNOWN;
    }

    /** Adding to the passed formula tells nobody; new formulas wait from `first` on. */
    method AddSubformulaToPassedFormula(f: Formula, arg: OriginArg, mightBeConjunction: bool)
      returns (it: Option<nat>, added: bool)
      requires PassedSynced()
      requires arg.Shared? ==> arg.vector in passed.vectors
      modifies `first, passed
      ensures PassedSynced()
      ensures added <==> |passed.order| > |old(passed.order)|
      ensures added ==> it == Some(passed.order[|old(passed.order)|])
      ensures passed.Formulas() == AddNames(old(passed.Formulas()), Conjuncts(f, mightBeConjunction))
      ensures arg.Shared? ==> arg.vector in passed.vectors
      ensures passed.GrownIfPrivate(Conjuncts(f, mightBeConjunction), arg)
      ensures passed.Spreads(Conjuncts(f, mightBeConjunction), arg)
    {
      ghost var order0, names0 := passed.order, Passed();
      it, added := GrowPassed(f, arg, mightBeConjunction);
      ghost var first0 := first;
      NoteNew(it, added, order0);
      ResyncedByAdd(order0, names0, first0);
    }

    lemma ResyncedByAdd(order0: seq<nat>, names0: seq<Formula>, first0: Option<nat>)
      requires passed.Valid() && names0 <= Passed() && |order0| == |names0|
      requires first.Some? ==> first.value in passed.nodes
      requires FirstIndex() == IndexFrom(order0, first0) <= |order0|
      requires told == names0[..FirstIndex()]
      ensures PassedSynced()
    {
    }

    method GrowPassed(f: Formula, arg: OriginArg, mightBeConjunction: bool) returns (it: Option<nat>, added: bool)
      requires passed.Valid()
      requires arg.Shared? ==> arg.vector in passed.vectors
      modifies passed
      ensures passed.Valid() && old(passed.order) <= passed.order && old(Passed()) <= Passed()
      ensures added <==> |passed.order| > |old(passed.order)|
      ensures added ==> it == Some(passed.order[|old(passed.order)|])
      ensures passed.Formulas() == AddNames(old(passed.Formulas()), Conjuncts(f, mightBeConjunction))
      ensures arg.Shared? ==> arg.vector in passed.vectors
      ensures passed.GrownIfPrivate(Conjuncts(f, mightBeConjunction), arg)
      ensures passed.Spreads(Conjuncts(f, mightBeConjunction), arg)
    {
      PassedIsFormulas();
      AddNamesGrows(passed.Formulas(), Conjuncts(f, mightBeConjunction));
      it, added := passed.Add(f, arg, mightBeConjunction);
      PassedIsFormulas();
    }

    lemma PassedIsFormulas()
      ensures Passed() == passed.Formulas()
    {
    }

    method NoteNew(it: Option<nat>, added: bool, ghost order0: seq<nat>)
      requires passed.Valid() && order0 <= passed.order
      requires first.Some? ==> first.value in order0
      requires added <==> |passed.order| > |order0|
      requires added ==> it == Some(passed.order[|order0|])
      modifies `first
      ensures first.Some? ==> first.value in passed.nodes
      ensures FirstIndex() == IndexFrom(order0, old(first)) <= |order0|
    {
      if added && first == None {
        first := it;
        assert passed.order[|order0|] == it.value;
      } else if first.Some? {
        IndexInPrefix(order0, passed.order, first.value);
      }
    }

    /** Decides whether the backends have been told about n, and moves `first` off n. */
    method LocateForErase(n: nat) returns (checked: bool)
      requires passed.Valid() && n in passed.nodes
      requires first.Some? ==> first.value in passed.nodes
      modifies `first
      ensures checked <==> IndexOf(passed.order, n) < old(FirstIndex())
      ensures first == if old(first) == Some(n) then Next(passed.order, n) else old(first)
    {
      if first == Some(n) {
        first := Next(passed.order, n);
        return false;
      }
      checked := true;
      var i := FirstIndex();
      while i < |passed.order|
        invariant FirstIndex() <= i <= |passed.order|
        invariant forall j :: FirstIndex() <= j < i ==> passed.order[j] != n
      {
        if passed.order[i] == n {
          return false;
        }
        i := i + 1;
      }
    }

    method RemoveFromBackends(i: nat, f: Formula)
      requires BackendsSynced()
      requires i < |told| && told[i] == f && f !in told[..i] && f !in told[i + 1..]
      modifies allBackends, `told
      ensures BackendsSynced() && told == old(told)[..i] + old(told)[i + 1..]
    {
      ghost var before, after := told, told[..i] + told[i + 1..];
      told := after;
      for k := 0 to |allBackends|
        modifies allBackends
        invariant BackendsTold(allBackends, 0, k, theory, after)
        invariant BackendsTold(allBackends, k, |allBackends|, theory, before)
      {
        RemoveNext(k, i, f, before);
      }
    }

    method RemoveNext(k: nat, i: nat, f: Formula, ghost before: seq<Formula>)
      requires DistinctBackends(allBackends) && k < |allBackends|
      requires i < |before| && before[i] == f && f !in before[..i] && f !in before[i + 1..]
      requires BackendsTold(allBackends, 0, k, theory, before[..i] + before[i + 1..])
      requires BackendsTold(allBackends, k, |allBackends|, theory, before)
      modifies allBackends[k]
      ensures BackendsTold(allBackends, 0, k + 1, theory, before[..i] + before[i + 1..])
      ensures BackendsTold(allBackends, k + 1, |allBackends|, theory, before)
    {
      allBackends[k].Remove(i, f);
    }

    /**
     Erases a passed formula. Exactly the backends that were told about it are told to forget it,
     and every backend knows where to find it. `asserted` is whether the assertion holds that it
     has no origins.
     */
    method EraseSubformulaFromPassedFormula(n: nat, ignoreOrigins: bool) returns (next: Option<nat>, asserted: bool)
      requires Synced() && n in passed.nodes
      modifies `first, `told, passed, allBackends
      ensures Synced() && passed.nodes == old(passed.nodes) - {n} && passed.vectors == old(passed.vectors)
      ensures asserted <==> ignoreOrigins || old(passed.nodes)[n].origins.None?
      ensures next == Next(old(passed.order), n)
      ensures Erased(IndexOf(old(passed.order), n), old(passed.order), old(passed.View()))
      ensures FirstIndex() == OneLess(IndexOf(old(passed.order), n), old(FirstIndex()))
    {
      next, asserted := Next(passed.order, n), ignoreOrigins || passed.nodes[n].origins.None?;
      ghost var order0, es0, first0 := passed.order, passed.View(), first;
      ForgetInBackends(n);
      ErasePassed(n, ignoreOrigins);
      ResyncedByErase(n, order0, es0, first0);
    }

    lemma ResyncedByErase(n: nat, order0: seq<nat>, es0: seq<Entry>, first0: Option<nat>)
      requires passed.Valid() && Erased(IndexOf(order0, n), order0, es0) && Distinct(order0)
      requires first0.Some? ==> first0.value in order0
      requires first == if first0 == Some(n) then Next(order0, n) else first0
      requires IndexFrom(order0, first0) <= |es0|
      requires told == ToldWithout(Names(es0), IndexOf(order0, n), IndexFrom(order0, first0))
      ensures PassedSynced() && FirstIndex() == OneLess(IndexOf(order0, n), IndexFrom(order0, first0))
    {
      var i, k := IndexOf(order0, n), IndexFrom(order0, first0);
      FirstAfterErase(order0, i, first0);
      WithoutPrefix(Names(es0), i, k);
      NamesWithout(es0, i);
      assert first.Some? ==> first.value in passed.order;
    }

    /** The passed formula is what it was, without the element at i. */
    predicate Erased(i: nat, order0: seq<nat>, es0: seq<Entry>)
      reads passed
    {
      && i < |order0| == |es0|
      && passed.order == order0[..i] + order0[i + 1..]
      && passed.View() == es0[..i] + es0[i + 1..]
    }

    /** Tells the backends to forget about n, if they know it, and moves `first` off n. */
    method ForgetInBackends(n: nat)
      requires Synced() && n in passed.nodes
      modifies `first, `told, allBackends
      ensures BackendsSynced()
      ensures first == if old(first) == Some(n) then Next(passed.order, n) else old(first)
      ensures var i := IndexOf(passed.order, n);
        && i < |passed.order| && IndexFrom(passed.order, old(first)) <= |Passed()|
        && told == ToldWithout(Passed(), i, IndexFrom(passed.order, old(first)))
    {
      var i := IndexOf(passed.order, n);
      if i < FirstIndex() {
        ToldOnce(i);
      }
      var checked := LocateForErase(n);
      if checked {
        assert registered;
        RemoveFromBackends(i, passed.nodes[n].formula);
      }
    }

    lemma ToldOnce(i: nat)
      requires PassedSynced() && i < FirstIndex()
      ensures told[i] == passed.nodes[passed.order[i]].formula
      ensures told[i] !in told[..i] && told[i] !in told[i + 1..]
    {
      passed.ViewHasNoDuplicates();
    }

    method ErasePassed(n: nat, ignoreOrigins: bool)
      requires passed.Valid() && n in passed.nodes
      modifies passed`order, passed`nodes, passed`position
      ensures passed.Valid() && passed.nodes == old(passed.nodes) - {n}
      ensures Erased(IndexOf(old(passed.order), n), old(passed.order), old(passed.View()))
    {
      if ignoreOrigins {
        ClearOrigins(n);
      }
      EraseNode(n);
    }

    method EraseNode(n: nat)
      requires passed.Valid() && n in passed.nodes
      modifies passed`order, passed`nodes, passed`position
      ensures passed.Valid() && passed.nodes == old(passed.nodes) - {n}
      ensures Erased(IndexOf(old(passed.order), n), old(passed.order), old(passed.View()))
    {
      ViewErase(passed.order, passed.nodes, passed.vectors, IndexOf(passed.order, n));
      passed.Erase(n);
    }

    method ClearOrigins(n: nat)
      requires passed.Valid() && n in passed.nodes
      modifies passed`nodes
      ensures passed.Valid() && passed.order == old(passed.order) && n in passed.nodes
      ensures passed.nodes - {n} == old(passed.nodes) - {n}
      ensures var i := IndexOf(passed.order, n);
        && i < |passed.order|
        && passed.View()[..i] == old(passed.View())[..i] && passed.View()[i + 1..] == old(passed.View())[i + 1..]
    {
      ghost var nodes0 := passed.nodes;
      passed.SetOrigins(n, None);
      ViewUpdate(passed.order, nodes0, passed.vectors, passed.nodes, passed.vectors, n);
    }

    // -------------------------------------------------------------- taking back

    /**
     Everything is taken back, in the backends too. `asserted` is whether the assertion of
     `eraseSubformulaFromPassedFormula` holds each time: exactly if nothing passed has origins.
     */
    method ClearPassedFormula() returns (asserted: bool)
      requires Synced()
      modifies `first, `told, passed, allBackends
      ensures Synced() && passed.order == [] && told == []
      ensures asserted <==> NoOriginsIn(old(passed.View()))
    {
      asserted := true;
      ghost var es0, k := passed.View(), 0;
      while |passed.order| > 0
        invariant Synced() && Cleared(es0, k, asserted)
        decreases |es0| - k
      {
        asserted := EraseNext(es0, k, asserted);
        k := k + 1;
      }
      assert es0[..k] == es0;
    }

    /** The first k formulas are gone. */
    predicate Cleared(es0: seq<Entry>, k: nat, asserted: bool)
      reads passed
    {
      k <= |es0| && passed.View() == es0[k..] && asserted == NoOriginsIn(es0[..k])
    }

    method EraseNext(ghost es0: seq<Entry>, ghost k: nat, asserted: bool) returns (asserted': bool)
      requires Synced() && Cleared(es0, k, asserted) && |passed.order| > 0
      modifies `first, `told, passed, allBackends
      ensures Synced() && Cleared(es0, k + 1, asserted')
    {
      var none := EraseFirst();
      assert es0[..k + 1] == es0[..k] + [es0[k]];
      asserted' := asserted && none;
    }

    method EraseFirst() returns (asserted: bool)
      requires Synced() && |passed.order| > 0
      modifies `first, `told, passed, allBackends
      ensures Synced() && |old(passed.View())| > 0 && passed.View() == old(passed.View())[1..]
      ensures asserted <==> old(passed.View())[0].origins.None?
    {
      assert IndexOf(passed.order, passed.order[0]) == 0;
      var next;
      next, asserted := EraseSubformulaFromPassedFormula(passed.order[0], false);
    }

    /** Node n is erased or all nodes are as before; the entries are those that the vectors now give. */
    ghost predicate NodeTaken(n: nat, erased: bool, order0: seq<nat>, nodes0: Nodes, index0: nat)
      reads `first, passed
    {
      var i, es := IndexOf(order0, n), ViewOf(order0, nodes0, passed.vectors);
      && i < |es|
      && passed.nodes == (if erased then nodes0 - {n} else nodes0)
      && passed.View() == (if erased then es[..i] + es[i + 1..] else es)
      && FirstIndex() == if erased then OneLess(i, index0) else index0
    }

    /** `Module::removeOrigin`: true when the formula has no origins left and is erased. */
    method RemoveOrigin(n: nat, o: Formula) returns (next: Option<nat>, erased: bool)
      requires Synced() && n in passed.nodes
      modifies `first, `told, passed, allBackends
      ensures Synced() && NodeTaken(n, erased, old(passed.order), old(passed.nodes), old(FirstIndex()))
      ensures next == if erased then Next(old(passed.order), n) else Some(n)
      ensures erased <==> !Survives(old(EntryIn(passed.nodes, passed.vectors, n)), o)
      ensures OneVectorCut(old(passed.nodes), old(passed.vectors), n, passed.vectors)
      ensures old(passed.nodes)[n].origins.Some? ==>
        var v := old(passed.nodes)[n].origins.value;
        WithoutMatches(Deref(passed.vectors, v), Deref(old(passed.vectors), v), o)
    {
      ghost var nodes0 := passed.nodes;
      erased := CutMatches(n, o);
      next := FinishTaking(n, erased, nodes0);
    }

    method CutMatches(n: nat, o: Formula) returns (none: bool)
      requires PassedSynced() && n in passed.nodes
      modifies passed`nodes, passed`vectors
      ensures PassedSynced() && n in old(passed.nodes)
      ensures var node := old(passed.nodes)[n];
        passed.nodes == old(passed.nodes)[n := Node(node.formula, if none then None else node.origins)]
      ensures none <==> !Survives(old(EntryIn(passed.nodes, passed.vectors, n)), o)
      ensures OneVectorCut(old(passed.nodes), old(passed.vectors), n, passed.vectors)
      ensures old(passed.nodes)[n].origins.Some? ==>
        var v := old(passed.nodes)[n].origins.value;
        WithoutMatches(Deref(passed.vectors, v), Deref(old(passed.vectors), v), o)
    {
      ghost var nodes0, vectors0 := passed.nodes, passed.vectors;
      none := passed.RemoveOrigin(n, o);
      SameNames(nodes0, vectors0);
    }

    /** `Module::removeOrigins`, with a vector of origins. */
    method RemoveOrigins(n: nat, origins: nat) returns (next: Option<nat>, erased: bool)
      requires Synced() && n in passed.nodes && origins in passed.vectors
      modifies `first, `told, passed, allBackends
      ensures Synced() && NodeTaken(n, erased, old(passed.order), old(passed.nodes), old(FirstIndex()))
      ensures next == if erased then Next(old(passed.order), n) else Some(n)
      ensures OneVectorCut(old(passed.nodes), old(passed.vectors), n, passed.vectors)
      ensures old(passed.nodes)[n].origins.None? || old(passed.nodes)[n].origins == Some(origins) ==>
        erased && passed.vectors == old(passed.vectors)
      ensures old(passed.nodes)[n].origins.Some? && old(passed.nodes)[n].origins != Some(origins) ==>
        var v, vs, vs' := old(passed.nodes)[n].origins.value, old(passed.vectors), passed.vectors;
        && multiset(Deref(vs', v)) == multiset(Deref(vs, v)) - multiset(Deref(vs, origins))
        && (erased <==> Deref(vs', v) == [])
    {
      ghost var nodes0, vectors0 := passed.nodes, passed.vectors;
      erased := passed.RemoveOrigins(n, origins);
      SameNames(nodes0, vectors0);
      next := FinishTaking(n, erased, nodes0);
    }

    lemma SameNames(nodes0: Nodes, vectors0: Vectors)
      requires passed.Valid()
      requires forall n :: n in passed.nodes ==> n in nodes0 && nodes0[n].formula == passed.nodes[n].formula
      ensures Passed() == Names(ViewOf(passed.order, nodes0, vectors0))
    {
      forall i | 0 <= i < |passed.order|
        ensures passed.order[i] in passed.nodes
      {
      }
    }

    /** Erases the node that has lost its origins, if it has. */
    method FinishTaking(n: nat, erased: bool, ghost nodes0: Nodes) returns (next: Option<nat>)
      requires Synced() && n in nodes0
      requires passed.nodes == nodes0[n := Node(nodes0[n].formula, if erased then None else nodes0[n].origins)]
      modifies `first, `told, passed, allBackends
      ensures Synced() && passed.vectors == old(passed.vectors)
      ensures NodeTaken(n, erased, old(passed.order), nodes0, old(FirstIndex()))
      ensures next == if erased then Next(old(passed.order), n) else Some(n)
    {
      next := Some(n);
      if erased {
        EntriesAround(n, nodes0);
        var asserted;
        next, asserted := EraseSubformulaFromPassedFormula(n, false);
        assert asserted;
      } else {
        assert passed.nodes == nodes0;
        assert n in passed.order;
      }
    }

    lemma EntriesAround(n: nat, nodes0: Nodes)
      requires passed.Valid() && n in nodes0
      requires passed.nodes == nodes0[n := Node(nodes0[n].formula, None)]
      ensures var i, es, es' := IndexOf(passed.order, n), ViewOf(passed.order, nodes0, passed.vectors), passed.View();
        i < |es| == |es'| && es'[..i] == es[..i] && es'[i + 1..] == es[i + 1..]
      ensures passed.nodes - {n} == nodes0 - {n}
    {
      ViewUpdate(passed.order, nodes0, passed.vectors, passed.nodes, passed.vectors, n);
    }

    // -------------------------------------------------------------- withdrawing

    /** Removes the origins that depend on f from the passed formula at i. */
    method RemoveOriginAt(i: nat, f: Formula) returns (none: bool)
      requires passed.Valid() && i < |passed.order|
      modifies passed`nodes, passed`vectors
      ensures passed.Valid() && Passed() == old(Passed())
      ensures passed.nodes.Keys == old(passed.nodes).Keys && Shrunk(old(passed.nodes), passed.nodes)
      ensures none ==> passed.nodes[passed.order[i]].origins.None?
      ensures var es := passed.View();
        && |es| == |passed.order|
        && WithdrawOne(old(passed.View()), i, if none then es[..i] + es[i + 1..] else es, f, none)
    {
      ghost var es0, nodes0, vectors0 := passed.View(), passed.nodes, passed.vectors;
      var n := passed.order[i];
      none := passed.RemoveOrigin(n, f);
      ViewThinned(es0, nodes0, vectors0, i, f);
      WithdrawsOne(es0, i, passed.View(), f, none);
    }

    lemma ViewThinned(es0: seq<Entry>, nodes0: Nodes, vectors0: Vectors, i: nat, f: Formula)
      requires passed.Valid() && i < |passed.order|
      requires es0 == ViewOf(passed.order, nodes0, vectors0)
      requires forall m :: m in passed.nodes && m != passed.order[i] ==>
        Thinned(EntryIn(nodes0, vectors0, m), EntryIn(passed.nodes, passed.vectors, m), f)
      requires EntryIn(passed.nodes, passed.vectors, passed.order[i]).formula == es0[i].formula
      ensures forall j :: 0 <= j < |es0| && j != i ==> Thinned(es0[j], passed.View()[j], f)
      ensures Passed() == Names(es0)
    {
      forall j | 0 <= j < |es0| && j != i
        ensures Thinned(es0[j], passed.View()[j], f)
      {
        assert passed.order[j] in passed.order;
      }
    }

    method WithdrawAt(i: nat, f: Formula) returns (gone: bool)
      requires Synced() && i < |passed.order|
      modifies `first, `told, passed, allBackends
      ensures Synced() && Shrunk(old(passed.nodes), passed.nodes)
      ensures WithdrawOne(old(passed.View()), i, passed.View(), f, gone)
      ensures FirstIndex() == if gone then OneLess(i, old(FirstIndex())) else old(FirstIndex())
    {
      gone := RemoveOriginAt(i, f);
      if gone {
        EraseAt(i);
      }
    }

    method EraseAt(i: nat)
      requires Synced() && i < |passed.order| && passed.nodes[passed.order[i]].origins.None?
      modifies `first, `told, passed, allBackends
      ensures Synced() && Shrunk(old(passed.nodes), passed.nodes)
      ensures i < |old(passed.View())| && passed.View() == old(passed.View())[..i] + old(passed.View())[i + 1..]
      ensures FirstIndex() == OneLess(i, old(FirstIndex()))
    {
      assert IndexOf(passed.order, passed.order[i]) == i;
      var _, _ := EraseSubformulaFromPassedFormula(passed.order[i], false);
    }

    /** One round of the loop below: the element at i stays, cleaned, or is erased. */
    method WithdrawRound(i: nat, f: Formula, ghost es0: seq<Entry>, ghost k: nat, ghost known: nat) returns (next: nat)
      requires Synced() && i < |passed.order| && Withdrawing(es0, k, passed.View(), i, f)
      requires known <= |es0| && FirstIndex() == KnownThen(es0, k, known, f)
      modifies `first, `told, passed, allBackends
      ensures Synced() && k < |es0| && Withdrawing(es0, k + 1, passed.View(), next, f)
      ensures FirstIndex() == KnownThen(es0, k + 1, known, f)
      ensures Shrunk(old(passed.nodes), passed.nodes)
    {
      ghost var es := passed.View();
      var gone := WithdrawAt(i, f);
      WithdrawStep(es0, k, es, i, passed.View(), f, gone);
      KnownNext(es0, k, es, i, known, f, gone);
      next := if gone then i else i + 1;
    }

    /** The loop of `remove` over the passed formulas. */
    method WithdrawOrigins(f: Formula)
      requires Synced()
      modifies `first, `told, passed, allBackends
      ensures Synced() && Shrunk(old(passed.nodes), passed.nodes)
      ensures Withdrawn(old(passed.View()), passed.View(), f)
      ensures told == Names(Surviving(old(passed.View()[..FirstIndex()]), f))
    {
      ghost var es0, known := passed.View(), FirstIndex();
      ghost var k := WithdrawLoop(f, es0, known);
      WithdrawDone(es0, k, passed.View(), f);
      KnownAtLast(es0, known, passed.View(), f);
    }

    method WithdrawLoop(f: Formula, ghost es0: seq<Entry>, ghost known: nat) returns (ghost k: nat)
      requires Synced() && es0 == passed.View() && known == FirstIndex()
      modifies `first, `told, passed, allBackends
      ensures Synced() && Shrunk(old(passed.nodes), passed.nodes)
      ensures Withdrawing(es0, k, passed.View(), |passed.order|, f) && FirstIndex() == KnownThen(es0, k, known, f)
    {
      k := 0;
      var i: nat := 0;
      WithdrawStart(es0, f);
      while i < |passed.order|
        invariant Synced() && Shrunk(old(passed.nodes), passed.nodes)
        invariant Withdrawing(es0, k, passed.View(), i, f) && FirstIndex() == KnownThen(es0, k, known, f)
        decreases |es0| - k
      {
        i := WithdrawRound(i, f, es0, k, known);
        k := k + 1;
      }
    }

    // -------------------------------------------------------------- explaining

    ghost predicate SubsetsOk(formulas: set<Formula>)
      reads `infeasibleSubsets
    {
      forall s :: s in infeasibleSubsets ==> s <= formulas && Unsat(theory, s)
    }

    /** Passed formulas are justified, and infeasible subsets sound, with respect to `formulas`. */
    ghost predicate Accountable(formulas: set<Formula>)
      reads `infeasibleSubsets, passed
    {
      AllJustified(theory, formulas, passed.View()) && SubsetsOk(formulas)
    }

    /**
     The parent is about to withdraw a received formula: whatever depended on it is gone, and
     what is left does not need it.
     */
    method Remove(f: Formula, ghost formulas: set<Formula>)
      requires Synced() && Accountable(formulas)
      modifies `first, `told, passed, allBackends, `infeasibleSubsets, `solverState
      ensures Synced() && Accountable(formulas - {f})
      ensures Withdrawn(old(passed.View()), passed.View(), f)
      ensures passed.Shares() == Among(old(passed.Shares()), Passed())
      ensures told == Names(Surviving(old(passed.View()[..FirstIndex()]), f))
      ensures forall s :: s in infeasibleSubsets <==> s in old(infeasibleSubsets) && f !in s
      ensures solverState == if infeasibleSubsets == [] then UNKNOWN else old(solverState)
    {
      WithdrawFromPassed(f, formulas);
      ForgetSubsets(f, formulas);
    }

    method WithdrawFromPassed(f: Formula, ghost formulas: set<Formula>)
      requires Synced() && AllJustified(theory, formulas, passed.View())
      modifies `first, `told, passed, allBackends
      ensures Synced() && AllJustified(theory, formulas - {f}, passed.View())
      ensures Withdrawn(old(passed.View()), passed.View(), f)
      ensures passed.Shares() == Among(old(passed.Shares()), Passed())
      ensures told == Names(Surviving(old(passed.View()[..FirstIndex()]), f))
    {
      ghost var es0, nodes0, position0 := passed.View(), passed.nodes, passed.position;
      WithdrawOrigins(f);
      passed.ListedIsFound();
      PassedIsFormulas();
      SurvivorsUnchanged(nodes0, es0, f);
      SharingAmong(nodes0, position0, passed.nodes, passed.position, Passed());
      StillJustified(theory, formulas, es0, passed.View(), f);
    }

    /** What is left after a withdrawal has its vector still. */
    lemma SurvivorsUnchanged(nodes0: Nodes, es0: seq<Entry>, f: Formula)
      requires passed.Valid() && Shrunk(nodes0, passed.nodes) && Withdrawn(es0, passed.View(), f)
      ensures forall n :: n in passed.nodes ==> n in nodes0 && passed.nodes[n] == nodes0[n]
    {
      forall n | n in passed.nodes
        ensures passed.nodes[n] == nodes0[n]
      {
        assert n in passed.order;
        var i := IndexOf(passed.order, n);
        assert Cleaned(Surviving(es0, f)[i], passed.View()[i], f);
      }
    }

    method ForgetSubsets(f: Formula, ghost formulas: set<Formula>)
      requires SubsetsOk(formulas)
      modifies `infeasibleSubsets, `solverState
      ensures SubsetsOk(formulas - {f})
      ensures forall s :: s in infeasibleSubsets <==> s in old(infeasibleSubsets) && f !in s
      ensures solverState == if infeasibleSubsets == [] then UNKNOWN else old(solverState)
    {
      infeasibleSubsets := DropSubsets(infeasibleSubsets, f);
      if infeasibleSubsets == [] {
        solverState := UNKNOWN;
      }
    }

    /** Adds the received formulas that explain the passed formula c. */
    method GetOrigins(c: Formula, origins: set<Formula>, ghost formulas: set<Formula>) returns (more: set<Formula>)
      requires passed.Valid() && passed.Contains(c) && AllJustified(theory, formulas, passed.View())
      requires forall f :: received.Contains(f) <==> f in formulas
      ensures more == origins + SourcesOf(formulas, passed.View(), c)
    {
      var it := passed.Find(c);
      var e := passed.View()[IndexOf(passed.order, it.value)];
      assert Justified(theory, formulas, e);
      more := origins;
      if e.origins.Some? {
        var k := FindBestOrigin(e.origins.value);
        more := CollectOrigins(e.origins.value[k], origins, formulas);
      }
    }

    method CollectOrigins(o: Formula, origins: set<Formula>, ghost formulas: set<Formula>) returns (more: set<Formula>)
      requires forall f :: received.Contains(f) <==> f in formulas
      requires FromReceived(formulas, o)
      ensures more == origins + Collected(formulas, o)
    {
      if received.Contains(o) {
        more := origins + {o};
      } else {
        assert o.And?;
        more := origins;
        for k := 0 to |o.subs|
          invariant more == origins + Elements(o.subs[..k])
        {
          assert o.subs[k] in o.subs && received.Contains(o.subs[k]);
          assert o.subs[..k + 1] == o.subs[..k] + [o.subs[k]];
          more := more + {o.subs[k]};
        }
        assert o.subs[..|o.subs|] == o.subs;
      }
    }

    /** Explains a conflict among passed formulas by received ones. */
    method LiftSubset(conflict: set<Formula>, ghost formulas: set<Formula>) returns (lifted: set<Formula>)
      requires passed.Valid() && AllJustified(theory, formulas, passed.View())
      requires forall f :: received.Contains(f) <==> f in formulas
      requires forall c :: c in conflict ==> passed.Contains(c)
      ensures lifted == Lifted(formulas, passed.View(), conflict)
    {
      ghost var es := passed.View();
      lifted := {};
      var rest := conflict;
      while rest != {}
        invariant rest <= conflict && lifted == Lifted(formulas, es, conflict - rest)
        decreases rest
      {
        var c :| c in rest;
        lifted := GetOrigins(c, lifted, formulas);
        LiftedNext(formulas, es, conflict - rest, c);
        assert conflict - (rest - {c}) == conflict - rest + {c};
        rest := rest - {c};
      }
      assert conflict - {} == conflict;
    }

    /** Explains every conflict of one backend. */
    method LiftBackend(b: Backend, ghost formulas: set<Formula>)
      requires passed.Valid() && Accountable(formulas)
      requires b.Valid() && b.theory == theory && b.told <= Passed()
      requires forall f :: received.Contains(f) <==> f in formulas
      modifies `infeasibleSubsets
      ensures Accountable(formulas)
      ensures infeasibleSubsets == old(infeasibleSubsets) + LiftAll(formulas, passed.View(), b.infeasibleSubsets)
    {
      var cs := b.infeasibleSubsets;
      for k := 0 to |cs|
        invariant Accountable(formulas)
        invariant infeasibleSubsets == old(infeasibleSubsets) + LiftAll(formulas, passed.View(), cs[..k])
      {
        assert cs[k] in cs;
        ToldIsListed(cs[k], b.told);
        LiftingSound(theory, formulas, passed.View(), cs[k]);
        var lifted := LiftSubset(cs[k], formulas);
        infeasibleSubsets := infeasibleSubsets + [lifted];
        assert cs[..k + 1] == cs[..k] + [cs[k]];
      }
      assert cs[..|cs|] == cs;
    }

    lemma ToldIsListed(conflict: set<Formula>, fs: seq<Formula>)
      requires passed.Valid() && fs <= Passed() && conflict <= Elements(fs)
      ensures forall c :: c in conflict ==> passed.Contains(c)
      ensures conflict <= Elements(Passed())
    {
      forall c | c in conflict
        ensures passed.Contains(c) && c in Passed()
      {
        var i :| 0 <= i < |fs| && fs[i] == c;
        assert passed.order[i] in passed.order && Passed()[i] == c;
      }
    }

    /** Explains every conflict of the used backends that answered UNSAT. */
    method GetInfeasibleSubsets(ghost formulas: set<Formula>)
      requires Synced() && Accountable(formulas)
      requires forall f :: received.Contains(f) <==> f in formulas
      modifies `infeasibleSubsets
      ensures Accountable(formulas)
      ensures infeasibleSubsets == old(infeasibleSubsets) + LiftAll(formulas, passed.View(), Conflicts(used))
    {
      var k := 0;
      while k < |used|
        invariant k <= |used| && Accountable(formulas)
        invariant infeasibleSubsets == old(infeasibleSubsets) + LiftAll(formulas, passed.View(), Conflicts(used[..k]))
      {
        var b := used[k];
        assert b in used && b in allBackends;
        assert used[..k + 1][..k] == used[..k] && used[..k + 1][k] == b;
        if b.solverState == UNSAT {
          LiftAllAppend(formulas, passed.View(), Conflicts(used[..k]), b.infeasibleSubsets);
          LiftBackend(b, formulas);
        }
        k := k + 1;
      }
      assert used[..|used|] == used;
    }

    // -------------------------------------------------------------- running backends

    /** A backend made in mid-run is told what the other backends know already. */
    method NewBackend(edge: Edge) returns (b: Backend)
      requires PassedSynced() && Sound(theory, edge.solver)
      ensures fresh(b) && b.Valid() && b.theory == theory && b.priority == edge.priority
      ensures b.told == told && b.solver == edge.solver && b.lazy == edge.lazy
    {
      b := new Backend(edge.priority, edge.solver, edge.lazy, theory);
      var end := FirstIndex();
      for k := 0 to end
        invariant fresh(b) && b.Valid() && b.theory == theory && b.priority == edge.priority
        invariant b.solver == edge.solver && b.lazy == edge.lazy
        invariant b.told == Passed()[..k]
      {
        var _ := b.Add(passed.nodes[passed.order[k]].formula);
        assert Passed()[..k + 1] == Passed()[..k] + [Passed()[k]];
      }
    }

    /** The backends from `low` on have been made for one of the edges. */
    ghost predicate NewFrom(wanted: seq<Edge>, low: nat)
      reads `allBackends
    {
      forall i :: low <= i < |allBackends| ==> MadeFor(wanted, allBackends[i])
    }

    method FindOrMake(edge: Edge) returns (b: Backend)
      requires Synced() && registered && Sound(theory, edge.solver)
      modifies `allBackends
      ensures Synced() && b in allBackends && b.priority == edge.priority
      ensures allBackends == old(allBackends)
        || (allBackends == old(allBackends) + [b] && fresh(b) && b.solver == edge.solver && b.lazy == edge.lazy)
    {
      for k := 0 to |allBackends|
        invariant forall j :: 0 <= j < k ==> allBackends[j].priority != edge.priority
      {
        if allBackends[k].priority == edge.priority {
          return allBackends[k];
        }
      }
      b := NewBackend(edge);
      allBackends := allBackends + [b];
    }

    /** Backends for the first edges have been found, or made and put behind the `low` old ones. */
    ghost predicate Picked(backends: seq<Backend>, wanted: seq<Edge>, low: nat)
      reads `allBackends
    {
      && |backends| <= |wanted|
      && (forall i :: 0 <= i < |backends| ==> backends[i] in allBackends && backends[i].priority == wanted[i].priority)
      && NewFrom(wanted, low)
    }

    method PickBackend(wanted: seq<Edge>, backends: seq<Backend>, ghost low: nat) returns (backends': seq<Backend>)
      requires Synced() && registered && |backends| < |wanted| && Picked(backends, wanted, low)
      requires forall e :: e in wanted ==> Sound(theory, e.solver)
      modifies `allBackends
      ensures Synced() && |backends'| == |backends| + 1 && Picked(backends', wanted, low)
      ensures old(allBackends) <= allBackends
      ensures forall i :: |old(allBackends)| <= i < |allBackends| ==> fresh(allBackends[i])
    {
      var edge := wanted[|backends|];
      assert edge in wanted;
      var b := FindOrMake(edge);
      if allBackends != old(allBackends) {
        assert edge == Edge(b.priority, b.solver, b.lazy);
      }
      backends' := backends + [b];
    }

    /** The backends the strategy wants now, in its order; those that do not exist yet are made. */
    method GetBackends(wanted: seq<Edge>)
      requires Synced() && forall e :: e in wanted ==> Sound(theory, e.solver)
      modifies `allBackends, `registered, `used
      ensures Synced() && registered
      ensures |used| == |wanted| && forall i :: 0 <= i < |used| ==> used[i].priority == wanted[i].priority
      ensures old(allBackends) <= allBackends
      ensures forall i :: |old(allBackends)| <= i < |allBackends| ==> fresh(allBackends[i])
      ensures NewFrom(wanted, |old(allBackends)|)
    {
      registered := true;
      var backends: seq<Backend> := [];
      while |backends| < |wanted|
        invariant Synced() && registered && Picked(backends, wanted, |old(allBackends)|)
        invariant old(allBackends) <= allBackends
        invariant forall i :: |old(allBackends)| <= i < |allBackends| ==> fresh(allBackends[i])
        decreases |wanted| - |backends|
      {
        backends := PickBackend(wanted, backends, |old(allBackends)|);
      }
      used := backends;
    }

    /** Tells one backend every passed formula from the one at `from` on. */
    method TellFrom(b: Backend, from: nat) returns (refused: bool)
      requires passed.Valid() && b.Valid() && from <= |Passed()| && b.told == Passed()[..from]
      modifies b
      ensures b.Valid() && b.told == Passed()
      ensures refused ==> Unsat(b.theory, Elements(Passed()))
      ensures Reliable(b.solver, b.lazy) && (refused || old(b.infeasibleSubsets) != []) ==> b.infeasibleSubsets != []
      ensures Eager(b, from, Passed()) && Refuses(b, Passed()) ==> refused
    {
      refused := false;
      for k := from to |passed.order|
        invariant b.Valid() && b.told == Passed()[..k]
        invariant refused ==> Unsat(b.theory, Elements(Passed()))
        invariant Reliable(b.solver, b.lazy) && (refused || old(b.infeasibleSubsets) != []) ==>
          b.infeasibleSubsets != []
        invariant k == |Passed()| && Eager(b, from, Passed()) && Refuses(b, Passed()) ==> refused
      {
        assert Passed()[..k + 1] == Passed()[..k] + [Passed()[k]];
        ghost var calls := b.calls;
        var ok := b.Add(passed.nodes[passed.order[k]].formula);
        assert k + 1 == |Passed()| ==> b.told == Passed();
        if !ok {
          refused := true;
          UnsatWithMore(b.theory, Elements(b.told), Elements(Passed()));
        }
      }
    }

    method TellBackend(b: Backend, from: nat) returns (failed: bool)
      requires passed.Valid() && b.Valid() && from <= |Passed()| && b.told == Passed()[..from]
      modifies b
      ensures b.Valid() && b.told == Passed()
      ensures failed ==> Unsat(b.theory, Elements(Passed()))
      ensures Reliable(b.solver, b.lazy) && failed ==> b.infeasibleSubsets != []
      ensures Eager(b, from, Passed()) && Refuses(b, Passed()) ==> failed
    {
      failed := b.infeasibleSubsets != [];
      if failed {
        b.KnowsConflict();
        UnsatWithMore(b.theory, Elements(b.told), Elements(Passed()));
      }
      var refused := TellFrom(b, from);
      failed := failed || refused;
    }

    method TellNext(k: nat, from: nat, ghost before: seq<Formula>) returns (failed: bool)
      requires passed.Valid() && from <= |Passed()| && DistinctBackends(allBackends) && before == Passed()[..from]
      requires k < |allBackends| && BackendsTold(allBackends, 0, k, theory, Passed())
      requires BackendsTold(allBackends, k, |allBackends|, theory, before)
      modifies allBackends[k]
      ensures BackendsTold(allBackends, 0, k + 1, theory, Passed())
      ensures BackendsTold(allBackends, k + 1, |allBackends|, theory, before)
      ensures failed ==> Unsat(theory, Elements(Passed()))
      ensures failed && Reliable(allBackends[k].solver, allBackends[k].lazy) ==> allBackends[k].infeasibleSubsets != []
      ensures Eager(allBackends[k], from, Passed()) && Refuses(allBackends[k], Passed()) ==> failed
    {
      failed := TellBackend(allBackends[k], from);
    }

    method TellAll(from: nat) returns (failed: bool)
      requires passed.Valid() && from <= |Passed()| && DistinctBackends(allBackends)
      requires BackendsTold(allBackends, 0, |allBackends|, theory, Passed()[..from])
      modifies allBackends
      ensures BackendsTold(allBackends, 0, |allBackends|, theory, Passed())
      ensures failed ==> Unsat(theory, Elements(Passed()))
      ensures failed && AllReliable(allBackends) ==> SomeConflict(allBackends)
      ensures SomeRefuses(from) ==> failed
    {
      failed := false;
      ghost var before, bad: nat := Passed()[..from], 0;
      for k := 0 to |allBackends|
        modifies allBackends
        invariant BackendsTold(allBackends, 0, k, theory, Passed())
        invariant BackendsTold(allBackends, k, |allBackends|, theory, before)
        invariant failed ==> Unsat(theory, Elements(Passed()))
        invariant failed && AllReliable(allBackends) ==> bad < k && allBackends[bad].infeasibleSubsets != []
        invariant forall i :: 0 <= i < k && Eager(allBackends[i], from, Passed()) && Refuses(allBackends[i],
          Passed()) ==> failed
      {
        var conflict := TellNext(k, from, before);
        if conflict {
          bad := k;
        }
        failed := failed || conflict;
      }
    }

    /** Some existing backend refuses the passed formulas when it is told the rest of them. */
    ghost predicate SomeRefuses(from: nat)
      reads `allBackends, passed
    {
      exists i :: 0 <= i < |allBackends| && Eager(allBackends[i], from, Passed()) && Refuses(allBackends[i], Passed())
    }

    method TellBackends() returns (failed: bool)
      requires Synced() && registered
      modifies allBackends, `first, `told
      ensures Synced() && told == Passed()
      ensures failed ==> Unsat(theory, Elements(Passed()))
      ensures failed && AllReliable(allBackends) ==> SomeConflict(allBackends)
      ensures old(SomeRefuses(FirstIndex())) ==> failed
    {
      failed := TellAll(FirstIndex());
      first, told := None, Passed();
    }

    /** Runs the used backends one after the other until one knows an answer. */
    method RunUsed() returns (answer: Answer)
      requires BackendsSynced()
      modifies allBackends
      ensures BackendsSynced()
      ensures answer == UNKNOWN ==> forall b :: b in used ==> b.solverState == UNKNOWN
      ensures answer != UNKNOWN ==> exists b :: b in used && b.solverState == answer
    {
      answer := UNKNOWN;
      var k := 0;
      while k < |used| && answer == UNKNOWN
        invariant k <= |used| && BackendsSynced()
        invariant answer == UNKNOWN ==> forall b :: b in used[..k] ==> b.solverState == UNKNOWN
        invariant answer != UNKNOWN ==> exists b :: b in used && b.solverState == answer
      {
        var b := used[k];
        assert b in used && b in allBackends;
        answer := b.Check();
        assert used[..k + 1] == used[..k] + [b];
        k := k + 1;
      }
      assert used[..|used|] == used;
    }

    lemma UsedConflict()
      requires Synced() && told == Passed()
      requires exists b :: b in used && b.solverState == UNSAT
      ensures Unsat(theory, Elements(Passed()))
      ensures AllReliable(allBackends) ==> SomeConflict(used) && SomeConflict(allBackends)
    {
      var b :| b in used && b.solverState == UNSAT;
      assert b in allBackends;
      b.KnowsConflict();
      if AllReliable(allBackends) {
        var i :| 0 <= i < |allBackends| && allBackends[i] == b;
        var j :| 0 <= j < |used| && used[j] == b;
        assert allBackends[i].infeasibleSubsets != [] && used[j].infeasibleSubsets != [];
      }
    }

    method TellAndRun() returns (answer: Answer)
      requires Synced() && registered
      modifies allBackends, `first, `told
      ensures Synced() && told == Passed()
      ensures answer == UNSAT ==> Unsat(theory, Elements(Passed()))
      ensures answer == UNSAT && AllReliable(allBackends) ==> SomeConflict(allBackends)
      ensures old(SomeRefuses(FirstIndex())) ==> answer == UNSAT
    {
      var failed := false;
      if first.Some? {
        failed := TellBackends();
      }
      if failed {
        return UNSAT;
      }
      answer := RunUsed();
      if answer == UNSAT {
        UsedConflict();
      }
    }

    /** `runBackends`, in sequential mode. */
    method RunBackends(wanted: seq<Edge>) returns (answer: Answer)
      requires Synced() && forall e :: e in wanted ==> Sound(theory, e.solver)
      modifies `allBackends, `registered, `used, `first, `told, allBackends
      ensures Synced()
      ensures |used| == |wanted| && forall i :: 0 <= i < |used| ==> used[i].priority == wanted[i].priority
      ensures old(allBackends) <= allBackends && forall i :: |old(allBackends)| <= i < |allBackends| ==>
        fresh(allBackends[i])
      ensures if wanted == [] then answer == UNKNOWN && told == old(told) else told == Passed()
      ensures answer == UNSAT ==> Unsat(theory, Elements(Passed()))
      ensures NewFrom(wanted, |old(allBackends)|)
      ensures answer == UNSAT && AllReliable(allBackends) ==> SomeConflict(allBackends)
      ensures wanted != [] && old(SomeRefuses(FirstIndex())) ==> answer == UNSAT
    {
      GetBackends(wanted);
      if |used| == 0 {
        return UNKNOWN;
      }
      answer := TellAndRun();
    }
  }

  lemma LiftedNext(received: set<Formula>, es: seq<Entry>, conflict: set<Formula>, c: Formula)
    ensures Lifted(received, es, conflict + {c}) == Lifted(received, es, conflict) + SourcesOf(received, es, c)
  {
  }

  /** What the backends know after the formula at i is erased, if they knew the first k before. */
  function ToldWithout(fs: seq<Formula>, i: nat, k: nat): seq<Formula>
    requires i < |fs| && k <= |fs|
  {
    if i < k then fs[..k][..i] + fs[..k][i + 1..] else fs[..k]
  }

  function IndexFrom(order: seq<nat>, first: Option<nat>): nat {
    if first.None? then |order| else IndexOf(order, first.value)
  }

  /** A number of leading elements, after the element at i is erased. */
  function OneLess(i: nat, k: nat): nat {
    if i < k then k - 1 else k
  }

  /** How many elements the backends know with k elements withdrawn from, if they knew `known`. */
  function KnownThen(es0: seq<Entry>, k: nat, known: nat, f: Formula): nat
    requires k <= |es0| && known <= |es0|
  {
    if k <= known then |Surviving(es0[..k], f)| + known - k else |Surviving(es0[..known], f)|
  }

  lemma KnownNext(es0: seq<Entry>, k: nat, es: seq<Entry>, i: nat, known: nat, f: Formula, gone: bool)
    requires k < |es0| && Withdrawing(es0, k, es, i, f) && known <= |es0|
    requires i < |es| && (gone <==> !Survives(es[i], f))
    ensures KnownThen(es0, k + 1, known, f)
         == if gone then OneLess(i, KnownThen(es0, k, known, f)) else KnownThen(es0, k, known, f)
  {
    SurvivingNext(es0, k, f);
    assert es0[k] == es0[k..][0] && es[i] == es[i..][0];
    CleanedTwice(es0[k], es[i], es[i], f);
    if known <= k {
      SurvivingAppend(es0[..known], es0[known..k], f);
      assert es0[..known] + es0[known..k] == es0[..k];
    }
  }

  lemma KnownAtLast(es0: seq<Entry>, known: nat, es: seq<Entry>, f: Formula)
    requires known <= |es0| && Withdrawn(es0, es, f)
    ensures var n := KnownThen(es0, |es0|, known, f);
      n <= |es| && Names(es)[..n] == Names(Surviving(es0[..known], f))
  {
    SurvivingAppend(es0[..known], es0[known..], f);
    assert es0[..known] + es0[known..] == es0;
    if known == |es0| {
      assert es0[..known] == es0;
    }
  }

  /** Where the list iterator `first` stands after the element at i is erased. */
  lemma FirstAfterErase(order: seq<nat>, i: nat, first: Option<nat>)
    requires Distinct(order) && i < |order| && (first.Some? ==> first.value in order)
    ensures var rest, first' := order[..i] + order[i + 1..], if first == Some(order[i]) then Next(order,
      order[i]) else first;
      && (first'.Some? ==> first'.value in rest)
      && IndexFrom(rest, first') == OneLess(i, IndexFrom(order, first))
  {
    var rest := order[..i] + order[i + 1..];
    if first == Some(order[i]) {
      assert IndexOf(order, order[i]) == i;
      if i + 1 < |order| {
        assert rest[i] == order[i + 1];
        IndexAfterErase(order, i, order[i + 1]);
        assert IndexOf(order, order[i + 1]) == i + 1;
      }
    } else if first.Some? {
      IndexAfterErase(order, i, first.value);
      RemoveAt(order, i);
    }
  }

  lemma WithoutPrefix(fs: seq<Formula>, i: nat, k: nat)
    requires i < |fs| && k <= |fs|
    ensures i < k ==> (fs[..i] + fs[i + 1..])[..k - 1] == fs[..k][..i] + fs[..k][i + 1..]
    ensures i >= k ==> (fs[..i] + fs[i + 1..])[..k] == fs[..k]
  {
  }

  function Next(order: seq<nat>, n: nat): Option<nat> {
    var i := IndexOf(order, n);
    if i + 1 < |order| then Some(order[i + 1]) else None
  }
}
