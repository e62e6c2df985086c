/**
 Runs of a module of the base class, which passes on what it receives as it is: what its parent
 does to it, in any order.
 */
module ModuleRuns {
  import opened Basics
  import opened Formulas
  import opened ModuleInputs
  import opened Origins
  import opened Modules

  function Received(m: Module): seq<Formula>
    reads m.received
  {
    Names(m.received.View())
  }

  predicate NoConjunctions(fs: seq<Formula>) {
    forall i :: 0 <= i < |fs| ==> !fs[i].And?
  }

  /** Each subset stored in the module is a conflict among formulas that are received now. */
  ghost predicate Base(m: Module)
    reads m, m.received, m.passed, m.allBackends
  {
    && m.Synced() && m.received.Valid() && m.received != m.passed
    && NoConjunctions(Received(m))
    && Mirrors(m.passed.View(), Received(m))
    && m.SubsetsOk(Elements(Received(m)))
  }

  lemma ReceivedLists(m: Module)
    requires m.received.Valid()
    ensures Distinct(Received(m))
    ensures forall f :: m.received.Contains(f) <==> f in Elements(Received(m))
  {
    m.received.ViewHasNoDuplicates();
    forall f | m.received.Contains(f)
      ensures f in Received(m)
    {
      assert Received(m)[IndexOf(m.received.order, m.received.position[f])] == f;
    }
    assert forall i :: 0 <= i < |m.received.order| ==> m.received.order[i] in m.received.order;
  }

  // ---------------------------------------------------------------- the books as a value

  /** What a module keeps; `inStep` is whether every backend has been told exactly `told`. */
  datatype Snapshot = Snapshot(received: seq<Formula>, passed: seq<Entry>, told: seq<Formula>, inStep: bool,
                               subsets: seq<set<Formula>>, state: Answer)

  ghost function Snap(m: Module): Snapshot
    reads m, m.received, m.passed, m.allBackends
  {
    Snapshot(Received(m), m.passed.View(), m.told, BackendsTold(m.allBackends, 0, |m.allBackends|, m.theory, m.told),
             m.infeasibleSubsets, m.solverState)
  }

  /**
   The books of a base module are right: it passes on, in order, a beginning of what it has
   received; every backend knows the same beginning of that; each stored subset is a conflict
   among formulas that are received now.
   */
  ghost predicate Books(theory: Theory, s: Snapshot) {
    && NoConjunctions(s.received) && Distinct(s.received)
    && Mirrors(s.passed, s.received)
    && s.told <= Names(s.passed) && s.inStep
    && forall x :: x in s.subsets ==> x <= Elements(s.received) && Unsat(theory, x)
  }

  lemma BaseBooks(m: Module)
    requires Base(m)
    ensures Books(m.theory, Snap(m))
  {
    ReceivedLists(m);
  }

  function Without<T>(s: seq<T>, i: nat): seq<T> {
    if i < |s| then s[..i] + s[i + 1..] else s
  }

  // ---------------------------------------------------------------- the base module

  /** `addReceivedSubformulaToPassedFormula` for the first received formula not passed on yet. */
  method PassNext(m: Module)
    requires Base(m) && |m.passed.order| < |m.received.order|
    modifies m`first, m.passed
    ensures Base(m) && |m.passed.order| == old(|m.passed.order|) + 1
  {
    var n := m.received.order[|m.passed.order|];
    var f := m.received.nodes[n].formula;
    assert f == Received(m)[|m.passed.order|];
    ReceivedLists(m);
    PassAsItIs(m, f, Received(m));
  }

  method PassAsItIs(m: Module, f: Formula, ghost fs: seq<Formula>)
    requires m.PassedSynced() && Mirrors(m.passed.View(), fs) && Distinct(fs)
    requires |m.passed.order| < |fs| && f == fs[|m.passed.order|]
    modifies m`first, m.passed
    ensures m.PassedSynced() && Mirrors(m.passed.View(), fs)
    ensures |m.passed.order| == old(|m.passed.order|) + 1
  {
    MirrorAppend(m.passed.View(), fs);
    NotPassed(m, f);
    var _, _ := m.AddSubformulaToPassedFormula(f, Single(f), false);
  }

  lemma NotPassed(m: Module, f: Formula)
    requires m.passed.Valid() && forall i :: 0 <= i < |m.passed.View()| ==> m.passed.View()[i].formula != f
    ensures !m.passed.Contains(f)
  {
    assert m.passed.Find(f).None?;
  }

  method CopyReceived(m: Module)
    requires Base(m)
    modifies m`first, m.passed
    ensures Base(m) && m.passed.View() == Mirror(Received(m)) && m.FirstIndex() == old(m.FirstIndex())
  {
    while |m.passed.order| < |m.received.order|
      invariant Base(m) && m.FirstIndex() == old(m.FirstIndex())
      decreases |m.received.order| - |m.passed.order|
    {
      PassNext(m);
    }
  }

  /** Passing on the rest does not tell the backends anything yet. */
  lemma StillRefuses(m: Module)
    requires Base(m) && m.Passed() == Received(m) && WillRefuse(m)
    ensures m.SomeRefuses(m.FirstIndex())
  {
  }

  /** The passed list that mirrors everything received. */
  function Mirror(received: seq<Formula>): seq<Entry> {
    seq(|received|, i requires 0 <= i < |received| => Entry(received[i], Some([received[i]])))
  }

  /** What `checkCore` makes of the books. */
  ghost predicate CoreChecked(s: Snapshot, wanted: seq<Edge>, answer: Answer, s': Snapshot) {
    && s'.received == s.received
    && (s.subsets != [] ==> answer == UNSAT && s' == s)
    && (s.subsets == [] ==> RanBackends(s, wanted, answer, s'))
  }

  ghost predicate RanBackends(s: Snapshot, wanted: seq<Edge>, answer: Answer, s': Snapshot) {
    && s'.passed == Mirror(s.received)
    && s'.told == (if wanted == [] then s.told else s.received)
    && (wanted == [] ==> answer == UNKNOWN)
    && (answer != UNSAT ==> s'.subsets == [])
  }

  /** What `check` makes of the books. */
  ghost predicate CheckedAs(s: Snapshot, wanted: seq<Edge>, answer: Answer, s': Snapshot) {
    && s'.received == s.received && s'.state == answer
    && (s.received == [] ==> answer == SAT && s' == s.(state := SAT))
    && (s.received != [] && s.subsets != [] ==> answer == UNSAT && s' == s.(state := UNSAT))
    && (s.received != [] && s.subsets == [] ==> RanBackends(s, wanted, answer, s'))
  }

  lemma CheckedFound(s: Snapshot, wanted: seq<Edge>, answer: Answer, s': Snapshot)
    requires if s.received == [] then answer == SAT && s' == s else CoreChecked(s, wanted, answer, s')
    ensures CheckedAs(s, wanted, answer, s'.(state := answer))
  {
  }

  // ---------------------------------------------------------------- when UNSAT comes with an infeasible subset

  /** What `check` asserts of a module that answers UNSAT. */
  ghost predicate HasValidInfeasibleSubset(m: Module)
    reads m`infeasibleSubsets, m.received
  {
    m.infeasibleSubsets != [] && forall s :: s in m.infeasibleSubsets ==> s <= Elements(Received(m))
  }

  /** A backend that is used answered UNSAT, and says why. */
  ghost predicate UsedConflict(m: Module)
    reads m`used, m.used
  {
    exists i :: 0 <= i < |m.used| && m.used[i].solverState == UNSAT && m.used[i].infeasibleSubsets != []
  }

  ghost predicate ReliableEdges(wanted: seq<Edge>) {
    forall k :: 0 <= k < |wanted| ==> Reliable(wanted[k].solver, wanted[k].lazy)
  }

  /** None of these backends is left aside. */
  predicate AllWanted(bs: seq<Backend>, wanted: seq<Edge>) {
    forall i :: 0 <= i < |bs| ==> exists k :: 0 <= k < |wanted| && wanted[k].priority == bs[i].priority
  }

  lemma AllAreUsed(m: Module, before: seq<Backend>, wanted: seq<Edge>)
    requires m.BackendsSynced() && before <= m.allBackends && m.NewFrom(wanted, |before|)
    requires |m.used| == |wanted| && forall i :: 0 <= i < |m.used| ==> m.used[i].priority == wanted[i].priority
    requires AllReliable(before) && AllWanted(before, wanted) && ReliableEdges(wanted)
    requires AllReliable(m.allBackends) ==> SomeConflict(m.allBackends)
    ensures UsedConflict(m)
  {
    forall i | 0 <= i < |m.allBackends|
      ensures Reliable(m.allBackends[i].solver, m.allBackends[i].lazy)
      ensures exists k :: 0 <= k < |wanted| && wanted[k].priority == m.allBackends[i].priority
    {
      if i < |before| {
        assert m.allBackends[i] == before[i];
      } else {
        assert MadeFor(wanted, m.allBackends[i]);
      }
    }
    var i :| 0 <= i < |m.allBackends| && m.allBackends[i].infeasibleSubsets != [];
    var k :| 0 <= k < |wanted| && wanted[k].priority == m.allBackends[i].priority;
    assert m.used[k] in m.allBackends && m.used[k] == m.allBackends[i];
  }

  /** Some existing backend refuses the formulas received when it is told the rest of them. */
  ghost predicate WillRefuse(m: Module)
    reads m, m.passed, m.received
  {
    exists i :: 0 <= i < |m.allBackends| && Eager(m.allBackends[i], m.FirstIndex(), Received(m))
      && Refuses(m.allBackends[i], Received(m))
  }

  /** A backend that is not used has a conflict. */
  ghost predicate UnusedConflict(m: Module)
    reads m`used, m`allBackends, m.allBackends
  {
    exists i :: 0 <= i < |m.allBackends| && m.allBackends[i] !in m.used && m.allBackends[i].infeasibleSubsets != []
  }

  lemma ConflictElsewhere(m: Module)
    requires m.BackendsSynced() && AllReliable(m.allBackends) && SomeConflict(m.allBackends)
    ensures UsedConflict(m) || UnusedConflict(m)
  {
    var i :| 0 <= i < |m.allBackends| && m.allBackends[i].infeasibleSubsets != [];
    if m.allBackends[i] in m.used {
      var k :| 0 <= k < |m.used| && m.used[k] == m.allBackends[i];
      assert m.used[k].solverState == UNSAT;
    }
  }

  /** The solver never gives a reason. */
  ghost predicate Mute(solver: Solver) {
    forall fs, k :: solver(fs, k).1 == []
  }

  /** No backend that is wanted, existing or not, ever gives a reason. */
  ghost predicate WantedMute(bs: seq<Backend>, wanted: seq<Edge>) {
    && (forall k :: 0 <= k < |wanted| ==> Mute(wanted[k].solver))
    && forall i, k :: 0 <= i < |bs| && 0 <= k < |wanted| && wanted[k].priority == bs[i].priority ==> Mute(bs[i].solver)
  }

  lemma MuteKnows(solver: Solver, subsets: seq<set<Formula>>)
    requires Mute(solver) && forall s :: s in subsets ==> Known(solver, s)
    ensures subsets == []
  {
    assert subsets != [] ==> Known(solver, subsets[0]);
  }

  lemma MuteUsed(m: Module, before: seq<Backend>, wanted: seq<Edge>)
    requires m.BackendsSynced() && before <= m.allBackends && m.NewFrom(wanted, |before|)
    requires |m.used| == |wanted| && forall i :: 0 <= i < |m.used| ==> m.used[i].priority == wanted[i].priority
    requires WantedMute(before, wanted)
    ensures !UsedConflict(m)
  {
    forall j | 0 <= j < |m.used|
      ensures m.used[j].infeasibleSubsets == []
    {
      assert m.used[j] in m.used;
      var i :| 0 <= i < |m.allBackends| && m.allBackends[i] == m.used[j];
      if i < |before| {
        assert before[i] == m.used[j] && wanted[j].priority == before[i].priority;
      } else {
        assert MadeFor(wanted, m.allBackends[i]);
      }
      MuteKnows(m.used[j].solver, m.used[j].infeasibleSubsets);
    }
  }

  method CheckCore(m: Module, wanted: seq<Edge>) returns (answer: Answer)
    requires Base(m) && forall e :: e in wanted ==> Sound(m.theory, e.solver)
    modifies m, m.passed, m.allBackends
    ensures Base(m)
    ensures CoreChecked(old(Snap(m)), wanted, answer, Snap(m))
    ensures old(m.infeasibleSubsets) == [] && answer == UNSAT ==>
      m.infeasibleSubsets == LiftAll(Elements(Received(m)), m.passed.View(), Conflicts(m.used))
    ensures answer == UNSAT ==> (HasValidInfeasibleSubset(m) <==> old(m.infeasibleSubsets) != [] || UsedConflict(m))
    ensures (old(AllReliable(m.allBackends) && AllWanted(m.allBackends, wanted)) && ReliableEdges(wanted)
             && answer == UNSAT) ==> HasValidInfeasibleSubset(m)
    ensures answer == UNSAT && AllReliable(m.allBackends) ==> HasValidInfeasibleSubset(m) || UnusedConflict(m)
    ensures (wanted != [] && old(m.infeasibleSubsets == [] && WillRefuse(m) && WantedMute(m.allBackends, wanted)))
            ==> answer == UNSAT && !HasValidInfeasibleSubset(m)
    ensures old(m.infeasibleSubsets) == [] ==> |m.used| == |wanted|
    ensures answer == UNSAT ==> Unsat(m.theory, Elements(Received(m)))
    ensures m.NewFrom(wanted, |old(m.allBackends)|)
    ensures old(m.allBackends) <= m.allBackends
    ensures forall i :: |old(m.allBackends)| <= i < |m.allBackends| ==> fresh(m.allBackends[i])
  {
    if m.infeasibleSubsets != [] {
      StoredConflict(m);
      answer := UNSAT;
    } else {
      answer := CopyAndRun(m, wanted);
      if answer == UNSAT {
        ExplainConflict(m);
        ConflictsSome(m.used);
      }
    }
  }

  method CopyAndRun(m: Module, wanted: seq<Edge>) returns (answer: Answer)
    requires Base(m) && forall e :: e in wanted ==> Sound(m.theory, e.solver)
    modifies m`allBackends, m`registered, m`used, m`first, m`told, m.passed, m.allBackends
    ensures Base(m) && m.passed.View() == Mirror(Received(m)) && (wanted != [] ==> m.told == Received(m))
    ensures answer == UNSAT ==> Unsat(m.theory, Elements(m.Passed()))
    ensures wanted == [] ==> m.told == old(m.told) && answer == UNKNOWN
    ensures (old(AllReliable(m.allBackends) && AllWanted(m.allBackends, wanted))
             && ReliableEdges(wanted) && answer == UNSAT) ==> UsedConflict(m)
    ensures answer == UNSAT && AllReliable(m.allBackends) ==> UsedConflict(m) || UnusedConflict(m)
    ensures wanted != [] && old(WillRefuse(m)) ==> answer == UNSAT
    ensures old(WantedMute(m.allBackends, wanted)) ==> !UsedConflict(m)
    ensures |m.used| == |wanted|
    ensures m.NewFrom(wanted, |old(m.allBackends)|)
    ensures old(m.allBackends) <= m.allBackends
    ensures forall i :: |old(m.allBackends)| <= i < |m.allBackends| ==> fresh(m.allBackends[i])
  {
    CopyAll(m);
    answer := RunCopied(m, wanted);
  }

  method CopyAll(m: Module)
    requires Base(m)
    modifies m`first, m.passed
    ensures Base(m) && m.passed.View() == Mirror(Received(m)) && m.Passed() == Received(m)
    ensures old(WillRefuse(m)) ==> m.SomeRefuses(m.FirstIndex())
  {
    ghost var refused := WillRefuse(m);
    CopyReceived(m);
    assert m.Passed() == Received(m);
    if refused {
      StillRefuses(m);
    }
  }

  method RunCopied(m: Module, wanted: seq<Edge>) returns (answer: Answer)
    requires m.Synced() && forall e :: e in wanted ==> Sound(m.theory, e.solver)
    modifies m`allBackends, m`registered, m`used, m`first, m`told, m.allBackends
    ensures m.Synced() && m.told == if wanted == [] then old(m.told) else m.Passed()
    ensures answer == UNSAT ==> Unsat(m.theory, Elements(m.Passed()))
    ensures wanted == [] ==> answer == UNKNOWN
    ensures (old(AllReliable(m.allBackends) && AllWanted(m.allBackends, wanted))
             && ReliableEdges(wanted) && answer == UNSAT) ==> UsedConflict(m)
    ensures answer == UNSAT && AllReliable(m.allBackends) ==> UsedConflict(m) || UnusedConflict(m)
    ensures wanted != [] && old(m.SomeRefuses(m.FirstIndex())) ==> answer == UNSAT
    ensures old(WantedMute(m.allBackends, wanted)) ==> !UsedConflict(m)
    ensures |m.used| == |wanted|
    ensures m.NewFrom(wanted, |old(m.allBackends)|)
    ensures old(m.allBackends) <= m.allBackends
    ensures forall i :: |old(m.allBackends)| <= i < |m.allBackends| ==> fresh(m.allBackends[i])
  {
    ghost var before := m.allBackends;
    answer := m.RunBackends(wanted);
    ConflictIsWhere(m, before, wanted, answer);
  }

  lemma ConflictIsWhere(m: Module, before: seq<Backend>, wanted: seq<Edge>, answer: Answer)
    requires m.BackendsSynced() && before <= m.allBackends && m.NewFrom(wanted, |before|)
    requires |m.used| == |wanted| && forall i :: 0 <= i < |m.used| ==> m.used[i].priority == wanted[i].priority
    requires answer == UNSAT && AllReliable(m.allBackends) ==> SomeConflict(m.allBackends)
    ensures AllReliable(before) && AllWanted(before, wanted) && ReliableEdges(wanted) && answer == UNSAT ==>
      UsedConflict(m)
    ensures answer == UNSAT && AllReliable(m.allBackends) ==> UsedConflict(m) || UnusedConflict(m)
    ensures WantedMute(before, wanted) ==> !UsedConflict(m)
  {
    if AllReliable(before) && AllWanted(before, wanted) && ReliableEdges(wanted) && answer == UNSAT {
      AllAreUsed(m, before, wanted);
    }
    if AllReliable(m.allBackends) && answer == UNSAT {
      ConflictElsewhere(m);
    }
    if WantedMute(before, wanted) {
      MuteUsed(m, before, wanted);
    }
  }

  /**
   `check` of the base module: with nothing received there is nothing to do. The module owes its
   parent what it demands of its own backends, see `Sound`.
   */
  method CheckModule(m: Module, wanted: seq<Edge>) returns (answer: Answer)
    requires Base(m) && forall e :: e in wanted ==> Sound(m.theory, e.solver)
    modifies m, m.passed, m.allBackends
    ensures Base(m) && CheckedAs(old(Snap(m)), wanted, answer, Snap(m))
    ensures Explains(m.theory, Elements(Received(m)), answer, m.infeasibleSubsets)
    ensures answer == UNSAT ==> (HasValidInfeasibleSubset(m) <==> old(m.infeasibleSubsets) != [] || UsedConflict(m))
    ensures old(m.allBackends) <= m.allBackends
    ensures forall i :: |old(m.allBackends)| <= i < |m.allBackends| ==> fresh(m.allBackends[i])
  {
    answer := SAT;
    ghost var s := Snap(m);
    if m.received.order != [] {
      answer := CheckCore(m, wanted);
    }
    CheckedFound(s, wanted, answer, Snap(m));
    FoundAnswer(m, answer);
  }

  method FoundAnswer(m: Module, answer: Answer)
    requires Base(m)
    modifies m`solverState
    ensures Base(m) && Snap(m) == old(Snap(m)).(state := answer)
  {
    m.solverState := answer;
  }

  method ExplainConflict(m: Module)
    requires Base(m) && m.infeasibleSubsets == [] && Unsat(m.theory, Elements(m.Passed()))
    modifies m`infeasibleSubsets
    ensures Base(m) && Unsat(m.theory, Elements(Received(m)))
    ensures m.infeasibleSubsets == LiftAll(Elements(Received(m)), m.passed.View(), Conflicts(m.used))
  {
    MirrorJustified(m.theory, m.passed.View(), Received(m));
    PassedConflict(m.theory, Elements(Received(m)), m.passed.View());
    ReceivedLists(m);
    m.GetInfeasibleSubsets(Elements(Received(m)));
  }

  lemma StoredConflict(m: Module)
    requires m.SubsetsOk(Elements(Received(m))) && m.infeasibleSubsets != []
    ensures Unsat(m.theory, Elements(Received(m)))
  {
    assert m.infeasibleSubsets[0] in m.infeasibleSubsets;
    UnsatWithMore(m.theory, m.infeasibleSubsets[0], Elements(Received(m)));
  }

  /** The parent adds a formula to what the module receives. */
  method Receive(m: Module, f: Formula)
    requires Base(m)
    modifies m.received
    ensures Base(m) && Snap(m) == old(Snap(m)).(received := AddNames(old(Received(m)), Flatten(f)))
    ensures old(m.received.order) <= m.received.order
  {
    ReceivedGrows(Received(m), f);
    ReceivedIsFormulas(m);
    var _, _ := m.received.Add(f, NoOrigins, true);
    ReceivedIsFormulas(m);
  }

  lemma ReceivedIsFormulas(m: Module)
    ensures Received(m) == m.received.Formulas()
  {
  }

  lemma ReceivedGrows(names: seq<Formula>, f: Formula)
    ensures var names' := AddNames(names, Flatten(f));
      && names <= names' && Elements(names) <= Elements(names')
      && (NoConjunctions(names) ==> NoConjunctions(names'))
  {
    FlattenGivesAtoms(f);
    AddNamesGrows(names, Flatten(f));
    if NoConjunctions(names) {
      AddNamesAtoms(names, Flatten(f));
    }
    var names' := AddNames(names, Flatten(f));
    assert forall i :: 0 <= i < |names| ==> names'[i] == names[i];
  }

  lemma {:induction false} AddNamesAtoms(names: seq<Formula>, fs: seq<Formula>)
    requires NoConjunctions(names) && NoConjunctions(fs)
    ensures NoConjunctions(AddNames(names, fs))
    decreases |fs|
  {
    if fs != [] {
      AddNamesAtoms(if fs[0] in names then names else names + [fs[0]], fs[1..]);
    }
  }

  lemma {:induction false} FlattenGivesAtoms(f: Formula)
    ensures NoConjunctions(Flatten(f))
    decreases f
  {
    if f.And? {
      FlattenAllGivesAtoms(f.subs);
    }
  }

  lemma {:induction false} FlattenAllGivesAtoms(fs: seq<Formula>)
    ensures NoConjunctions(FlattenAll(fs))
    decreases fs
  {
    if fs != [] {
      FlattenGivesAtoms(fs[0]);
      FlattenAllGivesAtoms(fs[1..]);
    }
  }

  /** The parent withdraws a received formula: from the module first, then from its own list. */
  method Retract(m: Module, n: nat, ghost i: nat)
    requires Base(m) && i < |m.received.order| && m.received.order[i] == n
    modifies m`first, m`told, m`infeasibleSubsets, m`solverState, m.received, m.passed, m.allBackends
    ensures Base(m) && Dropped(old(Snap(m)), i, Snap(m))
    ensures m.received.order == old(m.received.order)[..i] + old(m.received.order)[i + 1..]
  {
    WithdrawReceived(m, n, i);
    EraseReceived(m, n, i);
  }

  /** What a withdrawal leaves of everything but the received list itself. */
  ghost predicate WithdrawnFrom(s: Snapshot, i: nat, s': Snapshot) {
    && i < |s.received|
    && s'.passed == Without(s.passed, i) && s'.told == Without(s.told, i)
    && (forall x :: x in s'.subsets <==> x in s.subsets && s.received[i] !in x)
    && s'.state == if s'.subsets == [] then UNKNOWN else s.state
  }

  /** Everything is as if the received formula at i had never been there. */
  ghost predicate Dropped(s: Snapshot, i: nat, s': Snapshot) {
    s'.received == Without(s.received, i) && WithdrawnFrom(s, i, s')
  }

  /** The module has done without the received formula at i, which is still listed. */
  ghost predicate DoesWithout(m: Module, i: nat)
    reads m, m.received, m.passed, m.allBackends
  {
    && i < |m.received.order|
    && m.Synced() && m.received.Valid() && m.received != m.passed
    && NoConjunctions(Received(m))
    && Mirrors(m.passed.View(), Received(m)[..i] + Received(m)[i + 1..])
    && m.SubsetsOk(Elements(Received(m)[..i] + Received(m)[i + 1..]))
  }

  /** What the module itself does about the withdrawal of the received formula at i. */
  method WithdrawReceived(m: Module, n: nat, ghost i: nat)
    requires Base(m) && i < |m.received.order| && m.received.order[i] == n
    modifies m`first, m`told, m`infeasibleSubsets, m`solverState, m.passed, m.allBackends
    ensures DoesWithout(m, i) && WithdrawnFrom(old(Snap(m)), i, Snap(m))
  {
    ghost var es, fs, told, known := m.passed.View(), Received(m), m.told, m.FirstIndex();
    assert n in m.received.order;
    var f := m.received.nodes[n].formula;
    assert f == fs[i];
    ReceivedLists(m);
    MirrorJustified(m.theory, es, fs);
    m.Remove(f, Elements(fs));
    MirrorDropped(es, m.passed.View(), fs, i);
    ToldDropped(es, known, fs, i);
    ElementsWithout(fs, i);
  }

  lemma MirrorDropped(es: seq<Entry>, es': seq<Entry>, received: seq<Formula>, i: nat)
    requires Mirrors(es, received) && i < |received| && Distinct(received) && NoConjunctions(received)
    requires Withdrawn(es, es', received[i])
    ensures Mirrors(es', received[..i] + received[i + 1..]) && es' == Without(es, i)
  {
    MirrorKept(es, es', received, i);
  }

  lemma ToldDropped(es: seq<Entry>, known: nat, received: seq<Formula>, i: nat)
    requires Mirrors(es, received) && i < |received| && Distinct(received) && NoConjunctions(received) && known <= |es|
    ensures Names(Surviving(es[..known], received[i])) == Without(Names(es)[..known], i)
  {
    var part := es[..known];
    assert Mirrors(part, received);
    MirrorSurvivors(part, received, i);
    assert Names(part) == Names(es)[..known];
    if i < known {
      NamesWithout(part, i);
    }
  }

  method EraseReceived(m: Module, n: nat, ghost i: nat)
    requires DoesWithout(m, i) && m.received.order[i] == n
    modifies m.received
    ensures Base(m) && Snap(m) == old(Snap(m)).(received := Without(old(Received(m)), i))
    ensures m.received.order == old(m.received.order)[..i] + old(m.received.order)[i + 1..]
  {
    ReceivedLists(m);
    ElementsWithout(Received(m), i);
    EraseFrom(m.received, n, i);
  }

  method EraseFrom(list: ModuleInput, n: nat, ghost i: nat)
    requires list.Valid() && i < |list.order| && list.order[i] == n
    modifies list`order, list`nodes, list`position
    ensures list.Valid() && list.order == old(list.order)[..i] + old(list.order)[i + 1..]
    ensures Names(list.View()) == Without(Names(old(list.View())), i)
  {
    assert n in list.order && IndexOf(list.order, n) == i;
    ViewErase(list.order, list.nodes, list.vectors, i);
    NamesWithout(list.View(), i);
    list.Erase(n);
  }

  lemma ElementsWithout(fs: seq<Formula>, i: nat)
    requires Distinct(fs) && i < |fs|
    ensures Elements(fs[..i] + fs[i + 1..]) == Elements(fs) - {fs[i]}
    ensures NoConjunctions(fs) ==> NoConjunctions(fs[..i] + fs[i + 1..])
  {
    assert fs == fs[..i] + [fs[i]] + fs[i + 1..];
  }

  // ---------------------------------------------------------------- whole runs

  /** What the parent of a base module may do. */
  datatype Op = Add(f: Formula) | Drop(i: nat) | Check(wanted: seq<Edge>)

  /** What one operation answers, and makes of the books. */
  ghost predicate Follows(s: Snapshot, op: Op, answer: Answer, s': Snapshot) {
    match op
    case Add(f) => answer == UNKNOWN && s' == s.(received := AddNames(s.received, Flatten(f)))
    case Drop(i) => answer == UNKNOWN && if i < |s.received| then Dropped(s, i, s') else s' == s
    case Check(wanted) => CheckedAs(s, wanted, answer, s')
  }

  ghost predicate SoundOp(theory: Theory, op: Op) {
    op.Check? ==> forall e :: e in op.wanted ==> Sound(theory, e.solver)
  }

  method Apply(m: Module, op: Op) returns (answer: Answer)
    requires Base(m) && SoundOp(m.theory, op)
    modifies m, m.received, m.passed, m.allBackends
    ensures Base(m) && Follows(old(Snap(m)), op, answer, Snap(m))
    ensures answer == UNSAT ==> Unsat(m.theory, Elements(Received(m)))
    ensures old(m.allBackends) <= m.allBackends
    ensures forall i :: |old(m.allBackends)| <= i < |m.allBackends| ==> fresh(m.allBackends[i])
  {
    answer := UNKNOWN;
    match op {
      case Add(f) => Receive(m, f);
      case Drop(i) =>
        if i < |m.received.order| {
          Retract(m, m.received.order[i], i);
        }
      case Check(wanted) => answer := CheckModule(m, wanted);
    }
  }

  const START := Snapshot([], [], [], true, [], UNKNOWN)

  /** What is received after some operations: this much of a history does not depend on answers. */
  function ReceivedAfter(ops: seq<Op>): seq<Formula> {
    if ops == [] then [] else
      var before := ReceivedAfter(ops[..|ops| - 1]);
      match ops[|ops| - 1]
      case Add(f) => AddNames(before, Flatten(f))
      case Drop(i) => Without(before, i)
      case Check(_) => before
  }

  /** The states between the operations: each follows from the one before and has its books right. */
  ghost predicate IsHistory(theory: Theory, ops: seq<Op>, answers: seq<Answer>, states: seq<Snapshot>) {
    && |answers| == |ops| == |states| - 1 && states[0] == START
    && (forall k :: 0 <= k < |ops| ==> Follows(states[k], ops[k], answers[k], states[k + 1]))
    && (forall k :: 0 <= k < |states| ==> Books(theory, states[k]))
    && (forall k :: 0 <= k < |ops| && answers[k] == UNSAT ==> Unsat(theory, Elements(states[k + 1].received)))
  }

  lemma {:induction false} HistoryReceives(theory: Theory, ops: seq<Op>, answers: seq<Answer>, states: seq<Snapshot>,
                                           k: nat)
    requires IsHistory(theory, ops, answers, states) && k <= |ops|
    ensures states[k].received == ReceivedAfter(ops[..k])
  {
    if k > 0 {
      HistoryReceives(theory, ops, answers, states, k - 1);
      assert ops[..k][..k - 1] == ops[..k - 1] && ops[..k][k - 1] == ops[k - 1];
      assert Follows(states[k - 1], ops[k - 1], answers[k - 1], states[k]);
    }
  }

  /** UNSAT is an answer to a check, and it is right about what the operations so far have left. */
  lemma HistorySound(theory: Theory, ops: seq<Op>, answers: seq<Answer>, states: seq<Snapshot>, k: nat)
    requires IsHistory(theory, ops, answers, states) && k < |ops| && answers[k] == UNSAT
    ensures ops[k].Check? && Unsat(theory, Elements(ReceivedAfter(ops[..k])))
  {
    HistoryReceives(theory, ops, answers, states, k);
    assert Follows(states[k], ops[k], answers[k], states[k + 1]);
  }

  /**
   Whatever is received, withdrawn and checked, in any order and with any backends appearing on
   the way: each answer UNSAT is right, and after every operation the books are right.
   */
  method Replay(ghost theory: Theory, ops: seq<Op>)
    returns (m: Module, answers: seq<Answer>, ghost states: seq<Snapshot>)
    requires forall k :: 0 <= k < |ops| ==> SoundOp(theory, ops[k])
    ensures Base(m) && m.theory == theory && IsHistory(theory, ops, answers, states) && states[|ops|] == Snap(m)
    ensures forall k :: 0 <= k <= |ops| ==> states[k].received == ReceivedAfter(ops[..k])
  {
    m := NewModule(theory);
    answers, states := [], [START];
    for k := 0 to |ops|
      invariant fresh(m) && fresh(m.received) && fresh(m.passed) && fresh(m.allBackends)
      invariant Base(m) && m.theory == theory && |answers| == k && |states| == k + 1 && states[k] == Snap(m)
      invariant IsHistory(theory, ops[..k], answers, states)
    {
      answers, states := ApplyNext(m, ops, k, answers, states);
    }
    assert ops[..|ops|] == ops;
    HistoryReceivesAll(theory, ops, answers, states);
  }

  /** One more operation, with the history so far. */
  method ApplyNext(m: Module, ops: seq<Op>, k: nat, answers: seq<Answer>, ghost states: seq<Snapshot>)
    returns (answers': seq<Answer>, ghost states': seq<Snapshot>)
    requires Base(m) && k < |ops| && SoundOp(m.theory, ops[k])
    requires IsHistory(m.theory, ops[..k], answers, states) && states[k] == Snap(m)
    modifies m, m.received, m.passed, m.allBackends
    ensures Base(m) && IsHistory(m.theory, ops[..k + 1], answers', states') && states'[k + 1] == Snap(m)
    ensures old(m.allBackends) <= m.allBackends
    ensures forall i :: |old(m.allBackends)| <= i < |m.allBackends| ==> fresh(m.allBackends[i])
  {
    var answer := Apply(m, ops[k]);
    BaseBooks(m);
    HistoryNext(m.theory, ops, k, answers, states, answer, Snap(m));
    answers', states' := answers + [answer], states + [Snap(m)];
  }

  lemma HistoryReceivesAll(theory: Theory, ops: seq<Op>, answers: seq<Answer>, states: seq<Snapshot>)
    requires IsHistory(theory, ops, answers, states)
    ensures forall k :: 0 <= k <= |ops| ==> states[k].received == ReceivedAfter(ops[..k])
  {
    forall k | 0 <= k <= |ops|
      ensures states[k].received == ReceivedAfter(ops[..k])
    {
      HistoryReceives(theory, ops, answers, states, k);
    }
  }

  method NewModule(ghost theory: Theory) returns (m: Module)
    ensures fresh(m) && fresh(m.received) && fresh(m.passed) && fresh(m.allBackends)
    ensures Base(m) && m.theory == theory && Snap(m) == START && m.allBackends == []
  {
    var received := new ModuleInput();
    m := new Module(received, theory);
  }

  lemma HistoryNext(theory: Theory, ops: seq<Op>, k: nat, answers: seq<Answer>, states: seq<Snapshot>,
                    answer: Answer, s: Snapshot)
    requires k < |ops| && IsHistory(theory, ops[..k], answers, states) && Follows(states[k], ops[k], answer, s)
    requires Books(theory, s) && (answer == UNSAT ==> Unsat(theory, Elements(s.received)))
    ensures IsHistory(theory, ops[..k + 1], answers + [answer], states + [s])
  {
    var states' := states + [s];
    forall j | 0 <= j < k
      ensures Follows(states'[j], ops[..k + 1][j], (answers + [answer])[j], states'[j + 1])
    {
      assert Follows(states[j], ops[..k][j], answers[j], states[j + 1]);
    }
  }

  // ---------------------------------------------------------------- UNSAT without an infeasible subset

  const FALSE := Atom(0, 1, {})
  const OTHER := Atom(1, 1, {})

  /** The theory in which the first atom never holds. */
  ghost const NEVER0: Theory := iset v: Valuation | 0 !in v

  const REFUSER: Solver := (fs, _) => if FALSE in fs then (UNSAT, [{FALSE}]) else (UNKNOWN, [])
  const IDLE: Solver := (_, _) => (UNKNOWN, [])

  /** The backend that can explain the conflict is made by the first check and left aside by the second. */
  const ASIDE: seq<Op> :=
    [Add(OTHER), Check([Edge(1, REFUSER, false)]), Add(FALSE), Check([Edge(2, IDLE, false)])]

  lemma SolversSound()
    ensures Sound(NEVER0, REFUSER) && Sound(NEVER0, IDLE)
    ensures forall fs, k :: REFUSER(fs, k).0 == UNSAT <==> FALSE in fs
    ensures Mute(IDLE)
  {
    forall fs, k
      ensures Explains(NEVER0, Elements(fs), REFUSER(fs, k).0, REFUSER(fs, k).1)
    {
      assert forall v :: v in NEVER0 ==> !Satisfies(v, FALSE);
    }
  }

  lemma OtherHasModel()
    ensures !Unsat(NEVER0, Elements([OTHER]))
  {
    var v: Valuation := iset{1};
    assert v in NEVER0 && Satisfies(v, OTHER);
  }

  /**
   UNSAT without an infeasible subset: a backend that knows of the conflict exists, but is not
   wanted in the last check, and the one that is wanted has no reason to give. So the assertion
   fails that the module has an infeasible subset.
   */
  method UnexplainedUnsat() returns (m: Module, answers: seq<Answer>, ghost states: seq<Snapshot>)
    ensures Base(m) && IsHistory(NEVER0, ASIDE, answers, states) && states[4] == Snap(m)
    ensures answers[3] == UNSAT && states[4].subsets == [] && !HasValidInfeasibleSubset(m)
  {
    var first;
    ghost var s1, s2;
    m, first, s1, s2 := MakeRefuser();
    ghost var s3 := Snap(m);
    var last := AskIdle(m);
    BaseBooks(m);
    AsideHistory(first, last, s1, s2, s3, Snap(m));
    answers, states := [UNKNOWN, first, UNKNOWN, last], [START, s1, s2, s3, Snap(m)];
  }

  /** The operations before the last check. */
  method MakeRefuser() returns (m: Module, first: Answer, ghost s1: Snapshot, ghost s2: Snapshot)
    ensures fresh(m) && fresh(m.received) && fresh(m.passed) && fresh(m.allBackends)
    ensures Base(m) && m.theory == NEVER0 && m.infeasibleSubsets == [] && WillRefuse(m)
    ensures forall i :: 0 <= i < |m.allBackends| ==> m.allBackends[i].priority == 1
    ensures s1 == START.(received := [OTHER]) && CheckedAs(s1, [Edge(1, REFUSER, false)], first, s2)
    ensures Snap(m) == s2.(received := [OTHER, FALSE]) && Books(NEVER0, s2) && Books(NEVER0, Snap(m))
    ensures first != UNSAT
  {
    m := ReceiveOther();
    s1 := Snap(m);
    first := CheckOther(m);
    s2 := Snap(m);
    ReceiveFalse(m);
  }

  lemma AsideFollows(first: Answer, last: Answer, s1: Snapshot, s2: Snapshot, s3: Snapshot, s4: Snapshot)
    requires s1 == START.(received := [OTHER]) && s3 == s2.(received := [OTHER, FALSE])
    requires CheckedAs(s1, [Edge(1, REFUSER, false)], first, s2) && CheckedAs(s3, [Edge(2, IDLE, false)], last, s4)
    ensures Follows(START, ASIDE[0], UNKNOWN, s1) && Follows(s1, ASIDE[1], first, s2)
    ensures Follows(s2, ASIDE[2], UNKNOWN, s3) && Follows(s3, ASIDE[3], last, s4)
  {
    assert AddNames([OTHER], [FALSE]) == [OTHER, FALSE];
  }

  lemma AsideHistory(first: Answer, last: Answer, s1: Snapshot, s2: Snapshot, s3: Snapshot, s4: Snapshot)
    requires s1 == START.(received := [OTHER]) && s3 == s2.(received := [OTHER, FALSE])
    requires CheckedAs(s1, [Edge(1, REFUSER, false)], first, s2) && CheckedAs(s3, [Edge(2, IDLE, false)], last, s4)
    requires Books(NEVER0, s2) && Books(NEVER0, s3) && Books(NEVER0, s4)
    requires first != UNSAT && (last == UNSAT ==> Unsat(NEVER0, Elements(s4.received)))
    ensures IsHistory(NEVER0, ASIDE, [UNKNOWN, first, UNKNOWN, last], [START, s1, s2, s3, s4])
  {
    AsideFollows(first, last, s1, s2, s3, s4);
    assert Books(NEVER0, START) && Books(NEVER0, s1);
  }

  method ReceiveOther() returns (m: Module)
    ensures fresh(m) && fresh(m.received) && fresh(m.passed) && Base(m) && m.theory == NEVER0
    ensures Snap(m) == START.(received := [OTHER]) && m.allBackends == []
  {
    m := NewModule(NEVER0);
    Receive(m, OTHER);
  }

  /** Makes the backend, while there is nothing to refuse. */
  method CheckOther(m: Module) returns (answer: Answer)
    requires Base(m) && m.theory == NEVER0 && Received(m) == [OTHER] && m.infeasibleSubsets == [] && m.allBackends == []
    modifies m, m.passed, m.allBackends
    ensures Base(m) && CheckedAs(old(Snap(m)), [Edge(1, REFUSER, false)], answer, Snap(m))
    ensures answer != UNSAT && m.infeasibleSubsets == [] && m.told == [OTHER] && Books(NEVER0, Snap(m))
    ensures m.allBackends != [] && fresh(m.allBackends) && m.NewFrom([Edge(1, REFUSER, false)], 0)
  {
    SolversSound();
    ghost var s := Snap(m);
    answer := CheckCore(m, [Edge(1, REFUSER, false)]);
    OtherHasModel();
    CheckedFound(s, [Edge(1, REFUSER, false)], answer, Snap(m));
    assert m.used[0] in m.used;
    FoundAnswer(m, answer);
    BaseBooks(m);
  }

  method ReceiveFalse(m: Module)
    requires Base(m) && m.theory == NEVER0 && Received(m) == [OTHER] && m.told == [OTHER]
    requires m.allBackends != [] && m.NewFrom([Edge(1, REFUSER, false)], 0)
    modifies m.received
    ensures Base(m) && Snap(m) == old(Snap(m)).(received := [OTHER, FALSE]) && Books(NEVER0, Snap(m))
    ensures WillRefuse(m) && forall i :: 0 <= i < |m.allBackends| ==> m.allBackends[i].priority == 1
  {
    Receive(m, FALSE);
    assert Received(m) == [OTHER, FALSE];
    KnowsRefuser(m);
    BaseBooks(m);
  }

  lemma KnowsRefuser(m: Module)
    requires m.PassedSynced() && m.told == [OTHER] && Received(m) == [OTHER, FALSE]
    requires m.allBackends != [] && m.NewFrom([Edge(1, REFUSER, false)], 0)
    ensures WillRefuse(m) && forall i :: 0 <= i < |m.allBackends| ==> m.allBackends[i].priority == 1
  {
    SolversSound();
    var b := m.allBackends[0];
    assert MadeFor([Edge(1, REFUSER, false)], b);
    assert Received(m)[1] == FALSE;
    assert Eager(b, m.FirstIndex(), Received(m)) && Refuses(b, Received(m));
    assert forall i :: 0 <= i < |m.allBackends| ==> MadeFor([Edge(1, REFUSER, false)], m.allBackends[i]);
  }

  method AskIdle(m: Module) returns (answer: Answer)
    requires Base(m) && m.theory == NEVER0 && m.infeasibleSubsets == [] && WillRefuse(m) && Received(m) != []
    requires forall i :: 0 <= i < |m.allBackends| ==> m.allBackends[i].priority == 1
    modifies m, m.passed, m.allBackends
    ensures Base(m) && CheckedAs(old(Snap(m)), [Edge(2, IDLE, false)], answer, Snap(m))
    ensures answer == UNSAT && m.infeasibleSubsets == [] && Unsat(NEVER0, Elements(Received(m)))
  {
    ghost var s := Snap(m);
    answer := RunIdle(m);
    CheckedFound(s, [Edge(2, IDLE, false)], answer, Snap(m));
    FoundAnswer(m, answer);
  }

  method RunIdle(m: Module) returns (answer: Answer)
    requires Base(m) && m.theory == NEVER0 && m.infeasibleSubsets == [] && WillRefuse(m) && Received(m) != []
    requires forall i :: 0 <= i < |m.allBackends| ==> m.allBackends[i].priority == 1
    modifies m, m.passed, m.allBackends
    ensures Base(m) && CoreChecked(old(Snap(m)), [Edge(2, IDLE, false)], answer, Snap(m))
    ensures answer == UNSAT && m.infeasibleSubsets == [] && Unsat(NEVER0, Elements(Received(m)))
  {
    SolversSound();
    IdleIsMute(m);
    answer := CheckCore(m, [Edge(2, IDLE, false)]);
    NoSubsets(m);
  }

  lemma IdleIsMute(m: Module)
    requires forall i :: 0 <= i < |m.allBackends| ==> m.allBackends[i].priority == 1
    ensures WantedMute(m.allBackends, [Edge(2, IDLE, false)])
  {
  }

  lemma NoSubsets(m: Module)
    requires m.SubsetsOk(Elements(Received(m))) && !HasValidInfeasibleSubset(m)
    ensures m.infeasibleSubsets == []
  {
  }
}
