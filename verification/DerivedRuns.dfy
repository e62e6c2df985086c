/**
 Runs of a module of any derived class: it may pass on what it likes, as long as each passed
 formula comes with origins that entail it, and take it back. Its infeasible subsets are right
 all the same.
 */
module DerivedRuns {
  import opened Basics
  import opened Formulas
  import opened ModuleInputs
  import opened Origins
  import opened Modules
  import opened ModuleRuns
  import opened PassingOn

  /**
   What happens to a module, or what it does. `supported` are formulas that the class knows the
   origin to entail besides; the passed formulas of a group share their vector; a later formula
   may join the vector of the passed formula at i, if its origins are among those that are
   known to entail it.
   */
  datatype Move =
    | Receive(f: Formula, mightBeConjunction: bool)
    | PassOne(f: Formula, origin: Formula, mightBeConjunction: bool, supported: set<Formula>)
    | PassGroup(fs: seq<Formula>, origins: seq<Formula>, mightBeConjunction: bool)
    | PassAlong(f: Formula, i: nat, mightBeConjunction: bool, known: set<Formula>)
    | PassValid(f: Formula, mightBeConjunction: bool)
    | Erase(i: nat)
    | Clear
    | RemoveOrigin(i: nat, origin: Formula)
    | RemoveOrigins(i: nat, origins: seq<Formula>)
    | RemoveVector(i: nat)
    | Withdraw(i: nat)
    | Check(wanted: seq<Edge>)

  /** What passing on asks of the derived class: origins entail what is passed on. */
  ghost predicate Sensible(theory: Theory, move: Move) {
    match move
    case PassOne(f, o, _, supported) => Entails(theory, o, f) && forall g :: g in supported ==> Entails(theory, o, g)
    case PassGroup(fs, os, _) => forall f, o :: f in fs && o in os ==> Entails(theory, o, f)
    case PassAlong(f, _, _, known) => forall o :: o in known ==> Entails(theory, o, f)
    case PassValid(f, _) => Tautology(theory, f)
    case Check(wanted) => forall e :: e in wanted ==> Sound(theory, e.solver)
    case _ => true
  }

  /** `Failed` is that an assertion of the source fails; without assertions it goes on all the same. */
  datatype Reply = Skipped | Done | Failed | Said(answer: Answer)

  /** The books, and which formulas share a vector. */
  datatype State = State(books: Snapshot, sharing: set<(Formula, Formula)>)

  ghost function Look(m: Module): State
    reads m, m.received, m.passed, m.allBackends
  {
    State(Snap(m), m.passed.Shares())
  }

  function ConjunctsOfAll(fs: seq<Formula>, mightBeConjunction: bool): seq<Formula> {
    if fs == [] then []
    else ConjunctsOfAll(fs[..|fs| - 1], mightBeConjunction) + Conjuncts(fs[|fs| - 1], mightBeConjunction)
  }

  /** The books are right; compare `ModuleRuns.Books`. */
  ghost predicate BooksRight(theory: Theory, s: Snapshot) {
    && Distinct(s.received)
    && AllJustified(theory, Elements(s.received), s.passed)
    && s.told <= Names(s.passed) && s.inStep
    && forall x :: x in s.subsets ==> x <= Elements(s.received) && Unsat(theory, x)
  }

  /** So is the sharing. */
  ghost predicate StateRight(theory: Theory, s: State) {
    BooksRight(theory, s.books) && SharesWell(s.books.passed, s.sharing)
  }

  lemma AccountedIsRight(m: Module)
    requires Accounted(m)
    ensures StateRight(m.theory, Look(m))
  {
    ReceivedLists(m);
    ListShares(m.passed);
  }

  /** The origin stems from what is received and supports whatever notices the push. */
  predicate MayPassOne(received: seq<Formula>, sharing: set<(Formula, Formula)>, gs: seq<Formula>, o: Formula,
                       supported: set<Formula>) {
    && FromReceived(Elements(received), o)
    && forall p :: p in sharing && p.0 in gs ==> p.1 in gs || p.1 in supported
  }

  predicate MayPassGroup(received: seq<Formula>, os: seq<Formula>) {
    os != [] && forall o :: o in os ==> FromReceived(Elements(received), o)
  }

  /** The element at i has a vector, all of which is known to entail what is passed on. */
  predicate MayPassAlong(es: seq<Entry>, i: nat, known: set<Formula>) {
    i < |es| && es[i].origins.Some? && forall o :: o in es[i].origins.value ==> o in known
  }

  /** The element at i keeps an origin, or it had none, or nobody shares its vector. */
  predicate MayRemove(es: seq<Entry>, sharing: set<(Formula, Formula)>, i: nat, keeps: bool)
    requires i < |es|
  {
    keeps || es[i].origins.None? || !IsShared(sharing, es[i].formula)
  }

  predicate KeepsOthers(e: Entry, os: seq<Formula>) {
    e.origins.Some? && !(multiset(e.origins.value) <= multiset(os))
  }

  /** What one move replies, and makes of the books and of the sharing. */
  ghost predicate Moves(s: State, move: Move, reply: Reply, s': State) {
    var b := s.books;
    match move
    case Receive(f, mb) =>
      reply == Done && s' == s.(books := b.(received := AddNames(b.received, Conjuncts(f, mb))))
    case PassOne(f, o, mb, supported) =>
      if MayPassOne(b.received, s.sharing, Conjuncts(f, mb), o, supported)
      then reply == Done && s' == s.(books := b.(passed := PushAll(b.passed, s.sharing, Conjuncts(f, mb), o)))
      else reply == Skipped && s' == s
    case PassGroup(fs, os, mb) =>
      if MayPassGroup(b.received, os) then reply == Done && PassesGroup(s, ConjunctsOfAll(fs, mb), os, s')
      else reply == Skipped && s' == s
    case PassAlong(f, i, mb, known) =>
      if MayPassAlong(b.passed, i, known)
      then reply == Done && PassesAlong(s, Conjuncts(f, mb), i, s')
      else reply == Skipped && s' == s
    case PassValid(f, mb) =>
      reply == Done && s' == s.(books := b.(passed := AddAll(b.passed, Conjuncts(f, mb), None)))
    case Erase(i) =>
      if i < |b.passed| then reply == Done && Takes(s, i, None, s') else reply == Skipped && s' == s
    case Clear =>
      reply == (if NoOriginsIn(b.passed) then Done else Failed) && s' == State(b.(passed := [], told := []), {})
    case RemoveOrigin(i, o) =>
      if i < |b.passed| && MayRemove(b.passed, s.sharing, i, Survives(b.passed[i], o))
      then reply == Done && exists left :: LeftByMatch(b.passed[i], o, left) && Takes(s, i, left, s')
      else reply == Skipped && s' == s
    case RemoveOrigins(i, os) =>
      if i < |b.passed| && MayRemove(b.passed, s.sharing, i, KeepsOthers(b.passed[i], os))
      then reply == Done && exists left :: LeftByVector(b.passed[i], os, left) && Takes(s, i, left, s')
      else reply == Skipped && s' == s
    case RemoveVector(i) =>
      if i < |b.passed| && b.passed[i].origins.Some? then reply == Done && Takes(s, i, None, s')
      else reply == Skipped && s' == s
    case Withdraw(i) =>
      if i < |b.received| then reply == Done && Withdraws(s, i, s') else reply == Skipped && s' == s
    case Check(wanted) => reply.Said? && Answers(s, wanted, reply.answer, s')
  }

  ghost predicate PassesGroup(s: State, gs: seq<Formula>, os: seq<Formula>, s': State) {
    && s'.books == s.books.(passed := AddAll(s.books.passed, gs, Some(os)))
    && forall p :: p in s'.sharing ==> p in s.sharing || (p.0 in gs && p.1 in gs)
  }

  ghost predicate PassesAlong(s: State, gs: seq<Formula>, i: nat, s': State)
    requires i < |s.books.passed|
  {
    var e := s.books.passed[i];
    && s'.books == s.books.(passed := AddAll(s.books.passed, gs, e.origins))
    && forall p :: p in s'.sharing ==>
      p in s.sharing || (WouldShare(s.sharing, e.formula, gs, p.0) && WouldShare(s.sharing, e.formula, gs, p.1))
  }

  /** f is passed on with the vector of g, or has it already. */
  predicate WouldShare(sharing: set<(Formula, Formula)>, g: Formula, gs: seq<Formula>, f: Formula) {
    f in gs || Touches(sharing, g, f)
  }

  /** The element at i loses origins, or goes; the backends forget it then if they know it. */
  ghost predicate Takes(s: State, i: nat, left: Option<seq<Formula>>, s': State) {
    && TookBack(s.books.passed, s.sharing, s.books.told, i, left, s'.books.passed, s'.sharing, s'.books.told)
    && s'.books == s.books.(passed := s'.books.passed, told := s'.books.told)
  }

  ghost predicate Withdraws(s: State, i: nat, s': State)
    requires i < |s.books.received|
  {
    var b, b', f := s.books, s'.books, s.books.received[i];
    && b'.received == Without(b.received, i)
    && Withdrawn(b.passed, b'.passed, f)
    && |b.told| <= |b.passed| && b'.told == Names(Surviving(b.passed[..|b.told|], f))
    && (forall x :: x in b'.subsets <==> x in b.subsets && f !in x)
    && b'.state == (if b'.subsets == [] then UNKNOWN else b.state)
    && s'.sharing == Among(s.sharing, Names(b'.passed))
  }

  ghost predicate Answers(s: State, wanted: seq<Edge>, answer: Answer, s': State) {
    var b, b' := s.books, s'.books;
    && b'.received == b.received && b'.passed == b.passed && s'.sharing == s.sharing && b'.state == answer
    && b'.told == (if wanted == [] then b.told else Names(b.passed))
    && (wanted == [] ==> answer == UNKNOWN)
    && (if answer == UNSAT then b.subsets <= b'.subsets else b'.subsets == b.subsets)
  }

  method MoveReceive(m: Module, f: Formula, mightBeConjunction: bool)
    requires Accounted(m)
    modifies m.received
    ensures Accounted(m)
    ensures
      var names := AddNames(old(Received(m)), Conjuncts(f, mightBeConjunction));
      Look(m) == old(Look(m)).(books := old(Snap(m)).(received := names))
  {
    ReceivedIsFormulas(m);
    AddNamesElements(Received(m), Conjuncts(f, mightBeConjunction));
    ghost var names := AddNames(Received(m), Conjuncts(f, mightBeConjunction));
    JustifiedByMore(m.theory, Elements(Received(m)), Elements(names), m.passed.View());
    var _, _ := m.received.Add(f, NoOrigins, mightBeConjunction);
    ReceivedIsFormulas(m);
  }

  lemma EntailsConjuncts(theory: Theory, o: Formula, f: Formula, mightBeConjunction: bool)
    requires Entails(theory, o, f)
    ensures forall g :: g in Conjuncts(f, mightBeConjunction) ==> Entails(theory, o, g)
  {
    forall v | v in theory && Satisfies(v, o)
      ensures forall g :: g in Conjuncts(f, mightBeConjunction) ==> Satisfies(v, g)
    {
      FlattenMeaning(v, f);
    }
  }

  /** What the guard of `PassOne` lets through fits. */
  lemma MayPassFits(theory: Theory, received: seq<Formula>, sharing: set<(Formula, Formula)>, f: Formula, o: Formula,
                    mightBeConjunction: bool, supported: set<Formula>)
    requires Sensible(theory, PassOne(f, o, mightBeConjunction, supported))
    requires MayPassOne(received, sharing, Conjuncts(f, mightBeConjunction), o, supported)
    ensures OriginFits(theory, Elements(received), sharing, Conjuncts(f, mightBeConjunction), o)
  {
    EntailsConjuncts(theory, o, f, mightBeConjunction);
    var gs := Conjuncts(f, mightBeConjunction);
    forall g, h | g in gs && Touches(sharing, g, h)
      ensures Supports(theory, Elements(received), o, h)
    {
      assert g == h || ((g, h) in sharing && (g, h).0 in gs && (g, h).1 == h);
    }
  }

  /** And whatever fits is let through, for a class that knows what its origins entail. */
  lemma FittingMayPass(theory: Theory, received: seq<Formula>, sharing: set<(Formula, Formula)>, f: Formula, o: Formula,
                       mightBeConjunction: bool)
    requires OriginFits(theory, Elements(received), sharing, Conjuncts(f, mightBeConjunction), o)
    requires FromReceived(Elements(received), o)
    ensures
      var gs := Conjuncts(f, mightBeConjunction);
      var supported := set p | p in sharing && p.0 in gs :: p.1;
      && MayPassOne(received, sharing, gs, o, supported)
      && Sensible(theory, PassOne(f, o, mightBeConjunction, supported))
  {
    var gs := Conjuncts(f, mightBeConjunction);
    forall g | g in gs
      ensures Entails(theory, o, g)
    {
      assert Touches(sharing, g, g);
    }
    forall p | p in sharing && p.0 in gs
      ensures Entails(theory, o, p.1)
    {
      assert Touches(sharing, p.0, p.1);
    }
    forall v | v in theory && Satisfies(v, o)
      ensures Satisfies(v, f)
    {
      FlattenMeaning(v, f);
      assert forall g :: g in gs ==> Satisfies(v, g);
      assert !mightBeConjunction ==> f in gs;
    }
  }

  method MovePassOne(m: Module, f: Formula, o: Formula, mightBeConjunction: bool, supported: set<Formula>)
    returns (done: bool)
    requires Accounted(m) && Sensible(m.theory, PassOne(f, o, mightBeConjunction, supported))
    modifies m`first, m.passed
    ensures Accounted(m)
    ensures Moves(old(Look(m)), PassOne(f, o, mightBeConjunction, supported), if done then Done else Skipped, Look(m))
  {
    done := MayPassOne(Received(m), m.passed.Shares(), Conjuncts(f, mightBeConjunction), o, supported);
    if done {
      MayPassFits(m.theory, Received(m), m.passed.Shares(), f, o, mightBeConjunction, supported);
      PassSingle(m, f, o, mightBeConjunction);
    }
  }

  method MovePassValid(m: Module, f: Formula, mightBeConjunction: bool)
    requires Accounted(m) && Tautology(m.theory, f)
    modifies m`first, m.passed
    ensures Accounted(m) && Moves(old(Look(m)), PassValid(f, mightBeConjunction), Done, Look(m))
  {
    PassWith(m, f, NoOrigins, mightBeConjunction);
  }

  /** Some formulas of the group have been passed on. */
  ghost predicate PassedSome(m: Module, es: seq<Entry>, n0: Nodes, p0: map<Formula, nat>, gs: seq<Formula>, v: nat,
                             os: seq<Formula>)
    reads m, m.passed
  {
    && v in m.passed.vectors && m.passed.vectors[v] == os
    && m.passed.View() == AddAll(es, gs, Some(os))
    && Linked(n0, p0, gs, Shared(v), m.passed.nodes, m.passed.position)
  }

  method MovePassGroup(m: Module, fs: seq<Formula>, os: seq<Formula>, mightBeConjunction: bool)
    requires Accounted(m) && MayPassGroup(Received(m), os)
    requires Sensible(m.theory, PassGroup(fs, os, mightBeConjunction))
    modifies m`first, m.passed
    ensures Accounted(m) && Moves(old(Look(m)), PassGroup(fs, os, mightBeConjunction), Done, Look(m))
  {
    ghost var es, n0, p0 := m.passed.View(), m.passed.nodes, m.passed.position;
    var v := MakeShared(m, os);
    for k := 0 to |fs|
      invariant Accounted(m) && PassedSome(m, es, n0, p0, ConjunctsOfAll(fs[..k], mightBeConjunction), v, os)
    {
      PassShared(m, fs, k, v, os, mightBeConjunction, es, n0, p0);
    }
    assert fs[..|fs|] == fs;
    GroupPassed(m, es, n0, p0, ConjunctsOfAll(fs, mightBeConjunction), v, os);
  }

  lemma GroupPassed(m: Module, es: seq<Entry>, n0: Nodes, p0: map<Formula, nat>, gs: seq<Formula>, v: nat,
                    os: seq<Formula>)
    requires PassedSome(m, es, n0, p0, gs, v, os) && Users(n0, p0, v) == {}
    ensures m.passed.View() == AddAll(es, gs, Some(os))
    ensures forall p :: p in m.passed.Shares() ==> p in Sharing(n0, p0) || (p.0 in gs && p.1 in gs)
  {
  }

  method MakeShared(m: Module, os: seq<Formula>) returns (v: nat)
    requires Accounted(m)
    modifies m.passed
    ensures Accounted(m) && Users(old(m.passed.nodes), old(m.passed.position), v) == {}
    ensures PassedSome(m, old(m.passed.View()), old(m.passed.nodes), old(m.passed.position), [], v, os)
  {
    v := m.passed.NewVector(os);
  }

  lemma GroupJustified(theory: Theory, received: seq<Formula>, fs: seq<Formula>, os: seq<Formula>,
                       mightBeConjunction: bool, k: nat)
    requires Sensible(theory, PassGroup(fs, os, mightBeConjunction)) && MayPassGroup(received, os) && k < |fs|
    ensures Justified(theory, Elements(received), Entry(fs[k], Some(os)))
  {
    assert fs[k] in fs;
  }

  method PassShared(m: Module, fs: seq<Formula>, k: nat, v: nat, ghost os: seq<Formula>, mightBeConjunction: bool,
                    ghost es: seq<Entry>, ghost n0: Nodes, ghost p0: map<Formula, nat>)
    requires Accounted(m) && k < |fs| && MayPassGroup(Received(m), os)
    requires Sensible(m.theory, PassGroup(fs, os, mightBeConjunction))
    requires PassedSome(m, es, n0, p0, ConjunctsOfAll(fs[..k], mightBeConjunction), v, os)
    modifies m`first, m.passed
    ensures Accounted(m) && PassedSome(m, es, n0, p0, ConjunctsOfAll(fs[..k + 1], mightBeConjunction), v, os)
  {
    GroupJustified(m.theory, Received(m), fs, os, mightBeConjunction, k);
    assert fs[..k + 1][..k] == fs[..k];
    ghost var gs, hs := ConjunctsOfAll(fs[..k], mightBeConjunction), Conjuncts(fs[k], mightBeConjunction);
    ghost var n1, p1 := m.passed.nodes, m.passed.position;
    AddAllAppend(es, gs, hs, Some(os));
    PassWith(m, fs[k], Shared(v), mightBeConjunction);
    LinkedTwice(n0, p0, gs, Shared(v), n1, p1, hs, m.passed.nodes, m.passed.position);
  }

  lemma UsersTouched(list: ModuleInput, i: nat)
    requires list.Valid() && i < |list.order| && list.nodes[list.order[i]].origins.Some?
    ensures forall f :: f in Users(list.nodes, list.position, list.nodes[list.order[i]].origins.value) ==>
      Touches(list.Shares(), list.View()[i].formula, f)
  {
    assert list.order[i] in list.nodes && list.position[list.View()[i].formula] == list.order[i];
  }

  method MovePassAlong(m: Module, f: Formula, i: nat, mightBeConjunction: bool, known: set<Formula>)
    returns (done: bool)
    requires Accounted(m) && Sensible(m.theory, PassAlong(f, i, mightBeConjunction, known))
    modifies m`first, m.passed
    ensures Accounted(m)
    ensures Moves(old(Look(m)), PassAlong(f, i, mightBeConjunction, known), if done then Done else Skipped, Look(m))
  {
    done := MayPassAlong(m.passed.View(), i, known);
    if done {
      ghost var e := m.passed.View()[i];
      assert Justified(m.theory, Elements(Received(m)), e);
      assert Justified(m.theory, Elements(Received(m)), Entry(f, e.origins));
      UsersTouched(m.passed, i);
      PassWith(m, f, Shared(m.passed.nodes[m.passed.order[i]].origins.value), mightBeConjunction);
    }
  }

  method MoveErase(m: Module, i: nat) returns (done: bool)
    requires Accounted(m)
    modifies m`first, m`told, m.passed, m.allBackends
    ensures Accounted(m) && Moves(old(Look(m)), Erase(i), if done then Done else Skipped, Look(m))
  {
    done := i < |m.passed.order|;
    if done {
      EraseOne(m, i);
    }
  }

  method MoveClear(m: Module) returns (asserted: bool)
    requires Accounted(m)
    modifies m`first, m`told, m.passed, m.allBackends
    ensures Accounted(m) && Moves(old(Look(m)), Clear, if asserted then Done else Failed, Look(m))
  {
    asserted := EraseAll(m);
  }

  lemma WhenOthersStay(e: Entry, os: seq<Formula>, left: Option<seq<Formula>>)
    requires LeftByVector(e, os, left)
    ensures KeepsOthers(e, os) <==> left.Some? && left.value != []
  {
    if left.Some? {
      var ms, ns := multiset(e.origins.value), multiset(os);
      assert |left.value| == |ms - ns|;
      if !(ms <= ns) {
        var x :| ms[x] > ns[x];
        assert x in ms - ns;
      }
    }
  }

  /** What is skipped is exactly what would leave another formula without origins. */
  lemma MayRemoveExactly(es: seq<Entry>, sharing: set<(Formula, Formula)>, i: nat, o: Formula, os: seq<Formula>,
                         left: Option<seq<Formula>>)
    requires i < |es|
    ensures LeftByMatch(es[i], o, left) ==>
      (MayRemove(es, sharing, i, Survives(es[i], o)) <==> !Bereaves(es, sharing, i, left))
    ensures LeftByVector(es[i], os, left) ==>
      (MayRemove(es, sharing, i, KeepsOthers(es[i], os)) <==> !Bereaves(es, sharing, i, left))
  {
    LeftIsFewer(es[i], o, os, left);
    if LeftByVector(es[i], os, left) {
      WhenOthersStay(es[i], os, left);
    }
  }

  method MoveRemoveOrigin(m: Module, i: nat, o: Formula) returns (done: bool)
    requires Accounted(m)
    modifies m`first, m`told, m.passed, m.allBackends
    ensures Accounted(m) && Moves(old(Look(m)), RemoveOrigin(i, o), if done then Done else Skipped, Look(m))
  {
    done := i < |m.passed.order|
      && MayRemove(m.passed.View(), m.passed.Shares(), i, Survives(m.passed.View()[i], o));
    if done {
      ghost var es, sharing := m.passed.View(), m.passed.Shares();
      ghost var left := TakeOrigin(m, i, o);
      MayRemoveExactly(es, sharing, i, o, [], left);
    }
  }

  method MoveRemoveOrigins(m: Module, i: nat, os: seq<Formula>) returns (done: bool)
    requires Accounted(m)
    modifies m`first, m`told, m.passed, m.allBackends
    ensures Accounted(m) && Moves(old(Look(m)), RemoveOrigins(i, os), if done then Done else Skipped, Look(m))
  {
    done := i < |m.passed.order|
      && MayRemove(m.passed.View(), m.passed.Shares(), i, KeepsOthers(m.passed.View()[i], os));
    if done {
      ghost var es, sharing := m.passed.View(), m.passed.Shares();
      ghost var left := TakeOrigins(m, i, os);
      MayRemoveExactly(es, sharing, i, es[i].formula, os, left);
    }
  }

  method MoveRemoveVector(m: Module, i: nat) returns (done: bool)
    requires Accounted(m)
    modifies m`first, m`told, m.passed, m.allBackends
    ensures Accounted(m) && Moves(old(Look(m)), RemoveVector(i), if done then Done else Skipped, Look(m))
  {
    done := i < |m.passed.order| && m.passed.View()[i].origins.Some?;
    if done {
      TakeVector(m, i);
    }
  }

  method MoveWithdraw(m: Module, i: nat)
    requires Accounted(m) && i < |m.received.order|
    modifies m`first, m`told, m`infeasibleSubsets, m`solverState, m.received, m.passed, m.allBackends
    ensures Accounted(m) && i < |old(Received(m))| && Withdraws(old(Look(m)), i, Look(m))
  {
    var n := m.received.order[i];
    var f := m.received.nodes[n].formula;
    assert f == Received(m)[i];
    RemoveReceived(m, f);
    EraseReceivedAt(m, n, i);
  }

  method RemoveReceived(m: Module, f: Formula)
    requires Accounted(m)
    modifies m`first, m`told, m`infeasibleSubsets, m`solverState, m.passed, m.allBackends
    ensures m.Synced() && m.Accountable(Elements(Received(m)) - {f})
    ensures m.passed.Shares() == Among(old(m.passed.Shares()), m.Passed())
    ensures Withdrawn(old(m.passed.View()), m.passed.View(), f)
    ensures |old(m.told)| <= |old(m.passed.View())|
    ensures m.told == Names(Surviving(old(m.passed.View())[..|old(m.told)|], f))
    ensures forall s :: s in m.infeasibleSubsets <==> s in old(m.infeasibleSubsets) && f !in s
    ensures m.solverState == if m.infeasibleSubsets == [] then UNKNOWN else old(m.solverState)
  {
    assert |m.told| == m.FirstIndex();
    m.Remove(f, Elements(Received(m)));
  }

  method EraseReceivedAt(m: Module, n: nat, ghost i: nat)
    requires m.Synced() && m.received.Valid() && m.received != m.passed
    requires i < |m.received.order| && m.received.order[i] == n
    requires m.Accountable(Elements(Received(m)) - {Received(m)[i]})
    modifies m.received
    ensures Accounted(m) && Received(m) == Without(old(Received(m)), i)
  {
    ReceivedLists(m);
    ElementsWithout(Received(m), i);
    EraseFrom(m.received, n, i);
  }

  method MoveCheck(m: Module, wanted: seq<Edge>) returns (answer: Answer)
    requires Accounted(m) && forall e :: e in wanted ==> Sound(m.theory, e.solver)
    modifies m, m.passed, m.allBackends
    ensures Accounted(m) && Answers(old(Look(m)), wanted, answer, Look(m))
    ensures Explains(m.theory, Elements(Received(m)), answer, m.infeasibleSubsets)
    ensures old(m.allBackends) <= m.allBackends
    ensures forall i :: |old(m.allBackends)| <= i < |m.allBackends| ==> fresh(m.allBackends[i])
  {
    answer := m.RunBackends(wanted);
    if answer == UNSAT {
      Explain(m);
    }
    SetState(m, answer);
  }

  method Explain(m: Module)
    requires Accounted(m) && Unsat(m.theory, Elements(m.Passed()))
    modifies m`infeasibleSubsets
    ensures Accounted(m) && old(m.infeasibleSubsets) <= m.infeasibleSubsets && Unsat(m.theory, Elements(Received(m)))
  {
    PassedConflict(m.theory, Elements(Received(m)), m.passed.View());
    ReceivedLists(m);
    m.GetInfeasibleSubsets(Elements(Received(m)));
  }

  method SetState(m: Module, answer: Answer)
    requires Accounted(m)
    modifies m`solverState
    ensures Accounted(m) && m.solverState == answer
  {
    m.solverState := answer;
  }

  method MakeMove(m: Module, move: Move) returns (reply: Reply)
    requires Accounted(m) && Sensible(m.theory, move)
    modifies m, m.received, m.passed, m.allBackends
    ensures Accounted(m) && Moves(old(Look(m)), move, reply, Look(m))
    ensures reply == Said(UNSAT) ==> Unsat(m.theory, Elements(Received(m)))
    ensures old(m.allBackends) <= m.allBackends
    ensures forall i :: |old(m.allBackends)| <= i < |m.allBackends| ==> fresh(m.allBackends[i])
  {
    if move.Check? {
      var answer := MoveCheck(m, move.wanted);
      reply := Said(answer);
    } else {
      reply := MakeOtherMove(m, move);
    }
  }

  method MakeOtherMove(m: Module, move: Move) returns (reply: Reply)
    requires Accounted(m) && Sensible(m.theory, move) && !move.Check?
    modifies m`first, m`told, m`infeasibleSubsets, m`solverState, m.received, m.passed, m.allBackends
    ensures Accounted(m) && Moves(old(Look(m)), move, reply, Look(m)) && !reply.Said?
  {
    if move.Receive? {
      MoveReceive(m, move.f, move.mightBeConjunction);
      reply := Done;
    } else if move.Withdraw? {
      reply := MoveWithdrawIf(m, move.i);
    } else {
      reply := MakePassedMove(m, move);
    }
  }

  method MoveWithdrawIf(m: Module, i: nat) returns (reply: Reply)
    requires Accounted(m)
    modifies m`first, m`told, m`infeasibleSubsets, m`solverState, m.received, m.passed, m.allBackends
    ensures Accounted(m) && Moves(old(Look(m)), Withdraw(i), reply, Look(m)) && !reply.Said?
  {
    if i < |m.received.order| {
      MoveWithdraw(m, i);
      reply := Done;
    } else {
      reply := Skipped;
    }
  }

  /** The moves that the module itself makes on its passed formulas. */
  method MakePassedMove(m: Module, move: Move) returns (reply: Reply)
    requires Accounted(m) && Sensible(m.theory, move) && !move.Receive? && !move.Withdraw? && !move.Check?
    modifies m`first, m`told, m.passed, m.allBackends
    ensures Accounted(m) && Moves(old(Look(m)), move, reply, Look(m)) && !reply.Said?
  {
    var done := true;
    match move {
      case PassOne(f, o, mb, supported) => done := MovePassOne(m, f, o, mb, supported);
      case PassGroup(fs, os, mb) =>
        done := MayPassGroup(Received(m), os);
        if done {
          MovePassGroup(m, fs, os, mb);
        }
      case PassAlong(f, i, mb, known) => done := MovePassAlong(m, f, i, mb, known);
      case PassValid(f, mb) => MovePassValid(m, f, mb);
      case Erase(i) => done := MoveErase(m, i);
      case Clear =>
        var asserted := MoveClear(m);
        return if asserted then Done else Failed;
      case RemoveOrigin(i, o) => done := MoveRemoveOrigin(m, i, o);
      case RemoveOrigins(i, os) => done := MoveRemoveOrigins(m, i, os);
      case RemoveVector(i) => done := MoveRemoveVector(m, i);
    }
    reply := if done then Done else Skipped;
  }

  /** The states between the moves: each follows from the one before and has its books right. */
  ghost predicate IsRun(theory: Theory, moves: seq<Move>, replies: seq<Reply>, states: seq<State>) {
    && |replies| == |moves| == |states| - 1 && states[0] == State(START, {})
    && (forall k :: 0 <= k < |moves| ==> Moves(states[k], moves[k], replies[k], states[k + 1]))
    && (forall k :: 0 <= k < |states| ==> StateRight(theory, states[k]))
    && forall k :: 0 <= k < |moves| && replies[k] == Said(UNSAT) ==>
      Unsat(theory, Elements(states[k + 1].books.received))
  }

  lemma EmptyRun(theory: Theory)
    ensures IsRun(theory, [], [], [State(START, {})])
  {
  }

  lemma RunNext(theory: Theory, moves: seq<Move>, k: nat, replies: seq<Reply>, states: seq<State>, reply: Reply,
                s: State)
    requires k < |moves| && IsRun(theory, moves[..k], replies, states) && Moves(states[k], moves[k], reply, s)
    requires StateRight(theory, s) && (reply == Said(UNSAT) ==> Unsat(theory, Elements(s.books.received)))
    ensures IsRun(theory, moves[..k + 1], replies + [reply], states + [s])
  {
    var states' := states + [s];
    forall j | 0 <= j < k
      ensures Moves(states'[j], moves[..k + 1][j], (replies + [reply])[j], states'[j + 1])
    {
      assert Moves(states[j], moves[..k][j], replies[j], states[j + 1]);
    }
  }

  /** UNSAT replies to a check, and the formulas received at that time have no model. */
  lemma RunSound(theory: Theory, moves: seq<Move>, replies: seq<Reply>, states: seq<State>, k: nat)
    requires IsRun(theory, moves, replies, states) && k < |moves| && replies[k] == Said(UNSAT)
    ensures moves[k].Check? && Unsat(theory, Elements(states[k].books.received))
  {
    assert Moves(states[k], moves[k], replies[k], states[k + 1]);
  }

  /**
   A class that never passes two formulas on with one vector never shares one: then no origin
   is kept from being taken back.
   */
  lemma {:induction false} NeverShared(theory: Theory, moves: seq<Move>, replies: seq<Reply>, states: seq<State>,
                                       k: nat)
    requires IsRun(theory, moves, replies, states) && k < |states|
    requires forall j :: 0 <= j < |moves| ==> PassesApart(moves[j])
    ensures states[k].sharing == {}
    ensures k < |moves| && (moves[k].RemoveOrigin? || moves[k].RemoveOrigins?) ==>
      (replies[k] == Done <==> moves[k].i < |states[k].books.passed|)
  {
    if k > 0 {
      NeverShared(theory, moves, replies, states, k - 1);
      assert StateRight(theory, states[k]);
      StaysUnshared(states[k - 1], moves[k - 1], replies[k - 1], states[k]);
    }
    if k < |moves| && (moves[k].RemoveOrigin? || moves[k].RemoveOrigins?) {
      RemovesUnshared(states[k], moves[k], replies[k], states[k + 1]);
    }
  }

  lemma StaysUnshared(s: State, move: Move, reply: Reply, s': State)
    requires Moves(s, move, reply, s') && s.sharing == {} && SharesWell(s'.books.passed, s'.sharing)
    requires PassesApart(move)
    ensures s'.sharing == {}
  {
    match move {
      case PassGroup(fs, os, mb) =>
        if MayPassGroup(s.books.received, os) {
          NoneToShareWith(s'.sharing, ConjunctsOfAll(fs, mb));
        }
      case _ =>
    }
  }

  lemma NoneToShareWith(sharing: set<(Formula, Formula)>, gs: seq<Formula>)
    requires forall g, h :: g in gs && h in gs ==> g == h
    requires forall p :: p in sharing ==> p.0 != p.1 && p.0 in gs && p.1 in gs
    ensures sharing == {}
  {
  }

  lemma RemovesUnshared(s: State, move: Move, reply: Reply, s': State)
    requires Moves(s, move, reply, s') && s.sharing == {} && (move.RemoveOrigin? || move.RemoveOrigins?)
    ensures reply == Done <==> move.i < |s.books.passed|
  {
  }

  /** At most one formula is passed on with a vector, and none with a vector in use. */
  predicate PassesApart(move: Move) {
    match move
    case PassGroup(fs, _, mb) =>
      forall g, h :: g in ConjunctsOfAll(fs, mb) && h in ConjunctsOfAll(fs, mb) ==> g == h
    case PassAlong(_, _, _, _) => false
    case _ => true
  }

  method MoveNext(m: Module, moves: seq<Move>, k: nat, replies: seq<Reply>, ghost states: seq<State>)
    returns (replies': seq<Reply>, ghost states': seq<State>)
    requires Accounted(m) && k < |moves| && Sensible(m.theory, moves[k])
    requires IsRun(m.theory, moves[..k], replies, states) && states[k] == Look(m)
    modifies m, m.received, m.passed, m.allBackends
    ensures Accounted(m) && IsRun(m.theory, moves[..k + 1], replies', states') && states'[k + 1] == Look(m)
    ensures old(m.allBackends) <= m.allBackends
    ensures forall i :: |old(m.allBackends)| <= i < |m.allBackends| ==> fresh(m.allBackends[i])
  {
    var reply := MakeMove(m, moves[k]);
    AccountedIsRight(m);
    RunNext(m.theory, moves, k, replies, states, reply, Look(m));
    replies', states' := replies + [reply], states + [Look(m)];
  }

  /**
   Whatever a module receives, passes on, takes back, gives up and checks, in any order: it ends
   accountable to what it has received, and after every move what is passed on, what the
   backends know and every infeasible subset are right. Only such pushes onto shared vectors
   and such removals from them are skipped as would spoil this; see `PassingOn.PassSingle`,
   `TakeOrigin` and `TakeOrigins`.
   */
  method Run(ghost theory: Theory, moves: seq<Move>) returns (m: Module, replies: seq<Reply>, ghost states: seq<State>)
    requires forall k :: 0 <= k < |moves| ==> Sensible(theory, moves[k])
    ensures m.Synced() && m.Accountable(Elements(Received(m)))
    ensures IsRun(theory, moves, replies, states) && states[|moves|] == Look(m)
  {
    m := NewDerived(theory);
    replies, states := [], [State(START, {})];
    EmptyRun(theory);
    for k := 0 to |moves|
      invariant fresh(m) && fresh(m.received) && fresh(m.passed) && fresh(m.allBackends)
      invariant Accounted(m) && m.theory == theory && |states| == k + 1 && states[k] == Look(m)
      invariant IsRun(theory, moves[..k], replies, states)
    {
      replies, states := MoveNext(m, moves, k, replies, states);
    }
    assert moves[..|moves|] == moves;
  }

  method NewDerived(ghost theory: Theory) returns (m: Module)
    ensures fresh(m) && fresh(m.received) && fresh(m.passed) && fresh(m.allBackends)
    ensures Accounted(m) && m.theory == theory && Look(m) == State(START, {})
  {
    m := NewModule(theory);
    m.passed.NothingShared();
  }
}
