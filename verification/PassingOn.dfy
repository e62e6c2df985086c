/**
 What a module of a derived class does with its passed formulas: it passes formulas on with
 origins, and takes formulas and origins back. Which of this keeps the module accountable?
 */
module PassingOn {
  import opened Basics
  import opened Formulas
  import opened ModuleInputs
  import opened Origins
  import opened Modules
  import opened ModuleRuns

  /** What is passed on is justified by what is received, and so is each infeasible subset. */
  ghost predicate Accounted(m: Module)
    reads m, m.received, m.passed, m.allBackends
  {
    m.Synced() && m.received.Valid() && m.received != m.passed && m.Accountable(Elements(Received(m)))
  }

  // ---------------------------------------------------------------- sharing, on values

  /** The formulas are different, and formulas that share a vector have the same origins. */
  ghost predicate SharesWell(es: seq<Entry>, sharing: set<(Formula, Formula)>) {
    && Distinct(Names(es))
    && (forall p :: p in sharing ==> p.0 != p.1 && p.0 in Names(es) && p.1 in Names(es))
    && forall i, j :: 0 <= i < |es| && 0 <= j < |es| && (es[i].formula, es[j].formula) in sharing ==>
      es[i].origins.Some? && es[j].origins == es[i].origins
  }

  lemma ListShares(list: ModuleInput)
    requires list.Valid()
    ensures SharesWell(list.View(), list.Shares())
  {
    list.ViewHasNoDuplicates();
    list.ListedIsFound();
    assert Names(list.View()) == list.Formulas();
    forall i | 0 <= i < |list.order|
      ensures list.position[list.View()[i].formula] == list.order[i]
    {
      assert list.order[i] in list.nodes;
    }
  }

  predicate IsShared(sharing: set<(Formula, Formula)>, f: Formula) {
    exists p :: p in sharing && p.0 == f
  }

  function OriginsIn(es: seq<Entry>, f: Formula): Option<seq<Formula>> {
    var i := Position(es, f);
    if i < |es| then es[i].origins else None
  }

  lemma OriginsInView(list: ModuleInput, f: Formula)
    requires list.Valid()
    ensures OriginsIn(list.View(), f) == OriginsAt(list.nodes, list.position, list.vectors, f)
  {
    var it := list.Find(f);
    if it.Some? {
      assert list.order[IndexOf(list.order, it.value)] == it.value;
    }
  }

  // ---------------------------------------------------------------- passing on with one origin

  ghost predicate Supports(theory: Theory, received: set<Formula>, o: Formula, f: Formula) {
    FromReceived(received, o) && Entails(theory, o, f)
  }

  /** The origin supports the formulas and every formula that notices when it is pushed for them. */
  ghost predicate OriginFits(theory: Theory, received: set<Formula>, sharing: set<(Formula, Formula)>,
                             gs: seq<Formula>, o: Formula) {
    forall g, f :: g in gs && Touches(sharing, g, f) ==> Supports(theory, received, o, f)
  }

  /** The list after pushing o for each of the formulas, in place. */
  function PushAll(es: seq<Entry>, sharing: set<(Formula, Formula)>, gs: seq<Formula>, o: Formula): seq<Entry> {
    var names := AddNames(Names(es), gs);
    seq(|names|, j requires 0 <= j < |names| =>
      Entry(names[j], Pushed(OriginsIn(es, names[j]), o, Hits(sharing, gs, names[j]))))
  }

  lemma {:induction false} AddNamesElements(names: seq<Formula>, fs: seq<Formula>)
    ensures forall f :: f in AddNames(names, fs) <==> f in names || f in fs
    decreases |fs|
  {
    if fs != [] {
      AddNamesElements(if fs[0] in names then names else names + [fs[0]], fs[1..]);
    }
  }

  lemma {:induction false} HitsSome(sharing: set<(Formula, Formula)>, gs: seq<Formula>, f: Formula)
    ensures Hits(sharing, gs, f) > 0 <==> exists g :: g in gs && Touches(sharing, g, f)
  {
    if gs != [] {
      HitsSome(sharing, gs[1..], f);
      assert forall g :: g in gs <==> g == gs[0] || g in gs[1..];
    }
  }

  lemma PushedJustified(theory: Theory, received: set<Formula>, f: Formula, origins: Option<seq<Formula>>,
                        o: Formula, c: nat)
    requires c > 0
    requires origins.Some? ==> Justified(theory, received, Entry(f, origins))
    ensures Justified(theory, received, Entry(f, Pushed(origins, o, c))) <==> Supports(theory, received, o, f)
  {
    var os := if origins.Some? then origins.value else [];
    assert Copies(o, c)[0] == o;
    assert forall x :: x in os + Copies(o, c) <==> x in os || x == o;
  }

  /** One element of the list after pushing. */
  lemma PushedAtJustified(theory: Theory, received: set<Formula>, es: seq<Entry>, sharing: set<(Formula, Formula)>,
                          gs: seq<Formula>, o: Formula, f: Formula)
    requires AllJustified(theory, received, es) && (f in Names(es) || f in gs)
    ensures Justified(theory, received, Entry(f, Pushed(OriginsIn(es, f), o, Hits(sharing, gs, f))))
      <==> (Hits(sharing, gs, f) > 0 ==> Supports(theory, received, o, f))
  {
    var i, c := Position(es, f), Hits(sharing, gs, f);
    if i < |es| {
      assert Justified(theory, received, es[i]);
    }
    if c > 0 {
      PushedJustified(theory, received, f, OriginsIn(es, f), o, c);
    } else {
      HitsSome(sharing, gs, f);
      assert f in gs ==> Touches(sharing, f, f);
      assert f in Names(es);
    }
  }

  /** Pushing an origin keeps everything justified exactly if it fits. */
  lemma PushAllJustified(theory: Theory, received: set<Formula>, es: seq<Entry>, sharing: set<(Formula, Formula)>,
                         gs: seq<Formula>, o: Formula)
    requires AllJustified(theory, received, es) && SharesWell(es, sharing)
    ensures AllJustified(theory, received, PushAll(es, sharing, gs, o))
      <==> OriginFits(theory, received, sharing, gs, o)
  {
    var r, names := PushAll(es, sharing, gs, o), AddNames(Names(es), gs);
    AddNamesElements(Names(es), gs);
    forall j | 0 <= j < |r|
      ensures Justified(theory, received, r[j])
        <==> (Hits(sharing, gs, names[j]) > 0 ==> Supports(theory, received, o, names[j]))
    {
      assert names[j] in names;
      PushedAtJustified(theory, received, es, sharing, gs, o, names[j]);
    }
    forall f
      ensures Hits(sharing, gs, f) > 0 <==> exists g :: g in gs && Touches(sharing, g, f)
    {
      HitsSome(sharing, gs, f);
    }
    forall g, f | g in gs && Touches(sharing, g, f)
      ensures exists j :: 0 <= j < |names| && names[j] == f
    {
      assert f in names;
    }
  }

  lemma SpreadView(list: ModuleInput, n0: Nodes, p0: map<Formula, nat>, v0: Vectors, es0: seq<Entry>,
                   gs: seq<Formula>, o: Formula)
    requires list.Valid() && Spread(n0, p0, v0, gs, o, list.nodes, list.position, list.vectors)
    requires forall f :: OriginsIn(es0, f) == OriginsAt(n0, p0, v0, f)
    requires list.Formulas() == AddNames(Names(es0), gs)
    ensures list.View() == PushAll(es0, Sharing(n0, p0), gs, o)
  {
    forall j | 0 <= j < |list.order|
      ensures list.View()[j] == PushAll(es0, Sharing(n0, p0), gs, o)[j]
    {
      assert list.order[j] in list.nodes && list.View()[j].formula == list.Formulas()[j];
      assert list.position[list.Formulas()[j]] == list.order[j];
    }
  }

  method AddSingle(m: Module, f: Formula, o: Formula, mightBeConjunction: bool)
    requires m.Synced()
    modifies m`first, m.passed
    ensures m.Synced() && m.told == old(m.told)
    ensures m.passed.Shares() == old(m.passed.Shares())
    ensures m.passed.View()
         == PushAll(old(m.passed.View()), old(m.passed.Shares()), Conjuncts(f, mightBeConjunction), o)
    ensures old(m.passed.MayPush(Conjuncts(f, mightBeConjunction), Single(o))) ==>
      m.passed.View() == AddAll(old(m.passed.View()), Conjuncts(f, mightBeConjunction), Some([o]))
  {
    ghost var n0, p0, v0, es0 := m.passed.nodes, m.passed.position, m.passed.vectors, m.passed.View();
    forall f
      ensures OriginsIn(es0, f) == OriginsAt(n0, p0, v0, f)
    {
      OriginsInView(m.passed, f);
    }
    m.PassedIsFormulas();
    var _, _ := m.AddSubformulaToPassedFormula(f, Single(o), mightBeConjunction);
    SpreadView(m.passed, n0, p0, v0, es0, Conjuncts(f, mightBeConjunction), o);
  }

  /**
   A single origin is pushed in place: the result is justified exactly if the origin supports
   the formulas passed on and, besides, every formula that shares a vector with one of them.
   */
  method PassSingle(m: Module, f: Formula, o: Formula, mightBeConjunction: bool)
    requires Accounted(m)
    modifies m`first, m.passed
    ensures m.Synced() && m.passed.Shares() == old(m.passed.Shares())
    ensures m.passed.View()
         == PushAll(old(m.passed.View()), old(m.passed.Shares()), Conjuncts(f, mightBeConjunction), o)
    ensures old(m.passed.MayPush(Conjuncts(f, mightBeConjunction), Single(o))) ==>
      m.passed.View() == AddAll(old(m.passed.View()), Conjuncts(f, mightBeConjunction), Some([o]))
    ensures Accounted(m) <==> OriginFits(m.theory, Elements(Received(m)), old(m.passed.Shares()),
      Conjuncts(f, mightBeConjunction), o)
  {
    ListShares(m.passed);
    PushAllJustified(m.theory, Elements(Received(m)), m.passed.View(), m.passed.Shares(),
      Conjuncts(f, mightBeConjunction), o);
    AddSingle(m, f, o, mightBeConjunction);
  }

  /** Nothing is pushed in place when no origin comes with the formula, or a whole vector. */
  method PassWith(m: Module, f: Formula, arg: OriginArg, mightBeConjunction: bool)
    requires Accounted(m) && !arg.Single? && (arg.Shared? ==> arg.vector in m.passed.vectors)
    modifies m`first, m.passed
    ensures m.Synced() && m.passed.Links(Conjuncts(f, mightBeConjunction), arg)
    ensures m.passed.View() == AddAll(old(m.passed.View()), Conjuncts(f, mightBeConjunction),
      old(Extra(arg, m.passed.vectors)))
    ensures Extra(arg, m.passed.vectors) == old(Extra(arg, m.passed.vectors))
    ensures arg.Shared? ==> arg.vector in m.passed.vectors
    ensures old(Justified(m.theory, Elements(Received(m)), Entry(f, Extra(arg, m.passed.vectors)))) ==> Accounted(m)
  {
    ghost var es, extra, formulas := m.passed.View(), Extra(arg, m.passed.vectors), Elements(Received(m));
    AddWith(m, f, arg, mightBeConjunction);
    if Justified(m.theory, formulas, Entry(f, extra)) {
      ConjunctsJustified(m.theory, formulas, f, mightBeConjunction, extra);
      AddAllJustified(m.theory, formulas, es, Conjuncts(f, mightBeConjunction), extra);
    }
  }

  method AddWith(m: Module, f: Formula, arg: OriginArg, mightBeConjunction: bool)
    requires m.Synced() && !arg.Single? && (arg.Shared? ==> arg.vector in m.passed.vectors)
    modifies m`first, m.passed
    ensures m.Synced() && m.passed.Links(Conjuncts(f, mightBeConjunction), arg)
    ensures m.passed.Grown(Conjuncts(f, mightBeConjunction), arg)
    ensures arg.Shared? ==> arg.vector in m.passed.vectors
  {
    var _, _ := m.AddSubformulaToPassedFormula(f, arg, mightBeConjunction);
  }

  // ---------------------------------------------------------------- taking origins back

  /** The vector of the element at i is cut down to `left`, and every element that shares it notices. */
  function Cut(es: seq<Entry>, sharing: set<(Formula, Formula)>, i: nat, left: seq<Formula>): seq<Entry>
    requires i < |es|
  {
    seq(|es|, j requires 0 <= j < |es| =>
      if j == i || (es[i].formula, es[j].formula) in sharing then Entry(es[j].formula, Some(left)) else es[j])
  }

  /**
   Origins are taken from the element at i, so that `left` is what its vector holds; None is
   that it had no vector, or gives it up as a whole. Without origins it is erased.
   */
  function Taken(es: seq<Entry>, sharing: set<(Formula, Formula)>, i: nat, left: Option<seq<Formula>>): seq<Entry>
    requires i < |es|
  {
    match left
    case None => Without(es, i)
    case Some(os) => if os == [] then Without(Cut(es, sharing, i, os), i) else Cut(es, sharing, i, os)
  }

  /** What `removeOrigin` leaves of the origins of an element. */
  ghost predicate LeftByMatch(e: Entry, o: Formula, left: Option<seq<Formula>>) {
    if e.origins.None? then left.None? else left.Some? && WithoutMatches(left.value, e.origins.value, o)
  }

  /** What `removeOrigins` leaves, given another vector than that of the element. */
  ghost predicate LeftByVector(e: Entry, os: seq<Formula>, left: Option<seq<Formula>>) {
    if e.origins.None? then left.None?
    else left.Some? && multiset(left.value) == multiset(e.origins.value) - multiset(os)
  }

  /** No origin comes up that was not there before. */
  predicate Fewer(e: Entry, left: Option<seq<Formula>>) {
    left.Some? ==> e.origins.Some? && forall o :: o in left.value ==> o in e.origins.value
  }

  lemma LeftIsFewer(e: Entry, o: Formula, os: seq<Formula>, left: Option<seq<Formula>>)
    ensures LeftByMatch(e, o, left) || LeftByVector(e, os, left) ==> Fewer(e, left)
    ensures LeftByMatch(e, o, left) ==> (left.None? || left.value == [] <==> !Survives(e, o))
  {
    if e.origins.Some? && left.Some? {
      if WithoutMatches(left.value, e.origins.value, o) {
        WithoutMatchesElements(left.value, e.origins.value, o);
        assert left.value != [] ==> left.value[0] in left.value;
      }
      if multiset(left.value) == multiset(e.origins.value) - multiset(os) {
        forall x | x in left.value
          ensures x in e.origins.value
        {
          assert x in multiset(left.value) && x in multiset(e.origins.value);
        }
      }
    }
  }

  /**
   Taking origins back keeps everything justified, unless the last origin goes from a vector
   that another formula shares: that formula keeps a vector, which is empty.
   */
  lemma TakenJustified(theory: Theory, received: set<Formula>, es: seq<Entry>, sharing: set<(Formula, Formula)>,
                       i: nat, left: Option<seq<Formula>>)
    requires i < |es| && AllJustified(theory, received, es) && SharesWell(es, sharing) && Fewer(es[i], left)
    ensures AllJustified(theory, received, Taken(es, sharing, i, left))
      <==> !(left == Some([]) && IsShared(sharing, es[i].formula))
  {
    if left == Some([]) {
      LastTaken(theory, received, es, sharing, i);
    } else if left.Some? {
      forall j | 0 <= j < |es|
        ensures Justified(theory, received, Cut(es, sharing, i, left.value)[j])
      {
        assert Justified(theory, received, es[j]);
      }
    } else {
      assert forall j :: 0 <= j < |es| ==> Justified(theory, received, es[j]);
    }
  }

  lemma LastTaken(theory: Theory, received: set<Formula>, es: seq<Entry>, sharing: set<(Formula, Formula)>, i: nat)
    requires i < |es| && AllJustified(theory, received, es) && SharesWell(es, sharing)
    ensures AllJustified(theory, received, Without(Cut(es, sharing, i, []), i)) <==> !IsShared(sharing, es[i].formula)
  {
    var cut := Cut(es, sharing, i, []);
    var rest := Without(cut, i);
    if IsShared(sharing, es[i].formula) {
      var p :| p in sharing && p.0 == es[i].formula;
      var j :| 0 <= j < |es| && es[j].formula == p.1;
      assert (es[i].formula, es[j].formula) == p && j != i;
      assert !Justified(theory, received, cut[j]);
      assert rest[if j < i then j else j - 1] == cut[j];
    } else {
      forall j | 0 <= j < |rest|
        ensures Justified(theory, received, rest[j])
      {
        var k := if j < i then j else j + 1;
        assert rest[j] == cut[k] == es[k] && Justified(theory, received, es[k]);
      }
    }
  }

  lemma CutView(order: seq<nat>, nodes: Nodes, position: map<Formula, nat>, vectors: Vectors, vectors': Vectors,
                i: nat)
    requires Finds(nodes, position) && Distinct(order) && i < |order|
    requires forall j :: 0 <= j < |order| ==> order[j] in nodes
    requires nodes[order[i]].origins.Some? && OneVectorCut(nodes, vectors, order[i], vectors')
    ensures ViewOf(order, nodes, vectors')
         == Cut(ViewOf(order, nodes, vectors), Sharing(nodes, position), i,
                Deref(vectors', nodes[order[i]].origins.value))
  {
    var es, v := ViewOf(order, nodes, vectors), nodes[order[i]].origins.value;
    forall j | 0 <= j < |order|
      ensures (es[i].formula, es[j].formula) in Sharing(nodes, position)
        <==> j != i && nodes[order[j]].origins == Some(v)
    {
      assert position[es[i].formula] == order[i] && position[es[j].formula] == order[j];
      assert j != i ==> order[j] != order[i];
    }
  }

  lemma TakenView(m: Module, order: seq<nat>, nodes: Nodes, position: map<Formula, nat>, vectors: Vectors, i: nat,
                  erased: bool, index: nat, left: Option<seq<Formula>>)
    requires Finds(nodes, position) && Distinct(order) && i < |order|
    requires forall j :: 0 <= j < |order| ==> order[j] in nodes
    requires m.NodeTaken(order[i], erased, order, nodes, index)
    requires OneVectorCut(nodes, vectors, order[i], m.passed.vectors) && IsLeft(nodes[order[i]], vectors,
      m.passed.vectors, erased, left)
    ensures m.passed.View() == Taken(ViewOf(order, nodes, vectors), Sharing(nodes, position), i, left)
  {
    assert IndexOf(order, order[i]) == i;
    if left.Some? {
      CutView(order, nodes, position, vectors, m.passed.vectors, i);
    }
  }

  /** What is left of the origins of a node; the node is erased if that is nothing. */
  predicate IsLeft(n: Node, vectors: Vectors, vectors': Vectors, erased: bool, left: Option<seq<Formula>>) {
    match left
    case None => erased && vectors' == vectors
    case Some(os) => n.origins.Some? && os == Deref(vectors', n.origins.value) && (erased <==> os == [])
  }

  /** What the backends know afterwards. */
  lemma TakenTold(es: seq<Entry>, sharing: set<(Formula, Formula)>, i: nat, left: Option<seq<Formula>>, index: nat)
    requires i < |es| && index <= |es|
    ensures
      var erased, names := left.None? || left.value == [], Names(Taken(es, sharing, i, left));
      var index' := if erased then OneLess(i, index) else index;
      && index' <= |names|
      && names[..index'] == if erased then Without(Names(es)[..index], i) else Names(es)[..index]
  {
    if left.Some? {
      assert Names(Cut(es, sharing, i, left.value)) == Names(es);
      NamesWithout(Cut(es, sharing, i, left.value), i);
    } else {
      NamesWithout(es, i);
    }
    WithoutPrefix(Names(es), i, index);
  }

  lemma TakenShares(m: Module, nodes: Nodes, position: map<Formula, nat>, n: nat, erased: bool)
    requires m.passed.Valid() && Finds(nodes, position)
    requires m.passed.nodes == if erased then nodes - {n} else nodes
    ensures m.passed.Shares() == Among(Sharing(nodes, position), Names(m.passed.View()))
  {
    m.passed.ListedIsFound();
    m.PassedIsFormulas();
    SharingAmong(nodes, position, m.passed.nodes, m.passed.position, Names(m.passed.View()));
  }

  /** What taking origins back from the element at i makes of the list and of what the backends know. */
  ghost predicate TookBack(es: seq<Entry>, sharing: set<(Formula, Formula)>, told: seq<Formula>, i: nat,
                           left: Option<seq<Formula>>, es': seq<Entry>, sharing': set<(Formula, Formula)>,
                           told': seq<Formula>) {
    && i < |es| && es' == Taken(es, sharing, i, left)
    && told' == (if left.None? || left.value == [] then Without(told, i) else told)
    && sharing' == Among(sharing, Names(es'))
  }

  lemma TookBackThen(m: Module, order: seq<nat>, nodes: Nodes, position: map<Formula, nat>, vectors: Vectors, i: nat,
                     erased: bool, index: nat, left: Option<seq<Formula>>)
    requires m.Synced() && Finds(nodes, position) && Distinct(order) && i < |order| && index <= |order|
    requires forall j :: 0 <= j < |order| ==> order[j] in nodes
    requires m.NodeTaken(order[i], erased, order, nodes, index)
    requires OneVectorCut(nodes, vectors, order[i], m.passed.vectors) && IsLeft(nodes[order[i]], vectors,
      m.passed.vectors, erased, left)
    ensures
      var es := ViewOf(order, nodes, vectors);
      TookBack(es, Sharing(nodes, position), Names(es)[..index], i, left, m.passed.View(), m.passed.Shares(), m.told)
  {
    TakenView(m, order, nodes, position, vectors, i, erased, index, left);
    TakenTold(ViewOf(order, nodes, vectors), Sharing(nodes, position), i, left, index);
    TakenShares(m, nodes, position, order[i], erased);
    assert IndexOf(order, order[i]) == i;
  }

  /** The last origin goes from a vector that another formula shares. */
  predicate Bereaves(es: seq<Entry>, sharing: set<(Formula, Formula)>, i: nat, left: Option<seq<Formula>>)
    requires i < |es|
  {
    left == Some([]) && IsShared(sharing, es[i].formula)
  }

  lemma TakenAccounted(m: Module, es: seq<Entry>, sharing: set<(Formula, Formula)>, i: nat,
                       left: Option<seq<Formula>>)
    requires m.Synced() && m.received.Valid() && m.received != m.passed && m.SubsetsOk(Elements(Received(m)))
    requires i < |es| && m.passed.View() == Taken(es, sharing, i, left)
    requires AllJustified(m.theory, Elements(Received(m)), es) && SharesWell(es, sharing) && Fewer(es[i], left)
    ensures Accounted(m) <==> !Bereaves(es, sharing, i, left)
  {
    TakenJustified(m.theory, Elements(Received(m)), es, sharing, i, left);
  }

  /** Takes one origin back: `removeOrigin`, for the passed formula at i. */
  method TakeOrigin(m: Module, i: nat, o: Formula) returns (ghost left: Option<seq<Formula>>)
    requires Accounted(m) && i < |m.passed.order|
    modifies m`first, m`told, m.passed, m.allBackends
    ensures m.Synced() && i < |old(m.passed.View())| && LeftByMatch(old(m.passed.View())[i], o, left)
    ensures TookBack(old(m.passed.View()), old(m.passed.Shares()), old(m.told), i, left, m.passed.View(),
      m.passed.Shares(), m.told)
    ensures Accounted(m) <==> !Bereaves(old(m.passed.View()), old(m.passed.Shares()), i, left)
  {
    ghost var es, sharing := m.passed.View(), m.passed.Shares();
    ListShares(m.passed);
    left := TakeMatches(m, i, o);
    LeftIsFewer(es[i], o, [], left);
    TakenAccounted(m, es, sharing, i, left);
  }

  method TakeMatches(m: Module, i: nat, o: Formula) returns (ghost left: Option<seq<Formula>>)
    requires m.Synced() && i < |m.passed.order|
    modifies m`first, m`told, m.passed, m.allBackends
    ensures m.Synced() && i < |old(m.passed.View())| && LeftByMatch(old(m.passed.View())[i], o, left)
    ensures TookBack(old(m.passed.View()), old(m.passed.Shares()), old(m.told), i, left, m.passed.View(),
      m.passed.Shares(), m.told)
  {
    ghost var order, nodes, position, vectors, index
      := m.passed.order, m.passed.nodes, m.passed.position, m.passed.vectors, m.FirstIndex();
    var n := m.passed.order[i];
    var _, erased := m.RemoveOrigin(n, o);
    left := if nodes[n].origins.None? then None else Some(Deref(m.passed.vectors, nodes[n].origins.value));
    LeftIsFewer(EntryIn(nodes, vectors, n), o, [], left);
    TookBackThen(m, order, nodes, position, vectors, i, erased, index, left);
  }

  /** Takes these origins back: `removeOrigins`, with a vector that no formula refers to. */
  method TakeOrigins(m: Module, i: nat, os: seq<Formula>) returns (ghost left: Option<seq<Formula>>)
    requires Accounted(m) && i < |m.passed.order|
    modifies m`first, m`told, m.passed, m.allBackends
    ensures m.Synced() && i < |old(m.passed.View())| && LeftByVector(old(m.passed.View())[i], os, left)
    ensures TookBack(old(m.passed.View()), old(m.passed.Shares()), old(m.told), i, left, m.passed.View(),
      m.passed.Shares(), m.told)
    ensures Accounted(m) <==> !Bereaves(old(m.passed.View()), old(m.passed.Shares()), i, left)
  {
    ghost var es, sharing := m.passed.View(), m.passed.Shares();
    ListShares(m.passed);
    left := TakeFresh(m, i, os);
    LeftIsFewer(es[i], es[i].formula, os, left);
    TakenAccounted(m, es, sharing, i, left);
  }

  method TakeFresh(m: Module, i: nat, os: seq<Formula>) returns (ghost left: Option<seq<Formula>>)
    requires m.Synced() && i < |m.passed.order|
    modifies m`first, m`told, m.passed, m.allBackends
    ensures m.Synced() && i < |old(m.passed.View())| && LeftByVector(old(m.passed.View())[i], os, left)
    ensures TookBack(old(m.passed.View()), old(m.passed.Shares()), old(m.told), i, left, m.passed.View(),
      m.passed.Shares(), m.told)
  {
    var v := m.passed.NewVector(os);
    left := TakeListed(m, i, v);
  }

  method TakeListed(m: Module, i: nat, v: nat) returns (ghost left: Option<seq<Formula>>)
    requires m.Synced() && i < |m.passed.order| && v in m.passed.vectors
    requires m.passed.nodes[m.passed.order[i]].origins != Some(v)
    modifies m`first, m`told, m.passed, m.allBackends
    ensures m.Synced() && i < |old(m.passed.View())|
    ensures LeftByVector(old(m.passed.View())[i], old(Deref(m.passed.vectors, v)), left)
    ensures TookBack(old(m.passed.View()), old(m.passed.Shares()), old(m.told), i, left, m.passed.View(),
      m.passed.Shares(), m.told)
  {
    ghost var order, nodes, position, vectors, index
      := m.passed.order, m.passed.nodes, m.passed.position, m.passed.vectors, m.FirstIndex();
    var n := m.passed.order[i];
    var _, erased := m.RemoveOrigins(n, v);
    left := if nodes[n].origins.None? then None else Some(Deref(m.passed.vectors, nodes[n].origins.value));
    TookBackThen(m, order, nodes, position, vectors, i, erased, index, left);
  }

  /** Takes all its origins back: `removeOrigins`, with the vector that the formula at i refers to. */
  method TakeVector(m: Module, i: nat)
    requires Accounted(m) && i < |m.passed.order| && m.passed.nodes[m.passed.order[i]].origins.Some?
    modifies m`first, m`told, m.passed, m.allBackends
    ensures Accounted(m) && TookBack(old(m.passed.View()), old(m.passed.Shares()), old(m.told), i, None,
      m.passed.View(), m.passed.Shares(), m.told)
  {
    ghost var es, sharing := m.passed.View(), m.passed.Shares();
    ListShares(m.passed);
    TakeOwn(m, i);
    TakenAccounted(m, es, sharing, i, None);
  }

  method TakeOwn(m: Module, i: nat)
    requires m.Synced() && i < |m.passed.order| && m.passed.nodes[m.passed.order[i]].origins.Some?
    modifies m`first, m`told, m.passed, m.allBackends
    ensures m.Synced() && TookBack(old(m.passed.View()), old(m.passed.Shares()), old(m.told), i, None,
      m.passed.View(), m.passed.Shares(), m.told)
  {
    ghost var order, nodes, position, vectors, index
      := m.passed.order, m.passed.nodes, m.passed.position, m.passed.vectors, m.FirstIndex();
    var n := m.passed.order[i];
    var _, erased := m.RemoveOrigins(n, m.passed.nodes[n].origins.value);
    TookBackThen(m, order, nodes, position, vectors, i, erased, index, None);
  }

  // ---------------------------------------------------------------- erasing

  /** Erases the passed formula at i, whatever its origins. */
  method EraseOne(m: Module, i: nat)
    requires Accounted(m) && i < |m.passed.order|
    modifies m`first, m`told, m.passed, m.allBackends
    ensures Accounted(m) && TookBack(old(m.passed.View()), old(m.passed.Shares()), old(m.told), i, None,
      m.passed.View(), m.passed.Shares(), m.told)
  {
    ghost var es, sharing := m.passed.View(), m.passed.Shares();
    ListShares(m.passed);
    EraseNodeAt(m, i);
    TakenAccounted(m, es, sharing, i, None);
  }

  method EraseNodeAt(m: Module, i: nat)
    requires m.Synced() && i < |m.passed.order|
    modifies m`first, m`told, m.passed, m.allBackends
    ensures m.Synced() && TookBack(old(m.passed.View()), old(m.passed.Shares()), old(m.told), i, None,
      m.passed.View(), m.passed.Shares(), m.told)
  {
    ghost var order, nodes, position, vectors, index
      := m.passed.order, m.passed.nodes, m.passed.position, m.passed.vectors, m.FirstIndex();
    var n := m.passed.order[i];
    assert IndexOf(order, n) == i;
    var _, _ := m.EraseSubformulaFromPassedFormula(n, true);
    TookBackThen(m, order, nodes, position, vectors, i, true, index, None);
  }

  /** Takes everything back; see `Modules.Module.ClearPassedFormula` for the assertion. */
  method EraseAll(m: Module) returns (asserted: bool)
    requires Accounted(m)
    modifies m`first, m`told, m.passed, m.allBackends
    ensures Accounted(m) && m.passed.View() == [] && m.told == [] && m.passed.Shares() == {}
    ensures asserted <==> NoOriginsIn(old(m.passed.View()))
  {
    asserted := m.ClearPassedFormula();
    m.passed.NothingShared();
  }

  // ---------------------------------------------------------------- two formulas with one vector

  const LEFT := Atom(0, 1, {})
  const RIGHT := Atom(1, 1, {})
  const BOTH := Atom(2, 2, {})
  const ONLY_LEFT := Atom(3, 1, {})

  /** LEFT and RIGHT are passed on with one vector, which holds the origin of both. */
  const TOGETHER := [Entry(LEFT, Some([BOTH])), Entry(RIGHT, Some([BOTH]))]
  const BOTH_SHARE := {(LEFT, RIGHT), (RIGHT, LEFT)}

  /** BOTH entails LEFT and RIGHT, ONLY_LEFT entails LEFT; RIGHT never holds. */
  ghost const RIGHT_FAILS: Theory := iset v: Valuation | 1 !in v && 2 !in v && (3 in v ==> 0 in v)

  /** How such a list comes about. */
  method PassTogether() returns (list: ModuleInput)
    ensures fresh(list) && list.Valid() && list.View() == TOGETHER && list.Shares() == BOTH_SHARE
  {
    list := new ModuleInput();
    var v := list.NewVector([BOTH]);
    AddingOne(list.View(), list.Formulas(), LEFT, Some([BOTH]));
    var _, _ := list.AddFormula(LEFT, Shared(v));
    assert list.View() == [Entry(LEFT, Some([BOTH]))] && list.nodes[list.order[0]].origins == Some(v);
    AddingOne(list.View(), list.Formulas(), RIGHT, Some([BOTH]));
    var _, _ := list.AddFormula(RIGHT, Shared(v));
    SharedByTwo(list);
  }

  lemma SharedByTwo(list: ModuleInput)
    requires list.Valid() && list.View() == TOGETHER && |list.order| == 2
    requires SameVector(list.nodes, list.order[0], list.order[1])
    ensures list.Shares() == BOTH_SHARE
  {
    assert list.View()[0].formula == LEFT && list.View()[1].formula == RIGHT;
    assert list.position[LEFT] == list.order[0] && list.position[RIGHT] == list.order[1];
    forall f | f in list.position
      ensures f == LEFT || f == RIGHT
    {
      assert list.position[f] in list.order;
    }
  }

  lemma AddingOne(es: seq<Entry>, names: seq<Formula>, f: Formula, extra: Option<seq<Formula>>)
    ensures AddAll(es, [f], extra) == AddOne(es, f, extra)
    ensures AddNames(names, [f]) == if f in names then names else names + [f]
  {
  }

  lemma TheoryHolds()
    ensures AllJustified(RIGHT_FAILS, {BOTH, ONLY_LEFT}, TOGETHER)
    ensures Entails(RIGHT_FAILS, ONLY_LEFT, LEFT) && Unsat(RIGHT_FAILS, {RIGHT}) && !Unsat(RIGHT_FAILS, {ONLY_LEFT})
  {
    var v: Valuation := iset{0, 3};
    assert v in RIGHT_FAILS && Satisfies(v, ONLY_LEFT);
    forall w | w in RIGHT_FAILS
      ensures !Satisfies(w, RIGHT) && !Satisfies(w, BOTH)
    {
    }
  }

  /**
   LEFT gets a further origin, which entails it. RIGHT notices, and its conflict is explained by
   a received formula that is satisfiable.
   */
  lemma SharedVectorMisleads()
    ensures AllJustified(RIGHT_FAILS, {BOTH, ONLY_LEFT}, TOGETHER) && Entails(RIGHT_FAILS, ONLY_LEFT, LEFT)
    ensures PushAll(TOGETHER, BOTH_SHARE, [LEFT], ONLY_LEFT)
         == [Entry(LEFT, Some([BOTH, ONLY_LEFT])), Entry(RIGHT, Some([BOTH, ONLY_LEFT]))]
    ensures Unsat(RIGHT_FAILS, {RIGHT}) && !Unsat(RIGHT_FAILS, {ONLY_LEFT})
    ensures Lifted({BOTH, ONLY_LEFT}, PushAll(TOGETHER, BOTH_SHARE, [LEFT], ONLY_LEFT), {RIGHT}) == {ONLY_LEFT}
  {
    TheoryHolds();
    PushedTogether();
    MisledSources(PushAll(TOGETHER, BOTH_SHARE, [LEFT], ONLY_LEFT));
  }

  lemma PushedTogether()
    ensures PushAll(TOGETHER, BOTH_SHARE, [LEFT], ONLY_LEFT)
         == [Entry(LEFT, Some([BOTH, ONLY_LEFT])), Entry(RIGHT, Some([BOTH, ONLY_LEFT]))]
  {
    assert Names(TOGETHER) == [LEFT, RIGHT];
    AddingOne(TOGETHER, [LEFT, RIGHT], LEFT, None);
    forall f | f == LEFT || f == RIGHT
      ensures Pushed(Some([BOTH]), ONLY_LEFT, Hits(BOTH_SHARE, [LEFT], f)) == Some([BOTH, ONLY_LEFT])
    {
      assert Touches(BOTH_SHARE, LEFT, f) && Hits(BOTH_SHARE, [], f) == 0;
      assert Hits(BOTH_SHARE, [LEFT], f) == 1;
      assert [BOTH] + Copies(ONLY_LEFT, 1) == [BOTH, ONLY_LEFT];
    }
    assert OriginsIn(TOGETHER, LEFT) == Some([BOTH]);
    assert OriginsIn(TOGETHER, RIGHT) == Some([BOTH]) by {
      assert Position(TOGETHER, RIGHT) == 1;
    }
  }

  lemma MisledSources(es: seq<Entry>)
    requires es == [Entry(LEFT, Some([BOTH, ONLY_LEFT])), Entry(RIGHT, Some([BOTH, ONLY_LEFT]))]
    ensures Lifted({BOTH, ONLY_LEFT}, es, {RIGHT}) == {ONLY_LEFT}
  {
    assert Position(es, RIGHT) == 1;
    assert IsBestOrigin([BOTH, ONLY_LEFT], 1);
    assert SourcesOf({BOTH, ONLY_LEFT}, es, RIGHT) == {ONLY_LEFT};
    assert forall f :: f in Lifted({BOTH, ONLY_LEFT}, es, {RIGHT}) <==> f in SourcesOf({BOTH, ONLY_LEFT}, es, RIGHT);
  }

  /**
   LEFT gives its only origin back, one way or the other. RIGHT is left with an empty vector:
   it is justified no more, there is no best origin to explain it by, and the withdrawal of any
   formula whatever erases it.
   */
  lemma SharerBereft(left: Option<seq<Formula>>, f: Formula)
    requires LeftByVector(TOGETHER[0], [BOTH], left) || LeftByMatch(TOGETHER[0], BOTH, left)
    ensures Taken(TOGETHER, BOTH_SHARE, 0, left) == [Entry(RIGHT, Some([]))]
    ensures forall theory, received :: !AllJustified(theory, received, [Entry(RIGHT, Some([]))])
    ensures !(exists k: nat :: IsBestOrigin([], k)) && !Survives(Entry(RIGHT, Some([])), f)
  {
    LeftIsFewer(TOGETHER[0], BOTH, [BOTH], left);
    forall theory, received
      ensures !AllJustified(theory, received, [Entry(RIGHT, Some([]))])
    {
      assert !Justified(theory, received, [Entry(RIGHT, Some([]))][0]);
    }
  }
}
