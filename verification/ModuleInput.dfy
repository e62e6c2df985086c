/**
 The list of formulas a module works on, each with the received formulas it stems from.

 A list node has an identity, which plays the part of a list iterator: it stays valid while
 other nodes are erased. So has an origin vector, because nodes may share one: two nodes share
 a vector when they hold the same reference into the store of vectors.
 */
module ModuleInputs {
  import opened Basics
  import opened Formulas

  type Nodes = map<nat, Node>

  type Vectors = map<nat, seq<Formula>>

  datatype Node = Node(formula: Formula, origins: Option<nat>)

  /** How a caller names the origins of what it adds; `vector` is a reference to a vector. */
  datatype OriginArg = NoOrigins | Single(origin: Formula) | Shared(vector: nat)

  /** A list element as a value. */
  datatype Entry = Entry(formula: Formula, origins: Option<seq<Formula>>)

  function Deref(vectors: Vectors, v: nat): seq<Formula> {
    if v in vectors then vectors[v] else []
  }

  function OriginsOf(origins: Option<nat>, vectors: Vectors): Option<seq<Formula>> {
    if origins.None? then None else Some(Deref(vectors, origins.value))
  }

  function EntryOf(n: Node, vectors: Vectors): Entry {
    Entry(n.formula, OriginsOf(n.origins, vectors))
  }

  function EntryIn(nodes: Nodes, vectors: Vectors, n: nat): Entry {
    if n in nodes then EntryOf(nodes[n], vectors) else Entry(And([]), None)
  }

  function ViewOf(order: seq<nat>, nodes: Nodes, vectors: Vectors): (es: seq<Entry>)
    ensures |es| == |order|
    ensures forall i :: 0 <= i < |order| ==> es[i] == EntryIn(nodes, vectors, order[i])
  {
    seq(|order|, i requires 0 <= i < |order| => EntryIn(nodes, vectors, order[i]))
  }

  /** Erasing the element at i moves the later elements one place forward. */
  lemma IndexAfterErase(s: seq<nat>, i: nat, x: nat)
    requires Distinct(s) && i < |s| && x in s && x != s[i]
    ensures IndexOf(s[..i] + s[i + 1..], x) == if IndexOf(s, x) < i then IndexOf(s, x) else IndexOf(s, x) - 1
  {
    var rest := s[..i] + s[i + 1..];
    var k := IndexOf(s, x);
    assert rest[if k < i then k else k - 1] == x;
    RemoveAt(s, i);
  }

  lemma IndexInPrefix(s: seq<nat>, t: seq<nat>, x: nat)
    requires s <= t && x in s
    ensures IndexOf(t, x) == IndexOf(s, x)
  {
    assert forall j :: 0 <= j < |s| ==> t[j] == s[j];
  }

  lemma RemoveAt(s: seq<nat>, i: nat)
    requires Distinct(s) && i < |s|
    ensures Distinct(s[..i] + s[i + 1..])
    ensures forall x :: x in s[..i] + s[i + 1..] <==> x in s && x != s[i]
  {
    assert s == s[..i] + [s[i]] + s[i + 1..];
  }

  /** The position map finds the node of every listed formula, and nothing else. */
  ghost predicate Finds(nodes: Nodes, position: map<Formula, nat>) {
    && (forall n :: n in nodes ==> nodes[n].formula in position && position[nodes[n].formula] == n)
    && (forall f :: f in position ==> position[f] in nodes && nodes[position[f]].formula == f)
  }

  lemma FindsErase(nodes: Nodes, position: map<Formula, nat>, n: nat)
    requires Finds(nodes, position) && n in nodes
    ensures Finds(nodes - {n}, position - {nodes[n].formula})
  {
  }

  /** When only the entry of one node changes, the view changes at its index only. */
  lemma ViewUpdate(order: seq<nat>, nodes: Nodes, vectors: Vectors, nodes': Nodes, vectors': Vectors, n: nat)
    requires Distinct(order) && n in order
    requires forall m :: m in order && m != n ==> EntryIn(nodes', vectors', m) == EntryIn(nodes, vectors, m)
    ensures ViewOf(order, nodes', vectors')
         == ViewOf(order, nodes, vectors)[IndexOf(order, n) := EntryIn(nodes', vectors', n)]
  {
    forall i | 0 <= i < |order| && i != IndexOf(order, n)
      ensures ViewOf(order, nodes', vectors')[i] == ViewOf(order, nodes, vectors)[i]
    {
      assert order[i] in order;
    }
  }

  lemma ViewAppend(order: seq<nat>, nodes: Nodes, vectors: Vectors, n: nat, node: Node)
    requires n !in order
    ensures ViewOf(order + [n], nodes[n := node], vectors) == ViewOf(order, nodes, vectors) + [EntryOf(node, vectors)]
  {
    forall i | 0 <= i < |order|
      ensures EntryIn(nodes[n := node], vectors, order[i]) == EntryIn(nodes, vectors, order[i])
    {
      assert order[i] in order;
    }
  }

  lemma ViewErase(order: seq<nat>, nodes: Nodes, vectors: Vectors, i: nat)
    requires Distinct(order) && i < |order|
    ensures ViewOf(order[..i] + order[i + 1..], nodes - {order[i]}, vectors)
         == ViewOf(order, nodes, vectors)[..i] + ViewOf(order, nodes, vectors)[i + 1..]
  {
    var rest := order[..i] + order[i + 1..];
    forall j | 0 <= j < |rest|
      ensures EntryIn(nodes - {order[i]}, vectors, rest[j]) == EntryIn(nodes, vectors, rest[j])
    {
      assert rest[j] == order[if j < i then j else j + 1];
    }
  }

  /** No other node refers to the origin vector of node n. */
  predicate Alone(nodes: Nodes, n: nat) {
    n in nodes && nodes[n].origins.Some? ==> forall m | m in nodes && m != n :: nodes[m].origins != nodes[n].origins
  }

  lemma AloneKept(before: Nodes, after: Nodes, n: nat)
    requires n in after && after == before[n := after[n]]
    requires after[n].origins.Some?
    requires (n in before && after[n].origins == before[n].origins)
          || forall m | m in before :: before[m].origins != after[n].origins
    ensures forall m :: m in before && Alone(before, m) ==> Alone(after, m)
    ensures n !in before ==> Alone(after, n)
  {
  }

  /** Some nodes are gone, and some have no origins any more. */
  ghost predicate Shrunk(before: Nodes, after: Nodes) {
    forall n :: n in after ==> n in before && (after[n] == before[n] || after[n] == Node(before[n].formula, None))
  }

  /** The origin is the formula, or a conjunction with the formula as a conjunct. */
  predicate Matches(origin: Formula, f: Formula) {
    origin == f || (origin.And? && f in origin.subs)
  }

  // ---------------------------------------------------------------- adding, on values

  function Extra(arg: OriginArg, vectors: Vectors): Option<seq<Formula>> {
    match arg
    case NoOrigins => None
    case Single(o) => Some([o])
    case Shared(v) => Some(Deref(vectors, v))
  }

  function Extend(origins: Option<seq<Formula>>, extra: Option<seq<Formula>>): Option<seq<Formula>> {
    if extra.None? then origins
    else if origins.None? then extra
    else Some(origins.value + extra.value)
  }

  /** The position of a formula in the list, or the length of the list. */
  function Position(es: seq<Entry>, f: Formula): (i: nat)
    ensures i <= |es|
    ensures i < |es| ==> es[i].formula == f
    ensures forall j :: 0 <= j < i ==> es[j].formula != f
  {
    if es == [] then 0 else if es[0].formula == f then 0 else 1 + Position(es[1..], f)
  }

  function AddOne(es: seq<Entry>, f: Formula, extra: Option<seq<Formula>>): seq<Entry> {
    var i := Position(es, f);
    if i < |es| then es[i := Entry(f, Extend(es[i].origins, extra))] else es + [Entry(f, extra)]
  }

  function AddAll(es: seq<Entry>, fs: seq<Formula>, extra: Option<seq<Formula>>): seq<Entry>
    decreases |fs|
  {
    if fs == [] then es else AddAll(AddOne(es, fs[0], extra), fs[1..], extra)
  }

  function Conjuncts(f: Formula, mightBeConjunction: bool): seq<Formula> {
    if mightBeConjunction then Flatten(f) else [f]
  }

  lemma {:induction false} AddAllAppend(es: seq<Entry>, fs: seq<Formula>, gs: seq<Formula>, extra: Option<seq<Formula>>)
    ensures AddAll(es, fs + gs, extra) == AddAll(AddAll(es, fs, extra), gs, extra)
    decreases |fs|
  {
    if fs == [] {
      assert fs + gs == gs;
    } else {
      assert (fs + gs)[0] == fs[0] && (fs + gs)[1..] == fs[1..] + gs;
      AddAllAppend(AddOne(es, fs[0], extra), fs[1..], gs, extra);
    }
  }

  lemma AddNothing(fs: seq<Formula>, es: seq<Entry>, extra: Option<seq<Formula>>)
    ensures AddAll(es, FlattenAll(fs[..0]), extra) == es
    ensures fs[..|fs|] == fs
  {
  }

  lemma AddStep(fs: seq<Formula>, k: nat, es: seq<Entry>, extra: Option<seq<Formula>>)
    requires k < |fs|
    ensures AddAll(es, FlattenAll(fs[..k + 1]), extra)
         == AddAll(AddAll(es, FlattenAll(fs[..k]), extra), Flatten(fs[k]), extra)
    ensures forall g :: g in Flatten(fs[k]) ==> g in FlattenAll(fs)
  {
    FlattenAllNext(fs, k);
    AddAllAppend(es, FlattenAll(fs[..k]), Flatten(fs[k]), extra);
    FlattenAllMember(fs, k);
  }

  lemma {:induction false} FlattenAllMember(fs: seq<Formula>, k: nat)
    requires k < |fs|
    ensures forall g :: g in Flatten(fs[k]) ==> g in FlattenAll(fs)
  {
    if k > 0 {
      FlattenAllMember(fs[1..], k - 1);
    }
  }

  predicate Lists(es: seq<Entry>, f: Formula) {
    exists i :: 0 <= i < |es| && es[i].formula == f
  }

  predicate NoDuplicates(es: seq<Entry>) {
    forall i, j :: 0 <= i < j < |es| ==> es[i].formula != es[j].formula
  }

  /** Every old element stays in place, and exactly what was not listed yet is appended. */
  ghost predicate Extends(es: seq<Entry>, fs: seq<Formula>, r: seq<Entry>) {
    && NoDuplicates(r)
    && |es| <= |r|
    && (forall i :: 0 <= i < |es| ==> r[i].formula == es[i].formula)
    && (forall i :: |es| <= i < |r| ==> r[i].formula in fs && !Lists(es, r[i].formula))
    && (forall f :: f in fs ==> Lists(r, f))
    && (forall i :: 0 <= i < |es| && es[i].formula !in fs ==> r[i] == es[i])
  }

  lemma AddOneShape(es: seq<Entry>, f: Formula, extra: Option<seq<Formula>>)
    requires NoDuplicates(es)
    ensures Extends(es, [f], AddOne(es, f, extra))
  {
    var p := Position(es, f);
    assert AddOne(es, f, extra)[p].formula == f;
  }

  lemma ExtendsChain(es: seq<Entry>, fs: seq<Formula>, mid: seq<Entry>, gs: seq<Formula>, r: seq<Entry>)
    requires Extends(es, fs, mid) && Extends(mid, gs, r)
    ensures Extends(es, fs + gs, r)
  {
    forall i | |es| <= i < |r|
      ensures r[i].formula in fs + gs && !Lists(es, r[i].formula)
    {
      if i >= |mid| {
        assert forall j :: 0 <= j < |es| ==> mid[j].formula == es[j].formula;
      } else {
        assert r[i].formula == mid[i].formula;
      }
    }
    forall f | f in fs
      ensures Lists(r, f)
    {
      var i :| 0 <= i < |mid| && mid[i].formula == f;
      assert r[i].formula == f;
    }
  }

  /** `add` of any nested conjunction: see `Extends`. */
  lemma {:induction false} AddAllShape(es: seq<Entry>, fs: seq<Formula>, extra: Option<seq<Formula>>)
    requires NoDuplicates(es)
    ensures Extends(es, fs, AddAll(es, fs, extra))
    decreases |fs|
  {
    if fs != [] {
      AddOneShape(es, fs[0], extra);
      AddAllShape(AddOne(es, fs[0], extra), fs[1..], extra);
      ExtendsChain(es, [fs[0]], AddOne(es, fs[0], extra), fs[1..], AddAll(es, fs, extra));
      assert fs == [fs[0]] + fs[1..];
    }
  }

  function FormulasOf(order: seq<nat>, nodes: Nodes): (fs: seq<Formula>)
    ensures |fs| == |order|
    ensures forall i :: 0 <= i < |order| ==> fs[i] == EntryIn(nodes, map[], order[i]).formula
  {
    seq(|order|, i requires 0 <= i < |order| => EntryIn(nodes, map[], order[i]).formula)
  }

  /** The formulas of the list after adding. */
  function AddNames(names: seq<Formula>, fs: seq<Formula>): seq<Formula>
    decreases |fs|
  {
    if fs == [] then names else AddNames(if fs[0] in names then names else names + [fs[0]], fs[1..])
  }

  lemma {:induction false} AddNamesAppend(names: seq<Formula>, fs: seq<Formula>, gs: seq<Formula>)
    ensures AddNames(names, fs + gs) == AddNames(AddNames(names, fs), gs)
    decreases |fs|
  {
    if fs == [] {
      assert fs + gs == gs;
    } else {
      assert (fs + gs)[0] == fs[0] && (fs + gs)[1..] == fs[1..] + gs;
      AddNamesAppend(if fs[0] in names then names else names + [fs[0]], fs[1..], gs);
    }
  }

  lemma {:induction false} AddNamesGrows(names: seq<Formula>, fs: seq<Formula>)
    ensures names <= AddNames(names, fs)
    decreases |fs|
  {
    if fs != [] {
      AddNamesGrows(if fs[0] in names then names else names + [fs[0]], fs[1..]);
    }
  }

  lemma AddNamesStep(names: seq<Formula>, fs: seq<Formula>, k: nat)
    requires k < |fs|
    ensures AddNames(names, FlattenAll(fs[..k + 1])) == AddNames(AddNames(names, FlattenAll(fs[..k])), Flatten(fs[k]))
  {
    FlattenAllNext(fs, k);
    AddNamesAppend(names, FlattenAll(fs[..k]), Flatten(fs[k]));
  }

  // ---------------------------------------------------------------- pushing in place

  predicate SameVector(nodes: Nodes, m: nat, n: nat) {
    m in nodes && n in nodes && nodes[m].origins.Some? && nodes[n].origins == nodes[m].origins
  }

  /** The pairs of different listed formulas that refer to one vector. */
  function Sharing(nodes: Nodes, position: map<Formula, nat>): set<(Formula, Formula)> {
    set g, f | g in position && f in position && g != f && SameVector(nodes, position[g], position[f]) :: (g, f)
  }

  /** The pairs of which both are among these formulas. */
  function Among(sharing: set<(Formula, Formula)>, fs: seq<Formula>): set<(Formula, Formula)> {
    set p | p in sharing && p.0 in fs && p.1 in fs
  }

  /** What is still listed shares as before. */
  lemma SharingAmong(before: Nodes, position: map<Formula, nat>, after: Nodes, position': map<Formula, nat>,
                     fs: seq<Formula>)
    requires Finds(before, position) && Finds(after, position') && forall f :: f in fs <==> f in position'
    requires forall n :: n in after ==> n in before && after[n] == before[n]
    ensures Sharing(after, position') == Among(Sharing(before, position), fs)
  {
    forall f | f in position'
      ensures f in position && position[f] == position'[f]
    {
      assert before[position'[f]].formula == f;
    }
    assert forall p :: p in Sharing(after, position') <==> p in Among(Sharing(before, position), fs);
  }

  /** The formulas that refer to the vector v. */
  function Users(nodes: Nodes, position: map<Formula, nat>, v: nat): set<Formula> {
    set f | f in position && position[f] in nodes && nodes[position[f]].origins == Some(v)
  }

  /**
   Which formulas share a vector after adding: only a vector that is handed in comes to be
   shared by more, namely by its users and the formulas added.
   */
  ghost predicate Linked(nodes: Nodes, position: map<Formula, nat>, gs: seq<Formula>, arg: OriginArg,
                         nodes': Nodes, position': map<Formula, nat>) {
    match arg
    case Shared(v) =>
      var users := Users(nodes, position, v) + Elements(gs);
      && Users(nodes', position', v) <= users
      && forall p :: p in Sharing(nodes', position') ==>
        p in Sharing(nodes, position) || (p.0 in users && p.1 in users)
    case _ => Sharing(nodes', position') == Sharing(nodes, position)
  }

  lemma LinkedTwice(n0: Nodes, p0: map<Formula, nat>, gs: seq<Formula>, arg: OriginArg, n1: Nodes,
                    p1: map<Formula, nat>, hs: seq<Formula>, n2: Nodes, p2: map<Formula, nat>)
    requires Linked(n0, p0, gs, arg, n1, p1) && Linked(n1, p1, hs, arg, n2, p2)
    ensures Linked(n0, p0, gs + hs, arg, n2, p2)
  {
    if arg.Shared? {
      assert Elements(gs + hs) == Elements(gs) + Elements(hs);
    }
  }

  /** Only node n, of the formula f, has been added or changed. */
  ghost predicate OneNode(nodes: Nodes, position: map<Formula, nat>, f: Formula, nodes': Nodes,
                          position': map<Formula, nat>, n: nat) {
    && Finds(nodes, position) && Finds(nodes', position')
    && n in nodes' && nodes' == nodes[n := nodes'[n]] && position' == position[f := n]
    && nodes'[n].formula == f && (n in nodes ==> nodes[n].formula == f)
  }

  lemma OthersAlike(nodes: Nodes, position: map<Formula, nat>, f: Formula, nodes': Nodes,
                    position': map<Formula, nat>, n: nat)
    requires OneNode(nodes, position, f, nodes', position', n)
    ensures f in position ==> position[f] == n
    ensures forall g :: g in position && g != f ==>
      g in position' && position'[g] == position[g] != n && nodes'[position[g]] == nodes[position[g]]
  {
    assert f in position ==> position[f] in nodes' && nodes'[position[f]].formula == f;
  }

  /** Adding one formula gives its node no vector, one that nobody uses, or the one handed in. */
  lemma LinkedOne(nodes: Nodes, position: map<Formula, nat>, vectors: Vectors, f: Formula, arg: OriginArg,
                  nodes': Nodes, position': map<Formula, nat>, n: nat)
    requires OneNode(nodes, position, f, nodes', position', n)
    requires forall m :: m in nodes && nodes[m].origins.Some? ==> nodes[m].origins.value in vectors
    requires arg.Shared? ==> arg.vector in vectors
    requires
      var r := nodes'[n].origins;
      || (n in nodes && nodes'[n] == nodes[n])
      || (r.None? && n !in nodes)
      || (r.Some? && r.value !in vectors && (arg.Shared? || n !in nodes || nodes[n].origins.None?))
      || (arg.Shared? && r == Some(arg.vector))
    ensures Linked(nodes, position, [f], arg, nodes', position')
  {
    OthersAlike(nodes, position, f, nodes', position', n);
    assert f in Elements([f]);
    if !arg.Shared? {
      UnsharedAlike(nodes, position, vectors, f, nodes', position', n);
    }
  }

  lemma UnsharedAlike(nodes: Nodes, position: map<Formula, nat>, vectors: Vectors, f: Formula,
                      nodes': Nodes, position': map<Formula, nat>, n: nat)
    requires OneNode(nodes, position, f, nodes', position', n)
    requires forall m :: m in nodes && nodes[m].origins.Some? ==> nodes[m].origins.value in vectors
    requires (n in nodes && nodes'[n] == nodes[n])
          || ((n !in nodes || nodes[n].origins.None?)
              && (nodes'[n].origins.Some? ==> nodes'[n].origins.value !in vectors))
    ensures Sharing(nodes', position') == Sharing(nodes, position)
  {
    OthersAlike(nodes, position, f, nodes', position', n);
    assert forall p :: p in Sharing(nodes', position') <==> p in Sharing(nodes, position);
  }

  /** Pushing an origin onto the vector of g is noticed by f. */
  predicate Touches(sharing: set<(Formula, Formula)>, g: Formula, f: Formula) {
    g == f || (g, f) in sharing
  }

  /** How many of the formulas touch f. */
  function Hits(sharing: set<(Formula, Formula)>, gs: seq<Formula>, f: Formula): nat {
    if gs == [] then 0 else (if Touches(sharing, gs[0], f) then 1 else 0) + Hits(sharing, gs[1..], f)
  }

  lemma {:induction false} HitsAppend(sharing: set<(Formula, Formula)>, gs: seq<Formula>, hs: seq<Formula>, f: Formula)
    ensures Hits(sharing, gs + hs, f) == Hits(sharing, gs, f) + Hits(sharing, hs, f)
  {
    if gs == [] {
      assert gs + hs == hs;
    } else {
      HitsAppend(sharing, gs[1..], hs, f);
      assert (gs + hs)[1..] == gs[1..] + hs;
    }
  }

  function OriginsAt(nodes: Nodes, position: map<Formula, nat>, vectors: Vectors, f: Formula): Option<seq<Formula>> {
    if f in position then EntryIn(nodes, vectors, position[f]).origins else None
  }

  function Copies(o: Formula, c: nat): seq<Formula> {
    seq(c, _ => o)
  }

  /** The origins with some copies of o pushed onto them. */
  function Pushed(origins: Option<seq<Formula>>, o: Formula, c: nat): Option<seq<Formula>> {
    if c == 0 then origins else Some((if origins.Some? then origins.value else []) + Copies(o, c))
  }

  lemma PushedTwice(origins: Option<seq<Formula>>, o: Formula, c: nat, d: nat)
    ensures Pushed(Pushed(origins, o, c), o, d) == Pushed(origins, o, c + d)
  {
    var os := if origins.Some? then origins.value else [];
    assert Copies(o, c) + Copies(o, d) == Copies(o, c + d);
    assert (os + Copies(o, c)) + Copies(o, d) == os + (Copies(o, c) + Copies(o, d));
  }

  /** Every listed formula has o pushed once for each of the formulas that touches it. */
  ghost predicate Spread(nodes: Nodes, position: map<Formula, nat>, vectors: Vectors, gs: seq<Formula>, o: Formula,
                         nodes': Nodes, position': map<Formula, nat>, vectors': Vectors) {
    && Sharing(nodes', position') == Sharing(nodes, position)
    && forall f :: OriginsAt(nodes', position', vectors', f)
                == Pushed(OriginsAt(nodes, position, vectors, f), o, Hits(Sharing(nodes, position), gs, f))
  }

  lemma SpreadTwice(n0: Nodes, p0: map<Formula, nat>, v0: Vectors, gs: seq<Formula>, o: Formula,
                    n1: Nodes, p1: map<Formula, nat>, v1: Vectors, hs: seq<Formula>,
                    n2: Nodes, p2: map<Formula, nat>, v2: Vectors)
    requires Spread(n0, p0, v0, gs, o, n1, p1, v1) && Spread(n1, p1, v1, hs, o, n2, p2, v2)
    ensures Spread(n0, p0, v0, gs + hs, o, n2, p2, v2)
  {
    var sharing := Sharing(n0, p0);
    forall f
      ensures OriginsAt(n2, p2, v2, f) == Pushed(OriginsAt(n0, p0, v0, f), o, Hits(sharing, gs + hs, f))
    {
      HitsAppend(sharing, gs, hs, f);
      PushedTwice(OriginsAt(n0, p0, v0, f), o, Hits(sharing, gs, f), Hits(sharing, hs, f));
    }
  }

  /** One push: the node may be new, or get its first vector, or share its vector with others. */
  lemma SpreadOne(nodes: Nodes, position: map<Formula, nat>, vectors: Vectors, f: Formula, o: Formula,
                  nodes': Nodes, position': map<Formula, nat>, vectors': Vectors, n: nat, v: nat)
    requires OneNode(nodes, position, f, nodes', position', n) && nodes'[n].origins == Some(v)
    requires forall m :: m in nodes && nodes[m].origins.Some? ==> nodes[m].origins.value in vectors
    requires if n in nodes && nodes[n].origins.Some? then nodes[n] == nodes'[n] else v !in vectors
    requires vectors' == vectors[v := Deref(vectors, v) + [o]]
    ensures Spread(nodes, position, vectors, [f], o, nodes', position', vectors')
  {
    OthersAlike(nodes, position, f, nodes', position', n);
    UnsharedAlike(nodes, position, vectors, f, nodes', position', n);
    var sharing := Sharing(nodes, position);
    forall h
      ensures OriginsAt(nodes', position', vectors', h)
           == Pushed(OriginsAt(nodes, position, vectors, h), o, Hits(sharing, [f], h))
    {
      assert Hits(sharing, [f], h) == (if Touches(sharing, f, h) then 1 else 0) + Hits(sharing, [], h);
      assert [] + [o] == [o] == Copies(o, 1);
    }
  }

  // ---------------------------------------------------------------- removing origins

  /** `after` is `before` without the origins that match f, in some order. */
  ghost predicate WithoutMatches(after: seq<Formula>, before: seq<Formula>, f: Formula) {
    forall x :: multiset(after)[x] == if Matches(x, f) then 0 else multiset(before)[x]
  }

  /** What removing the origin f from one node may do to the entry of another. */
  ghost predicate Thinned(e: Entry, e': Entry, f: Formula) {
    && e'.formula == e.formula
    && (e' == e || (e.origins.Some? && e'.origins.Some? && WithoutMatches(e'.origins.value, e.origins.value, f)))
  }

  /** The vector of node n may be another, for all who share it; if n has none, nothing has changed. */
  ghost predicate OneVectorCut(nodes: Nodes, vectors: Vectors, n: nat, vectors': Vectors) {
    n in nodes ==>
      match nodes[n].origins
      case None => vectors' == vectors
      case Some(v) => v in vectors' && vectors' == vectors[v := vectors'[v]]
  }

  /** An element stays when it has an origin that does not depend on f. */
  predicate Survives(e: Entry, f: Formula) {
    e.origins.Some? && exists o :: o in e.origins.value && !Matches(o, f)
  }

  /** e' is e with exactly the origins that do not depend on f, of which there is one. */
  ghost predicate Cleaned(e: Entry, e': Entry, f: Formula) {
    && e'.formula == e.formula && e.origins.Some? && e'.origins.Some?
    && WithoutMatches(e'.origins.value, e.origins.value, f)
    && e'.origins.value != []
  }

  lemma WhenNoneLeft(before: seq<Formula>, f: Formula)
    ensures forall after :: WithoutMatches(after, before, f) ==>
      (after == [] <==> forall o :: o in before ==> Matches(o, f))
  {
    forall after | WithoutMatches(after, before, f)
      ensures after == [] <==> forall o :: o in before ==> Matches(o, f)
    {
      WithoutMatchesElements(after, before, f);
      assert after != [] ==> after[0] in after;
    }
  }

  lemma WithoutMatchesElements(after: seq<Formula>, before: seq<Formula>, f: Formula)
    requires WithoutMatches(after, before, f)
    ensures forall x :: x in after <==> x in before && !Matches(x, f)
  {
    forall x
      ensures x in after <==> x in before && !Matches(x, f)
    {
      assert x in after <==> multiset(after)[x] > 0;
      assert x in before <==> multiset(before)[x] > 0;
    }
  }

  /** The vector idiom for deleting at i: overwrite with the last element, then shrink. */
  function SwapPop(s: seq<Formula>, i: nat): (r: seq<Formula>)
    requires i < |s|
    ensures |r| == |s| - 1
    ensures multiset(r) == multiset(s) - multiset{s[i]}
  {
    var last := |s| - 1;
    assert s == s[..last] + [s[last]];
    assert i < last ==> s[..last] == s[..i] + [s[i]] + s[i + 1..last];
    assert i < last ==> s[i := s[last]][..last] == s[..i] + [s[last]] + s[i + 1..last];
    if i < last then s[i := s[last]][..last] else s[..last]
  }

  lemma TakenNext(before: multiset<Formula>, taken: seq<Formula>, k: nat)
    requires k < |taken|
    ensures before - multiset(taken[..k + 1]) == before - multiset(taken[..k]) - multiset{taken[k]}
  {
    assert taken[..k + 1] == taken[..k] + [taken[k]];
  }

  /** The deletion loop of `removeOrigin`. */
  method DropMatches(before: seq<Formula>, origin: Formula) returns (origs: seq<Formula>)
    ensures WithoutMatches(origs, before, origin)
  {
    origs := before;
    var iter := 0;
    while iter < |origs|
      invariant iter <= |origs|
      invariant forall j :: 0 <= j < iter ==> !Matches(origs[j], origin)
      invariant forall x :: !Matches(x, origin) ==> multiset(origs)[x] == multiset(before)[x]
      decreases |origs| - iter
    {
      if Matches(origs[iter], origin) {
        var last := iter == |origs| - 1;
        origs := SwapPop(origs, iter);
        if last {
          break;
        }
      } else {
        iter := iter + 1;
      }
    }
    assert forall x :: Matches(x, origin) ==> x !in origs;
  }

  /** The deletion loop of `removeOrigins`. */
  method DropAll(before: seq<Formula>, taken: seq<Formula>) returns (origs: seq<Formula>)
    ensures multiset(origs) == multiset(before) - multiset(taken)
  {
    origs := before;
    for k := 0 to |taken|
      invariant multiset(origs) == multiset(before) - multiset(taken[..k])
    {
      TakenNext(multiset(before), taken, k);
      var i := IndexOf(origs, taken[k]);
      if i < |origs| {
        origs := SwapPop(origs, i);
      }
    }
    assert taken[..|taken|] == taken;
  }

  // ---------------------------------------------------------------- the list itself

  class ModuleInput {
    /** The identities of the nodes, in list order. */
    var order: seq<nat>
    var nodes: Nodes
    var position: map<Formula, nat>
    var vectors: Vectors
    var nextId: nat

    /** The list has no duplicates, the position map agrees with it, no reference dangles. */
    ghost predicate Valid()
      reads this
    {
      && Distinct(order)
      && (forall i :: 0 <= i < |order| ==> order[i] in nodes)
      && (forall n {:trigger n in order} :: n in nodes ==> n in order)
      && Finds(nodes, position)
      && (forall n :: n in nodes ==> n < nextId)
      && (forall n :: n in nodes && nodes[n].origins.Some? ==> nodes[n].origins.value in vectors)
      && (forall v :: v in vectors ==> v < nextId)
    }

    function View(): seq<Entry>
      reads this
    {
      ViewOf(order, nodes, vectors)
    }

    lemma ViewHasNoDuplicates()
      requires Valid()
      ensures NoDuplicates(View())
    {
      forall i, j | 0 <= i < j < |order|
        ensures View()[i].formula != View()[j].formula
      {
        assert order[i] in order && order[j] in order;
      }
    }

    /** The pairs of different formulas of the list that share a vector. */
    function Shares(): set<(Formula, Formula)>
      reads this
    {
      Sharing(nodes, position)
    }

    lemma NothingShared()
      requires Valid() && order == []
      ensures Shares() == {}
    {
      assert forall f :: f in position ==> position[f] !in order;
    }

    /** No other node shares the origin vector of f's node. */
    predicate Private(f: Formula)
      reads this
    {
      f in position ==> Alone(nodes, position[f])
    }

    constructor ()
      ensures Valid() && order == []
    {
      order, nodes, position, vectors, nextId := [], map[], map[], map[], 0;
    }

    predicate Contains(f: Formula)
      reads this
    {
      f in position
    }

    /** The position map finds exactly what a linear search finds; None is the end of the list. */
    function Find(f: Formula): (it: Option<nat>)
      requires Valid()
      reads this
      ensures it.Some? ==> it.value in nodes && nodes[it.value].formula == f
      ensures Position(View(), f) == if it.Some? then IndexOf(order, it.value) else |order|
    {
      if f in position then
        FoundAt(position[f]);
        Some(position[f])
      else
        assert forall i :: 0 <= i < |order| ==> order[i] in order;
        None
    }

    lemma FoundAt(n: nat)
      requires Valid() && n in nodes
      ensures IndexOf(order, n) < |order|
      ensures Position(View(), nodes[n].formula) == IndexOf(order, n)
    {
      var p, i := Position(View(), nodes[n].formula), IndexOf(order, n);
      assert order[i] == n && View()[i].formula == nodes[n].formula;
      assert order[p] in order && nodes[order[p]].formula == nodes[n].formula;
    }

    /** A new origin vector, for a caller that wants to share it. */
    method NewVector(fs: seq<Formula>) returns (v: nat)
      requires Valid()
      modifies `vectors, `nextId
      ensures Valid() && old(nextId) < nextId
      ensures v !in old(vectors) && vectors == old(vectors)[v := fs] && View() == old(View())
    {
      v := nextId;
      vectors := vectors[v := fs];
      nextId := nextId + 1;
      assert forall n :: n in order ==> EntryIn(nodes, vectors, n) == EntryIn(nodes, old(vectors), n);
      assert forall i :: 0 <= i < |order| ==> order[i] in order;
    }

    /** A formula that is not listed yet gets a node at the end of the list. */
    method Append(f: Formula, origins: Option<nat>)
      requires Valid() && f !in position
      requires origins.Some? ==> origins.value in vectors
      modifies `order, `nodes, `position, `nextId
      ensures Valid() && nextId == old(nextId) + 1
      ensures order == old(order) + [old(nextId)]
      ensures nodes == old(nodes)[old(nextId) := Node(f, origins)]
      ensures position == old(position)[f := old(nextId)]
      ensures View() == old(View()) + [Entry(f, OriginsOf(origins, vectors))]
    {
      ViewAppend(order, nodes, vectors, nextId, Node(f, origins));
      order := order + [nextId];
      nodes := nodes[nextId := Node(f, origins)];
      position := position[f := nextId];
      nextId := nextId + 1;
    }

    /** Changes which vector a node refers to. */
    method SetOrigins(n: nat, origins: Option<nat>)
      requires Valid() && n in nodes
      requires origins.Some? ==> origins.value in vectors
      modifies `nodes
      ensures Valid() && nodes == old(nodes)[n := Node(old(nodes)[n].formula, origins)]
    {
      nodes := nodes[n := nodes[n].(origins := origins)];
    }

    lemma AddOneListed(n: nat, extra: Option<seq<Formula>>)
      requires Valid() && n in nodes
      ensures AddOne(View(), nodes[n].formula, extra)
           == View()[IndexOf(order, n) := Entry(nodes[n].formula, Extend(EntryIn(nodes, vectors, n).origins, extra))]
    {
      FoundAt(n);
    }

    lemma AddOneNew(f: Formula, extra: Option<seq<Formula>>)
      requires Valid() && f !in position
      ensures AddOne(View(), f, extra) == View() + [Entry(f, extra)]
    {
      forall i | 0 <= i < |order|
        ensures View()[i].formula != f
      {
        assert order[i] in order;
      }
    }

    /** Gives a node an empty vector of its own if it has none. */
    method MakeVector(n: nat)
      requires Valid() && n in nodes
      modifies `nodes, `vectors, `nextId
      ensures Valid() && old(nextId) <= nextId
      ensures OneTouched(n) && (old(Alone(nodes, n)) ==> Alone(nodes, n))
      ensures forall m :: m in nodes && m != n ==> EntryIn(nodes, vectors, m) == EntryIn(old(nodes), old(vectors), m)
      ensures Extend(old(EntryIn(nodes, vectors, n)).origins, Some([]))
           == Some(Deref(vectors, nodes[n].origins.value))
      ensures var v := nodes[n].origins.value;
        v in vectors && vectors == old(vectors)[v := Deref(old(vectors), v)]
      ensures old(nodes)[n].origins.Some? ==> nodes == old(nodes)
    {
      if nodes[n].origins.None? {
        var v := NewVector([]);
        SetOrigins(n, Some(v));
      } else {
        assert Deref(vectors, nodes[n].origins.value) + [] == Deref(vectors, nodes[n].origins.value);
      }
    }

    /** A listed formula gets a further origin, pushed onto its vector in place, whoever shares it. */
    method PushOrigin(n: nat, o: Formula)
      requires Valid() && n in nodes
      modifies `nodes, `vectors, `nextId
      ensures Valid() && old(nextId) <= nextId && PushedAt(n, o)
      ensures old(Alone(nodes, n)) ==> View() == AddOne(old(View()), old(nodes)[n].formula, Some([o]))
    {
      AddOneListed(n, Some([o]));
      ExtendInTwo(EntryIn(nodes, vectors, n).origins, o);
      ghost var nodes0, vectors0 := nodes, vectors;
      MakeVector(n);
      PushInPlace(n, o, nodes0, vectors0);
    }

    lemma ExtendInTwo(origins: Option<seq<Formula>>, o: Formula)
      ensures Extend(origins, Some([])).Some?
      ensures Extend(origins, Some([o])) == Some(Extend(origins, Some([])).value + [o])
    {
      if origins.Some? {
        assert origins.value + [] == origins.value;
      } else {
        assert [] + [o] == [o];
      }
    }

    method PushInPlace(n: nat, o: Formula, ghost nodes0: Nodes, ghost vectors0: Vectors)
      requires Valid() && n in nodes && nodes[n].origins.Some?
      requires nodes == nodes0[n := nodes[n]]
      requires forall m :: m in nodes && m != n ==> EntryIn(nodes, vectors, m) == EntryIn(nodes0, vectors0, m)
      modifies `vectors
      ensures Valid()
      ensures vectors == old(vectors)[nodes[n].origins.value := Deref(old(vectors), nodes[n].origins.value) + [o]]
      ensures Alone(nodes, n) ==> View() == old(ViewOf(order, nodes0, vectors0))[IndexOf(order, n) :=
                Entry(nodes[n].formula, Some(Deref(old(vectors), nodes[n].origins.value) + [o]))]
    {
      var v := nodes[n].origins.value;
      vectors := vectors[v := vectors[v] + [o]];
      if Alone(nodes, n) {
        ViewUpdate(order, nodes0, vectors0, nodes, vectors, n);
      }
    }

    /** A listed formula gets the origins of a vector, in a copy if it has some already. */
    method JoinOrigins(n: nat, v: nat)
      requires Valid() && n in nodes && v in vectors
      modifies `nodes, `vectors, `nextId
      ensures Valid() && old(nextId) <= nextId
      ensures View() == AddOne(old(View()), old(nodes)[n].formula, Some(old(vectors)[v]))
      ensures v in vectors && vectors[v] == old(vectors)[v]
      ensures nodes == old(nodes)[n := nodes[n]] && nodes[n].formula == old(nodes)[n].formula
      ensures nodes[n].origins.Some? && (nodes[n].origins.value == v || nodes[n].origins.value !in old(vectors))
    {
      AddOneListed(n, Some(vectors[v]));
      ghost var nodes0, vectors0 := nodes, vectors;
      if nodes[n].origins.Some? {
        var w := NewVector(vectors[nodes[n].origins.value] + vectors[v]);
        SetOrigins(n, Some(w));
      } else {
        SetOrigins(n, Some(v));
      }
      ViewUpdate(order, nodes0, vectors0, nodes, vectors, n);
    }

    /** What adding the conjuncts `done` makes of the list, origins aside. */
    twostate predicate Grew(done: seq<Formula>, arg: OriginArg)
      reads this
    {
      && Valid()
      && Formulas() == AddNames(old(Formulas()), done)
      && old(order) <= order
      && old(nextId) <= nextId
      && (arg.Shared? ==> arg.vector in vectors)
    }

    /** What it makes of the origins too, if no vector that is extended in place is shared. */
    twostate predicate Grown(done: seq<Formula>, arg: OriginArg)
      reads this
    {
      View() == AddAll(old(View()), done, old(Extra(arg, vectors))) && Extra(arg, vectors) == old(Extra(arg, vectors))
    }

    function Formulas(): seq<Formula>
      reads this
    {
      FormulasOf(order, nodes)
    }

    /** Only node n has changed its reference, and only to a vector that nobody else refers to. */
    twostate predicate OneTouched(n: nat)
      reads this
    {
      && n in nodes && nodes == old(nodes)[n := nodes[n]] && nodes[n].origins.Some?
      && position == old(position)[nodes[n].formula := n]
      && (n in old(nodes) ==> nodes[n].formula == old(nodes)[n].formula)
      && ((n in old(nodes) && nodes[n] == old(nodes)[n]) || nodes[n].origins.value !in old(vectors))
    }

    /** Besides, the origin has been pushed onto the vector of that node. */
    twostate predicate PushedAt(n: nat, o: Formula)
      reads this
    {
      && OneTouched(n)
      && (n in old(nodes) && old(nodes)[n].origins.Some? ==> nodes[n] == old(nodes)[n])
      && vectors == old(vectors)[nodes[n].origins.value := Deref(old(vectors), nodes[n].origins.value) + [o]]
    }

    twostate predicate SpreadOver(gs: seq<Formula>, o: Formula)
      reads this
    {
      Spread(old(nodes), old(position), old(vectors), gs, o, nodes, position, vectors)
    }

    /** Which formulas share a vector has changed as `Linked` says. */
    twostate predicate Links(gs: seq<Formula>, arg: OriginArg)
      reads this
    {
      Linked(old(nodes), old(position), gs, arg, nodes, position)
    }

    twostate lemma PrivateKept(n: nat)
      requires old(Valid()) && Valid() && OneTouched(n)
      ensures forall f :: old(Private(f)) ==> Private(f)
    {
      AloneKept(old(nodes), nodes, n);
      forall f | old(Private(f)) && f in position
        ensures Alone(nodes, position[f])
      {
        assert f in old(position) ==> old(position)[f] in old(nodes);
      }
    }

    lemma ListedFormula(n: nat)
      requires Valid() && n in nodes
      ensures nodes[n].formula in Formulas()
      ensures AddNames(Formulas(), [nodes[n].formula]) == Formulas()
    {
      assert order[IndexOf(order, n)] == n;
      assert Formulas()[IndexOf(order, n)] == nodes[n].formula;
    }

    /** A formula that is not listed yet gets a node, which refers to a vector if there is one. */
    method AddNew(f: Formula, origins: Option<nat>) returns (n: nat)
      requires Valid() && f !in position
      requires origins.Some? ==> origins.value in vectors
      modifies this
      ensures Valid() && old(nextId) <= nextId
      ensures View() == AddOne(old(View()), f, OriginsOf(origins, vectors))
      ensures Formulas() == AddNames(old(Formulas()), [f])
      ensures order == old(order) + [n] && n !in old(nodes) && nodes == old(nodes)[n := Node(f, origins)]
      ensures position == old(position)[f := n] && vectors == old(vectors)
    {
      AddOneNew(f, OriginsOf(origins, vectors));
      NotListed(f);
      n := nextId;
      Append(f, origins);
    }

    lemma NotListed(f: Formula)
      requires Valid() && f !in position
      ensures f !in Formulas() && AddNames(Formulas(), [f]) == Formulas() + [f]
    {
      forall i | 0 <= i < |order| ensures Formulas()[i] != f {
        assert order[i] in order;
      }
    }

    lemma ListedIsFound()
      requires Valid()
      ensures forall f :: f in Formulas() <==> f in position
    {
      forall f
        ensures f in Formulas() <==> f in position
      {
        if f in position {
          assert Formulas()[IndexOf(order, position[f])] == f;
        } else {
          NotListed(f);
        }
      }
    }

    method AddNewSingle(f: Formula, o: Formula) returns (n: nat)
      requires Valid() && f !in position
      modifies this
      ensures Valid() && old(nextId) <= nextId
      ensures View() == AddOne(old(View()), f, Some([o]))
      ensures Formulas() == AddNames(old(Formulas()), [f])
      ensures order == old(order) + [n] && PushedAt(n, o) && nodes[n].formula == f
    {
      var v := NewVector([o]);
      assert [] + [o] == [o];
      n := AddNew(f, Some(v));
    }

    method AddListed(n: nat, arg: OriginArg)
      requires Valid() && n in nodes
      requires arg.Shared? ==> arg.vector in vectors
      modifies this
      ensures Grew([old(nodes)[n].formula], arg) && order == old(order)
      ensures (arg.Single? ==> old(Private(nodes[n].formula))) ==> Grown([old(nodes)[n].formula], arg)
      ensures arg.Single? ==> PushedAt(n, arg.origin) && nodes[n].formula == old(nodes)[n].formula
      ensures arg.NoOrigins? ==> nodes == old(nodes) && position == old(position)
      ensures Links([old(nodes)[n].formula], arg)
    {
      ghost var n0, p0, v0 := nodes, position, vectors;
      ListedFormula(n);
      assert AddAll(View(), [nodes[n].formula], Extra(arg, vectors)) == AddOne(View(), nodes[n].formula,
        Extra(arg, vectors));
      match arg {
        case Single(o) => PushOrigin(n, o);
        case Shared(v) => JoinOrigins(n, v);
        case NoOrigins => AddOneListed(n, None);
      }
      LinkedOne(n0, p0, v0, n0[n].formula, arg, nodes, position, n);
    }

    /** Adds a formula that is not taken apart. */
    method AddFormula(f: Formula, arg: OriginArg) returns (it: Option<nat>, added: bool)
      requires Valid()
      requires arg.Shared? ==> arg.vector in vectors
      modifies this
      ensures Grew([f], arg)
      ensures (arg.Single? ==> old(Private(f))) ==> Grown([f], arg)
      ensures added <==> |order| > |old(order)|
      ensures added ==> it == Some(order[|old(order)|])
      ensures arg.Single? ==> it.Some? && PushedAt(it.value, arg.origin) && nodes[it.value].formula == f
      ensures arg.Shared? && added ==>
        vectors == old(vectors) && nodes == old(nodes)[it.value := Node(f, Some(arg.vector))]
      ensures arg.NoOrigins? ==> KeptPrivate()
      ensures Links([f], arg)
    {
      ghost var n0, p0, v0 := nodes, position, vectors;
      it := Find(f);
      added := it.None?;
      if added {
        assert AddAll(View(), [f], Extra(arg, vectors)) == AddOne(View(), f, Extra(arg, vectors));
        var n;
        match arg {
          case Single(o) => n := AddNewSingle(f, o);
          case Shared(v) => n := AddNew(f, Some(v));
          case NoOrigins => n := AddNew(f, None);
        }
        it := Some(n);
        LinkedOne(n0, p0, v0, f, arg, nodes, position, n);
      } else {
        AddListed(it.value, arg);
      }
    }

    /** Whether no vector that is to be extended in place is shared. */
    predicate MayPush(gs: seq<Formula>, arg: OriginArg)
      reads this
    {
      arg.Single? ==> forall g :: g in gs ==> Private(g)
    }

    twostate predicate GrownIfPrivate(gs: seq<Formula>, arg: OriginArg)
      reads this
    {
      old(MayPush(gs, arg)) ==> Grown(gs, arg)
    }

    /** A single origin is pushed in place; only shared vectors come to be shared by more. */
    twostate predicate Spreads(gs: seq<Formula>, arg: OriginArg)
      reads this
    {
      (arg.Single? ==> SpreadOver(gs, arg.origin)) && (!arg.Shared? ==> KeptPrivate()) && Links(gs, arg)
    }

    /** Vectors that nobody shared are still not shared. */
    twostate predicate KeptPrivate()
      reads this
    {
      forall g :: old(Private(g)) ==> Private(g)
    }

    /**
     Adds a formula, taking an arbitrarily nested conjunction apart if it may be one. `it` is
     the first node added, so when `added` holds the list from `it` on is exactly what is new.
     */
    method Add(f: Formula, arg: OriginArg, mightBeConjunction: bool) returns (it: Option<nat>, added: bool)
      requires Valid()
      requires arg.Shared? ==> arg.vector in vectors
      modifies this
      ensures Grew(Conjuncts(f, mightBeConjunction), arg)
      ensures GrownIfPrivate(Conjuncts(f, mightBeConjunction), arg)
      ensures added <==> |order| > |old(order)|
      ensures added ==> it == Some(order[|old(order)|])
      ensures Spreads(Conjuncts(f, mightBeConjunction), arg)
      decreases f
    {
      if mightBeConjunction && f.And? {
        it, added := AddConjuncts(f.subs, arg);
      } else {
        ghost var n0, p0, v0 := nodes, position, vectors;
        it, added := AddFormula(f, arg);
        if arg.Single? {
          PrivateKept(it.value);
          SpreadOne(n0, p0, v0, f, arg.origin, nodes, position, vectors, it.value, nodes[it.value].origins.value);
        }
      }
    }

    /** The loop of `Add` over the conjuncts: it remembers where the first new node is. */
    method AddConjuncts(subs: seq<Formula>, arg: OriginArg) returns (it: Option<nat>, added: bool)
      requires Valid()
      requires arg.Shared? ==> arg.vector in vectors
      modifies this
      ensures Grew(FlattenAll(subs), arg)
      ensures GrownIfPrivate(FlattenAll(subs), arg)
      ensures added <==> |order| > |old(order)|
      ensures added ==> it == Some(order[|old(order)|])
      ensures Spreads(FlattenAll(subs), arg)
      decreases subs, 1
    {
      it, added := None, false;
      ghost var es, names, n0, p0, v0 := View(), Formulas(), nodes, position, vectors;
      ghost var extra, private := Extra(arg, vectors), MayPush(FlattenAll(subs), arg);
      AddNothing(subs, es, extra);
      var k := 0;
      while k < |subs|
        invariant k <= |subs| && Valid() && old(order) <= order && old(nextId) <= nextId
        invariant arg.Shared? ==> arg.vector in vectors
        invariant Formulas() == AddNames(names, FlattenAll(subs[..k]))
        invariant private ==> Extra(arg, vectors) == extra && MayPush(FlattenAll(subs), arg)
        invariant private ==> View() == AddAll(es, FlattenAll(subs[..k]), extra)
        invariant arg.Single? ==> Spread(n0, p0, v0, FlattenAll(subs[..k]), arg.origin, nodes, position, vectors)
        invariant !arg.Shared? ==> KeptPrivate()
        invariant Linked(n0, p0, FlattenAll(subs[..k]), arg, nodes, position)
        invariant added <==> |order| > |old(order)|
        invariant added ==> it == Some(order[|old(order)|])
      {
        var pos, new' := AddConjunct(subs, k, arg, es, names, private, n0, p0, v0);
        if !added {
          it, added := pos, new';
        }
        k := k + 1;
      }
    }

    /** One round of that loop. */
    method AddConjunct(subs: seq<Formula>, k: nat, arg: OriginArg, ghost es: seq<Entry>, ghost names: seq<Formula>,
                       ghost private: bool, ghost n0: Nodes, ghost p0: map<Formula, nat>, ghost v0: Vectors)
      returns (it: Option<nat>, added: bool)
      requires Valid() && k < |subs|
      requires arg.Shared? ==> arg.vector in vectors
      requires Formulas() == AddNames(names, FlattenAll(subs[..k]))
      requires private ==> MayPush(FlattenAll(subs), arg)
      requires private ==> View() == AddAll(es, FlattenAll(subs[..k]), Extra(arg, vectors))
      requires arg.Single? ==> Spread(n0, p0, v0, FlattenAll(subs[..k]), arg.origin, nodes, position, vectors)
      requires Linked(n0, p0, FlattenAll(subs[..k]), arg, nodes, position)
      modifies this
      ensures Valid() && old(order) <= order && old(nextId) <= nextId
      ensures arg.Shared? ==> arg.vector in vectors
      ensures Formulas() == AddNames(names, FlattenAll(subs[..k + 1]))
      ensures private ==> Extra(arg, vectors) == old(Extra(arg, vectors)) && MayPush(FlattenAll(subs), arg)
      ensures private ==> View() == AddAll(es, FlattenAll(subs[..k + 1]), Extra(arg, vectors))
      ensures arg.Single? ==> Spread(n0, p0, v0, FlattenAll(subs[..k + 1]), arg.origin, nodes, position, vectors)
      ensures !arg.Shared? ==> KeptPrivate()
      ensures Linked(n0, p0, FlattenAll(subs[..k + 1]), arg, nodes, position)
      ensures added <==> |order| > |old(order)|
      ensures added ==> it == Some(order[|old(order)|])
      decreases subs, 0
    {
      AddStep(subs, k, es, Extra(arg, vectors));
      AddNamesStep(names, subs, k);
      FlattenAllNext(subs, k);
      ghost var n1, p1, v1 := nodes, position, vectors;
      it, added := Add(subs[k], arg, true);
      LinkedTwice(n0, p0, FlattenAll(subs[..k]), arg, n1, p1, Flatten(subs[k]), nodes, position);
      if arg.Single? {
        SpreadTwice(n0, p0, v0, FlattenAll(subs[..k]), arg.origin, n1, p1, v1, Flatten(subs[k]), nodes, position,
          vectors);
      }
    }

    method Erase(n: nat)
      requires Valid() && n in nodes
      modifies `order, `nodes, `position
      ensures Valid()
      ensures var i := IndexOf(old(order), n);
              i < |old(order)| && order == old(order)[..i] + old(order)[i + 1..]
      ensures nodes == old(nodes) - {n}
    {
      var i := IndexOf(order, n);
      RemoveAt(order, i);
      FindsErase(nodes, position, n);
      forall m | m in nodes && m != n
        ensures m in order[..i] + order[i + 1..]
      {
        assert m in order;
      }
      position := position - {nodes[n].formula};
      nodes := nodes - {n};
      order := order[..i] + order[i + 1..];
    }

    /** Deletes the matching origins from a vector, for all nodes that share it. */
    method ThinVector(v: nat, origin: Formula)
      requires Valid() && v in vectors
      modifies `vectors
      ensures Valid()
      ensures v in vectors && WithoutMatches(vectors[v], old(vectors)[v], origin)
      ensures vectors == old(vectors)[v := vectors[v]]
      ensures forall m :: m in nodes ==> Thinned(EntryIn(nodes, old(vectors), m), EntryIn(nodes, vectors, m), origin)
    {
      var origs := DropMatches(vectors[v], origin);
      vectors := vectors[v := origs];
    }

    /** Removes every matching origin of a node; true when the node has no origins left. */
    method RemoveOrigin(n: nat, origin: Formula) returns (none: bool)
      requires Valid() && n in nodes
      modifies `nodes, `vectors
      ensures Valid()
      ensures nodes == old(nodes)[n := Node(old(nodes)[n].formula, if none then None else old(nodes)[n].origins)]
      ensures none <==> !Survives(old(EntryIn(nodes, vectors, n)), origin)
      ensures !none ==> Cleaned(old(EntryIn(nodes, vectors, n)), EntryIn(nodes, vectors, n), origin)
      ensures forall m :: m in nodes && m != n ==>
        Thinned(EntryIn(old(nodes), old(vectors), m), EntryIn(nodes, vectors, m), origin)
      ensures OneVectorCut(old(nodes), old(vectors), n, vectors)
      ensures old(nodes)[n].origins.Some? ==>
        var v := old(nodes)[n].origins.value;
        WithoutMatches(Deref(vectors, v), Deref(old(vectors), v), origin)
    {
      if nodes[n].origins.None? {
        return true;
      }
      var v := nodes[n].origins.value;
      WhenNoneLeft(vectors[v], origin);
      ThinVector(v, origin);
      none := vectors[v] == [];
      if none {
        SetOrigins(n, None);
      }
    }

    /** Takes each of these origins from a node once; true when the node has no origins left. */
    method RemoveOrigins(n: nat, origins: nat) returns (none: bool)
      requires Valid() && n in nodes && origins in vectors
      modifies `nodes, `vectors
      ensures Valid()
      ensures nodes == old(nodes)[n := Node(old(nodes)[n].formula, if none then None else old(nodes)[n].origins)]
      ensures OneVectorCut(old(nodes), old(vectors), n, vectors)
      ensures old(nodes)[n].origins.None? || old(nodes)[n].origins == Some(origins) ==> none && vectors == old(vectors)
      ensures old(nodes)[n].origins.Some? && old(nodes)[n].origins != Some(origins) ==>
        var v := old(nodes)[n].origins.value;
        && multiset(vectors[v]) == multiset(old(vectors)[v]) - multiset(old(vectors)[origins])
        && (none <==> vectors[v] == [])
    {
      if nodes[n].origins.None? {
        return true;
      }
      if nodes[n].origins == Some(origins) {
        SetOrigins(n, None);
        return true;
      }
      var v := nodes[n].origins.value;
      var origs := DropAll(vectors[v], vectors[origins]);
      vectors := vectors[v := origs];
      none := origs == [];
      if none {
        SetOrigins(n, None);
      }
    }
  }
}
