/**
 Places in a tree, changing one of them, and the order in which the places are visited.
 */
module DeltaEdits {
  import opened DeltaNodes
  import opened DeltaOperators
  import opened DeltaTexts

  /** Where a node is: at each level, which child to go to. */
  type Path = seq<nat>

  predicate IsPath(n: Node, p: Path)
    decreases p
  {
    p == [] || (p[0] < |n.children| && IsPath(n.children[p[0]], p[1..]))
  }

  function At(n: Node, p: Path): Node
    requires IsPath(n, p)
    decreases p
  {
    if p == [] then n else At(n.children[p[0]], p[1..])
  }

  /** A copy of a tree with other nodes, usually one or none, in the place of a node below its root. */
  function Clone(n: Node, p: Path, to: seq<Node>): Node
    requires IsPath(n, p) && p != []
    decreases p
  {
    if |p| == 1 then n.(children := n.children[..p[0]] + to + n.children[p[0] + 1..])
    else n.(children := n.children[p[0] := Clone(n.children[p[0]], p[1..], to)])
  }

  lemma {:induction false} CloneHas(n: Node, p: Path, m: Node)
    requires IsPath(n, p) && p != []
    ensures IsPath(Clone(n, p, [m]), p) && At(Clone(n, p, [m]), p) == m
    ensures Clone(Clone(n, p, [m]), p, [At(n, p)]) == n
    decreases p
  {
    var c := Clone(n, p, [m]);
    if |p| == 1 {
      InPlace(n.children, p[0], m);
      InPlace(c.children, p[0], n.children[p[0]]);
      assert c.children[p[0] := n.children[p[0]]] == n.children;
    } else {
      CloneHas(n.children[p[0]], p[1..], m);
      assert c.children[p[0] := n.children[p[0]]] == n.children;
    }
  }

  lemma InPlace(cs: seq<Node>, i: nat, m: Node)
    requires i < |cs|
    ensures cs[..i] + [m] + cs[i + 1..] == cs[i := m]
  {
  }

  // ---------------------------------------------------------------- an edit is simpler as a whole

  lemma {:induction false} RemovalIsSimpler(n: Node, p: Path)
    requires IsPath(n, p) && p != []
    ensures Size(Clone(n, p, [])) + Size(At(n, p)) == Size(n)
    decreases p
  {
    var cs := n.children;
    if |p| == 1 {
      ChildIsSmaller(cs, p[0]);
      SizeOfConcat(cs[..p[0]], cs[p[0] + 1..]);
      assert cs[..p[0]] + [] + cs[p[0] + 1..] == cs[..p[0]] + cs[p[0] + 1..];
    } else {
      RemovalIsSimpler(cs[p[0]], p[1..]);
      SizeInPlace(cs, p[0], Clone(cs[p[0]], p[1..], []));
    }
  }

  /** A child that becomes simpler makes its parent simpler. */
  lemma ChildMakesSimpler(n: Node, i: nat, m: Node)
    requires i < |n.children| && Simpler(m, n.children[i])
    ensures Simpler(n.(children := n.children[i := m]), n)
  {
    var cs := n.children;
    SizeInPlace(cs, i, m);
    if Size(m) == Size(cs[i]) {
      CountInPlace(cs, i, m);
      PairsInPlace(cs, i, m);
    }
  }

  lemma {:induction false} ReplacementIsSimpler(n: Node, p: Path, m: Node)
    requires IsPath(n, p) && p != [] && Simpler(m, At(n, p))
    ensures Simpler(Clone(n, p, [m]), n)
    decreases p
  {
    if |p| == 1 {
      assert p[1..] == [] && At(n, p) == n.children[p[0]];
      InPlace(n.children, p[0], m);
      ChildMakesSimpler(n, p[0], m);
    } else {
      ReplacementIsSimpler(n.children[p[0]], p[1..], m);
      ChildMakesSimpler(n, p[0], Clone(n.children[p[0]], p[1..], [m]));
    }
  }

  // ---------------------------------------------------------------- what the checker reads

  /** In unnamed brackets, what comes first now must not be a symbol. */
  predicate KeepsBracket(n: Node, p: Path, to: seq<Node>)
    requires IsPath(n, p) && p != []
    decreases p
  {
    if |p| > 1 then KeepsBracket(n.children[p[0]], p[1..], to)
    else
      var cs := n.children[..p[0]] + to + n.children[p[0] + 1..];
      n.name == "" && n.brackets && cs != [] ==> cs[0].brackets
  }

  predicate AllWellFormed(cs: seq<Node>) {
    forall c | c in cs :: WellFormed(c)
  }

  lemma AllWellFormedInPlace(cs: seq<Node>, i: nat, to: seq<Node>)
    requires i < |cs| && AllWellFormed(cs)
    ensures AllWellFormed(cs[..i] + to + cs[i + 1..]) <==> AllWellFormed(to)
  {
    var ds := cs[..i] + to + cs[i + 1..];
    if AllWellFormed(ds) {
      forall c | c in to ensures WellFormed(c) {
        assert c in ds;
      }
    }
  }

  lemma {:induction false} EditedNode(n: Node, p: Path, to: seq<Node>)
    requires WellFormed(n) && IsPath(n, p) && p != []
    ensures WellFormed(Clone(n, p, to)) <==> AllWellFormed(to) && KeepsBracket(n, p, to)
    decreases p
  {
    assert n.brackets && AllWellFormed(n.children);
    if |p| == 1 {
      AllWellFormedInPlace(n.children, p[0], to);
    } else {
      EditedChild(n, p, to);
    }
  }

  lemma {:induction false} EditedChild(n: Node, p: Path, to: seq<Node>)
    requires AllWellFormed(n.children) && IsPath(n, p) && |p| > 1
    ensures AllWellFormed(Clone(n, p, to).children) <==> AllWellFormed(to) && KeepsBracket(n, p, to)
    ensures forall i :: 0 <= i < |n.children| ==> Clone(n, p, to).children[i].brackets == n.children[i].brackets
    decreases p, 0
  {
    var c := Clone(n.children[p[0]], p[1..], to);
    EditedNode(n.children[p[0]], p[1..], to);
    InPlace(n.children, p[0], c);
    AllWellFormedInPlace(n.children, p[0], [c]);
  }

  /**
   The checker writes a tree to a file. What is read from there is the edited tree exactly when the
   new nodes are well-formed and no symbol has come first in unnamed brackets.
   */
  lemma EditIsReadBack(root: Node, p: Path, to: seq<Node>)
    requires IsFile(root) && IsPath(root, p) && p != []
    ensures ParseFile(Stream(Clone(root, p, to))) == Ok(Clone(root, p, to), "")
       <==> AllWellFormed(to) && KeepsBracket(root, p, to)
  {
    StreamRoundTrip(Clone(root, p, to));
    assert AllWellFormed(root.children);
    if |p| == 1 {
      AllWellFormedInPlace(root.children, p[0], to);
    } else {
      EditedChild(root, p, to);
    }
  }

  /** Without its first element, ((f x) y) is written as (y), a node with a name of its own. */
  lemma RemovalIsMisread()
    ensures
      var x, y := Leaf("x", false), Leaf("y", false);
      var root := Node("", [Node("", [Node("f", [x], true), y], true)], false);
      IsFile(root) && IsPath(root, [0, 0])
      && ParseFile(Stream(Clone(root, [0, 0], []))) != Ok(Clone(root, [0, 0], []), "")
  {
    var x, y := Leaf("x", false), Leaf("y", false);
    var f := Node("f", [x], true);
    var pair := Node("", [f, y], true);
    var root := Node("", [pair], false);
    assert WellFormed(x) && WellFormed(y) && WellFormed(f) && WellFormed(pair);
    var p := [0, 0];
    assert p[1..] == [0];
    assert IsPath(pair, [0]) && IsPath(root, p);
    assert !KeepsBracket(pair, [0], []);
    EditIsReadBack(root, p, []);
  }

  // ---------------------------------------------------------------- places that are visited

  /** Nodes that must not be changed, nor anything below them. */
  predicate Immutable(n: Node) {
    n.name == "set-logic"
  }

  /** No node on the way is immutable; the root does not matter. */
  predicate Eligible(n: Node, p: Path)
    decreases p
  {
    p == [] || (p[0] < |n.children| && !Immutable(n.children[p[0]]) && Eligible(n.children[p[0]], p[1..]))
  }

  lemma {:induction false} EligibleIsPath(n: Node, p: Path)
    requires Eligible(n, p)
    ensures IsPath(n, p) && (p != [] ==> !Immutable(At(n, p)))
    decreases p
  {
    if p != [] {
      EligibleIsPath(n.children[p[0]], p[1..]);
    }
  }

  lemma {:induction false} EligibleStep(n: Node, p: Path, i: nat)
    requires IsPath(n, p)
    ensures Eligible(n, p + [i])
        <==> Eligible(n, p) && i < |At(n, p).children| && !Immutable(At(n, p).children[i])
    ensures i < |At(n, p).children| ==> IsPath(n, p + [i]) && At(n, p + [i]) == At(n, p).children[i]
    decreases p
  {
    if p != [] {
      EligibleStep(n.children[p[0]], p[1..], i);
      assert (p + [i])[1..] == p[1..] + [i];
    } else {
      assert (p + [i])[1..] == [];
    }
  }

  /** Depth first: a node before its children. */
  function DepthFirst(n: Node, here: Path): seq<Path>
    decreases n, 0
  {
    [here] + DepthFirstAll(n.children, here, 0)
  }

  function DepthFirstAll(cs: seq<Node>, here: Path, i: nat): seq<Path>
    decreases cs, 1, |cs| - i
  {
    if i >= |cs| then []
    else (if Immutable(cs[i]) then [] else DepthFirst(cs[i], here + [i])) + DepthFirstAll(cs, here, i + 1)
  }

  /** The path leads to the place, and on from there. */
  predicate Beyond(here: Path, q: Path) {
    |here| <= |q| && q[..|here|] == here
  }

  lemma {:induction false} InDepthFirst(n: Node, here: Path, q: Path)
    ensures q in DepthFirst(n, here) <==> Beyond(here, q) && Eligible(n, q[|here|..])
    decreases n, 0
  {
    InDepthFirstAll(n.children, here, 0, q);
    if Beyond(here, q) {
      assert |q| == |here| ==> q == here;
      assert |q| > |here| ==> q[|here|..][1..] == q[|here| + 1..];
    }
  }

  lemma {:induction false} InDepthFirstAll(cs: seq<Node>, here: Path, i: nat, q: Path)
    ensures q in DepthFirstAll(cs, here, i)
       <==> Beyond(here, q) && |q| > |here| && i <= q[|here|] < |cs|
            && !Immutable(cs[q[|here|]]) && Eligible(cs[q[|here|]], q[|here| + 1..])
    decreases cs, 1, |cs| - i
  {
    if i < |cs| {
      InDepthFirstAll(cs, here, i + 1, q);
      if !Immutable(cs[i]) {
        InDepthFirst(cs[i], here + [i], q);
        BeyondChild(here, i, q);
        assert q in DepthFirst(cs[i], here + [i])
          <==> Beyond(here, q) && |q| > |here| && q[|here|] == i && Eligible(cs[i], q[|here| + 1..]);
      }
    }
  }

  lemma BeyondChild(here: Path, i: nat, q: Path)
    ensures Beyond(here + [i], q) <==> Beyond(here, q) && |q| > |here| && q[|here|] == i
  {
    if |q| > |here| {
      assert q[..|here| + 1] == q[..|here|] + [q[|here|]];
    }
  }

  predicate Once(order: seq<Path>) {
    forall i, j :: 0 <= i < j < |order| ==> order[i] != order[j]
  }

  /** Every eligible place is visited once, and no other. */
  ghost predicate VisitsAll(root: Node, order: seq<Path>) {
    Once(order) && forall p :: p in order <==> Eligible(root, p)
  }

  lemma OnceConcat(order: seq<Path>, more: seq<Path>)
    requires Once(order) && Once(more) && forall p :: p in order ==> p !in more
    ensures Once(order + more)
  {
    var all := order + more;
    forall i, j | 0 <= i < j < |all|
      ensures all[i] != all[j]
    {
      if i < |order| <= j {
        assert all[i] in order && all[j] in more;
      }
    }
  }

  lemma {:induction false} DepthFirstOnce(n: Node, here: Path)
    ensures Once(DepthFirst(n, here))
    decreases n, 0
  {
    DepthFirstAllOnce(n.children, here, 0);
    InDepthFirstAll(n.children, here, 0, here);
    OnceConcat([here], DepthFirstAll(n.children, here, 0));
  }

  lemma {:induction false} DepthFirstAllOnce(cs: seq<Node>, here: Path, i: nat)
    ensures Once(DepthFirstAll(cs, here, i))
    decreases cs, 1, |cs| - i
  {
    if i < |cs| {
      DepthFirstAllOnce(cs, here, i + 1);
      if !Immutable(cs[i]) {
        DepthFirstOnce(cs[i], here + [i]);
        forall q | q in DepthFirst(cs[i], here + [i])
          ensures q !in DepthFirstAll(cs, here, i + 1)
        {
          InDepthFirst(cs[i], here + [i], q);
          InDepthFirstAll(cs, here, i + 1, q);
          BeyondChild(here, i, q);
        }
        OnceConcat(DepthFirst(cs[i], here + [i]), DepthFirstAll(cs, here, i + 1));
      }
    }
  }

  lemma DepthFirstVisitsAll(root: Node)
    ensures VisitsAll(root, DepthFirst(root, []))
  {
    DepthFirstOnce(root, []);
    forall p ensures p in DepthFirst(root, []) <==> Eligible(root, p) {
      InDepthFirst(root, [], p);
      assert p[0..] == p;
    }
  }

  // ---------------------------------------------------------------- breadth first

  /** The work that is left when these places are still to be visited. */
  function Load(root: Node, queue: seq<Path>): nat
    requires forall i :: 0 <= i < |queue| ==> IsPath(root, queue[i])
  {
    if queue == [] then 0 else Size(At(root, queue[0])) + Load(root, queue[1..])
  }

  lemma {:induction false} LoadAdds(root: Node, queue: seq<Path>, more: seq<Path>)
    requires forall i :: 0 <= i < |queue| ==> IsPath(root, queue[i])
    requires forall i :: 0 <= i < |more| ==> IsPath(root, more[i])
    ensures forall i :: 0 <= i < |queue + more| ==> IsPath(root, (queue + more)[i])
    ensures Load(root, queue + more) == Load(root, queue) + Load(root, more)
    decreases |queue|
  {
    if queue == [] {
      assert queue + more == more;
    } else {
      assert (queue + more)[1..] == queue[1..] + more;
      LoadAdds(root, queue[1..], more);
    }
  }

  /** The place or one on the way to it waits in the queue. */
  ghost predicate Waits(queue: seq<Path>, p: Path) {
    exists k :: 0 <= k <= |p| && p[..k] in queue
  }

  /** What a visited place leaves behind: the places of its first i children that are not immutable. */
  function Kids(cs: seq<Node>, p: Path, i: nat): seq<Path>
    requires i <= |cs|
  {
    if i == 0 then [] else Kids(cs, p, i - 1) + if Immutable(cs[i - 1]) then [] else [p + [i - 1]]
  }

  predicate IsKid(q: Path, p: Path) {
    |q| == |p| + 1 && q[..|p|] == p
  }

  lemma {:induction false} KidsAre(cs: seq<Node>, p: Path, i: nat)
    requires i <= |cs|
    ensures Once(Kids(cs, p, i))
    ensures forall q :: q in Kids(cs, p, i) <==> IsKid(q, p) && q[|p|] < i && !Immutable(cs[q[|p|]])
    decreases i
  {
    if i > 0 {
      KidsAre(cs, p, i - 1);
      if !Immutable(cs[i - 1]) {
        OnceConcat(Kids(cs, p, i - 1), [p + [i - 1]]);
      }
      forall q
        ensures q == p + [i - 1] <==> IsKid(q, p) && q[|p|] == i - 1
      {
        assert IsKid(q, p) ==> q == q[..|p|] + [q[|p|]];
      }
    }
  }

  lemma {:induction false} KidsLoad(root: Node, p: Path, i: nat)
    requires Eligible(root, p) && IsPath(root, p) && i <= |At(root, p).children|
    ensures var kids := Kids(At(root, p).children, p, i);
      && (forall j :: 0 <= j < |kids| ==> IsPath(root, kids[j]) && Eligible(root, kids[j]))
      && Load(root, kids) <= SizeOfAll(At(root, p).children[..i])
    decreases i
  {
    var n := At(root, p);
    if i > 0 {
      KidsLoad(root, p, i - 1);
      SizeOfFirst(n.children, i - 1);
      var before := Kids(n.children, p, i - 1);
      if Immutable(n.children[i - 1]) {
        assert Kids(n.children, p, i) == before;
      } else {
        EligibleStep(root, p, i - 1);
        LoadAddsOne(root, before, p + [i - 1]);
        assert Kids(n.children, p, i) == before + [p + [i - 1]];
      }
    }
  }

  method ChildPlaces(root: Node, p: Path) returns (kids: seq<Path>)
    requires IsPath(root, p)
    ensures kids == KidsAt(root, p)
  {
    var n := At(root, p);
    kids := [];
    for i := 0 to |n.children|
      invariant kids == Kids(n.children, p, i)
    {
      if !Immutable(n.children[i]) {
        kids := kids + [p + [i]];
      }
    }
  }

  function KidsAt(root: Node, p: Path): seq<Path>
    requires IsPath(root, p)
  {
    Kids(At(root, p).children, p, |At(root, p).children|)
  }

  lemma ChildrenAre(root: Node, p: Path)
    requires Eligible(root, p) && IsPath(root, p)
    ensures Once(KidsAt(root, p)) && forall q :: q in KidsAt(root, p) <==> IsKid(q, p) && Eligible(root, q)
  {
    var n := At(root, p);
    KidsAre(n.children, p, |n.children|);
    forall q | IsKid(q, p)
      ensures Eligible(root, q) <==> q[|p|] < |n.children| && !Immutable(n.children[q[|p|]])
    {
      EligibleStep(root, p, q[|p|]);
      assert q == p + [q[|p|]];
    }
  }

  lemma ChildrenLoad(root: Node, p: Path)
    requires Eligible(root, p) && IsPath(root, p)
    ensures forall j :: 0 <= j < |KidsAt(root, p)| ==>
      IsPath(root, KidsAt(root, p)[j]) && Eligible(root, KidsAt(root, p)[j])
    ensures Load(root, KidsAt(root, p)) < Size(At(root, p))
  {
    var n := At(root, p);
    KidsLoad(root, p, |n.children|);
    assert n.children[..|n.children|] == n.children;
  }

  lemma SizeOfFirst(cs: seq<Node>, i: nat)
    requires i < |cs|
    ensures SizeOfAll(cs[..i + 1]) == SizeOfAll(cs[..i]) + Size(cs[i])
  {
    assert cs[..i + 1] == cs[..i] + [cs[i]];
    SizeOfConcat(cs[..i], [cs[i]]);
  }

  lemma LoadAddsOne(root: Node, queue: seq<Path>, p: Path)
    requires IsPath(root, p) && forall i :: 0 <= i < |queue| ==> IsPath(root, queue[i])
    ensures Load(root, queue + [p]) == Load(root, queue) + Size(At(root, p))
  {
    LoadAdds(root, queue, [p]);
  }

  /** Upper levels come first. */
  predicate LevelByLevel(order: seq<Path>) {
    forall i, j :: 0 <= i < j < |order| ==> |order[i]| <= |order[j]|
  }

  /** What was visited lies no lower than what waits, and that lies on two levels at most. */
  predicate Leveled(order: seq<Path>, queue: seq<Path>) {
    LevelByLevel(order + queue) && forall i :: 0 <= i < |queue| ==> |queue[i]| <= |queue[0]| + 1
  }

  lemma LevelStep(order: seq<Path>, queue: seq<Path>, kids: seq<Path>)
    requires queue != [] && Leveled(order, queue)
    requires forall i :: 0 <= i < |kids| ==> |kids[i]| == |queue[0]| + 1
    ensures Leveled(order + [queue[0]], queue[1..] + kids)
  {
    var all := order + queue;
    var next := (order + [queue[0]]) + (queue[1..] + kids);
    assert next == all + kids;
    forall i | 0 <= i < |all| ensures |all[i]| <= |queue[0]| + 1 {
      if i < |order| {
        assert |all[i]| <= |all[|order|]|;
      } else {
        assert all[i] == queue[i - |order|];
      }
    }
    var rest := queue[1..] + kids;
    forall i | 0 <= i < |rest| ensures |rest[i]| <= |rest[0]| + 1 {
      assert rest[i] == next[|order| + 1 + i] && rest[0] == next[|order| + 1] && next[|order|] == queue[0];
    }
  }

  /** Whatever was visited or waits has been reached through places that were visited, and is listed once. */
  predicate Reached(order: seq<Path>, queue: seq<Path>) {
    && Once(order + queue)
    && forall q :: q in order + queue && q != [] ==> q[..|q| - 1] in order
  }

  lemma ReachedNext(order: seq<Path>, queue: seq<Path>, kids: seq<Path>)
    requires queue != [] && Reached(order, queue) && Once(kids) && forall q :: q in kids ==> IsKid(q, queue[0])
    ensures Reached(order + [queue[0]], queue[1..] + kids)
  {
    var all := order + queue;
    assert (order + [queue[0]]) + (queue[1..] + kids) == all + kids;
    assert all[|order|] == queue[0];
    assert queue[0] !in order by {
      assert forall i :: 0 <= i < |order| ==> all[i] == order[i];
    }
    assert forall q :: IsKid(q, queue[0]) ==> q != [] && q[..|q| - 1] == queue[0];
    assert forall q :: q in all ==> q !in kids;
    OnceConcat(all, kids);
    forall q | q in all + kids && q != []
      ensures q[..|q| - 1] in order + [queue[0]]
    {
      if q in kids {
        assert q[..|q| - 1] == queue[0];
      }
    }
  }

  /** Where the traversal stands. */
  ghost predicate Traversed(root: Node, order: seq<Path>, queue: seq<Path>) {
    && AllEligible(root, queue) && AllEligible(root, order) && NoneForgotten(root, order, queue)
    && Leveled(order, queue) && Reached(order, queue)
  }

  predicate AllEligible(root: Node, paths: seq<Path>) {
    forall i :: 0 <= i < |paths| ==> IsPath(root, paths[i]) && Eligible(root, paths[i])
  }

  ghost predicate NoneForgotten(root: Node, order: seq<Path>, queue: seq<Path>) {
    forall p :: Eligible(root, p) ==> p in order || Waits(queue, p)
  }

  lemma NoneForgottenNext(root: Node, order: seq<Path>, queue: seq<Path>, kids: seq<Path>)
    requires queue != [] && NoneForgotten(root, order, queue)
    requires forall q :: IsKid(q, queue[0]) && Eligible(root, q) ==> q in kids
    ensures NoneForgotten(root, order + [queue[0]], queue[1..] + kids)
  {
    forall q | Eligible(root, q)
      ensures q in order + [queue[0]] || Waits(queue[1..] + kids, q)
    {
      StillWaits(root, order, queue, kids, q);
    }
  }

  lemma KidsByIndex(root: Node, p: Path)
    requires Eligible(root, p) && IsPath(root, p)
    ensures forall i :: 0 <= i < |KidsAt(root, p)| ==> |KidsAt(root, p)[i]| == |p| + 1
  {
    ChildrenAre(root, p);
    assert forall i :: 0 <= i < |KidsAt(root, p)| ==> KidsAt(root, p)[i] in KidsAt(root, p);
  }

  lemma TraversedNext(root: Node, order: seq<Path>, queue: seq<Path>)
    requires queue != [] && Traversed(root, order, queue)
    ensures Traversed(root, order + [queue[0]], queue[1..] + KidsAt(root, queue[0]))
  {
    EligibleNext(root, order, queue);
    ChildrenAre(root, queue[0]);
    NoneForgottenNext(root, order, queue, KidsAt(root, queue[0]));
    LeveledNext(root, order, queue);
    ReachedNext(order, queue, KidsAt(root, queue[0]));
  }

  lemma EligibleNext(root: Node, order: seq<Path>, queue: seq<Path>)
    requires queue != [] && AllEligible(root, queue) && AllEligible(root, order)
    ensures AllEligible(root, order + [queue[0]]) && AllEligible(root, queue[1..] + KidsAt(root, queue[0]))
  {
    ChildrenLoad(root, queue[0]);
  }

  lemma LeveledNext(root: Node, order: seq<Path>, queue: seq<Path>)
    requires queue != [] && AllEligible(root, queue) && Leveled(order, queue)
    ensures Leveled(order + [queue[0]], queue[1..] + KidsAt(root, queue[0]))
  {
    KidsByIndex(root, queue[0]);
    LevelStep(order, queue, KidsAt(root, queue[0]));
  }

  lemma LoadFalls(root: Node, queue: seq<Path>)
    requires queue != [] && AllEligible(root, queue)
    ensures var queue' := queue[1..] + KidsAt(root, queue[0]);
      (forall i :: 0 <= i < |queue'| ==> IsPath(root, queue'[i])) && Load(root, queue') < Load(root, queue)
  {
    ChildrenLoad(root, queue[0]);
    LoadAdds(root, queue[1..], KidsAt(root, queue[0]));
  }

  /** Level by level, with a queue. */
  method BreadthFirst(root: Node) returns (order: seq<Path>)
    ensures VisitsAll(root, order) && LevelByLevel(order)
  {
    order := [];
    var queue: seq<Path> := [[]];
    forall p: Path ensures Waits(queue, p) {
      assert p[..0] == [];
    }
    while queue != []
      invariant Traversed(root, order, queue)
      decreases Load(root, queue)
    {
      TraversedNext(root, order, queue);
      LoadFalls(root, queue);
      var p := queue[0];
      var kids := ChildPlaces(root, p);
      order := order + [p];
      queue := queue[1..] + kids;
    }
    assert order + queue == order;
  }

  lemma {:induction false} EligiblePrefix(n: Node, p: Path, k: nat)
    requires k <= |p| && Eligible(n, p)
    ensures Eligible(n, p[..k])
    decreases p
  {
    if k > 0 {
      EligiblePrefix(n.children[p[0]], p[1..], k - 1);
      assert p[..k][1..] == p[1..][..k - 1];
    }
  }

  lemma StillWaits(root: Node, order: seq<Path>, queue: seq<Path>, kids: seq<Path>, q: Path)
    requires queue != [] && Eligible(root, q) && (q in order || Waits(queue, q))
    requires forall p :: IsKid(p, queue[0]) && Eligible(root, p) ==> p in kids
    ensures q in order + [queue[0]] || Waits(queue[1..] + kids, q)
  {
    if q !in order {
      var k :| 0 <= k <= |q| && q[..k] in queue;
      if q[..k] != queue[0] {
        assert q[..k] in queue[1..] + kids;
      } else if k == |q| {
        assert q[..k] == q;
      } else {
        assert IsKid(q[..k + 1], queue[0]);
        EligiblePrefix(root, q, k + 1);
        assert q[..k + 1] in queue[1..] + kids;
      }
    }
  }
}
