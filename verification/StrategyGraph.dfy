/**
 The strategy graph: a tree of modules below a root, with back links. Forward edges make the
 tree; a vertex at level k + 1 has its forward edge from a vertex at level k. Edges carry
 priorities, of which a smaller number means a higher priority.
 */
module StrategyGraphs {
  import opened Basics

  datatype Edge = Edge(source: nat, target: nat, backLink: bool, priority: nat)

  type Edges = map<nat, Edge>

  type Levels = map<nat, nat>

  const ROOT: nat := 0

  function LevelOf(levels: Levels, v: nat): nat {
    if v in levels then levels[v] else 0
  }

  predicate Forward(es: Edges, e: nat) {
    e in es && !es[e].backLink
  }

  /** Edges join vertices; each vertex has at most one forward edge into it, and the root has none. */
  ghost predicate Forest(vs: set<nat>, es: Edges, levels: Levels) {
    && (forall e {:trigger Joins(vs, es, e, levels)} :: e in es ==> Joins(vs, es, e, levels))
    && (forall e, f {:trigger Forward(es, e), Forward(es, f)} ::
          Forward(es, e) && Forward(es, f) && es[e].target == es[f].target ==> e == f)
  }

  predicate Joins(vs: set<nat>, es: Edges, e: nat, levels: Levels) {
    && e in es && es[e].source in vs && es[e].target in vs
    && (!es[e].backLink ==> es[e].target != ROOT && LevelOf(levels, es[e].target) == LevelOf(levels, es[e].source) + 1)
  }

  // ---------------------------------------------------------------- reaching

  /** v can be reached from u by forward edges. */
  ghost predicate Reaches(es: Edges, levels: Levels, u: nat, v: nat)
    decreases LevelOf(levels, v)
  {
    u == v || exists e :: EntersFrom(es, levels, e, v) && Reaches(es, levels, u, es[e].source)
  }

  predicate EntersFrom(es: Edges, levels: Levels, e: nat, v: nat) {
    Forward(es, e) && es[e].target == v && LevelOf(levels, es[e].source) < LevelOf(levels, v)
  }

  /** One more forward edge in front. */
  lemma {:induction false} StepThenReach(vs: set<nat>, es: Edges, levels: Levels, e: nat, v: nat)
    requires Forest(vs, es, levels) && Forward(es, e) && Reaches(es, levels, es[e].target, v)
    ensures Reaches(es, levels, es[e].source, v)
    decreases LevelOf(levels, v)
  {
    assert Joins(vs, es, e, levels);
    if es[e].target == v {
      assert EntersFrom(es, levels, e, v);
    } else {
      var f :| EntersFrom(es, levels, f, v) && Reaches(es, levels, es[e].target, es[f].source);
      StepThenReach(vs, es, levels, e, es[f].source);
    }
  }

  /** A way of at least one edge has a first edge. */
  lemma {:induction false} FirstStep(es: Edges, levels: Levels, u: nat, v: nat) returns (e: nat)
    requires Reaches(es, levels, u, v) && u != v
    ensures Forward(es, e) && es[e].source == u && Reaches(es, levels, es[e].target, v)
    decreases LevelOf(levels, v)
  {
    var f :| EntersFrom(es, levels, f, v) && Reaches(es, levels, u, es[f].source);
    if es[f].source == u {
      e := f;
    } else {
      e := FirstStep(es, levels, u, es[f].source);
    }
  }

  lemma {:induction false} ReachTransitive(es: Edges, levels: Levels, u: nat, v: nat, w: nat)
    requires Reaches(es, levels, u, v) && Reaches(es, levels, v, w)
    ensures Reaches(es, levels, u, w)
    decreases LevelOf(levels, w)
  {
    if v != w {
      var f :| EntersFrom(es, levels, f, w) && Reaches(es, levels, v, es[f].source);
      ReachTransitive(es, levels, u, v, es[f].source);
    }
  }

  /** What can be reached with fewer edges can be reached with more. */
  lemma {:induction false} ReachWithMore(es: Edges, more: Edges, levels: Levels, u: nat, v: nat)
    requires Reaches(es, levels, u, v) && forall e :: e in es ==> e in more && more[e] == es[e]
    ensures Reaches(more, levels, u, v)
    decreases LevelOf(levels, v)
  {
    if u != v {
      var e :| EntersFrom(es, levels, e, v) && Reaches(es, levels, u, es[e].source);
      assert EntersFrom(more, levels, e, v);
      ReachWithMore(es, more, levels, u, es[e].source);
    }
  }

  // ---------------------------------------------------------------- removing vertices

  /** The edges among some vertices. */
  function Among(es: Edges, vs: set<nat>): Edges {
    map e | e in es && es[e].source in vs && es[e].target in vs :: es[e]
  }

  lemma AmongForest(vs: set<nat>, es: Edges, levels: Levels, us: set<nat>)
    requires Forest(vs, es, levels) && us <= vs
    ensures Forest(us, Among(es, us), levels)
  {
    forall e | e in Among(es, us)
      ensures Joins(us, Among(es, us), e, levels)
    {
      assert Joins(vs, es, e, levels);
    }
    forall e, f | Forward(Among(es, us), e) && Forward(Among(es, us), f) && es[e].target == es[f].target
      ensures e == f
    {
      assert Forward(es, e) && Forward(es, f);
    }
  }

  /** Removing a vertex that cannot be reached does not keep anything else from being reached. */
  lemma {:induction false} ReachWithout(vs: set<nat>, es: Edges, levels: Levels, x: nat, v: nat)
    requires Forest(vs, es, levels) && !Reaches(es, levels, ROOT, x)
    requires Reaches(es, levels, ROOT, v)
    ensures Reaches(Among(es, vs - {x}), levels, ROOT, v)
    decreases LevelOf(levels, v)
  {
    if v != ROOT {
      var e :| EntersFrom(es, levels, e, v) && Reaches(es, levels, ROOT, es[e].source);
      assert Joins(vs, es, e, levels);
      ReachWithout(vs, es, levels, x, es[e].source);
      assert EntersFrom(Among(es, vs - {x}), levels, e, v);
    }
  }

  /** A vertex other than the root that no forward edge enters. */
  ghost predicate Orphan(vs: set<nat>, es: Edges, v: nat) {
    v in vs && v != ROOT && forall e :: Forward(es, e) ==> es[e].target != v
  }

  /** Without orphans, everything can be reached from the root. */
  lemma {:induction false} NoOrphansAllReached(vs: set<nat>, es: Edges, levels: Levels, v: nat)
    requires Forest(vs, es, levels) && v in vs && forall w :: !Orphan(vs, es, w)
    ensures Reaches(es, levels, ROOT, v)
    decreases LevelOf(levels, v)
  {
    if v != ROOT {
      assert !Orphan(vs, es, v);
      var e :| Forward(es, e) && es[e].target == v;
      assert Joins(vs, es, e, levels);
      NoOrphansAllReached(vs, es, levels, es[e].source);
      assert EntersFrom(es, levels, e, v);
    }
  }

  function Neighbors(es: Edges, v: nat): set<nat> {
    (set e | e in es && es[e].source == v :: es[e].target) + (set e | e in es && es[e].target == v :: es[e].source)
  }

  /** Removing a vertex makes orphans of its children only, and these are neighbors of it. */
  lemma NewOrphans(vs: set<nat>, es: Edges, levels: Levels, x: nat, w: nat)
    requires Forest(vs, es, levels) && Orphan(vs - {x}, Among(es, vs - {x}), w)
    ensures Orphan(vs, es, w) || w in Neighbors(es, x)
  {
    if !Orphan(vs, es, w) {
      var e :| Forward(es, e) && es[e].target == w;
      assert Joins(vs, es, e, levels);
      assert Forward(Among(es, vs - {x}), e) || es[e].source == x;
    }
  }

  /** Where removing has come to: only edges among what is left, and nothing reachable is lost. */
  ghost predicate Removing(vs: set<nat>, es: Edges, levels: Levels, vs': set<nat>, es': Edges) {
    && vs' <= vs && es' == Among(es, vs')
    && forall v :: v in vs && Reaches(es, levels, ROOT, v) ==> v in vs' && Reaches(es', levels, ROOT, v)
  }

  lemma AmongAmong(es: Edges, us: set<nat>, ws: set<nat>)
    requires ws <= us
    ensures Among(Among(es, us), ws) == Among(es, ws)
  {
  }

  lemma RemovingTransitive(vs: set<nat>, es: Edges, levels: Levels, vs': set<nat>, es': Edges, vs'': set<nat>,
                           es'': Edges)
    requires Removing(vs, es, levels, vs', es') && Removing(vs', es', levels, vs'', es'')
    ensures Removing(vs, es, levels, vs'', es'')
  {
    AmongAmong(es, vs', vs'');
  }

  lemma RemoveUnreachable(vs: set<nat>, es: Edges, levels: Levels, x: nat)
    requires Forest(vs, es, levels) && !Reaches(es, levels, ROOT, x)
    ensures Removing(vs, es, levels, vs - {x}, Among(es, vs - {x}))
  {
    forall v | v in vs && Reaches(es, levels, ROOT, v)
      ensures v in vs - {x} && Reaches(Among(es, vs - {x}), levels, ROOT, v)
    {
      ReachWithout(vs, es, levels, x, v);
    }
  }

  /** If nothing that is left is an orphan, what is left is exactly what could be reached. */
  lemma RemovedExactly(vs: set<nat>, es: Edges, levels: Levels, vs': set<nat>, es': Edges)
    requires Forest(vs, es, levels) && Removing(vs, es, levels, vs', es') && forall w :: !Orphan(vs', es', w)
    ensures forall v :: v in vs' <==> v in vs && Reaches(es, levels, ROOT, v)
  {
    AmongForest(vs, es, levels, vs');
    forall v | v in vs'
      ensures Reaches(es, levels, ROOT, v)
    {
      NoOrphansAllReached(vs', es', levels, v);
      ReachWithMore(es', es, levels, ROOT, v);
    }
  }

  // ---------------------------------------------------------------- priorities

  function PriorityOf(es: Edges, e: nat): nat {
    if e in es then es[e].priority else 0
  }

  /** The edges in the order of their priorities. */
  ghost predicate Listed(es: Edges, order: seq<nat>) {
    && (forall i :: 0 <= i < |order| ==> order[i] in es)
    && (forall e {:trigger e in order} :: e in es ==> e in order)
    && Ascending(es, order)
  }

  predicate Ascending(es: Edges, list: seq<nat>) {
    forall i, j :: 0 <= i < j < |list| ==> PriorityOf(es, list[i]) < PriorityOf(es, list[j])
  }

  lemma AscendingTail(es: Edges, list: seq<nat>)
    requires Ascending(es, list) && list != []
    ensures Ascending(es, list[1..])
    ensures forall j :: 0 <= j < |list[1..]| ==> PriorityOf(es, list[0]) < PriorityOf(es, list[1..][j])
  {
  }

  lemma AscendingCons(es: Edges, e: nat, list: seq<nat>)
    requires Ascending(es, list) && forall j :: 0 <= j < |list| ==> PriorityOf(es, e) < PriorityOf(es, list[j])
    ensures Ascending(es, [e] + list)
  {
    var r := [e] + list;
    forall i, j | 0 <= i < j < |r|
      ensures PriorityOf(es, r[i]) < PriorityOf(es, r[j])
    {
      assert r[j] == list[j - 1] && (i > 0 ==> r[i] == list[i - 1]);
    }
  }

  /** The priorities are 0, 1, 2 and so on. */
  ghost predicate Compressed(es: Edges, order: seq<nat>) {
    Listed(es, order) && forall i :: 0 <= i < |order| ==> PriorityOf(es, order[i]) == i
  }

  /** The members of a list that are in a set, in the order of the list. */
  function Select(order: seq<nat>, ids: set<nat>): seq<nat> {
    if order == [] then []
    else if order[0] in ids then [order[0]] + Select(order[1..], ids)
    else Select(order[1..], ids)
  }

  lemma {:induction false} SelectAppend(order: seq<nat>, order': seq<nat>, ids: set<nat>)
    ensures Select(order + order', ids) == Select(order, ids) + Select(order', ids)
  {
    if order == [] {
      assert order + order' == order';
    } else {
      assert (order + order')[0] == order[0] && (order + order')[1..] == order[1..] + order';
      SelectAppend(order[1..], order', ids);
      assert [order[0]] + (Select(order[1..], ids) + Select(order', ids)) == ([order[0]] + Select(order[1..],
        ids)) + Select(order', ids);
    }
  }

  lemma {:induction false} SelectNone(order: seq<nat>, ids: set<nat>)
    requires forall i :: 0 <= i < |order| ==> order[i] !in ids
    ensures Select(order, ids) == []
  {
    if order != [] {
      SelectNone(order[1..], ids);
    }
  }

  lemma {:induction false} SelectMembers(order: seq<nat>, ids: set<nat>)
    ensures forall i :: 0 <= i < |Select(order, ids)| ==> Select(order, ids)[i] in ids && Select(order, ids)[i] in order
    ensures forall i :: 0 <= i < |order| && order[i] in ids ==> order[i] in Select(order, ids)
  {
    if order != [] {
      SelectMembers(order[1..], ids);
      var tail, rest := order[1..], Select(order[1..], ids);
      forall i | 0 <= i < |rest|
        ensures rest[i] in order
      {
        var j :| 0 <= j < |tail| && tail[j] == rest[i];
        assert order[j + 1] == rest[i];
      }
      forall i | 0 < i < |order| && order[i] in ids
        ensures order[i] in Select(order, ids)
      {
        assert tail[i - 1] == order[i];
      }
    }
  }

  /** A selection from a list in order of priorities is in order of priorities. */
  lemma {:induction false} SelectSorted(es: Edges, order: seq<nat>, ids: set<nat>)
    requires Ascending(es, order)
    ensures Ascending(es, Select(order, ids))
  {
    if order != [] {
      var tail, rest := order[1..], Select(order[1..], ids);
      AscendingTail(es, order);
      SelectSorted(es, tail, ids);
      SelectMembers(tail, ids);
      forall j | 0 <= j < |rest|
        ensures PriorityOf(es, order[0]) < PriorityOf(es, rest[j])
      {
        var k :| 0 <= k < |tail| && tail[k] == rest[j];
      }
      AscendingCons(es, order[0], rest);
    }
  }

  /** Two sets that split the list split it completely. */
  lemma {:induction false} SelectSplit(order: seq<nat>, ids: set<nat>, ids': set<nat>)
    requires forall i :: 0 <= i < |order| ==> (order[i] in ids <==> order[i] !in ids')
    ensures |Select(order, ids)| + |Select(order, ids')| == |order|
  {
    if order != [] {
      SelectSplit(order[1..], ids, ids');
    }
  }

  /** The member of a set with the highest priority comes first in its selection. */
  lemma {:induction false} SelectFirst(es: Edges, order: seq<nat>, ids: set<nat>, m: nat)
    requires Ascending(es, order)
    requires m in ids && m in order && forall e :: e in ids ==> PriorityOf(es, m) <= PriorityOf(es, e)
    ensures Select(order, ids) == [m] + Select(order, ids - {m})
  {
    var k :| 0 <= k < |order| && order[k] == m;
    AscendingTail(es, order);
    if order[0] in ids {
      assert k == 0;
      SelectSame(order[1..], ids, ids - {m});
    } else {
      SelectFirst(es, order[1..], ids, m);
    }
  }

  lemma {:induction false} SelectSame(order: seq<nat>, ids: set<nat>, ids': set<nat>)
    requires forall i :: 0 <= i < |order| ==> (order[i] in ids <==> order[i] in ids')
    ensures Select(order, ids) == Select(order, ids')
  {
    if order != [] {
      SelectSame(order[1..], ids, ids');
    }
  }

  // ---------------------------------------------------------------- numbering

  /** The edges of a list get consecutive priorities. */
  function Numbered(es: Edges, list: seq<nat>, from: nat): Edges {
    map e | e in es :: if IndexOf(list, e) < |list| then es[e].(priority := from + IndexOf(list, e)) else es[e]
  }

  lemma NumberedNext(es: Edges, list: seq<nat>, k: nat, from: nat)
    requires k < |list| && list[k] in es && forall j :: 0 <= j < k ==> list[j] != list[k]
    ensures Numbered(es, list[..k + 1], from) ==
      var es' := Numbered(es, list[..k], from); es'[list[k] := es'[list[k]].(priority := from + k)]
  {
    assert list[..k + 1] == list[..k] + [list[k]];
    forall e
      ensures IndexOf(list[..k + 1], e)
           == if IndexOf(list[..k], e) < k then IndexOf(list[..k], e) else if e == list[k] then k else k + 1
    {
      IndexSnoc(list[..k], list[k], e);
    }
    assert IndexOf(list[..k], list[k]) == k;
  }

  lemma {:induction false} IndexSnoc(list: seq<nat>, x: nat, e: nat)
    ensures IndexOf(list + [x], e)
         == if IndexOf(list, e) < |list| then IndexOf(list, e) else if e == x then |list| else |list| + 1
  {
    if list == [] {
      assert list + [x] == [x] && [x][1..] == [];
    } else {
      assert (list + [x])[0] == list[0] && (list + [x])[1..] == list[1..] + [x];
      IndexSnoc(list[1..], x, e);
    }
  }

  // ---------------------------------------------------------------- pushing priorities

  /** high and low are the edges with priorities from l to u, each in one of the two. */
  ghost predicate Splits(es: Edges, high: set<nat>, low: set<nat>, l: nat, u: nat) {
    && high !! low
    && forall e :: e in es ==> (l <= es[e].priority <= u <==> e in high || e in low)
  }

  function Pushed(es: Edges, order: seq<nat>, high: set<nat>, low: set<nat>, l: nat): Edges {
    Numbered(Numbered(es, Select(order, high), l), Select(order, low), l + |Select(order, high)|)
  }

  function PushedOrder(order: seq<nat>, high: set<nat>, low: set<nat>, l: nat, u: nat): seq<nat>
    requires l <= u < |order|
  {
    order[..l] + Select(order, high) + Select(order, low) + order[u + 1..]
  }

  lemma PlaceInOrder(es: Edges, order: seq<nat>, e: nat)
    requires Compressed(es, order) && e in es
    ensures es[e].priority < |order| && order[es[e].priority] == e
  {
    assert e in order;
    var i :| 0 <= i < |order| && order[i] == e;
    assert PriorityOf(es, order[i]) == i;
  }

  lemma PushedSizes(es: Edges, order: seq<nat>, high: set<nat>, low: set<nat>, l: nat, u: nat)
    requires Compressed(es, order) && l <= u < |order| && Splits(es, high, low, l, u)
    ensures |Select(order, high)| + |Select(order, low)| == u + 1 - l
  {
    var mid := order[l..u + 1];
    forall i | 0 <= i < |order|
      ensures order[i] in high || order[i] in low <==> l <= i <= u
    {
      assert PriorityOf(es, order[i]) == i;
    }
    assert order == order[..l] + mid + order[u + 1..];
    SelectMiddle(order[..l], mid, order[u + 1..], high);
    SelectMiddle(order[..l], mid, order[u + 1..], low);
    assert forall i :: 0 <= i < |mid| ==> mid[i] == order[l + i];
    SelectSplit(mid, high, low);
  }

  lemma SelectMiddle(before: seq<nat>, mid: seq<nat>, after: seq<nat>, ids: set<nat>)
    requires forall i :: 0 <= i < |before| ==> before[i] !in ids
    requires forall i :: 0 <= i < |after| ==> after[i] !in ids
    ensures Select(before + mid + after, ids) == Select(mid, ids)
  {
    SelectAppend(before + mid, after, ids);
    SelectAppend(before, mid, ids);
    SelectNone(before, ids);
    SelectNone(after, ids);
    assert [] + Select(mid, ids) + [] == Select(mid, ids);
  }

  lemma IndexInAscending(es: Edges, list: seq<nat>, k: nat)
    requires Ascending(es, list) && k < |list|
    ensures IndexOf(list, list[k]) == k
  {
  }

  lemma SelectedPriority(es: Edges, order: seq<nat>, ids: set<nat>, k: nat)
    requires Compressed(es, order) && k < |Select(order, ids)|
    ensures var e := Select(order, ids)[k];
      e in ids && e in es && IndexOf(Select(order, ids), e) == k
  {
    SelectMembers(order, ids);
    SelectSorted(es, order, ids);
    IndexInAscending(es, Select(order, ids), k);
    var i :| 0 <= i < |order| && order[i] == Select(order, ids)[k];
  }

  lemma NotSelected(order: seq<nat>, ids: set<nat>, e: nat)
    requires e !in ids
    ensures IndexOf(Select(order, ids), e) == |Select(order, ids)|
  {
    SelectMembers(order, ids);
  }

  /** Where each edge goes. */
  lemma PushedPriority(es: Edges, order: seq<nat>, high: set<nat>, low: set<nat>, l: nat, e: nat)
    requires Compressed(es, order) && high !! low && e in es
    ensures var hs, ls := Select(order, high), Select(order, low);
      && (e in high ==> IndexOf(hs, e) < |hs| && PriorityOf(Pushed(es, order, high, low, l), e) == l + IndexOf(hs, e))
      && (e in low ==>
           IndexOf(ls, e) < |ls| && PriorityOf(Pushed(es, order, high, low, l), e) == l + |hs| + IndexOf(ls, e))
      && (e !in high && e !in low ==> PriorityOf(Pushed(es, order, high, low, l), e) == es[e].priority)
  {
    var hs, ls := Select(order, high), Select(order, low);
    PlaceInOrder(es, order, e);
    if e in high {
      SelectMembers(order, high);
      NotSelected(order, low, e);
      assert order[es[e].priority] in hs;
    } else {
      NotSelected(order, high, e);
      if e in low {
        SelectMembers(order, low);
        assert order[es[e].priority] in ls;
      } else {
        NotSelected(order, low, e);
      }
    }
  }

  lemma PushedPlace(es: Edges, order: seq<nat>, high: set<nat>, low: set<nat>, l: nat, u: nat, i: nat)
    requires Compressed(es, order) && l <= u < |order| && Splits(es, high, low, l, u)
    requires i < |PushedOrder(order, high, low, l, u)|
    ensures var order', es' := PushedOrder(order, high, low, l, u), Pushed(es, order, high, low, l);
      order'[i] in es' && PriorityOf(es', order'[i]) == i
  {
    var hs := Select(order, high);
    PushedSizes(es, order, high, low, l, u);
    PushedOrderAt(order, high, low, l, u, i);
    if l <= i < l + |hs| {
      PlaceOfHigh(es, order, high, low, l, i - l);
    } else if l + |hs| <= i <= u {
      PlaceOfLow(es, order, high, low, l, i - l - |hs|);
    } else {
      assert PriorityOf(es, order[i]) == i;
      PushedPriority(es, order, high, low, l, order[i]);
    }
  }

  lemma PlaceOfHigh(es: Edges, order: seq<nat>, high: set<nat>, low: set<nat>, l: nat, k: nat)
    requires Compressed(es, order) && high !! low && k < |Select(order, high)|
    ensures var e, es' := Select(order, high)[k], Pushed(es, order, high, low, l);
      e in es' && PriorityOf(es', e) == l + k
  {
    SelectedPriority(es, order, high, k);
    PushedPriority(es, order, high, low, l, Select(order, high)[k]);
  }

  lemma PlaceOfLow(es: Edges, order: seq<nat>, high: set<nat>, low: set<nat>, l: nat, k: nat)
    requires Compressed(es, order) && high !! low && k < |Select(order, low)|
    ensures var e, es' := Select(order, low)[k], Pushed(es, order, high, low, l);
      e in es' && PriorityOf(es', e) == l + |Select(order, high)| + k
  {
    SelectedPriority(es, order, low, k);
    PushedPriority(es, order, high, low, l, Select(order, low)[k]);
  }

  lemma PushedOrderAt(order: seq<nat>, high: set<nat>, low: set<nat>, l: nat, u: nat, i: nat)
    requires l <= u < |order| && |Select(order, high)| + |Select(order, low)| == u + 1 - l
    ensures var order', hs, ls := PushedOrder(order, high, low, l, u), Select(order, high), Select(order, low);
      && |order'| == |order|
      && (i < l || u < i < |order| ==> order'[i] == order[i])
      && (l <= i < l + |hs| ==> order'[i] == hs[i - l])
      && (l + |hs| <= i <= u ==> order'[i] == ls[i - l - |hs|])
  {
  }

  /** Pushing permutes the priorities. */
  lemma PushedCompressed(es: Edges, order: seq<nat>, high: set<nat>, low: set<nat>, l: nat, u: nat)
    requires Compressed(es, order) && l <= u < |order| && Splits(es, high, low, l, u)
    ensures Compressed(Pushed(es, order, high, low, l), PushedOrder(order, high, low, l, u))
    ensures |PushedOrder(order, high, low, l, u)| == |order|
  {
    var order', es' := PushedOrder(order, high, low, l, u), Pushed(es, order, high, low, l);
    PushedSizes(es, order, high, low, l, u);
    forall i | 0 <= i < |order'|
      ensures order'[i] in es' && PriorityOf(es', order'[i]) == i
    {
      PushedPlace(es, order, high, low, l, u, i);
    }
    forall e | e in es'
      ensures e in order'
    {
      PushedIsListed(es, order, high, low, l, u, e);
    }
  }

  lemma PushedIsListed(es: Edges, order: seq<nat>, high: set<nat>, low: set<nat>, l: nat, u: nat, e: nat)
    requires Compressed(es, order) && l <= u < |order| && Splits(es, high, low, l, u)
      && e in Pushed(es, order, high, low, l)
    ensures e in PushedOrder(order, high, low, l, u)
  {
    var order' := PushedOrder(order, high, low, l, u);
    var hs, ls := Select(order, high), Select(order, low);
    PushedSizes(es, order, high, low, l, u);
    PushedPriority(es, order, high, low, l, e);
    PlaceInOrder(es, order, e);
    var i := if e in high then l + IndexOf(hs, e) else if e in low then l + |hs| + IndexOf(ls, e) else es[e].priority;
    PushedOrderAt(order, high, low, l, u, i);
    assert order'[i] == e;
  }

  /** An edge with a priority from l to u stays in this range; another one keeps its priority. */
  predicate StaysInRange(es: Edges, es': Edges, high: set<nat>, low: set<nat>, l: nat, u: nat, e: nat) {
    if e in high || e in low then l <= PriorityOf(es', e) <= u else PriorityOf(es', e) == PriorityOf(es, e)
  }

  /** High edges go before low ones; within each kind, and outside, the order stays. */
  predicate KeepsOrder(es: Edges, es': Edges, high: set<nat>, low: set<nat>, e: nat, f: nat) {
    && (e in high && f in low ==> PriorityOf(es', e) < PriorityOf(es', f))
    && ((e in high <==> f in high) && (e in low <==> f in low) && PriorityOf(es, e) < PriorityOf(es, f)
        ==> PriorityOf(es', e) < PriorityOf(es', f))
  }

  ghost predicate PushedApart(es: Edges, es': Edges, high: set<nat>, low: set<nat>, l: nat, u: nat) {
    && (forall e {:trigger StaysInRange(es, es', high, low, l, u, e)} :: e in es ==>
      StaysInRange(es, es', high, low, l, u, e))
    && (forall e, f {:trigger KeepsOrder(es, es', high, low, e, f)} ::
          e in es && f in es ==> KeepsOrder(es, es', high, low, e, f))
  }

  lemma SelectionKeepsOrder(es: Edges, order: seq<nat>, ids: set<nat>, e: nat, f: nat)
    requires Compressed(es, order) && e in es && f in es && PriorityOf(es, e) < PriorityOf(es, f)
    requires var r := Select(order, ids); IndexOf(r, e) < |r| && IndexOf(r, f) < |r|
    ensures IndexOf(Select(order, ids), e) < IndexOf(Select(order, ids), f)
  {
    SelectSorted(es, order, ids);
  }

  lemma PushedStays(es: Edges, order: seq<nat>, high: set<nat>, low: set<nat>, l: nat, u: nat, e: nat)
    requires Compressed(es, order) && l <= u < |order| && Splits(es, high, low, l, u) && e in es
    ensures StaysInRange(es, Pushed(es, order, high, low, l), high, low, l, u, e)
  {
    PushedSizes(es, order, high, low, l, u);
    PushedPriority(es, order, high, low, l, e);
  }

  lemma PushedKeeps(es: Edges, order: seq<nat>, high: set<nat>, low: set<nat>, l: nat, u: nat, e: nat, f: nat)
    requires Compressed(es, order) && l <= u < |order| && Splits(es, high, low, l, u) && e in es && f in es
    ensures KeepsOrder(es, Pushed(es, order, high, low, l), high, low, e, f)
  {
    PushedPriority(es, order, high, low, l, e);
    PushedPriority(es, order, high, low, l, f);
    if PriorityOf(es, e) < PriorityOf(es, f) {
      if e in high && f in high {
        SelectionKeepsOrder(es, order, high, e, f);
      } else if e in low && f in low {
        SelectionKeepsOrder(es, order, low, e, f);
      }
    }
  }

  lemma PushedIsApart(es: Edges, order: seq<nat>, high: set<nat>, low: set<nat>, l: nat, u: nat)
    requires Compressed(es, order) && l <= u < |order| && Splits(es, high, low, l, u)
    ensures PushedApart(es, Pushed(es, order, high, low, l), high, low, l, u)
  {
    var es' := Pushed(es, order, high, low, l);
    forall e | e in es
      ensures StaysInRange(es, es', high, low, l, u, e)
    {
      PushedStays(es, order, high, low, l, u, e);
    }
    forall e, f | e in es && f in es
      ensures KeepsOrder(es, es', high, low, e, f)
    {
      PushedKeeps(es, order, high, low, l, u, e, f);
    }
  }

  // ---------------------------------------------------------------- predecessors

  /** f is the edge before e on the way from the root. */
  predicate Precedes(es: Edges, f: nat, e: nat) {
    Forward(es, f) && e in es && es[f].target == es[e].source
  }

  /** The edge before an edge has a higher priority. */
  ghost predicate PredecessorsFirst(es: Edges) {
    forall f, e {:trigger Precedes(es, f, e)} :: Precedes(es, f, e) ==> es[f].priority < es[e].priority
  }

  /** The chain of predecessors of e that have priorities strictly between l and u. */
  ghost predicate InChain(es: Edges, levels: Levels, x: nat, e: nat, l: nat, u: nat)
    requires e in es
    decreases LevelOf(levels, es[e].source)
  {
    x == e || exists f :: Linked(es, levels, f, e, l, u) && InChain(es, levels, x, f, l, u)
  }

  /** The edges that go before edge2 together with edge1, and the others from edge2 on up to edge1. */
  ghost predicate ChainAndRest(es: Edges, levels: Levels, edge1: nat, edge2: nat, high: set<nat>, low: set<nat>)
    requires edge1 in es && edge2 in es
  {
    && (forall x :: x in high <==> InChain(es, levels, x, edge1, es[edge2].priority, es[edge1].priority))
    && low == set e | e in es && e !in high && es[edge2].priority <= es[e].priority < es[edge1].priority
  }

  predicate Linked(es: Edges, levels: Levels, f: nat, e: nat, l: nat, u: nat) {
    Precedes(es, f, e) && LevelOf(levels, es[f].source) < LevelOf(levels, es[e].source) && l < es[f].priority < u
  }

  /** The chain is closed under predecessors in the interval, and lies on the way to e. */
  lemma {:induction false} ChainClosed(vs: set<nat>, es: Edges, levels: Levels, x: nat, e: nat, l: nat, u: nat)
    requires Forest(vs, es, levels) && e in es && InChain(es, levels, x, e, l, u)
    ensures x in es && (x == e || l < es[x].priority < u)
    ensures Reaches(es, levels, es[x].source, es[e].source)
    ensures forall f :: Precedes(es, f, x) && l < es[f].priority < u ==> InChain(es, levels, f, e, l, u)
    decreases LevelOf(levels, es[e].source)
  {
    if x == e {
      forall f | Precedes(es, f, x) && l < es[f].priority < u
        ensures InChain(es, levels, f, e, l, u)
      {
        assert Joins(vs, es, f, levels) && Linked(es, levels, f, e, l, u);
      }
    } else {
      var g :| Linked(es, levels, g, e, l, u) && InChain(es, levels, x, g, l, u);
      ChainClosed(vs, es, levels, x, g, l, u);
      assert EntersFrom(es, levels, g, es[e].source);
      assert Reaches(es, levels, es[g].source, es[e].source);
      ReachTransitive(es, levels, es[x].source, es[g].source, es[e].source);
    }
  }

  /** If no chain edge has its predecessor at l, pushing keeps predecessors first. */
  lemma PushKeepsPredecessors(es: Edges, es': Edges, high: set<nat>, low: set<nat>, l: nat, u: nat)
    requires PredecessorsFirst(es) && Splits(es, high, low, l, u) && PushedApart(es, es', high, low, l, u)
    requires es'.Keys == es.Keys && forall e :: e in es ==> es'[e] == es[e].(priority := es'[e].priority)
    requires forall f, e :: Precedes(es, f, e) && e in high && l <= es[f].priority <= u ==> f in high
    ensures PredecessorsFirst(es')
  {
    forall f, e | Precedes(es', f, e)
      ensures es'[f].priority < es'[e].priority
    {
      assert Precedes(es, f, e);
      assert StaysInRange(es, es', high, low, l, u, e) && StaysInRange(es, es', high, low, l, u, f);
      assert KeepsOrder(es, es', high, low, f, e);
    }
  }

  // ---------------------------------------------------------------- adding edges

  lemma LowestPriority(es: Edges, order: seq<nat>, e: nat, edge: Edge)
    requires Compressed(es, order) && e !in es && edge.priority == |order|
    ensures Compressed(es[e := edge], order + [e])
  {
    var es', order' := es[e := edge], order + [e];
    forall i | 0 <= i < |order'|
      ensures order'[i] in es' && PriorityOf(es', order'[i]) == i
    {
      if i < |order| {
        assert PriorityOf(es, order[i]) == i;
      }
    }
    forall f | f in es'
      ensures f in order'
    {
      if f != e {
        PlaceInOrder(es, order, f);
        assert order'[es[f].priority] == f;
      } else {
        assert order'[|order|] == e;
      }
    }
  }

  lemma GrownForest(vs: set<nat>, es: Edges, levels: Levels, e: nat, from: nat, to: nat, priority: nat)
    requires Forest(vs, es, levels) && (forall w :: !Orphan(vs, es, w)) && ROOT in vs
    requires e !in es && from in vs && to !in vs
    ensures var es' := es[e := Edge(from, to, false, priority)];
      Forest(vs + {to}, es', levels[to := LevelOf(levels, from) + 1]) && forall w :: !Orphan(vs + {to}, es', w)
  {
    var es', levels' := es[e := Edge(from, to, false, priority)], levels[to := LevelOf(levels, from) + 1];
    forall f | f in es'
      ensures Joins(vs + {to}, es', f, levels')
    {
      if f != e {
        assert Joins(vs, es, f, levels);
      }
    }
    forall f: nat, g: nat | Forward(es', f) && Forward(es', g) && es'[f].target == es'[g].target
      ensures f == g
    {
      if f != e && g != e {
        assert Forward(es, f) && Forward(es, g);
      } else {
        assert f != e ==> Joins(vs, es, f, levels);
        assert g != e ==> Joins(vs, es, g, levels);
      }
    }
    StillNoOrphans(vs, es, e, vs + {to}, es');
  }

  lemma LinkedForest(vs: set<nat>, es: Edges, levels: Levels, e: nat, from: nat, to: nat, priority: nat)
    requires Forest(vs, es, levels) && (forall w :: !Orphan(vs, es, w))
    requires e !in es && from in vs && to in vs
    ensures var es' := es[e := Edge(from, to, true, priority)];
      Forest(vs, es', levels) && forall w :: !Orphan(vs, es', w)
  {
    var es' := es[e := Edge(from, to, true, priority)];
    forall f | f in es'
      ensures Joins(vs, es', f, levels)
    {
      assert f != e ==> Joins(vs, es, f, levels);
    }
    forall f: nat, g: nat | Forward(es', f) && Forward(es', g) && es'[f].target == es'[g].target
      ensures f == g
    {
      assert Forward(es, f) && Forward(es, g);
    }
    forall w | w in vs && w != ROOT
      ensures !Orphan(vs, es', w)
    {
      assert !Orphan(vs, es, w);
      var f :| Forward(es, f) && es[f].target == w;
      assert Forward(es', f);
    }
  }

  lemma StillNoOrphans(vs: set<nat>, es: Edges, e: nat, vs': set<nat>, es': Edges)
    requires (forall w :: !Orphan(vs, es, w)) && e !in es && Forward(es', e)
    requires es' == es[e := es'[e]] && vs' == vs + {es'[e].target}
    ensures forall w :: !Orphan(vs', es', w)
  {
    forall w | w in vs && w != ROOT
      ensures !Orphan(vs', es', w)
    {
      assert !Orphan(vs, es, w);
      var f :| Forward(es, f) && es[f].target == w;
      assert Forward(es', f);
    }
  }

  /** A new edge with the lowest priority comes after its predecessor, and before nothing. */
  lemma NewLowest(vs: set<nat>, es: Edges, levels: Levels, order: seq<nat>, e: nat, edge: Edge)
    requires Forest(vs, es, levels) && Compressed(es, order) && PredecessorsFirst(es)
    requires e !in es && edge.priority == |order| && edge.source in vs
    requires !edge.backLink ==> edge.target !in vs
    ensures PredecessorsFirst(es[e := edge])
  {
    var es' := es[e := edge];
    forall f, g | Precedes(es', f, g)
      ensures es'[f].priority < es'[g].priority
    {
      if g == e {
        if f != e {
          PlaceInOrder(es, order, f);
        }
      } else {
        assert Joins(vs, es, g, levels);
        assert Precedes(es, f, g);
      }
    }
  }

  // ---------------------------------------------------------------- the graph

  datatype Outcome = Done | SameEdge | SamePath | StartMustBeLower

  class StrategyGraph {
    var vertices: set<nat>
    var edges: Edges
    var priorityAllocator: nat
    ghost var levels: Levels
    ghost var height: nat
    /** The edges in the order of their priorities. */
    ghost var order: seq<nat>

    /** The forward edges make a forest. */
    ghost predicate Shaped()
      reads `vertices, `edges, `levels, `height
    {
      && ROOT in vertices && Forest(vertices, edges, levels)
      && forall v {:trigger LevelOf(levels, v)} :: LevelOf(levels, v) <= height
    }

    /** The forward edges make a tree, and priorities say in which order to try the edges. */
    ghost predicate Valid()
      reads this
    {
      && Shaped() && (forall w :: !Orphan(vertices, edges, w))
      && Compressed(edges, order) && priorityAllocator == |order| && PredecessorsFirst(edges)
    }

    constructor ()
      ensures Valid() && vertices == {ROOT} && edges == map[]
    {
      vertices, edges, priorityAllocator := {ROOT}, map[], 0;
      levels, height, order := map[ROOT := 0], 0, [];
    }

    // -------------------------------------------------------------- adding

    /** Adds a vertex below another one; the new edge gets the lowest priority. */
    method AddSuccessor(e: nat, from: nat, to: nat)
      requires Valid() && e !in edges && from in vertices && to !in vertices
      modifies this
      ensures Valid() && vertices == old(vertices) + {to}
      ensures edges == old(edges)[e := Edge(from, to, false, old(priorityAllocator))]
    {
      ghost var vs, es, ls, list := vertices, edges, levels, order;
      vertices := vertices + {to};
      edges := edges[e := Edge(from, to, false, priorityAllocator)];
      priorityAllocator := priorityAllocator + 1;
      levels, order := levels[to := LevelOf(levels, from) + 1], order + [e];
      height := if LevelOf(ls, from) + 1 > height then LevelOf(ls, from) + 1 else height;
      assert forall v :: LevelOf(levels, v) == if v == to then LevelOf(ls, from) + 1 else LevelOf(ls, v);
      LowestPriority(es, list, e, edges[e]);
      GrownForest(vs, es, ls, e, from, to, priorityAllocator - 1);
      NewLowest(vs, es, ls, list, e, edges[e]);
    }

    /** Adds a back link, which must lead to a vertex that the link's source can be reached from. */
    method AddBackLink(e: nat, from: nat, to: nat) returns (added: bool)
      requires Valid() && e !in edges && from in vertices && to in vertices
      modifies `edges, `priorityAllocator, `order
      ensures Valid() && (added <==> Reaches(old(edges), levels, to, from))
      ensures edges == if added then old(edges)[e := Edge(from, to, true, old(priorityAllocator))] else old(edges)
    {
      added := HasPath(to, from);
      if added {
        ghost var es, list := edges, order;
        edges := edges[e := Edge(from, to, true, priorityAllocator)];
        priorityAllocator := priorityAllocator + 1;
        order := order + [e];
        LowestPriority(es, list, e, edges[e]);
        LinkedForest(vertices, es, levels, e, from, to, priorityAllocator - 1);
        NewLowest(vertices, es, levels, list, e, edges[e]);
      }
    }

    // -------------------------------------------------------------- queries

    /** Searches along forward edges. */
    method HasPath(from: nat, to: nat) returns (found: bool)
      requires Shaped() && from in vertices
      ensures found <==> Reaches(edges, levels, from, to)
      decreases height - LevelOf(levels, from)
    {
      if from == to {
        return true;
      }
      var outEdges := set e | e in edges && edges[e].source == from;
      var todo := outEdges;
      while todo != {}
        invariant todo <= outEdges
        invariant forall e :: e in outEdges && e !in todo && Forward(edges, e) ==>
          !Reaches(edges, levels, edges[e].target, to)
        decreases todo
      {
        var e :| e in todo;
        todo := todo - {e};
        if !edges[e].backLink {
          assert Joins(vertices, edges, e, levels);
          var further := HasPath(edges[e].target, to);
          if further {
            StepThenReach(vertices, edges, levels, e, to);
            return true;
          }
        }
      }
      found := false;
      if Reaches(edges, levels, from, to) {
        var e := FirstStep(edges, levels, from, to);
      }
    }

    /** The forward edge into a vertex. */
    method GetPredecessorEdge(v: nat) returns (edge: Option<nat>)
      ensures edge.Some? ==> Forward(edges, edge.value) && edges[edge.value].target == v
      ensures edge.None? ==> forall e :: Forward(edges, e) ==> edges[e].target != v
    {
      var inEdges := set e | e in edges && edges[e].target == v;
      var todo := inEdges;
      while todo != {}
        invariant todo <= inEdges
        invariant forall e :: e in inEdges && e !in todo ==> edges[e].backLink
        decreases todo
      {
        var e :| e in todo;
        if !edges[e].backLink {
          return Some(e);
        }
        todo := todo - {e};
      }
      edge := None;
    }

    /** Lists edges by priority, as `Collections.sort` does; no two edges have the same. */
    method SortByPriority(ids: set<nat>) returns (r: seq<nat>)
      requires Listed(edges, order) && forall e :: e in ids ==> e in edges
      ensures r == Select(order, ids)
    {
      r := [];
      var todo := ids;
      while todo != {}
        invariant todo <= ids && r + Select(order, todo) == Select(order, ids)
        decreases todo
      {
        var m := HighestPriority(todo);
        assert m in order;
        SelectFirst(edges, order, todo, m);
        assert r + ([m] + Select(order, todo - {m})) == (r + [m]) + Select(order, todo - {m});
        r := r + [m];
        todo := todo - {m};
      }
      SelectNone(order, {});
    }

    method HighestPriority(ids: set<nat>) returns (m: nat)
      requires ids != {} && forall e :: e in ids ==> e in edges
      ensures m in ids && forall e :: e in ids ==> PriorityOf(edges, m) <= PriorityOf(edges, e)
    {
      m :| m in ids;
      var todo := ids - {m};
      while todo != {}
        invariant todo <= ids && m in ids
        invariant forall e :: e in ids && e !in todo ==> PriorityOf(edges, m) <= PriorityOf(edges, e)
        decreases todo
      {
        var e :| e in todo;
        if edges[e].priority < edges[m].priority {
          m := e;
        }
        todo := todo - {e};
      }
    }

    // -------------------------------------------------------------- pushing

    /** Collects an edge and its predecessors, as long as these have priorities in the interval. */
    method CollectHigherPriorityEdges(edge: nat, lowerBound: nat, upperBound: nat) returns (edgeList: set<nat>)
      requires Shaped() && edge in edges
      ensures forall x :: x in edgeList <==> InChain(edges, levels, x, edge, lowerBound, upperBound)
      decreases LevelOf(levels, edges[edge].source)
    {
      edgeList := {edge};
      var predecessor := GetPredecessorEdge(edges[edge].source);
      if predecessor.Some? && lowerBound < edges[predecessor.value].priority < upperBound {
        var f := predecessor.value;
        assert Joins(vertices, edges, f, levels) && Linked(edges, levels, f, edge, lowerBound, upperBound);
        var rest := CollectHigherPriorityEdges(f, lowerBound, upperBound);
        edgeList := edgeList + rest;
        assert forall g :: Linked(edges, levels, g, edge, lowerBound, upperBound) ==> g == f;
      }
    }

    method AssignPriorities(list: seq<nat>, from: nat)
      requires forall i :: 0 <= i < |list| ==> list[i] in edges
      requires forall i, j :: 0 <= i < j < |list| ==> list[i] != list[j]
      modifies `edges
      ensures edges == Numbered(old(edges), list, from)
    {
      for k := 0 to |list|
        invariant edges == Numbered(old(edges), list[..k], from)
      {
        NumberedNext(old(edges), list, k, from);
        edges := edges[list[k] := edges[list[k]].(priority := from + k)];
      }
      assert list[..|list|] == list;
    }

    /** Whether the edges are on one path from the root, so that pushing must be refused. */
    ghost predicate OnSamePath(edge1: nat, edge2: nat)
      requires edge1 in edges && edge2 in edges
      reads `edges, `levels
    {
      || (!edges[edge1].backLink && Reaches(edges, levels, edges[edge1].target, edges[edge2].source))
      || (!edges[edge2].backLink && Reaches(edges, levels, edges[edge2].target, edges[edge1].source))
    }

    /**
     Puts edge1 before edge2, together with those of its predecessors that have to stay before
     it. The priorities stay 0, 1, 2 and so on, edges outside the interval keep theirs, and each
     edge still comes after its predecessor.
     */
    method PushPriority(edge1: nat, edge2: nat) returns (outcome: Outcome)
      requires Valid() && edge1 in edges && edge2 in edges
      modifies `edges, `order
      ensures Valid()
      ensures outcome == (if edge1 == edge2 then SameEdge else if old(OnSamePath(edge1, edge2)) then SamePath
        else if PriorityOf(old(edges), edge1) < PriorityOf(old(edges), edge2) then StartMustBeLower else Done)
      ensures outcome != Done ==> edges == old(edges)
      ensures outcome == Done ==> exists high, low ::
        ChainAndRest(old(edges), levels, edge1, edge2, high, low)
        && PushedApart(old(edges), edges, high, low, PriorityOf(old(edges), edge2), PriorityOf(old(edges), edge1))
      ensures outcome == Done ==> PriorityOf(edges, edge1) < PriorityOf(edges, edge2)
      ensures edges.Keys == old(edges).Keys
      ensures forall e :: e in edges ==> edges[e] == old(edges)[e].(priority := edges[e].priority)
      ensures forall e :: e in edges ==> (edges[e] == old(edges)[e]
        || PriorityOf(old(edges), edge2) <= old(edges)[e].priority <= PriorityOf(old(edges), edge1))
    {
      if edge1 == edge2 {
        return SameEdge;
      }
      var samePath := SamePathCheck(edge1, edge2);
      if samePath {
        return SamePath;
      }
      if edges[edge1].priority < edges[edge2].priority {
        return StartMustBeLower;
      }
      DifferentPriorities(edges, order, edge1, edge2);
      PushInterval(edge1, edge2);
      outcome := Done;
    }

    method SamePathCheck(edge1: nat, edge2: nat) returns (same: bool)
      requires Shaped() && edge1 in edges && edge2 in edges
      ensures same <==> OnSamePath(edge1, edge2)
    {
      assert Joins(vertices, edges, edge1, levels) && Joins(vertices, edges, edge2, levels);
      var below1, below2 := false, false;
      if !edges[edge1].backLink {
        below1 := HasPath(edges[edge1].target, edges[edge2].source);
      }
      if !below1 && !edges[edge2].backLink {
        below2 := HasPath(edges[edge2].target, edges[edge1].source);
      }
      same := below1 || below2;
    }

    method PushInterval(edge1: nat, edge2: nat)
      requires Valid() && edge1 in edges && edge2 in edges && !OnSamePath(edge1, edge2)
      requires edges[edge2].priority < edges[edge1].priority
      modifies `edges, `order
      ensures Valid() && PriorityOf(edges, edge1) < PriorityOf(edges, edge2)
      ensures exists high, low ::
        ChainAndRest(old(edges), levels, edge1, edge2, high, low)
        && PushedApart(old(edges), edges, high, low, PriorityOf(old(edges), edge2), PriorityOf(old(edges), edge1))
      ensures edges.Keys == old(edges).Keys
      ensures forall e :: e in edges ==> edges[e] == old(edges)[e].(priority := edges[e].priority)
      ensures forall e :: e in edges ==> (edges[e] == old(edges)[e]
        || PriorityOf(old(edges), edge2) <= old(edges)[e].priority <= PriorityOf(old(edges), edge1))
    {
      var lowerBound, upperBound := edges[edge2].priority, edges[edge1].priority;
      var higher := CollectHigherPriorityEdges(edge1, lowerBound, upperBound);
      var lower := set e | e in edges && e !in higher && lowerBound <= edges[e].priority < upperBound;
      ghost var es, list := edges, order;
      ChainSplits(edge1, edge2, higher, lower);
      Renumber(higher, lower, lowerBound, upperBound);
      assert ChainAndRest(es, levels, edge1, edge2, higher, lower);
      assert StaysInRange(es, edges, higher, lower, lowerBound, upperBound, edge1);
      assert KeepsOrder(es, edges, higher, lower, edge1, edge2);
      forall e | e in edges && !(lowerBound <= es[e].priority <= upperBound)
        ensures edges[e] == es[e]
      {
        assert StaysInRange(es, edges, higher, lower, lowerBound, upperBound, e);
      }
    }

    /** The chain of edge1, and what else is in the interval, make up the interval. */
    lemma ChainSplits(edge1: nat, edge2: nat, higher: set<nat>, lower: set<nat>)
      requires Valid() && edge1 in edges && edge2 in edges && !OnSamePath(edge1, edge2)
      requires edges[edge2].priority < edges[edge1].priority
      requires forall x :: x in higher <==>
        InChain(edges, levels, x, edge1, edges[edge2].priority, edges[edge1].priority)
      requires lower == set e | e in edges && e !in higher
        && edges[edge2].priority <= edges[e].priority < edges[edge1].priority
      ensures Splits(edges, higher, lower, edges[edge2].priority, edges[edge1].priority)
      ensures edge1 in higher && edge2 in lower && edges[edge1].priority < |order|
      ensures forall e :: e in higher || e in lower ==> e in edges
      ensures forall f, e ::
        Precedes(edges, f, e) && e in higher && edges[edge2].priority <= edges[f].priority <= edges[edge1].priority ==>
          f in higher
    {
      var l, u := edges[edge2].priority, edges[edge1].priority;
      assert InChain(edges, levels, edge1, edge1, l, u);
      PlaceInOrder(edges, order, edge1);
      forall e | e in higher
        ensures e in edges
      {
        ChainClosed(vertices, edges, levels, e, edge1, l, u);
      }
      forall e | e in edges
        ensures l <= edges[e].priority <= u <==> e in higher || e in lower
      {
        if InChain(edges, levels, e, edge1, l, u) {
          ChainClosed(vertices, edges, levels, e, edge1, l, u);
        } else if edges[e].priority == u {
          DifferentPriorities(edges, order, e, edge1);
        }
      }
      if InChain(edges, levels, edge2, edge1, l, u) {
        ChainClosed(vertices, edges, levels, edge2, edge1, l, u);
      }
      forall f, e | Precedes(edges, f, e) && e in higher && l <= edges[f].priority <= u
        ensures f in higher
      {
        ChainClosed(vertices, edges, levels, e, edge1, l, u);
        if edges[f].priority == l {
          if f != edge2 {
            DifferentPriorities(edges, order, f, edge2);
          }
        } else {
          assert edges[f].priority < edges[e].priority;
        }
      }
    }

    /** Gives the edges of the interval their new priorities, the higher ones first. */
    method Renumber(higher: set<nat>, lower: set<nat>, l: nat, u: nat)
      requires Valid() && l <= u < |order| && Splits(edges, higher, lower, l, u)
      requires forall e :: e in higher || e in lower ==> e in edges
      requires forall f, e :: Precedes(edges, f, e) && e in higher && l <= edges[f].priority <= u ==> f in higher
      modifies `edges, `order
      ensures Valid() && PushedApart(old(edges), edges, higher, lower, l, u)
      ensures edges.Keys == old(edges).Keys
      ensures forall e :: e in edges ==> edges[e] == old(edges)[e].(priority := edges[e].priority)
    {
      ghost var es, list := edges, order;
      AssignInOrder(higher, lower, l);
      OnlyPriorities(es, list, higher, lower, l);
      PushedCompressed(es, list, higher, lower, l, u);
      PushedIsApart(es, list, higher, lower, l, u);
      PushKeepsPredecessors(es, edges, higher, lower, l, u);
      order := PushedOrder(list, higher, lower, l, u);
      OnlyPrioritiesChange(vertices, es, edges, levels);
    }

    method AssignInOrder(higher: set<nat>, lower: set<nat>, l: nat)
      requires Compressed(edges, order)
      requires forall e :: e in higher || e in lower ==> e in edges
      modifies `edges
      ensures edges == old(Pushed(edges, order, higher, lower, l))
    {
      var hs := SortByPriority(higher);
      var ls := SortByPriority(lower);
      SelectDistinct(edges, order, higher);
      SelectDistinct(edges, order, lower);
      AssignPriorities(hs, l);
      AssignPriorities(ls, l + |hs|);
    }

    // -------------------------------------------------------------- removing

    /** Compresses the priorities, keeping the order. */
    method ClearUpPriorities()
      requires Listed(edges, order)
      modifies `edges, `priorityAllocator
      ensures Compressed(edges, order) && priorityAllocator == |order|
      ensures edges.Keys == old(edges).Keys
      ensures forall e :: e in edges ==> edges[e] == old(edges)[e].(priority := edges[e].priority)
      ensures forall e, f :: e in edges && f in edges && PriorityOf(old(edges), e) < PriorityOf(old(edges), f) ==>
        PriorityOf(edges, e) < PriorityOf(edges, f)
    {
      var edgeList := SortByPriority(edges.Keys);
      ghost var es := edges;
      SelectAll(order, edges.Keys);
      ListedDistinct(edges, order);
      AssignPriorities(edgeList, 0);
      NumberedCompresses(es, order);
      OnlyNumbers(es, order, 0);
      priorityAllocator := |edgeList|;
    }

    /** `super.removeVertex`: the vertex goes, with all edges at it. */
    method DropVertex(v: nat)
      requires Shaped() && v != ROOT
      modifies `vertices, `edges
      ensures Shaped() && vertices == old(vertices) - {v} && edges == Among(old(edges), vertices)
    {
      AmongForest(vertices, edges, levels, vertices - {v});
      vertices := vertices - {v};
      edges := map e | e in edges && edges[e].source in vertices && edges[e].target in vertices :: edges[e];
    }

    /**
     Removes a vertex, and then each neighbor that cannot be reached any more, and so on. Only
     vertices that cannot be reached without v are lost, and no orphans are left but old ones.
     */
    method RemoveNotConnectedVertices(v: nat, ghost orphans: set<nat>)
      requires Shaped() && v != ROOT
      requires forall w :: Orphan(vertices, edges, w) ==> w in orphans || w == v
      modifies `vertices, `edges
      ensures Shaped() && v !in vertices
      ensures Removing(old(vertices) - {v}, Among(old(edges), old(vertices) - {v}), levels, vertices, edges)
      ensures forall w :: Orphan(vertices, edges, w) ==> w in orphans
      decreases vertices
    {
      ghost var vs, es := vertices - {v}, Among(edges, vertices - {v});
      AmongAll(vertices, edges, levels);
      if v !in vertices {
        assert vertices - {v} == vertices;
        return;
      }
      var neighbors := Neighbors(edges, v);
      AllNewOrphans(vertices, edges, levels, v);
      DropVertex(v);
      AmongAmong(old(edges), vs, vs);
      var todo := neighbors;
      while todo != {}
        invariant todo <= neighbors && Shaped() && vertices <= vs
        invariant Removing(vs, es, levels, vertices, edges)
        invariant forall w :: Orphan(vertices, edges, w) ==> w in orphans || w in todo
        decreases todo
      {
        var w :| w in todo;
        todo := todo - {w};
        var connected := HasPath(ROOT, w);
        if !connected {
          RemoveUnreachable(vertices, edges, levels, w);
          ghost var vs1, es1 := vertices, edges;
          RemoveNotConnectedVertices(w, orphans + todo);
          RemovingTransitive(vs1, es1, levels, vs1 - {w}, Among(es1, vs1 - {w}), vertices, edges);
          RemovingTransitive(vs, es, levels, vs1, es1, vertices, edges);
        } else {
          ReachedIsNoOrphan(vertices, edges, levels, w);
        }
      }
    }

    /**
     Removes a vertex other than the root: what is left is exactly what can still be reached from
     the root by forward edges, with its edges in the same order of priorities.
     */
    method RemoveVertex(v: nat)
      requires Valid() && v != ROOT
      modifies `vertices, `edges, `priorityAllocator, `order
      ensures Valid()
      ensures var vs := old(vertices) - {v};
        forall w :: w in vertices <==> w in vs && Reaches(Among(old(edges), vs), levels, ROOT, w)
      ensures SameEdgesAmong(old(edges), vertices, edges)
    {
      ghost var vs, es, es0, list := vertices - {v}, Among(edges, vertices - {v}), edges, order;
      AmongForest(vertices, edges, levels, vs);
      RemoveNotConnectedVertices(v, {});
      RemovedExactly(vs, es, levels, vertices, edges);
      AmongAmong(es0, vs, vertices);
      FinishRemoval(es0, list);
    }

    /** Removes an edge, and whatever can only be reached through it. */
    method RemoveEdge(edge: nat)
      requires Valid()
      modifies `vertices, `edges, `priorityAllocator, `order
      ensures Valid()
      ensures forall w :: w in vertices <==> w in old(vertices) && Reaches(old(edges) - {edge}, levels, ROOT, w)
      ensures SameEdgesAmong(old(edges) - {edge}, vertices, edges)
    {
      if edge !in edges {
        assert edges - {edge} == edges;
        EverythingReached(vertices, edges, levels);
        AmongAll(vertices, edges, levels);
        return;
      }
      ghost var vs, es0, es, list := vertices, edges, edges - {edge}, order;
      assert Joins(vertices, edges, edge, levels);
      var successor := edges[edge].target;
      WithoutEdge(vertices, edges, levels, edge);
      edges := edges - {edge};
      AmongAll(vertices, edges, levels);
      var connected := HasPath(ROOT, successor);
      if !connected {
        RemoveUnreachable(vs, es, levels, successor);
        RemoveNotConnectedVertices(successor, {});
        RemovingTransitive(vs, es, levels, vs - {successor}, Among(es, vs - {successor}), vertices, edges);
      } else {
        ReachedIsNoOrphan(vertices, edges, levels, successor);
      }
      RemovedExactly(vs, es, levels, vertices, edges);
      ListedWithout(es0, list, es);
      PredecessorsWithout(es0, es);
      FinishRemoval(es, Select(list, es.Keys));
    }

    /** After vertices have been removed: the order of what is left, and new priorities. */
    method FinishRemoval(ghost es0: Edges, ghost list: seq<nat>)
      requires Shaped() && (forall w :: !Orphan(vertices, edges, w)) && edges == Among(es0, vertices)
      requires Listed(es0, list) && PredecessorsFirst(es0)
      modifies `edges, `priorityAllocator, `order
      ensures Valid() && SameEdgesAmong(es0, vertices, edges)
    {
      ghost var es := edges;
      ListedWithout(es0, list, edges);
      order := Select(list, edges.Keys);
      ClearUpPriorities();
      OnlyPrioritiesChange(vertices, es, edges, levels);
      CompressedKeepsPredecessors(es0, es, edges);
    }
  }

  lemma AmongAll(vs: set<nat>, es: Edges, levels: Levels)
    requires Forest(vs, es, levels)
    ensures Among(es, vs) == es
  {
    forall e | e in es
      ensures e in Among(es, vs)
    {
      assert Joins(vs, es, e, levels);
    }
  }

  lemma AllNewOrphans(vs: set<nat>, es: Edges, levels: Levels, x: nat)
    requires Forest(vs, es, levels)
    ensures forall w :: Orphan(vs - {x}, Among(es, vs - {x}), w) ==>
      w != x && (Orphan(vs, es, w) || w in Neighbors(es, x))
  {
    forall w | Orphan(vs - {x}, Among(es, vs - {x}), w)
      ensures Orphan(vs, es, w) || w in Neighbors(es, x)
    {
      NewOrphans(vs, es, levels, x, w);
    }
  }

  lemma ReachedIsNoOrphan(vs: set<nat>, es: Edges, levels: Levels, w: nat)
    requires Reaches(es, levels, ROOT, w)
    ensures !Orphan(vs, es, w)
  {
    if w != ROOT {
      var e :| EntersFrom(es, levels, e, w) && Reaches(es, levels, ROOT, es[e].source);
      assert Forward(es, e);
    }
  }

  lemma EverythingReached(vs: set<nat>, es: Edges, levels: Levels)
    requires Forest(vs, es, levels) && forall w :: !Orphan(vs, es, w)
    ensures forall v :: v in vs ==> Reaches(es, levels, ROOT, v)
  {
    forall v | v in vs
      ensures Reaches(es, levels, ROOT, v)
    {
      NoOrphansAllReached(vs, es, levels, v);
    }
  }

  /** Without an edge, at most its target is a new orphan. */
  lemma WithoutEdge(vs: set<nat>, es: Edges, levels: Levels, edge: nat)
    requires Forest(vs, es, levels) && edge in es && forall w :: !Orphan(vs, es, w)
    ensures Forest(vs, es - {edge}, levels)
    ensures forall w :: Orphan(vs, es - {edge}, w) ==> w == es[edge].target
    ensures !es[edge].backLink ==> es[edge].target != ROOT
  {
    var es' := es - {edge};
    assert Joins(vs, es, edge, levels);
    forall e | e in es'
      ensures Joins(vs, es', e, levels)
    {
      assert Joins(vs, es, e, levels);
    }
    forall e, f | Forward(es', e) && Forward(es', f) && es'[e].target == es'[f].target
      ensures e == f
    {
      assert Forward(es, e) && Forward(es, f);
    }
    forall w | Orphan(vs, es', w)
      ensures w == es[edge].target
    {
      assert !Orphan(vs, es, w);
      var e :| Forward(es, e) && es[e].target == w;
      assert e != edge ==> Forward(es', e);
    }
  }

  lemma {:induction false} SelectAll(order: seq<nat>, ids: set<nat>)
    requires forall i :: 0 <= i < |order| ==> order[i] in ids
    ensures Select(order, ids) == order
  {
    if order != [] {
      SelectAll(order[1..], ids);
      assert [order[0]] + order[1..] == order;
    }
  }

  /** Fewer edges are listed in the same order. */
  lemma ListedWithout(es: Edges, order: seq<nat>, es': Edges)
    requires Listed(es, order) && forall e :: e in es' ==> e in es && es'[e] == es[e]
    ensures Listed(es', Select(order, es'.Keys))
  {
    var r := Select(order, es'.Keys);
    SelectMembers(order, es'.Keys);
    SelectSorted(es, order, es'.Keys);
    forall e | e in es'
      ensures e in r
    {
      assert e in order;
    }
    assert forall i :: 0 <= i < |r| ==> PriorityOf(es', r[i]) == PriorityOf(es, r[i]);
  }

  lemma ListedDistinct(es: Edges, order: seq<nat>)
    requires Listed(es, order)
    ensures forall i, j :: 0 <= i < j < |order| ==> order[i] != order[j]
  {
  }

  /** Numbering the edges in their order compresses the priorities and keeps the order. */
  lemma NumberedCompresses(es: Edges, order: seq<nat>)
    requires Listed(es, order)
    ensures Compressed(Numbered(es, order, 0), order)
    ensures forall e, f :: e in es && f in es && PriorityOf(es, e) < PriorityOf(es, f) ==>
      PriorityOf(Numbered(es, order, 0), e) < PriorityOf(Numbered(es, order, 0), f)
  {
    var es' := Numbered(es, order, 0);
    forall i | 0 <= i < |order|
      ensures PriorityOf(es', order[i]) == i
    {
      IndexInAscending(es, order, i);
    }
    forall e, f | e in es && f in es && PriorityOf(es, e) < PriorityOf(es, f)
      ensures PriorityOf(es', e) < PriorityOf(es', f)
    {
      NumberedInOrder(es, order, e, f);
    }
  }

  lemma NumberedInOrder(es: Edges, order: seq<nat>, e: nat, f: nat)
    requires Listed(es, order) && e in es && f in es && PriorityOf(es, e) < PriorityOf(es, f)
    ensures PriorityOf(Numbered(es, order, 0), e) < PriorityOf(Numbered(es, order, 0), f)
  {
    assert e in order && f in order;
    var i, j := IndexOf(order, e), IndexOf(order, f);
    assert PriorityOf(es, order[i]) < PriorityOf(es, order[j]);
  }

  /** The edges among some vertices, as they were but for priorities, which are in the same order. */
  ghost predicate SameEdgesAmong(es: Edges, vs: set<nat>, es': Edges) {
    && es'.Keys == Among(es, vs).Keys
    && (forall e :: e in es' ==> es'[e] == es[e].(priority := es'[e].priority))
    && (forall e, f :: e in es' && f in es' && PriorityOf(es, e) < PriorityOf(es, f) ==>
          PriorityOf(es', e) < PriorityOf(es', f))
  }

  lemma OnlyNumbers(es: Edges, list: seq<nat>, from: nat)
    ensures var es' := Numbered(es, list, from);
      es'.Keys == es.Keys && forall e :: e in es ==> es'[e] == es[e].(priority := es'[e].priority)
  {
  }

  lemma PredecessorsWithout(es: Edges, es': Edges)
    requires PredecessorsFirst(es) && forall e :: e in es' ==> e in es && es'[e] == es[e]
    ensures PredecessorsFirst(es')
  {
    forall f, e | Precedes(es', f, e)
      ensures es'[f].priority < es'[e].priority
    {
      assert Precedes(es, f, e);
    }
  }

  lemma CompressedKeepsPredecessors(es0: Edges, es: Edges, es': Edges)
    requires PredecessorsFirst(es0) && es'.Keys == es.Keys
    requires forall e :: e in es ==> e in es0 && es[e] == es0[e] && es'[e] == es[e].(priority := es'[e].priority)
    requires forall e, f :: e in es && f in es && PriorityOf(es, e) < PriorityOf(es, f) ==>
      PriorityOf(es', e) < PriorityOf(es', f)
    ensures PredecessorsFirst(es')
  {
    forall f, e | Precedes(es', f, e)
      ensures es'[f].priority < es'[e].priority
    {
      assert Precedes(es0, f, e);
      assert PriorityOf(es, f) < PriorityOf(es, e);
    }
  }

  /** Numbering changes nothing but priorities. */
  lemma OnlyPriorities(es: Edges, order: seq<nat>, high: set<nat>, low: set<nat>, l: nat)
    ensures var es' := Pushed(es, order, high, low, l);
      es'.Keys == es.Keys && forall e :: e in es ==> es'[e] == es[e].(priority := es'[e].priority)
  {
  }

  lemma SelectDistinct(es: Edges, order: seq<nat>, ids: set<nat>)
    requires Compressed(es, order)
    ensures var r := Select(order, ids);
      && (forall i, j :: 0 <= i < j < |r| ==> r[i] != r[j])
      && (forall i :: 0 <= i < |r| ==> r[i] in es)
  {
    SelectSorted(es, order, ids);
    SelectMembers(order, ids);
  }

  /** The shape of the graph does not depend on priorities. */
  lemma OnlyPrioritiesChange(vs: set<nat>, es: Edges, es': Edges, levels: Levels)
    requires Forest(vs, es, levels) && es'.Keys == es.Keys
    requires forall e :: e in es ==> es'[e] == es[e].(priority := es'[e].priority)
    ensures Forest(vs, es', levels) && forall w :: Orphan(vs, es', w) ==> Orphan(vs, es, w)
  {
    forall e | e in es'
      ensures Joins(vs, es', e, levels)
    {
      assert Joins(vs, es, e, levels);
    }
    forall e, f | Forward(es', e) && Forward(es', f) && es'[e].target == es'[f].target
      ensures e == f
    {
      assert Forward(es, e) && Forward(es, f);
    }
    forall w | Orphan(vs, es', w)
      ensures Orphan(vs, es, w)
    {
      forall e | Forward(es, e)
        ensures es[e].target != w
      {
        assert Forward(es', e);
      }
    }
  }

  lemma DifferentPriorities(es: Edges, order: seq<nat>, e: nat, f: nat)
    requires Compressed(es, order) && e in es && f in es && e != f
    ensures es[e].priority != es[f].priority
  {
    PlaceInOrder(es, order, e);
    PlaceInOrder(es, order, f);
  }
}
