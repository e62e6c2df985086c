/**
 The reduction loop of the delta debugger: passes over the tree, each of which replaces the tree by
 the first proposal that the checker accepts, until no proposal is accepted any more.
 */
module DeltaProducers {
  import opened DeltaNodes
  import opened DeltaOperators
  import opened DeltaEdits
  import opened DeltaConsumers

  // ---------------------------------------------------------------- what one pass proposes

  /** Nodes that are left alone: the root, immutable ones, and declarations if they are put off. */
  predicate Skipped(root: Node, p: Path, o: Options)
    requires IsPath(root, p)
  {
    p == [] || Immutable(At(root, p)) || (o.delayDeclareFun && At(root, p).name == "declare-fun")
  }

  function Tries(root: Node, p: Path, nodes: seq<Node>, num: nat): seq<Item>
    requires IsPath(root, p) && p != []
  {
    seq(|nodes|, i requires 0 <= i < |nodes| => Try(Clone(root, p, [nodes[i]]), num))
  }

  /** A node without itself, and with each of its replacements in its place. */
  function Process(root: Node, p: Path, num: nat, o: Options): seq<Item>
    requires IsPath(root, p)
  {
    if Skipped(root, p, o) then []
    else
      var changes := Proposals(At(root, p), o);
      (if o.noRemoval then [] else [Try(Clone(root, p, []), num)])
      + Tries(root, p, changes.nodes, num)
      + if changes.throws then [Throw] else []
  }

  /** What is proposed at a place when it is visited. */
  type Processing = (Path, nat) -> seq<Item>

  function ProcessAt(root: Node, o: Options): Processing {
    (p: Path, num: nat) => if IsPath(root, p) then Process(root, p, num, o) else []
  }

  /** The first n places that a pass visits; those numbered up to skip are not processed. */
  function Items(order: seq<Path>, n: nat, skip: nat, process: Processing): seq<Item>
    requires n <= |order|
  {
    if n == 0 then []
    else
      Items(order, n - 1, skip, process) + [Visit]
      + if skip < n - 1 then process(order[n - 1], n - 1) else []
  }

  method Collect(order: seq<Path>, skip: nat, process: Processing) returns (items: seq<Item>)
    ensures items == Items(order, |order|, skip, process)
  {
    items := [];
    for num := 0 to |order|
      invariant items == Items(order, num, skip, process)
    {
      items := items + [Visit];
      if skip < num {
        items := items + process(order[num], num);
      }
    }
  }

  lemma {:induction false} InItems(order: seq<Path>, n: nat, skip: nat, process: Processing, item: Item)
    requires n <= |order|
    ensures item in Items(order, n, skip, process)
       <==> (item == Visit && n > 0) || exists k: nat :: skip < k < n && item in process(order[k], k)
    decreases n
  {
    if n > 0 {
      InItems(order, n - 1, skip, process, item);
      assert item in Items(order, n, skip, process)
        <==> item in Items(order, n - 1, skip, process) || item == Visit
             || (skip < n - 1 && item in process(order[n - 1], n - 1));
    }
  }

  // ---------------------------------------------------------------- edits

  /** The second tree is the first one after the edit of one node. */
  predicate IsEditAt(root: Node, p: Path, tree: Node, o: Options) {
    && Eligible(root, p) && IsPath(root, p) && !Skipped(root, p, o)
    && ((!o.noRemoval && tree == Clone(root, p, []))
        || exists m | m in Proposals(At(root, p), o).nodes :: tree == Clone(root, p, [m]))
  }

  ghost predicate IsEdit(root: Node, tree: Node, o: Options) {
    exists p :: IsEditAt(root, p, tree, o)
  }

  /** The checker rejects every edit of the tree. */
  ghost predicate LocallyMinimal(root: Node, passes: Node -> bool, o: Options) {
    forall tree :: IsEdit(root, tree, o) ==> !passes(tree)
  }

  /** The operators cannot cope with some node that is not skipped. */
  ghost predicate Unreadable(root: Node, o: Options) {
    exists p :: Eligible(root, p) && IsPath(root, p) && !Skipped(root, p, o) && Proposals(At(root, p), o).throws
  }

  /** Every edit makes the whole tree simpler. */
  lemma EditIsSimpler(root: Node, tree: Node, o: Options)
    requires IsEdit(root, tree, o)
    ensures Simpler(tree, root)
  {
    var p :| IsEditAt(root, p, tree, o);
    if tree == Clone(root, p, []) {
      RemovalIsSimpler(root, p);
    } else {
      var m :| m in Proposals(At(root, p), o).nodes && tree == Clone(root, p, [m]);
      ProposalsAreSimpler(At(root, p), o);
      ReplacementIsSimpler(root, p, m);
    }
  }

  lemma ProcessIs(root: Node, p: Path, num: nat, o: Options, tree: Node)
    requires Eligible(root, p) && IsPath(root, p)
    ensures Try(tree, num) in Process(root, p, num, o) <==> IsEditAt(root, p, tree, o)
  {
    if !Skipped(root, p, o) {
      var nodes := Proposals(At(root, p), o).nodes;
      var tries := Tries(root, p, nodes, num);
      if m :| m in nodes && tree == Clone(root, p, [m]) {
        var i :| 0 <= i < |nodes| && nodes[i] == m;
        assert tries[i] == Try(tree, num);
      }
      if Try(tree, num) in tries {
        var i :| 0 <= i < |tries| && tries[i] == Try(tree, num);
        assert nodes[i] in nodes;
      }
    }
  }

  lemma ProcessThrows(root: Node, p: Path, num: nat, o: Options)
    requires Eligible(root, p) && IsPath(root, p) && Throw in Process(root, p, num, o)
    ensures Unreadable(root, o)
  {
  }

  const UNNUMBERED :=
    Node("", [Node("_", [Leaf("zero_extend", false), Leaf("k", false)], true),
              Node("_", [Leaf("x", false), Leaf("1", false)], true)], true)

  /** In `((_ zero_extend k) (_ x 1))` the conversion of k to a number throws. */
  lemma IndexIsNoNumber(o: Options)
    ensures Proposals(UNNUMBERED, o).throws && Unreadable(Node("", [UNNUMBERED], true), o)
  {
    var root := Node("", [UNNUMBERED], true);
    assert Stoul("k") == Throws by {
      DigitsEnd("k", "", "k");
    }
    assert ZeroExtend(UNNUMBERED).throws;
    assert At(root, [0]) == UNNUMBERED && Eligible(root, [0]) && IsPath(root, [0]) && !Skipped(root, [0], o);
  }

  lemma ProcessNumbers(root: Node, p: Path, num: nat, o: Options, item: Item)
    requires IsPath(root, p) && item in Process(root, p, num, o)
    ensures item.Throw? || (item.Try? && item.num == num)
  {
  }

  /** A pass proposes edits only. */
  lemma ItemsAreEdits(root: Node, order: seq<Path>, skip: nat, o: Options, item: Item)
    requires forall i :: 0 <= i < |order| ==> Eligible(root, order[i]) && IsPath(root, order[i])
    requires item in Items(order, |order|, skip, ProcessAt(root, o))
    ensures item.Try? ==> IsEdit(root, item.tree, o)
    ensures item.Throw? ==> Unreadable(root, o)
  {
    InItems(order, |order|, skip, ProcessAt(root, o), item);
    if item != Visit {
      var k: nat :| skip < k < |order| && item in ProcessAt(root, o)(order[k], k);
      ProcessIsEdit(root, order[k], k, o, item);
    }
  }

  lemma ProcessIsEdit(root: Node, p: Path, num: nat, o: Options, item: Item)
    requires Eligible(root, p) && IsPath(root, p) && item in Process(root, p, num, o)
    ensures item.Try? ==> IsEdit(root, item.tree, o)
    ensures item.Throw? ==> Unreadable(root, o)
  {
    ProcessNumbers(root, p, num, o, item);
    match item
    case Try(tree, _) =>
      ProcessIs(root, p, num, o, tree);
    case Throw =>
      ProcessThrows(root, p, num, o);
    case Visit =>
  }

  /** A pass that skips nothing proposes every edit at the places it visits. */
  lemma EditsAreItems(root: Node, order: seq<Path>, o: Options, k: nat, tree: Node)
    requires 0 < k < |order| && IsEditAt(root, order[k], tree, o)
    ensures Try(tree, k) in Items(order, |order|, 0, ProcessAt(root, o))
  {
    ProcessIs(root, order[k], k, o, tree);
    assert Try(tree, k) in ProcessAt(root, o)(order[k], k);
    InItems(order, |order|, 0, ProcessAt(root, o), Try(tree, k));
  }

  lemma EditIsItem(root: Node, order: seq<Path>, o: Options, tree: Node) returns (k: nat)
    requires VisitsAll(root, order) && order != [] && order[0] == [] && IsEdit(root, tree, o)
    ensures Try(tree, k) in Items(order, |order|, 0, ProcessAt(root, o))
  {
    var p :| IsEditAt(root, p, tree, o);
    assert p in order;
    k :| 0 <= k < |order| && order[k] == p;
    EditsAreItems(root, order, o, k, tree);
  }

  lemma ThrowIsItem(root: Node, order: seq<Path>, o: Options)
    requires VisitsAll(root, order) && order != [] && order[0] == [] && Unreadable(root, o)
    ensures Throw in Items(order, |order|, 0, ProcessAt(root, o))
  {
    var p :| Eligible(root, p) && IsPath(root, p) && !Skipped(root, p, o) && Proposals(At(root, p), o).throws;
    assert p in order;
    var k :| 0 <= k < |order| && order[k] == p;
    ThrowAt(root, order, o, k);
  }

  lemma ThrowAt(root: Node, order: seq<Path>, o: Options, k: nat)
    requires 0 < k < |order| && IsPath(root, order[k]) && !Skipped(root, order[k], o)
      && Proposals(At(root, order[k]), o).throws
    ensures Throw in Items(order, |order|, 0, ProcessAt(root, o))
  {
    ProcessMayThrow(root, order[k], k, o);
    assert Throw in ProcessAt(root, o)(order[k], k);
    InItems(order, |order|, 0, ProcessAt(root, o), Throw);
  }

  lemma ProcessMayThrow(root: Node, p: Path, num: nat, o: Options)
    requires IsPath(root, p) && !Skipped(root, p, o) && Proposals(At(root, p), o).throws
    ensures Throw in Process(root, p, num, o)
  {
    assert Throw in [Throw];
  }

  /** A pass that skips nothing and finds nothing has tried everything. */
  lemma NothingFound(root: Node, order: seq<Path>, o: Options, c: Setup)
    requires VisitsAll(root, order) && order != [] && order[0] == []
    requires c.items == Items(order, |order|, 0, ProcessAt(root, o))
    requires forall i :: 0 <= i < |c.items| ==> !c.items[i].Throw? && (c.items[i].Try? ==> !Good(c, i))
    ensures LocallyMinimal(root, c.passes, o) && !Unreadable(root, o)
  {
    if Unreadable(root, o) {
      ThrowIsItem(root, order, o);
      assert false;
    }
    forall tree | IsEdit(root, tree, o) ensures !c.passes(tree) {
      var k := EditIsItem(root, order, o, tree);
      var i :| 0 <= i < |c.items| && c.items[i] == Try(tree, k);
      assert !Good(c, i);
    }
  }

  // ---------------------------------------------------------------- the loop

  datatype End = Finished | Interrupted | Failed

  /** The places of a tree in the order of a pass; the root comes first. */
  method Places(root: Node, depthFirst: bool) returns (order: seq<Path>)
    ensures VisitsAll(root, order) && order != [] && order[0] == []
    ensures forall i :: 0 <= i < |order| ==> IsPath(root, order[i]) && Eligible(root, order[i])
  {
    if depthFirst {
      order := DepthFirst(root, []);
      DepthFirstVisitsAll(root);
    } else {
      order := BreadthFirst(root);
      RootFirst(root, order);
    }
    forall i | 0 <= i < |order| ensures IsPath(root, order[i]) && Eligible(root, order[i]) {
      assert order[i] in order;
      EligibleIsPath(root, order[i]);
    }
  }

  lemma RootFirst(root: Node, order: seq<Path>)
    requires VisitsAll(root, order) && LevelByLevel(order)
    ensures order != [] && order[0] == []
  {
    assert Eligible(root, []);
    var k :| 0 <= k < |order| && order[k] == [];
    assert |order[0]| <= |order[k]|;
  }

  /** A tree, and the trees that it was reduced to one after the other. */
  ghost predicate Reduces(trace: seq<Node>, passes: Node -> bool, o: Options) {
    && trace != []
    && forall i :: 0 < i < |trace| ==>
         passes(trace[i]) && IsEdit(trace[i - 1], trace[i], o) && Simpler(trace[i], trace[i - 1])
  }

  lemma ReducesOn(trace: seq<Node>, passes: Node -> bool, o: Options, tree: Node)
    requires Reduces(trace, passes, o) && passes(tree) && IsEdit(trace[|trace| - 1], tree, o)
    ensures Reduces(trace + [tree], passes, o)
  {
    EditIsSimpler(trace[|trace| - 1], tree, o);
  }

  datatype PassEnd = Threw | Accepted(tree: Node, num: nat) | NothingAccepted

  /** One pass: an accepted edit and its number, or the news that there is none among those not skipped. */
  method Pass(root: Node, skip: nat, depthFirst: bool, limit: nat, passes: Node -> bool, o: Options)
    returns (r: PassEnd)
    requires limit > 0
    ensures r == Threw ==> Unreadable(root, o)
    ensures r.Accepted? ==> passes(r.tree) && IsEdit(root, r.tree, o)
    ensures r == NothingAccepted && skip == 0 ==> LocallyMinimal(root, passes, o) && !Unreadable(root, o)
  {
    var order := Places(root, depthFirst);
    var items := Collect(order, skip, ProcessAt(root, o));
    var c := Setup(items, limit, passes);
    ghost var schedule;
    var s;
    s, schedule := RunPass(c);
    if s.phase == Thrown {
      ItemsAreEdits(root, order, skip, o, items[s.pos]);
      r := Threw;
    } else if s.found {
      var item := items[s.result.value];
      ItemsAreEdits(root, order, skip, o, item);
      r := Accepted(item.tree, item.num);
    } else {
      InvVerdict(c, s);
      if skip == 0 {
        NothingFound(root, order, o, c);
      }
      r := NothingAccepted;
    }
  }

  /** No interruption was requested in the first passes. */
  predicate NotRequested(requested: nat -> bool, rounds: int) {
    forall r :: 1 <= r <= rounds ==> !requested(r)
  }

  /** It ends when every edit is rejected, or an operator throws, or on the first request. */
  ghost predicate Ends(end: End, root: Node, rounds: nat, requested: nat -> bool, passes: Node -> bool, o: Options) {
    && (end == Finished ==> LocallyMinimal(root, passes, o) && !Unreadable(root, o))
    && (end == Failed ==> Unreadable(root, o))
    && (end == Interrupted ==> requested(rounds))
    && NotRequested(requested, rounds - 1)
  }

  /** The trees so far, and how many passes there have been for them. */
  ghost predicate Traced(input: Node, root: Node, trace: seq<Node>, rounds: nat, restarts: nat, passes: Node -> bool,
                         o: Options) {
    && Reduces(trace, passes, o) && trace[0] == input && trace[|trace| - 1] == root
    && restarts <= 2 && |trace| <= rounds + 1 <= 2 * |trace| - 1 + restarts
  }

  lemma TracedOn(input: Node, root: Node, trace: seq<Node>, rounds: nat, restarts: nat, passes: Node -> bool,
                 o: Options, tree: Node)
    requires Traced(input, root, trace, rounds, restarts, passes, o) && restarts <= 1 && passes(tree)
      && IsEdit(root, tree, o)
    ensures Traced(input, tree, trace + [tree], rounds + 1, 0, passes, o) && Simpler(tree, root)
  {
    EditIsSimpler(root, tree, o);
    ReducesOn(trace, passes, o, tree);
  }

  /**
   The whole reduction. It ends however the checks are scheduled; every tree on the way is an edit
   of the one before it that the checker accepts, and no further edit of the last one is accepted.
   There are at most two passes for each of these trees. It is interrupted only on request, which
   is looked at after each pass that is not the last anyway.
   */
  method Reduce(input: Node, start: nat, depthFirst: bool, limit: nat, passes: Node -> bool, o: Options,
                requested: nat -> bool)
    returns (root: Node, rounds: nat, end: End, ghost trace: seq<Node>)
    requires limit > 0
    ensures rounds >= 1
    ensures Reduces(trace, passes, o) && trace[0] == input && trace[|trace| - 1] == root
    ensures Ends(end, root, rounds, requested, passes, o)
    ensures |trace| <= rounds + 1 <= 2 * |trace| + 1
  {
    root, trace, rounds, end := input, [input], 0, Interrupted;
    var skip: nat := start;
    ghost var restarts := 0;
    var going := true;
    while going
      invariant Traced(input, root, trace, rounds, restarts, passes, o)
      invariant going ==> restarts <= 1 && (restarts == 1 ==> skip == 0) && NotRequested(requested, rounds)
      invariant !going ==> rounds >= 1 && Ends(end, root, rounds, requested, passes, o)
      decreases going, Size(root), Count(root).inversions, Count(root).open, Count(root).weight, skip
    {
      rounds := rounds + 1;
      if skip > 0 {
        skip := skip - 1;
      }
      var r := Pass(root, skip, depthFirst, limit, passes, o);
      going := r.Accepted? || (r.NothingAccepted? && skip > 0);
      if r.Accepted? {
        TracedOn(input, root, trace, rounds - 1, restarts, passes, o, r.tree);
        root, skip, trace, restarts := r.tree, r.num, trace + [r.tree], 0;
      } else {
        skip, restarts := 0, restarts + 1;
      }
      if !going {
        end := if r.Threw? then Failed else Finished;
      } else if requested(rounds) {
        going, end := false, Interrupted;
      }
    }
  }
}
