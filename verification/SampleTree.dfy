/**
 The tree of samples as a value: what a node is, what its row of children is, and what the
 operations on trees keep.
 */
module SampleTrees {
  import opened Basics
  import opened Cells

  /** The root is its own parent; only the other nodes stand for sample points. */
  datatype TreeNode = TreeNode(sample: Sample, parent: nat, depth: nat, children: seq<nat>)

  type Tree = map<nat, TreeNode>

  const ROOT: nat := 0

  function SampleAt(tree: Tree, n: nat): Sample {
    if n in tree then tree[n].sample else Plain(0.0, false)
  }

  function RowOf(tree: Tree, ids: seq<nat>): (row: Row)
    ensures |row| == |ids|
    ensures forall i :: 0 <= i < |ids| ==> row[i] == SampleAt(tree, ids[i])
  {
    seq(|ids|, i requires 0 <= i < |ids| => SampleAt(tree, ids[i]))
  }

  function RowAt(tree: Tree, n: nat): Row {
    if n in tree then RowOf(tree, tree[n].children) else []
  }

  /** Children and parents agree, and depths count the steps from the root. */
  ghost predicate WellFormed(tree: Tree) {
    && ROOT in tree && tree[ROOT].depth == 0 && tree[ROOT].parent == ROOT
    && (forall n :: n in tree ==> Distinct(tree[n].children))
    && (forall n, i {:trigger IsChild(tree, tree[n].children[i], n)} ::
          n in tree && 0 <= i < |tree[n].children| ==> IsChild(tree, tree[n].children[i], n))
    && (forall n {:trigger HasParent(tree, n)} :: n in tree && n != ROOT ==> HasParent(tree, n))
  }

  predicate IsChild(tree: Tree, c: nat, n: nat) {
    c in tree && c != ROOT && n in tree && tree[c].parent == n && tree[c].depth == tree[n].depth + 1
  }

  predicate HasParent(tree: Tree, n: nat) {
    && n in tree && tree[n].parent in tree
    && tree[n].depth == tree[tree[n].parent].depth + 1
    && n in tree[tree[n].parent].children
  }

  /** Every row is a complete decomposition of the real line, or there is none yet. */
  ghost predicate AllComplete(tree: Tree) {
    forall n {:trigger Complete(RowAt(tree, n))} :: n in tree ==> Complete(RowAt(tree, n))
  }

  /** The sample point that a node stands for, from the first coordinate on. */
  function Path(tree: Tree, n: nat): seq<real>
    decreases if n in tree then tree[n].depth else 0
  {
    if n !in tree || n == ROOT || tree[n].parent !in tree || tree[n].depth != tree[tree[n].parent].depth + 1 then []
    else Path(tree, tree[n].parent) + [tree[n].sample.value]
  }

  /** A point has as many coordinates as its node is deep. */
  lemma {:induction false} PathLength(tree: Tree, n: nat)
    requires WellFormed(tree) && n in tree
    ensures |Path(tree, n)| == tree[n].depth
    decreases tree[n].depth
  {
    if n != ROOT {
      assert HasParent(tree, n);
      PathLength(tree, tree[n].parent);
    }
  }

  /** Nodes stay where they are: what an operation on samples or on children leaves in place. */
  predicate SamePlace(t: TreeNode, t': TreeNode) {
    t'.parent == t.parent && t'.depth == t.depth && t'.sample.value == t.sample.value
  }

  lemma {:induction false} SamePath(tree: Tree, tree': Tree, n: nat)
    requires WellFormed(tree) && n in tree
    requires forall m :: m in tree && m in tree' ==> SamePlace(tree[m], tree'[m])
    requires forall m :: m in tree && m != ROOT && m in tree' ==> tree[m].parent in tree'
    requires n in tree'
    ensures Path(tree', n) == Path(tree, n)
    decreases tree[n].depth
  {
    if n != ROOT {
      assert HasParent(tree, n);
      SamePath(tree, tree', tree[n].parent);
    }
  }

  // ---------------------------------------------------------------- adding a child

  function InsertId(ids: seq<nat>, pos: nat, id: nat): seq<nat>
    requires pos <= |ids|
  {
    ids[..pos] + [id] + ids[pos..]
  }

  function AddChild(tree: Tree, p: nat, pos: nat, id: nat, s: Sample): Tree
    requires p in tree && pos <= |tree[p].children|
  {
    tree[p := tree[p].(children := InsertId(tree[p].children, pos, id))]
        [id := TreeNode(s, p, tree[p].depth + 1, [])]
  }

  /** Only p has got more children, and only samples of its children have been merged with others. */
  ghost predicate GrownAt(tree: Tree, tree': Tree, p: nat) {
    && p in tree
    && (forall n :: n in tree ==> n in tree' && Stays(tree[n], tree'[n], n, p))
    && (forall n :: n in tree' && n !in tree ==> NewChild(tree'[n], p))
  }

  predicate Stays(t: TreeNode, t': TreeNode, n: nat, p: nat) {
    && SamePlace(t, t') && SameBits(t.sample, t'.sample) && KeepsMarks(t.sample, t'.sample)
    && (n != p ==> t'.children == t.children)
    && (n == ROOT || t.parent != p ==> t'.sample == t.sample)
  }

  predicate SameBits(s: Sample, s': Sample) {
    s'.evaluatedWith == s.evaluatedWith && s'.evaluationResult == s.evaluationResult
  }

  predicate KeepsMarks(s: Sample, s': Sample) {
    (s.isRoot ==> s'.isRoot) && s.rootOf <= s'.rootOf && s.liftedWith <= s'.liftedWith
  }

  predicate NewChild(t: TreeNode, p: nat) {
    t.parent == p && t.children == [] && t.sample.evaluatedWith == {} && t.sample.evaluationResult == {}
  }

  lemma GrownAtReflexive(tree: Tree, p: nat)
    requires p in tree
    ensures GrownAt(tree, tree, p)
  {
  }

  lemma GrownAtTransitive(tree: Tree, tree': Tree, tree'': Tree, p: nat)
    requires GrownAt(tree, tree', p) && GrownAt(tree', tree'', p)
    requires WellFormed(tree) && WellFormed(tree')
    ensures GrownAt(tree, tree'', p)
  {
    forall n | n in tree'' && n !in tree
      ensures NewChild(tree''[n], p)
    {
      if n in tree' {
        assert NewChild(tree'[n], p);
        assert HasParent(tree', n);
      }
    }
  }

  lemma InsertIdIndex(ids: seq<nat>, pos: nat, id: nat)
    requires pos <= |ids|
    ensures var r := InsertId(ids, pos, id);
      && |r| == |ids| + 1 && r[pos] == id
      && (forall i :: 0 <= i < pos ==> r[i] == ids[i])
      && (forall i :: pos < i < |r| ==> r[i] == ids[i - 1])
  {
  }

  lemma InsertIdDistinct(ids: seq<nat>, pos: nat, id: nat)
    requires pos <= |ids| && Distinct(ids) && forall i :: 0 <= i < |ids| ==> ids[i] != id
    ensures Distinct(InsertId(ids, pos, id))
  {
    InsertIdIndex(ids, pos, id);
  }

  lemma AddChildLinks(tree: Tree, p: nat, pos: nat, id: nat, s: Sample, n: nat)
    requires WellFormed(tree) && p in tree && pos <= |tree[p].children| && id !in tree
    ensures var tree' := AddChild(tree, p, pos, id, s);
      n in tree' ==> (Distinct(tree'[n].children)
        && forall i :: 0 <= i < |tree'[n].children| ==> IsChild(tree', tree'[n].children[i], n))
  {
    var tree' := AddChild(tree, p, pos, id, s);
    if n in tree {
      forall i | 0 <= i < |tree[n].children|
        ensures IsChild(tree', tree[n].children[i], n) && tree[n].children[i] != id
      {
        assert IsChild(tree, tree[n].children[i], n);
      }
      InsertIdIndex(tree[p].children, pos, id);
      if n == p {
        InsertIdDistinct(tree[p].children, pos, id);
      }
    }
  }

  lemma AddChildParent(tree: Tree, p: nat, pos: nat, id: nat, s: Sample, n: nat)
    requires WellFormed(tree) && p in tree && pos <= |tree[p].children| && id !in tree
    requires n in AddChild(tree, p, pos, id, s) && n != ROOT
    ensures HasParent(AddChild(tree, p, pos, id, s), n)
  {
    var ids := tree[p].children;
    InsertIdIndex(ids, pos, id);
    if n != id {
      assert HasParent(tree, n);
      if tree[n].parent == p {
        var i :| 0 <= i < |ids| && ids[i] == n;
        assert InsertId(ids, pos, id)[if i < pos then i else i + 1] == n;
      }
    } else {
      assert InsertId(ids, pos, id)[pos] == n;
    }
  }

  lemma AddChildWellFormed(tree: Tree, p: nat, pos: nat, id: nat, s: Sample)
    requires WellFormed(tree) && p in tree && pos <= |tree[p].children| && id !in tree
    ensures WellFormed(AddChild(tree, p, pos, id, s))
  {
    var tree' := AddChild(tree, p, pos, id, s);
    forall n | n in tree'
      ensures Distinct(tree'[n].children)
      ensures forall i :: 0 <= i < |tree'[n].children| ==> IsChild(tree', tree'[n].children[i], n)
      ensures n != ROOT ==> HasParent(tree', n)
    {
      AddChildLinks(tree, p, pos, id, s, n);
      if n != ROOT {
        AddChildParent(tree, p, pos, id, s, n);
      }
    }
  }

  lemma AddChildRows(tree: Tree, p: nat, pos: nat, id: nat, s: Sample)
    requires WellFormed(tree) && p in tree && pos <= |tree[p].children| && id !in tree
    ensures RowAt(AddChild(tree, p, pos, id, s), p) == InsertAt(RowAt(tree, p), pos, s)
  {
    var tree' := AddChild(tree, p, pos, id, s);
    var ids := tree[p].children;
    InsertIdIndex(ids, pos, id);
    InsertAtIndex(RowAt(tree, p), pos, s);
    forall i | 0 <= i < |ids|
      ensures SampleAt(tree', ids[i]) == RowAt(tree, p)[i]
    {
      assert IsChild(tree, ids[i], p);
    }
  }

  lemma AddChildGrows(tree: Tree, p: nat, pos: nat, id: nat, s: Sample)
    requires WellFormed(tree) && p in tree && pos <= |tree[p].children| && id !in tree
    requires s.evaluatedWith == s.evaluationResult == {}
    ensures GrownAt(tree, AddChild(tree, p, pos, id, s), p)
  {
  }

  /** Rows of other nodes are not touched. */
  lemma OtherRows(tree: Tree, tree': Tree, p: nat, n: nat)
    requires WellFormed(tree) && GrownAt(tree, tree', p) && n in tree && n != p
    ensures RowAt(tree', n) == RowAt(tree, n)
  {
    forall i | 0 <= i < |tree[n].children|
      ensures SampleAt(tree', tree[n].children[i]) == SampleAt(tree, tree[n].children[i])
    {
      assert IsChild(tree, tree[n].children[i], n);
    }
  }

  // ---------------------------------------------------------------- changing a sample

  function SetSample(tree: Tree, n: nat, s: Sample): Tree
    requires n in tree
  {
    tree[n := tree[n].(sample := s)]
  }

  lemma SetSampleWellFormed(tree: Tree, n: nat, s: Sample)
    requires WellFormed(tree) && n in tree
    ensures WellFormed(SetSample(tree, n, s))
  {
    var tree' := SetSample(tree, n, s);
    forall m, i | m in tree' && 0 <= i < |tree'[m].children|
      ensures IsChild(tree', tree'[m].children[i], m)
    {
      assert IsChild(tree, tree[m].children[i], m);
    }
    forall m | m in tree' && m != ROOT
      ensures HasParent(tree', m)
    {
      assert HasParent(tree, m);
    }
  }

  lemma SetSampleRow(tree: Tree, p: nat, i: nat, s: Sample)
    requires WellFormed(tree) && p in tree && i < |tree[p].children|
    ensures tree[p].children[i] in tree
    ensures RowAt(SetSample(tree, tree[p].children[i], s), p) == RowAt(tree, p)[i := s]
  {
    var c := tree[p].children[i];
    assert IsChild(tree, c, p);
    assert Distinct(tree[p].children);
  }

  lemma MergeGrows(tree: Tree, p: nat, i: nat, s: Sample)
    requires WellFormed(tree) && p in tree && i < |tree[p].children|
    ensures var c := tree[p].children[i];
      && c in tree && GrownAt(tree, SetSample(tree, c, tree[c].sample.Merge(s)), p)
  {
    assert IsChild(tree, tree[p].children[i], p);
  }

  // ---------------------------------------------------------------- withdrawing polynomials

  function Unmarked(s: Sample, depth: nat, level: nat, mask: set<nat>): Sample {
    if depth + 1 == level then s.(liftedWith := s.liftedWith - mask)
    else if depth == level && s.isRoot then s.(rootOf := s.rootOf - mask)
    else s
  }

  /** Forgets the polynomials of the mask, in root samples of the level and one level above. */
  function Unmark(tree: Tree, level: nat, mask: set<nat>): Tree {
    map n | n in tree :: tree[n].(sample := Unmarked(tree[n].sample, tree[n].depth, level, mask))
  }

  predicate OnlyMarks(t: TreeNode, t': TreeNode) {
    && SamePlace(t, t') && SameBits(t.sample, t'.sample)
    && t'.children == t.children && t'.sample.isRoot == t.sample.isRoot
  }

  lemma UnmarkKeeps(tree: Tree, level: nat, mask: set<nat>)
    requires WellFormed(tree)
    ensures var tree' := Unmark(tree, level, mask);
      && WellFormed(tree') && tree'.Keys == tree.Keys
      && forall n :: n in tree ==> OnlyMarks(tree[n], tree'[n])
  {
    var tree' := Unmark(tree, level, mask);
    forall n, i | n in tree' && 0 <= i < |tree'[n].children|
      ensures IsChild(tree', tree'[n].children[i], n)
    {
      assert IsChild(tree, tree[n].children[i], n);
    }
    forall n | n in tree' && n != ROOT
      ensures HasParent(tree', n)
    {
      assert HasParent(tree, n);
    }
  }

  lemma UnmarkComplete(tree: Tree, level: nat, mask: set<nat>, n: nat)
    requires WellFormed(tree) && n in tree && Complete(RowAt(tree, n))
    ensures Complete(RowAt(Unmark(tree, level, mask), n))
  {
    SameShapeRow(tree, Unmark(tree, level, mask), n);
  }

  /** A root sample that no polynomial has as a root any more. */
  predicate IsGone(s: Sample) {
    s.isRoot && s.rootOf == {}
  }

  /** The sample right of a node among its siblings. */
  function RightOf(tree: Tree, n: nat): Sample {
    if n in tree && tree[n].parent in tree then
      var ids := tree[tree[n].parent].children;
      var i := IndexOf(ids, n);
      if i + 1 < |ids| then SampleAt(tree, ids[i + 1]) else Plain(0.0, false)
    else Plain(0.0, false)
  }

  /** The sibling left of a node. */
  function LeftSibling(tree: Tree, n: nat): nat {
    if n in tree && tree[n].parent in tree then
      var ids := tree[tree[n].parent].children;
      var i := IndexOf(ids, n);
      if 0 < i < |ids| then ids[i - 1] else n
    else n
  }

  /** The gone root samples among some nodes, and their left siblings. */
  function Doomed(tree: Tree, nodes: set<nat>): set<nat> {
    (set n | n in nodes && IsGone(SampleAt(tree, n)))
    + (set n | n in nodes && IsGone(SampleAt(tree, n)) :: LeftSibling(tree, n))
  }

  /** What is erased at a level: root samples that are gone, and samples left of such. */
  function DeadAt(tree: Tree, level: nat): set<nat> {
    set n | n in tree && tree[n].depth == level && (IsGone(tree[n].sample) || IsGone(RightOf(tree, n)))
  }

  function Live(ids: seq<nat>, dead: set<nat>): seq<nat> {
    if ids == [] then [] else (if ids[0] in dead then [] else [ids[0]]) + Live(ids[1..], dead)
  }

  lemma {:induction false} LiveMembers(ids: seq<nat>, dead: set<nat>)
    ensures forall i :: 0 <= i < |Live(ids, dead)| ==> Live(ids, dead)[i] in ids && Live(ids, dead)[i] !in dead
    ensures forall i :: 0 <= i < |ids| && ids[i] !in dead ==> ids[i] in Live(ids, dead)
    ensures Distinct(ids) ==> Distinct(Live(ids, dead))
  {
    if ids != [] {
      var tail, rest := ids[1..], Live(ids[1..], dead);
      LiveMembers(tail, dead);
      forall i | 0 <= i < |rest|
        ensures rest[i] in ids && (Distinct(ids) ==> rest[i] != ids[0])
      {
        var j :| 0 <= j < |tail| && tail[j] == rest[i];
        assert ids[j + 1] == rest[i];
      }
      assert forall i :: 0 < i < |ids| ==> ids[i] == tail[i - 1];
    }
  }

  lemma {:induction false} LiveAll(ids: seq<nat>, dead: set<nat>)
    requires forall i :: 0 <= i < |ids| ==> ids[i] !in dead
    ensures Live(ids, dead) == ids
  {
    if ids != [] {
      LiveAll(ids[1..], dead);
      assert ids == [ids[0]] + ids[1..];
    }
  }

  /** Of a non-root sample and the root sample to its right, both are dead or neither. */
  predicate PairDead(tree: Tree, ids: seq<nat>, dead: set<nat>, i: nat)
    requires i < |ids|
  {
    ids[i] in dead <==>
      if i % 2 == 1 then IsGone(SampleAt(tree, ids[i])) else i + 1 < |ids| && IsGone(SampleAt(tree, ids[i + 1]))
  }

  predicate DeadInPairs(tree: Tree, ids: seq<nat>, dead: set<nat>) {
    forall i :: 0 <= i < |ids| ==> PairDead(tree, ids, dead, i)
  }

  lemma PairsOfTail(tree: Tree, ids: seq<nat>, dead: set<nat>)
    requires |ids| >= 2 && DeadInPairs(tree, ids, dead)
    ensures DeadInPairs(tree, ids[2..], dead)
    ensures ids[0] in dead <==> ids[1] in dead
    ensures ids[1] in dead <==> IsGone(SampleAt(tree, ids[1]))
  {
    forall i | 0 <= i < |ids[2..]|
      ensures PairDead(tree, ids[2..], dead, i)
    {
      assert PairDead(tree, ids, dead, i + 2);
    }
    assert PairDead(tree, ids, dead, 0) && PairDead(tree, ids, dead, 1);
  }

  /** Erasing what is dead among some children is what `Withdraw` does to their row. */
  lemma {:induction false} LiveWithdraws(tree: Tree, ids: seq<nat>, dead: set<nat>)
    requires Alternates(RowOf(tree, ids)) && DeadInPairs(tree, ids, dead)
    ensures RowOf(tree, Live(ids, dead)) == Withdraw(RowOf(tree, ids), IsGone)
    decreases |ids|
  {
    var row := RowOf(tree, ids);
    if |ids| == 1 {
      assert PairDead(tree, ids, dead, 0);
      LiveAll(ids, dead);
    } else {
      var tail := ids[2..];
      TwoAndRest(row);
      assert RowOf(tree, tail) == row[2..];
      PairsOfTail(tree, ids, dead);
      LiveWithdraws(tree, tail, dead);
      LiveTwo(ids, dead);
      RowOfTwo(tree, ids[0], ids[1], Live(tail, dead));
      assert row[..2] == [row[0], row[1]];
    }
  }

  lemma RowOfTwo(tree: Tree, m: nat, n: nat, ids: seq<nat>)
    ensures RowOf(tree, [m, n] + ids) == [SampleAt(tree, m), SampleAt(tree, n)] + RowOf(tree, ids)
  {
  }

  lemma LiveTwo(ids: seq<nat>, dead: set<nat>)
    requires |ids| >= 2 && (ids[0] in dead <==> ids[1] in dead)
    ensures Live(ids, dead) == (if ids[1] in dead then [] else [ids[0], ids[1]]) + Live(ids[2..], dead)
  {
    assert ids[1..][0] == ids[1] && ids[1..][1..] == ids[2..];
  }

  // ---------------------------------------------------------------- erasing subtrees

  /** The ancestor at a depth, or the node itself if it is not as deep. */
  function AncestorAt(tree: Tree, n: nat, depth: nat): nat
    decreases if n in tree then tree[n].depth else 0
  {
    if n in tree && tree[n].depth > depth && HasParent(tree, n) then AncestorAt(tree, tree[n].parent, depth) else n
  }

  predicate Under(tree: Tree, n: nat, dead: set<nat>, level: nat) {
    n in tree && tree[n].depth >= level && AncestorAt(tree, n, level) in dead
  }

  /** The tree without the subtrees of some nodes, which are all at one level. */
  function Prune(tree: Tree, dead: set<nat>, level: nat): Tree {
    map n | n in tree && !Under(tree, n, dead, level) :: tree[n].(children := Live(tree[n].children, dead))
  }

  predicate AtLevel(tree: Tree, dead: set<nat>, level: nat) {
    forall n :: n in dead ==> n in tree && tree[n].depth == level
  }

  lemma UnderParent(tree: Tree, n: nat, dead: set<nat>, level: nat)
    requires WellFormed(tree) && AtLevel(tree, dead, level) && level > 0 && n in tree && n != ROOT
    ensures tree[n].parent in tree
    ensures Under(tree, n, dead, level) <==> n in dead || Under(tree, tree[n].parent, dead, level)
  {
    assert HasParent(tree, n);
  }

  lemma PruneLinks(tree: Tree, dead: set<nat>, level: nat, n: nat)
    requires WellFormed(tree) && AtLevel(tree, dead, level) && level > 0
    requires n in Prune(tree, dead, level)
    ensures var tree' := Prune(tree, dead, level);
      && Distinct(tree'[n].children)
      && forall i :: 0 <= i < |tree'[n].children| ==> IsChild(tree', tree'[n].children[i], n)
  {
    var tree' := Prune(tree, dead, level);
    var ids, ids' := tree[n].children, tree'[n].children;
    LiveMembers(ids, dead);
    forall i | 0 <= i < |ids'|
      ensures IsChild(tree', ids'[i], n)
    {
      var j :| 0 <= j < |ids| && ids[j] == ids'[i];
      assert IsChild(tree, ids[j], n);
      UnderParent(tree, ids[j], dead, level);
    }
  }

  lemma PruneParent(tree: Tree, dead: set<nat>, level: nat, n: nat)
    requires WellFormed(tree) && AtLevel(tree, dead, level) && level > 0
    requires n in Prune(tree, dead, level) && n != ROOT
    ensures HasParent(Prune(tree, dead, level), n)
  {
    assert HasParent(tree, n);
    UnderParent(tree, n, dead, level);
    LiveMembers(tree[tree[n].parent].children, dead);
  }

  lemma PruneWellFormed(tree: Tree, dead: set<nat>, level: nat)
    requires WellFormed(tree) && AtLevel(tree, dead, level) && level > 0
    ensures WellFormed(Prune(tree, dead, level))
  {
    var tree' := Prune(tree, dead, level);
    forall n | n in tree'
      ensures Distinct(tree'[n].children)
      ensures forall i :: 0 <= i < |tree'[n].children| ==> IsChild(tree', tree'[n].children[i], n)
      ensures n != ROOT ==> HasParent(tree', n)
    {
      PruneLinks(tree, dead, level, n);
      if n != ROOT {
        PruneParent(tree, dead, level, n);
      }
    }
  }

  lemma PruneRow(tree: Tree, dead: set<nat>, level: nat, n: nat)
    requires WellFormed(tree) && AtLevel(tree, dead, level) && level > 0
    requires n in Prune(tree, dead, level)
    ensures RowAt(Prune(tree, dead, level), n) == RowOf(tree, Live(tree[n].children, dead))
    ensures tree[n].depth + 1 != level ==> RowAt(Prune(tree, dead, level), n) == RowAt(tree, n)
  {
    var tree', ids' := Prune(tree, dead, level), Live(tree[n].children, dead);
    PruneLinks(tree, dead, level, n);
    forall i | 0 <= i < |ids'|
      ensures SampleAt(tree', ids'[i]) == SampleAt(tree, ids'[i])
    {
      assert IsChild(tree', ids'[i], n);
    }
    if tree[n].depth + 1 != level {
      forall i | 0 <= i < |tree[n].children|
        ensures tree[n].children[i] !in dead
      {
        assert IsChild(tree, tree[n].children[i], n);
      }
      LiveAll(tree[n].children, dead);
    }
  }

  /** In a complete row the dead are the gone roots with the samples to their left. */
  lemma DeadArePairs(tree: Tree, level: nat, p: nat)
    requires WellFormed(tree) && p in tree && tree[p].depth + 1 == level
    requires Alternates(RowAt(tree, p))
    ensures DeadInPairs(tree, tree[p].children, DeadAt(tree, level))
  {
    forall i | 0 <= i < |tree[p].children|
      ensures PairDead(tree, tree[p].children, DeadAt(tree, level), i)
    {
      OneIsDead(tree, level, p, i);
    }
  }

  lemma OneIsDead(tree: Tree, level: nat, p: nat, i: nat)
    requires WellFormed(tree) && p in tree && tree[p].depth + 1 == level
    requires Alternates(RowAt(tree, p)) && i < |tree[p].children|
    ensures PairDead(tree, tree[p].children, DeadAt(tree, level), i)
  {
    var row, n := RowAt(tree, p), tree[p].children[i];
    assert IsChild(tree, n, p);
    RightOfChild(tree, p, i);
    assert n in DeadAt(tree, level) <==> IsGone(row[i]) || (i + 1 < |row| && IsGone(row[i + 1]));
    assert row[i].isRoot <==> i % 2 == 1;
  }

  lemma RightOfChild(tree: Tree, p: nat, i: nat)
    requires WellFormed(tree) && p in tree && i < |tree[p].children|
    ensures RightOf(tree, tree[p].children[i])
         == if i + 1 < |tree[p].children| then RowAt(tree, p)[i + 1] else Plain(0.0, false)
  {
    assert Distinct(tree[p].children) && IsChild(tree, tree[p].children[i], p);
  }

  lemma LeftOfGone(tree: Tree, n: nat)
    requires WellFormed(tree) && n in tree && n != ROOT && IsGone(tree[n].sample)
    requires Complete(RowAt(tree, tree[n].parent))
    ensures var m := LeftSibling(tree, n);
      m in tree && tree[m].depth == tree[n].depth && RightOf(tree, m) == tree[n].sample
  {
    assert HasParent(tree, n);
    var p := tree[n].parent;
    var i := IndexOf(tree[p].children, n);
    assert RowAt(tree, p)[i].isRoot && i % 2 == 1;
    assert IsChild(tree, tree[p].children[i - 1], p);
    RightOfChild(tree, p, i - 1);
  }

  lemma GoneOnTheRight(tree: Tree, m: nat)
    requires WellFormed(tree) && m in tree && m != ROOT && IsGone(RightOf(tree, m))
    ensures exists n ::
      n in tree && tree[n].depth == tree[m].depth && IsGone(tree[n].sample) && LeftSibling(tree, n) == m
  {
    assert HasParent(tree, m);
    var p := tree[m].parent;
    var i := IndexOf(tree[p].children, m);
    var n := tree[p].children[i + 1];
    assert IsChild(tree, n, p) && Distinct(tree[p].children);
    assert IndexOf(tree[p].children, n) == i + 1;
  }

  /** Collecting the gone root samples of a level and their left siblings finds all that is dead. */
  lemma DoomedAreDead(tree: Tree, level: nat)
    requires WellFormed(tree) && AllComplete(tree) && level > 0
    ensures Doomed(tree, set n | n in tree && tree[n].depth == level) == DeadAt(tree, level)
  {
    var nodes := set n | n in tree && tree[n].depth == level;
    forall n | n in nodes && IsGone(tree[n].sample)
      ensures n in DeadAt(tree, level) && LeftSibling(tree, n) in DeadAt(tree, level)
    {
      assert HasParent(tree, n) && Complete(RowAt(tree, tree[n].parent));
      LeftOfGone(tree, n);
    }
    forall m | m in DeadAt(tree, level)
      ensures m in Doomed(tree, nodes)
    {
      if !IsGone(tree[m].sample) {
        GoneOnTheRight(tree, m);
      }
    }
  }

  /** The whole withdrawal: forget the polynomials of the mask, and erase what is dead. */
  function Purge(tree: Tree, level: nat, mask: set<nat>): Tree {
    var marked := Unmark(tree, level, mask);
    Prune(marked, DeadAt(marked, level), level)
  }

  /** Withdrawal keeps the tree and the completeness of each row that is left. */
  lemma PurgeKeeps(tree: Tree, level: nat, mask: set<nat>)
    requires WellFormed(tree) && AllComplete(tree) && level > 0
    ensures WellFormed(Purge(tree, level, mask)) && AllComplete(Purge(tree, level, mask))
  {
    var marked := Unmark(tree, level, mask);
    UnmarkKeeps(tree, level, mask);
    PruneWellFormed(marked, DeadAt(marked, level), level);
    forall n | n in Purge(tree, level, mask)
      ensures Complete(RowAt(Purge(tree, level, mask), n))
    {
      assert Complete(RowAt(tree, n));
      PurgedComplete(tree, level, mask, n);
    }
  }

  lemma PurgedComplete(tree: Tree, level: nat, mask: set<nat>, n: nat)
    requires WellFormed(tree) && Complete(RowAt(tree, n)) && level > 0
    requires n in Purge(tree, level, mask)
    ensures Complete(RowAt(Purge(tree, level, mask), n))
  {
    var marked := Unmark(tree, level, mask);
    UnmarkKeeps(tree, level, mask);
    UnmarkComplete(tree, level, mask, n);
    PruneRow(marked, DeadAt(marked, level), level, n);
    if tree[n].depth + 1 == level && tree[n].children != [] {
      PurgedRow(tree, level, mask, n);
      WithdrawAlternates(RowAt(marked, n), IsGone);
    }
  }

  /** The row of a node one level up loses exactly the gone roots with the samples to their left. */
  lemma PurgedRow(tree: Tree, level: nat, mask: set<nat>, n: nat)
    requires WellFormed(tree) && Complete(RowAt(tree, n)) && level > 0
    requires n in tree && tree[n].depth + 1 == level && tree[n].children != []
    ensures n in Purge(tree, level, mask) && Alternates(RowAt(Unmark(tree, level, mask), n))
    ensures RowAt(Purge(tree, level, mask), n) == Withdraw(RowAt(Unmark(tree, level, mask), n), IsGone)
  {
    var marked := Unmark(tree, level, mask);
    UnmarkKeeps(tree, level, mask);
    UnmarkComplete(tree, level, mask, n);
    DeadArePairs(marked, level, n);
    PruneRow(marked, DeadAt(marked, level), level, n);
    LiveWithdraws(marked, marked[n].children, DeadAt(marked, level));
  }

  lemma AllUnmarkComplete(tree: Tree, level: nat, mask: set<nat>)
    requires WellFormed(tree) && AllComplete(tree)
    ensures AllComplete(Unmark(tree, level, mask))
  {
    forall n | n in tree
      ensures Complete(RowAt(Unmark(tree, level, mask), n))
    {
      assert Complete(RowAt(tree, n));
      UnmarkComplete(tree, level, mask, n);
    }
  }

  lemma DoomedNext(tree: Tree, nodes: set<nat>, n: nat)
    ensures Doomed(tree, nodes + {n})
         == Doomed(tree, nodes) + if IsGone(SampleAt(tree, n)) then {n, LeftSibling(tree, n)} else {}
  {
  }

  // ---------------------------------------------------------------- noting and forgetting evaluations

  function Evaluated(s: Sample, id: nat, result: bool): Sample {
    s.(evaluatedWith := s.evaluatedWith + {id}, evaluationResult := s.evaluationResult + if result then {id} else {})
  }

  /** Forgets what evaluating the constraints of the mask gave. */
  function Forget(tree: Tree, mask: set<nat>): Tree {
    map n | n in tree :: tree[n].(sample := tree[n].sample.(
      evaluatedWith := tree[n].sample.evaluatedWith - mask,
      evaluationResult := tree[n].sample.evaluationResult - mask))
  }

  lemma ForgetKeeps(tree: Tree, mask: set<nat>)
    requires WellFormed(tree) && AllComplete(tree)
    ensures WellFormed(Forget(tree, mask)) && AllComplete(Forget(tree, mask))
  {
    OnlySamplesChange(tree, Forget(tree, mask));
  }

  /** Trees that differ in marks and bits only are of the same shape. */
  lemma OnlySamplesChange(tree: Tree, tree': Tree)
    requires WellFormed(tree) && AllComplete(tree) && tree'.Keys == tree.Keys
    requires forall n :: n in tree ==> SameShape(tree[n], tree'[n])
    ensures WellFormed(tree') && AllComplete(tree')
  {
    forall n, i | n in tree' && 0 <= i < |tree'[n].children|
      ensures IsChild(tree', tree'[n].children[i], n)
    {
      assert IsChild(tree, tree[n].children[i], n);
    }
    forall n | n in tree' && n != ROOT
      ensures HasParent(tree', n)
    {
      assert HasParent(tree, n);
    }
    forall n | n in tree'
      ensures Complete(RowAt(tree', n))
    {
      assert Complete(RowAt(tree, n));
      SameShapeRow(tree, tree', n);
    }
  }

  predicate SameShape(t: TreeNode, t': TreeNode) {
    SamePlace(t, t') && t'.children == t.children && t'.sample.isRoot == t.sample.isRoot
  }

  lemma SameShapeRow(tree: Tree, tree': Tree, n: nat)
    requires WellFormed(tree) && tree'.Keys == tree.Keys && n in tree && Complete(RowAt(tree, n))
    requires forall n :: n in tree ==> SameShape(tree[n], tree'[n])
    ensures Complete(RowAt(tree', n))
  {
    var row, row' := RowAt(tree, n), RowAt(tree', n);
    forall i | 0 <= i < |row|
      ensures row'[i].value == row[i].value && row'[i].isRoot == row[i].isRoot
    {
      assert IsChild(tree, tree[n].children[i], n);
    }
  }

  /** The root samples that are left in a row are those that some polynomial not withdrawn still has. */
  lemma PurgedRoots(tree: Tree, level: nat, mask: set<nat>, n: nat)
    requires WellFormed(tree) && Complete(RowAt(tree, n)) && level > 0
    requires n in tree && tree[n].depth + 1 == level && tree[n].children != []
    ensures n in Purge(tree, level, mask)
    ensures Roots(RowAt(Purge(tree, level, mask), n)) ==
      set i | 0 <= i < |RowAt(tree, n)| && RowAt(tree, n)[i].isRoot
        && RowAt(tree, n)[i].rootOf - mask != {} :: RowAt(tree, n)[i].value
  {
    var row, marked := RowAt(tree, n), RowAt(Unmark(tree, level, mask), n);
    PurgedRow(tree, level, mask, n);
    WithdrawSets(marked, IsGone);
    forall i | 0 <= i < |row|
      ensures marked[i] == Unmarked(row[i], level, level, mask)
    {
      assert IsChild(tree, tree[n].children[i], n);
    }
    assert forall i :: 0 <= i < |row| ==> (marked[i].isRoot <==> row[i].isRoot) && marked[i].value == row[i].value;
    assert forall i :: 0 <= i < |row| && row[i].isRoot ==> marked[i].rootOf == row[i].rootOf - mask;
  }

  /** A withdrawal takes exactly the marks of the withdrawn polynomials, and no other root of any. */
  lemma PurgedMarks(tree: Tree, level: nat, mask: set<nat>, n: nat, pid: nat)
    requires WellFormed(tree) && Complete(RowAt(tree, n)) && level > 0
    requires n in tree && tree[n].depth + 1 == level && tree[n].children != []
    ensures n in Purge(tree, level, mask)
    ensures RootsOf(RowAt(Purge(tree, level, mask), n), pid) == if pid in mask then {} else RootsOf(RowAt(tree, n), pid)
  {
    var row, marked := RowAt(tree, n), RowAt(Unmark(tree, level, mask), n);
    PurgedRow(tree, level, mask, n);
    forall i | 0 <= i < |row|
      ensures marked[i] == Unmarked(row[i], level, level, mask)
    {
      assert IsChild(tree, tree[n].children[i], n);
    }
    assert forall s :: IsGone(s) ==> pid !in s.rootOf;
    WithdrawMarks(marked, IsGone, pid);
    assert forall i :: 0 <= i < |row| ==> (marked[i].isRoot <==> row[i].isRoot) && marked[i].value == row[i].value;
    assert forall i :: 0 <= i < |row| && row[i].isRoot ==> marked[i].rootOf == row[i].rootOf - mask;
  }

  /** At the other levels all marks stay. */
  lemma PurgedElsewhere(tree: Tree, level: nat, mask: set<nat>, n: nat, pid: nat)
    requires WellFormed(tree) && AllComplete(tree) && level > 0
    requires n in tree && tree[n].depth + 1 != level && n in Purge(tree, level, mask)
    ensures RootsOf(RowAt(Purge(tree, level, mask), n), pid) == RootsOf(RowAt(tree, n), pid)
  {
    var row, marked := RowAt(tree, n), Unmark(tree, level, mask);
    UnmarkKeeps(tree, level, mask);
    PruneRow(marked, DeadAt(marked, level), level, n);
    forall i | 0 <= i < |row|
      ensures RowAt(marked, n)[i].isRoot == row[i].isRoot && RowAt(marked, n)[i].rootOf == row[i].rootOf
      ensures RowAt(marked, n)[i].value == row[i].value
    {
      assert IsChild(tree, tree[n].children[i], n);
    }
  }
}
