/**
 The lifting tree of the CAD: a tree of samples, the queue of samples to be lifted and the list
 of those taken from it, and the queue of full samples to be checked. The order inside a queue
 does not matter here; a caller says which element is the next.
 */
module LiftingTrees {
  import opened Basics
  import opened Cells
  import opened SampleTrees

  /** How often a node is in a list. */
  function Count(ids: seq<nat>, n: nat): nat {
    multiset(ids)[n]
  }

  /** Each live node below full depth waits in exactly one of the two lists, and exactly once. */
  ghost predicate Queued(tree: Tree, dim: nat, lifting: seq<nat>, removed: seq<nat>) {
    forall n {:trigger Count(lifting, n)} ::
      Count(lifting, n) + Count(removed, n) == if n in tree && tree[n].depth < dim then 1 else 0
  }

  /** Only live nodes of full depth are checked, none of them twice. */
  ghost predicate Checked(tree: Tree, dim: nat, checking: seq<nat>) {
    forall n {:trigger Count(checking, n)} :: Count(checking, n) <= if n in tree && tree[n].depth == dim then 1 else 0
  }

  /** The queue has gained exactly the new nodes of full depth. */
  ghost predicate QueuesNew(tree0: Tree, queue0: seq<nat>, tree: Tree, queue: seq<nat>, dim: nat) {
    forall n {:trigger Count(queue, n)} ::
      Count(queue, n) == Count(queue0, n) + if n in tree && n !in tree0 && tree[n].depth == dim then 1 else 0
  }

  lemma CountAppend(ids: seq<nat>, it: nat)
    ensures forall n :: Count(ids + [it], n) == Count(ids, n) + if n == it then 1 else 0
  {
  }

  function RemoveIndex(s: seq<nat>, i: nat): (r: seq<nat>)
    requires i < |s|
    ensures forall n :: Count(r, n) == Count(s, n) - if n == s[i] then 1 else 0
  {
    assert s == s[..i] + [s[i]] + s[i + 1..];
    s[..i] + s[i + 1..]
  }

  function Alive(ids: seq<nat>, tree: Tree): seq<nat> {
    if ids == [] then [] else (if ids[0] in tree then [ids[0]] else []) + Alive(ids[1..], tree)
  }

  lemma {:induction false} AliveCount(ids: seq<nat>, tree: Tree, n: nat)
    ensures Count(Alive(ids, tree), n) == if n in tree then Count(ids, n) else 0
  {
    if ids != [] {
      AliveCount(ids[1..], tree, n);
      assert ids == [ids[0]] + ids[1..];
    }
  }

  lemma InMultiset(s: seq<nat>, i: nat)
    requires i < |s|
    ensures Count(s, s[i]) > 0
  {
    assert s[i] in s;
  }

  /**
   Sorted by value, with one of the samples for each value. Which one is left open, as it is by
   `std::sort`, which need not keep equal samples in order; `std::unique` keeps the first.
   */
  predicate UniqueOf(samples: Row, r: Row) {
    && Sorted(r) && Values(r) == Values(samples)
    && forall i :: 0 <= i < |r| ==> r[i] in samples
  }

  /** `std::sort` and `std::unique`. */
  method SortUnique(samples: Row) returns (r: Row)
    requires AllRoots(samples)
    ensures UniqueOf(samples, r) && AllRoots(r) && (samples != [] ==> r != [])
  {
    r := [];
    for k := 0 to |samples|
      invariant UniqueOf(samples[..k], r) && AllRoots(r) && (k > 0 ==> r != [])
    {
      assert samples[..k + 1] == samples[..k] + [samples[k]];
      KeepFirstUnique(samples[..k], r, samples[k]);
      InsertAtIndex(r, Place(r, samples[k].value), samples[k]);
      r := KeepFirst(r, samples[k]);
    }
    assert samples[..|samples|] == samples;
  }

  /** Puts a sample in its place unless there is one with its value. */
  function KeepFirst(row: Row, s: Sample): Row {
    var p := Place(row, s.value);
    if p < |row| && row[p].value == s.value then row else InsertAt(row, p, s)
  }

  predicate AllUnevaluated(row: Row) {
    forall i :: 0 <= i < |row| ==> row[i].evaluatedWith == row[i].evaluationResult == {}
  }

  class LiftingTree {
    const dim: nat
    const picker: Picker
    var tree: Tree
    var nextId: nat
    var checkingQueue: seq<nat>
    var liftingQueue: seq<nat>
    var removedFromLiftingQueue: seq<nat>

    ghost predicate TreeOk()
      reads `tree, `nextId
    {
      && WellFormed(tree)
      && (forall n :: n in tree ==> n < nextId && tree[n].depth <= dim)
    }

    ghost predicate QueuesOk()
      reads `tree, `checkingQueue, `liftingQueue, `removedFromLiftingQueue
    {
      && Queued(tree, dim, liftingQueue, removedFromLiftingQueue)
      && Checked(tree, dim, checkingQueue)
    }

    ghost predicate Valid()
      reads this
    {
      TreeOk() && QueuesOk() && AllComplete(tree) && Picks(picker)
    }

    constructor (dim: nat, picker: Picker)
      requires dim > 0 && Picks(picker)
      ensures Valid() && tree == map[ROOT := TreeNode(Plain(0.0, false), ROOT, 0, [])] && liftingQueue == [ROOT]
      ensures removedFromLiftingQueue == checkingQueue == [] && this.dim == dim && this.picker == picker
    {
      this.dim, this.picker := dim, picker;
      tree := map[ROOT := TreeNode(Plain(0.0, false), ROOT, 0, [])];
      nextId := 1;
      checkingQueue, liftingQueue, removedFromLiftingQueue := [], [ROOT], [];
    }

    /** The node p has grown more children, and those of full depth are to be checked. */
    ghost predicate Grew(tree0: Tree, queue0: seq<nat>, p: nat)
      reads `tree, `checkingQueue
    {
      GrownAt(tree0, tree, p) && QueuesNew(tree0, queue0, tree, checkingQueue, dim)
    }

    lemma GrewTransitive(tree0: Tree, queue0: seq<nat>, tree1: Tree, queue1: seq<nat>, p: nat)
      requires GrownAt(tree0, tree1, p) && QueuesNew(tree0, queue0, tree1, queue1, dim) && Grew(tree1, queue1, p)
      requires WellFormed(tree0) && WellFormed(tree1)
      ensures Grew(tree0, queue0, p)
    {
      GrownAtTransitive(tree0, tree1, tree, p);
      forall n
        ensures Count(checkingQueue, n)
             == Count(queue0, n) + if n in tree && n !in tree0 && tree[n].depth == dim then 1 else 0
      {
        assert Count(queue1, n)
            == Count(queue0, n) + if n in tree1 && n !in tree0 && tree1[n].depth == dim then 1 else 0;
        assert n in tree1 ==> Stays(tree1[n], tree[n], n, p);
      }
    }

    /** Inserts a child with this sample, and queues it for what is to be done with it next. */
    method Insert(p: nat, pos: nat, s: Sample)
      requires TreeOk() && QueuesOk() && p in tree && tree[p].depth < dim && pos <= |tree[p].children|
      requires s.evaluatedWith == s.evaluationResult == {}
      modifies `tree, `nextId, `checkingQueue, `liftingQueue
      ensures TreeOk() && QueuesOk() && Grew(old(tree), old(checkingQueue), p)
      ensures RowAt(tree, p) == InsertAt(old(RowAt(tree, p)), pos, s)
    {
      AddChildWellFormed(tree, p, pos, nextId, s);
      AddChildRows(tree, p, pos, nextId, s);
      AddChildGrows(tree, p, pos, nextId, s);
      var it, depth := nextId, tree[p].depth + 1;
      tree := AddChild(tree, p, pos, it, s);
      nextId := nextId + 1;
      AddToQueue(it, depth);
    }

    method AddToQueue(it: nat, depth: nat)
      requires it in tree && tree[it].depth == depth <= dim
      requires Queued(tree - {it}, dim, liftingQueue, removedFromLiftingQueue)
        && Checked(tree - {it}, dim, checkingQueue)
      modifies `checkingQueue, `liftingQueue
      ensures QueuesOk()
      ensures forall n ::
        Count(checkingQueue, n) == Count(old(checkingQueue), n) + if n == it && depth == dim then 1 else 0
    {
      CountAppend(liftingQueue, it);
      CountAppend(checkingQueue, it);
      if depth < dim {
        liftingQueue := liftingQueue + [it];
      } else {
        checkingQueue := checkingQueue + [it];
      }
    }

    /** Merges a root sample into the child at pos, which has the same value. */
    method MergeAt(p: nat, pos: nat, s: Sample)
      requires TreeOk() && QueuesOk() && p in tree && pos < |tree[p].children|
      modifies `tree
      ensures TreeOk() && QueuesOk() && Grew(old(tree), old(checkingQueue), p)
      ensures RowAt(tree, p) == old(RowAt(tree, p))[pos := old(RowAt(tree, p))[pos].Merge(s)]
    {
      var c := tree[p].children[pos];
      MergeGrows(tree, p, pos, s);
      SetSampleWellFormed(tree, c, tree[c].sample.Merge(s));
      SetSampleRow(tree, p, pos, tree[c].sample.Merge(s));
      tree := SetSample(tree, c, tree[c].sample.Merge(s));
    }
  
    // -------------------------------------------------------------- lifting

    /** Runs along the children, from a place at or before the place of v, and stops there. */
    method FindPlace(p: nat, v: real, from: nat) returns (tit: nat)
      requires p in tree && from <= |tree[p].children| && Sorted(RowAt(tree, p))
      requires forall i :: 0 <= i < from ==> RowAt(tree, p)[i].value < v
      ensures tit == Place(RowAt(tree, p), v)
    {
      tit := from;
      while tit < |tree[p].children| && SampleAt(tree, tree[p].children[tit]).value < v
        invariant from <= tit <= |tree[p].children|
        invariant forall i :: 0 <= i < tit ==> RowAt(tree, p)[i].value < v
      {
        tit := tit + 1;
      }
      PlaceIs(RowAt(tree, p), v, tit);
    }

    method InsertHere(p: nat, tit: nat, s: Sample) returns (news: bool)
      requires TreeOk() && QueuesOk() && p in tree && tree[p].depth < dim
      requires tit == Place(RowAt(tree, p), s.value)
      requires s.isRoot && s.evaluatedWith == s.evaluationResult == {}
      modifies `tree, `nextId, `checkingQueue, `liftingQueue
      ensures TreeOk() && QueuesOk() && Grew(old(tree), old(checkingQueue), p)
      ensures RowAt(tree, p) == InsertRoot(old(RowAt(tree, p)), s)
      ensures news <==> IsNews(old(RowAt(tree, p)), s)
    {
      if tit < |tree[p].children| && SampleAt(tree, tree[p].children[tit]).value == s.value {
        news := !SampleAt(tree, tree[p].children[tit]).isRoot;
        MergeAt(p, tit, s);
      } else {
        Insert(p, tit, s);
        news := true;
      }
    }

    /** One round of `insertRootSamples`: everything before `tit` stays at or below s. */
    method InsertOne(p: nat, s: Sample, from: nat, ghost tree0: Tree, ghost queue0: seq<nat>)
      returns (tit: nat, news: bool)
      requires TreeOk() && QueuesOk() && p in tree && tree[p].depth < dim && from <= |tree[p].children|
      requires Sorted(RowAt(tree, p)) && s.isRoot && s.evaluatedWith == s.evaluationResult == {}
      requires forall i :: 0 <= i < from ==> RowAt(tree, p)[i].value < s.value
      requires WellFormed(tree0) && Grew(tree0, queue0, p)
      modifies `tree, `nextId, `checkingQueue, `liftingQueue
      ensures TreeOk() && QueuesOk() && Grew(tree0, queue0, p)
      ensures RowAt(tree, p) == InsertRoot(old(RowAt(tree, p)), s)
      ensures news <==> IsNews(old(RowAt(tree, p)), s)
      ensures tit <= |tree[p].children| && forall i :: 0 <= i < tit ==> RowAt(tree, p)[i].value <= s.value
    {
      ghost var before, queue := tree, checkingQueue;
      tit := FindPlace(p, s.value, from);
      UpToInserted(RowAt(tree, p), s);
      var size := |tree[p].children|;
      news := InsertHere(p, tit, s);
      GrewTransitive(tree0, queue0, before, queue, p);
      if |tree[p].children| > size {
        tit := tit + 1;
      }
    }

    /** What is known with k samples inserted, and `tit` the child where the next is looked for. */
    ghost predicate Inserted(p: nat, row: Row, ss: Row, k: nat, tit: nat, news: bool)
      reads `tree
    {
      && p in tree && k <= |ss| && tit <= |tree[p].children|
      && RowAt(tree, p) == InsertRoots(row, ss[..k]) && Sorted(RowAt(tree, p))
      && (news <==> AnyNews(row, ss[..k]))
      && forall i :: 0 <= i < tit ==> k > 0 && RowAt(tree, p)[i].value <= ss[k - 1].value
    }

    method InsertNext(p: nat, ss: Row, k: nat, from: nat, got: bool, ghost row: Row, ghost tree0: Tree,
                      ghost queue0: seq<nat>)
      returns (tit: nat, gotNewSamples: bool)
      requires TreeOk() && QueuesOk() && k < |ss| && Inserted(p, row, ss, k, from, got) && tree[p].depth < dim
      requires Sorted(ss) && AllRoots(ss) && AllUnevaluated(ss) && WellFormed(tree0) && Grew(tree0, queue0, p)
      modifies `tree, `nextId, `checkingQueue, `liftingQueue
      ensures TreeOk() && QueuesOk() && Grew(tree0, queue0, p) && Inserted(p, row, ss, k + 1, tit, gotNewSamples)
      ensures tree[p].depth < dim
    {
      InsertSorted(RowAt(tree, p), ss[k]);
      InsertRootsNext(row, ss, k);
      assert forall i :: 0 <= i < from ==> RowAt(tree, p)[i].value < ss[k].value;
      ghost var before := tree;
      var news;
      tit, news := InsertOne(p, ss[k], from, tree0, queue0);
      gotNewSamples := got || news;
    }

    /** The loop of `insertRootSamples` over the sorted samples. */
    method InsertAll(p: nat, ss: Row) returns (gotNewSamples: bool)
      requires TreeOk() && QueuesOk() && p in tree && tree[p].depth < dim && Sorted(RowAt(tree, p))
      requires Sorted(ss) && AllRoots(ss) && AllUnevaluated(ss)
      modifies `tree, `nextId, `checkingQueue, `liftingQueue
      ensures TreeOk() && QueuesOk() && Grew(old(tree), old(checkingQueue), p)
      ensures RowAt(tree, p) == InsertRoots(old(RowAt(tree, p)), ss)
      ensures gotNewSamples <==> AnyNews(old(RowAt(tree, p)), ss)
    {
      gotNewSamples := false;
      ghost var row := RowAt(tree, p);
      GrownAtReflexive(tree, p);
      var tit := 0;
      for k := 0 to |ss|
        invariant TreeOk() && QueuesOk() && Grew(old(tree), old(checkingQueue), p)
        invariant Inserted(p, row, ss, k, tit, gotNewSamples) && tree[p].depth < dim
      {
        tit, gotNewSamples := InsertNext(p, ss, k, tit, gotNewSamples, row, old(tree), old(checkingQueue));
      }
      assert ss[..|ss|] == ss;
    }

    method InsertRootSamples(p: nat, samples: Row) returns (gotNewSamples: bool, ghost ss: Row)
      requires TreeOk() && QueuesOk() && p in tree && tree[p].depth < dim && Sorted(RowAt(tree, p))
      requires AllRoots(samples) && AllUnevaluated(samples)
      modifies `tree, `nextId, `checkingQueue, `liftingQueue
      ensures TreeOk() && QueuesOk() && Grew(old(tree), old(checkingQueue), p)
      ensures AllRoots(ss) && UniqueOf(samples, ss)
      ensures RowAt(tree, p) == InsertRoots(old(RowAt(tree, p)), ss)
      ensures gotNewSamples <==> AnyNews(old(RowAt(tree, p)), ss)
    {
      var sorted := SortUnique(samples);
      gotNewSamples := InsertAll(p, sorted);
      ss := sorted;
    }

    method FillFirst(p: nat) returns (last: nat)
      requires TreeOk() && QueuesOk() && p in tree && tree[p].depth < dim && tree[p].children != []
      modifies `tree, `nextId, `checkingQueue, `liftingQueue
      ensures TreeOk() && QueuesOk() && Grew(old(tree), old(checkingQueue), p)
      ensures RowAt(tree, p) == LowEnd(old(RowAt(tree, p)), picker) + old(RowAt(tree, p))
      ensures last == |LowEnd(old(RowAt(tree, p)), picker)|
    {
      GrownAtReflexive(tree, p);
      var first := SampleAt(tree, tree[p].children[0]);
      last := 0;
      InsertAtEnds(RowAt(tree, p), Plain(picker.below(first.value), false));
      if first.isRoot {
        Insert(p, 0, Plain(picker.below(first.value), false));
        last := 1;
      }
    }

    method FillNext(p: nat, last: nat, ghost done0: Row, ghost rest: Row, ghost tree0: Tree, ghost queue0: seq<nat>)
      returns (next: nat, ghost done: Row)
      requires TreeOk() && QueuesOk() && p in tree && tree[p].depth < dim && last + 1 < |tree[p].children|
      requires WellFormed(tree0) && Grew(tree0, queue0, p)
      requires RowAt(tree, p) == done0 + rest && last == |done0| && |rest| > 1
      modifies `tree, `nextId, `checkingQueue, `liftingQueue
      ensures TreeOk() && QueuesOk() && Grew(tree0, queue0, p)
      ensures RowAt(tree, p) == done + rest[1..] && next == |done|
      ensures done + FillGaps(rest[1..], picker) == done0 + FillGaps(rest, picker)
    {
      FillGapsStep(done0, rest, picker);
      var tlast, tit := SampleAt(tree, tree[p].children[last]), SampleAt(tree, tree[p].children[last + 1]);
      assert tlast == rest[0] && tit == rest[1];
      ghost var before, queue := tree, checkingQueue;
      InsertGap(done0, rest, Plain(picker.between(tlast.value, tit.value), false));
      if tlast.isRoot && tit.isRoot {
        var s := Plain(picker.between(tlast.value, tit.value), false);
        Insert(p, last + 1, s);
        GrewTransitive(tree0, queue0, before, queue, p);
        next, done := last + 2, done0 + [rest[0], s];
      } else {
        next, done := last + 1, done0 + [rest[0]];
      }
    }

    method FillLast(p: nat, last: nat, ghost tree0: Tree, ghost queue0: seq<nat>)
      requires TreeOk() && QueuesOk() && p in tree && tree[p].depth < dim && last + 1 == |tree[p].children|
      requires WellFormed(tree0) && Grew(tree0, queue0, p)
      modifies `tree, `nextId, `checkingQueue, `liftingQueue
      ensures TreeOk() && QueuesOk() && Grew(tree0, queue0, p)
      ensures RowAt(tree, p) == old(RowAt(tree, p)) + HighEnd(old(RowAt(tree, p))[last], picker)
    {
      ghost var before, queue := tree, checkingQueue;
      var tlast := SampleAt(tree, tree[p].children[last]);
      InsertAtEnds(RowAt(tree, p), Plain(picker.above(tlast.value), false));
      if tlast.isRoot {
        Insert(p, last + 1, Plain(picker.above(tlast.value), false));
        GrewTransitive(tree0, queue0, before, queue, p);
      }
    }

    method FillBetween(p: nat, low: nat, ghost done0: Row, ghost row: Row, ghost tree0: Tree, ghost queue0: seq<nat>)
      returns (last: nat)
      requires TreeOk() && QueuesOk() && p in tree && tree[p].depth < dim
      requires WellFormed(tree0) && Grew(tree0, queue0, p)
      requires RowAt(tree, p) == done0 + row && low == |done0| && row != []
      modifies `tree, `nextId, `checkingQueue, `liftingQueue
      ensures TreeOk() && QueuesOk() && Grew(tree0, queue0, p)
      ensures RowAt(tree, p) == done0 + FillGaps(row, picker) && last + 1 == |tree[p].children|
      ensures RowAt(tree, p)[last] == row[|row| - 1]
    {
      last := low;
      ghost var done, rest := done0, row;
      while last + 1 < |tree[p].children|
        invariant TreeOk() && QueuesOk() && p in tree && tree[p].depth < dim && Grew(tree0, queue0, p)
        invariant last == |done| && rest != [] && rest[|rest| - 1] == row[|row| - 1]
        invariant RowAt(tree, p) == done + rest && done + FillGaps(rest, picker) == done0 + FillGaps(row, picker)
        decreases |rest|
      {
        last, done := FillNext(p, last, done, rest, tree0, queue0);
        rest := rest[1..];
      }
      assert FillGaps(rest, picker) == rest;
    }

    /** The loops of `mergeRootSamples` that put samples below, between and above the roots. */
    method FillRow(p: nat)
      requires TreeOk() && QueuesOk() && p in tree && tree[p].depth < dim && tree[p].children != []
      modifies `tree, `nextId, `checkingQueue, `liftingQueue
      ensures TreeOk() && QueuesOk() && Grew(old(tree), old(checkingQueue), p)
      ensures RowAt(tree, p) == Fill(old(RowAt(tree, p)), picker)
    {
      ghost var row := RowAt(tree, p);
      var last := FillFirst(p);
      last := FillBetween(p, last, LowEnd(row, picker), row, old(tree), old(checkingQueue));
      FillLast(p, last, old(tree), old(checkingQueue));
    }

    /** Merges root samples into the children of p; a node without any gets a sample at `zero`. */
    method MergeRootSamples(p: nat, samples: Row, zero: real) returns (gotNewSamples: bool, ghost ss: Row)
      requires TreeOk() && QueuesOk() && p in tree && tree[p].depth < dim && Sorted(RowAt(tree, p))
      requires AllRoots(samples) && AllUnevaluated(samples)
      modifies `tree, `nextId, `checkingQueue, `liftingQueue
      ensures TreeOk() && QueuesOk() && Grew(old(tree), old(checkingQueue), p)
      ensures AllRoots(ss) && UniqueOf(samples, ss)
      ensures gotNewSamples <==> AnyNews(old(RowAt(tree, p)), ss)
      ensures RowAt(tree, p) == if Merged(old(RowAt(tree, p)), ss, picker) == [] then [Plain(zero, false)]
                                else Merged(old(RowAt(tree, p)), ss, picker)
    {
      gotNewSamples, ss := InsertRootSamples(p, samples);
      if gotNewSamples {
        ghost var before, queue := tree, checkingQueue;
        NewsIsSomething(old(RowAt(tree, p)), ss);
        FillRow(p);
        GrewTransitive(old(tree), old(checkingQueue), before, queue, p);
      } else if tree[p].children == [] {
        ghost var before, queue := tree, checkingQueue;
        Insert(p, 0, Plain(zero, false));
        GrewTransitive(old(tree), old(checkingQueue), before, queue, p);
      }
    }

    /**
     Lifts a node with a polynomial, whose real roots are given: the row is then complete, and
     the roots and the finite bounds of the variable have joined its root samples.
     */
    method LiftSample(n: nat, roots: seq<real>, pid: nat, lower: Bound, upper: Bound)
      returns (gotNewSamples: bool, ghost ss: Row)
      requires Valid() && n in tree && tree[n].depth < dim
      modifies `tree, `nextId, `checkingQueue, `liftingQueue
      ensures Valid() && Grew(old(tree), old(checkingQueue), n)
      ensures var row := old(RowAt(tree, n));
        && RowAt(tree, n) != [] && Values(row) <= Values(RowAt(tree, n))
        && Roots(RowAt(tree, n)) == Roots(row) + NewRoots(roots, lower, upper)
      ensures (gotNewSamples <==> AnyNews(old(RowAt(tree, n)), ss))
        && (!gotNewSamples ==> |RowAt(tree, n)| == |old(RowAt(tree, n))|)
      ensures UniqueOf(SamplesFor(roots, pid, lower, upper), ss)
        && RowAt(tree, n) == Merged(old(RowAt(tree, n)), ss, picker)
      ensures forall q :: RootsOf(old(RowAt(tree, n)), q) <= RootsOf(RowAt(tree, n), q)
      ensures RootValues(roots) - Limit(lower) - Limit(upper) <= RootsOf(RowAt(tree, n), pid)
    {
      assert Complete(RowAt(tree, n));
      ghost var row := RowAt(tree, n);
      gotNewSamples, ss := LiftRow(n, SamplesFor(roots, pid, lower, upper));
      LiftMarks(row, roots, pid, lower, upper, ss, picker);
      OthersComplete(old(tree), n);
    }

    method LiftRow(n: nat, samples: Row) returns (gotNewSamples: bool, ghost ss: Row)
      requires TreeOk() && QueuesOk() && n in tree && tree[n].depth < dim && Complete(RowAt(tree, n)) && Picks(picker)
      requires samples != [] && AllRoots(samples) && AllUnevaluated(samples)
      modifies `tree, `nextId, `checkingQueue, `liftingQueue
      ensures TreeOk() && QueuesOk() && Grew(old(tree), old(checkingQueue), n) && Complete(RowAt(tree, n))
      ensures RowAt(tree, n) != [] && Values(old(RowAt(tree, n))) <= Values(RowAt(tree, n))
      ensures Roots(RowAt(tree, n)) == Roots(old(RowAt(tree, n))) + Values(samples)
      ensures UniqueOf(samples, ss) && RowAt(tree, n) == Merged(old(RowAt(tree, n)), ss, picker)
      ensures gotNewSamples <==> AnyNews(old(RowAt(tree, n)), ss)
      ensures !gotNewSamples ==> |RowAt(tree, n)| == |old(RowAt(tree, n))|
    {
      ghost var row := RowAt(tree, n);
      gotNewSamples, ss := MergeRootSamples(n, samples, 0.0);
      RowLifted(row, ss, samples, picker);
    }

    lemma OthersComplete(before: Tree, p: nat)
      requires WellFormed(before) && AllComplete(before) && GrownAt(before, tree, p) && Complete(RowAt(tree, p))
      ensures AllComplete(tree)
    {
      forall n | n in tree
        ensures Complete(RowAt(tree, n))
      {
        if n != p && n in before {
          OtherRows(before, tree, p, n);
        }
      }
    }

    /** A node without children gets one, in the middle of nowhere; this is done with radius 1. */
    method AddTrivialSample(n: nat, center: real) returns (added: bool)
      requires Valid() && n in tree && tree[n].depth < dim
      modifies `tree, `nextId, `checkingQueue, `liftingQueue
      ensures Valid() && Grew(old(tree), old(checkingQueue), n)
      ensures added <==> old(RowAt(tree, n)) == []
      ensures RowAt(tree, n) == if added then [Plain(center, false)] else old(RowAt(tree, n))
    {
      GrownAtReflexive(tree, n);
      added := tree[n].children == [];
      if added {
        Insert(n, 0, Plain(center, false));
        OthersComplete(old(tree), n);
      }
    }

    /** Notes in a sample what evaluating a constraint gave. */
    method SetBits(n: nat, id: nat, result: bool)
      requires Valid() && n in tree
      modifies `tree
      ensures Valid() && tree == SetSample(old(tree), n, Evaluated(old(tree)[n].sample, id, result))
    {
      ghost var before := tree;
      tree := SetSample(tree, n, Evaluated(tree[n].sample, id, result));
      OnlySamplesChange(before, tree);
    }

    // -------------------------------------------------------------- queues

    /** Takes the next full sample to be checked. */
    method GetNextFullSample(next: nat) returns (it: nat)
      requires QueuesOk() && next < |checkingQueue|
      modifies `checkingQueue
      ensures QueuesOk() && it == old(checkingQueue)[next] && it in tree && tree[it].depth == dim
      ensures checkingQueue == RemoveIndex(old(checkingQueue), next)
    {
      it := checkingQueue[next];
      InMultiset(checkingQueue, next);
      checkingQueue := RemoveIndex(checkingQueue, next);
    }

    /** All live nodes of full depth wait for being checked again. */
    method ResetFullSamples()
      requires TreeOk() && QueuesOk()
      modifies `checkingQueue
      ensures QueuesOk()
      ensures forall n :: Count(checkingQueue, n) == if n in tree && tree[n].depth == dim then 1 else 0
    {
      checkingQueue := [];
      var full := set n | n in tree && tree[n].depth == dim;
      var todo := full;
      while todo != {}
        invariant todo <= full
        invariant forall n :: Count(checkingQueue, n) == if n in full && n !in todo then 1 else 0
        decreases todo
      {
        var it :| it in todo;
        CountAppend(checkingQueue, it);
        checkingQueue := checkingQueue + [it];
        todo := todo - {it};
      }
    }

    /** The next sample to be lifted leaves the queue, and is remembered. */
    method RemoveNextSample(next: nat) returns (it: nat)
      requires QueuesOk() && next < |liftingQueue|
      modifies `liftingQueue, `removedFromLiftingQueue
      ensures QueuesOk() && it == old(liftingQueue)[next] && it in tree && tree[it].depth < dim
      ensures removedFromLiftingQueue == old(removedFromLiftingQueue) + [it]
      ensures liftingQueue == RemoveIndex(old(liftingQueue), next)
    {
      it := liftingQueue[next];
      InMultiset(liftingQueue, next);
      CountAppend(removedFromLiftingQueue, it);
      liftingQueue := RemoveIndex(liftingQueue, next);
      removedFromLiftingQueue := removedFromLiftingQueue + [it];
    }

    /** Every sample waits for being lifted again. */
    method RestoreRemovedSamples()
      requires QueuesOk()
      modifies `liftingQueue, `removedFromLiftingQueue
      ensures QueuesOk() && removedFromLiftingQueue == []
      ensures liftingQueue == old(liftingQueue) + old(removedFromLiftingQueue)
      ensures forall n :: Count(liftingQueue, n) == if n in tree && tree[n].depth < dim then 1 else 0
    {
      CountConcat(liftingQueue, removedFromLiftingQueue);
      liftingQueue := liftingQueue + removedFromLiftingQueue;
      removedFromLiftingQueue := [];
    }

    /** Takes the nodes that have been erased out of all lists. */
    method CleanQueuesFromExpired(ghost before: Tree)
      requires Queued(before, dim, liftingQueue, removedFromLiftingQueue) && Checked(before, dim, checkingQueue)
      requires forall n :: n in tree ==> n in before && tree[n].depth == before[n].depth
      modifies `checkingQueue, `liftingQueue, `removedFromLiftingQueue
      ensures QueuesOk()
      ensures liftingQueue == Alive(old(liftingQueue), tree) && checkingQueue == Alive(old(checkingQueue), tree)
      ensures removedFromLiftingQueue == Alive(old(removedFromLiftingQueue), tree)
    {
      forall n
        ensures Count(Alive(liftingQueue, tree), n) + Count(Alive(removedFromLiftingQueue, tree), n)
             == if n in tree && tree[n].depth < dim then 1 else 0
        ensures Count(Alive(checkingQueue, tree), n) <= if n in tree && tree[n].depth == dim then 1 else 0
      {
        AliveCount(liftingQueue, tree, n);
        AliveCount(removedFromLiftingQueue, tree, n);
        AliveCount(checkingQueue, tree, n);
      }
      liftingQueue := Cleanup(liftingQueue, tree);
      checkingQueue := Cleanup(checkingQueue, tree);
      removedFromLiftingQueue := Cleanup(removedFromLiftingQueue, tree);
    }

    // -------------------------------------------------------------- withdrawing

    /** Collects the root samples of a level that no polynomial has as a root, and their left siblings. */
    method CollectDead(level: nat) returns (deleteQueue: set<nat>)
      requires WellFormed(tree) && AllComplete(tree) && level > 0
      ensures deleteQueue == DeadAt(tree, level)
    {
      deleteQueue := {};
      var nodes := set n | n in tree && tree[n].depth == level;
      var todo := nodes;
      while todo != {}
        invariant todo <= nodes && deleteQueue == Doomed(tree, nodes - todo)
        decreases todo
      {
        var it :| it in todo;
        ghost var done := nodes - todo;
        if tree[it].sample.isRoot && tree[it].sample.rootOf == {} {
          deleteQueue := deleteQueue + {it, LeftSibling(tree, it)};
        }
        todo := todo - {it};
        assert nodes - todo == done + {it};
        DoomedNext(tree, done, it);
      }
      assert nodes - {} == nodes;
      DoomedAreDead(tree, level);
    }

    /**
     Polynomials have been removed from a level: root samples of that level that no other
     polynomial has as a root go, with their left siblings and all that is below. Each row that
     is left is still complete, and each live node below full depth still waits exactly once.
     */
    method RemovedPolynomialsFromLevel(level: nat, mask: set<nat>)
      requires Valid() && level > 0
      modifies `tree, `checkingQueue, `liftingQueue, `removedFromLiftingQueue
      ensures Valid() && tree == Purge(old(tree), level, mask)
      ensures liftingQueue == Alive(old(liftingQueue), tree) && checkingQueue == Alive(old(checkingQueue), tree)
      ensures removedFromLiftingQueue == Alive(old(removedFromLiftingQueue), tree)
    {
      ghost var before := tree;
      UnmarkKeeps(tree, level, mask);
      PurgeKeeps(tree, level, mask);
      AllUnmarkComplete(tree, level, mask);
      tree := Unmark(tree, level, mask);
      var dead := CollectDead(level);
      tree := Prune(tree, dead, level);
      CleanQueuesFromExpired(before);
    }

    /** A constraint has been removed: what its evaluation gave is forgotten. */
    method RemovedConstraint(mask: set<nat>)
      requires Valid()
      modifies `tree
      ensures Valid() && tree == Forget(old(tree), mask)
    {
      ForgetKeeps(tree, mask);
      tree := Forget(tree, mask);
    }
  }

  method Cleanup(ids: seq<nat>, tree: Tree) returns (r: seq<nat>)
    ensures r == Alive(ids, tree)
  {
    r := [];
    for k := 0 to |ids|
      invariant r == Alive(ids[..k], tree)
    {
      AliveNext(ids, k, tree);
      if ids[k] in tree {
        r := r + [ids[k]];
      }
    }
    assert ids[..|ids|] == ids;
  }

  lemma {:induction false} AliveNext(ids: seq<nat>, k: nat, tree: Tree)
    requires k < |ids|
    ensures Alive(ids[..k + 1], tree) == Alive(ids[..k], tree) + if ids[k] in tree then [ids[k]] else []
  {
    if k > 0 {
      AliveNext(ids[1..], k - 1, tree);
      assert ids[1..][..k] == ids[..k + 1][1..] && ids[1..][..k - 1] == ids[..k][1..];
      assert ids[..k + 1][0] == ids[0] == ids[..k][0];
    } else {
      assert ids[..1][1..] == [] && ids[..1][0] == ids[0];
    }
  }

  lemma CountConcat(ids: seq<nat>, ids': seq<nat>)
    ensures forall n :: Count(ids + ids', n) == Count(ids, n) + Count(ids', n)
  {
  }

  lemma RowLifted(row: Row, ss: Row, samples: Row, p: Picker)
    requires Picks(p) && Complete(row) && AllRoots(ss) && Values(ss) == Values(samples) && samples != []
    ensures var r := Merged(row, ss, p);
      && r != [] && Complete(r) && Roots(r) == Roots(row) + Values(samples) && Values(row) <= Values(r)
      && (!AnyNews(row, ss) ==> |r| == |row|)
  {
    assert samples[0].value in Values(samples);
    MergeCompletes(row, ss, p);
    if !AnyNews(row, ss) {
      NoNews(row, ss);
    }
  }

  datatype Bound = Infinite | At(value: real)

  function Limit(b: Bound): set<real> {
    if b.Infinite? then {} else {b.value}
  }

  function BoundSample(b: Bound): (row: Row)
    ensures Values(row) == Limit(b) && AllRoots(row) && AllUnevaluated(row)
  {
    if b.Infinite? then []
    else
      SetsOfOne(Plain(b.value, true));
      [Plain(b.value, true)]
  }

  function RootRow(rs: seq<real>, pid: nat): (row: Row)
    ensures |row| == |rs| && AllRoots(row) && AllUnevaluated(row) && Values(row) == Elements(rs)
  {
    var row: Row := seq(|rs|, i requires 0 <= i < |rs| => RootOf(rs[i], pid));
    assert forall i :: 0 <= i < |rs| ==> rs[i] == row[i].value;
    row
  }

  /** Where a polynomial is said to have its roots: at zero if it has none. */
  function RootValues(roots: seq<real>): set<real> {
    if roots == [] then {0.0} else Elements(roots)
  }

  /** Where a lift puts root samples: at the roots and at the bounds. */
  function NewRoots(roots: seq<real>, lower: Bound, upper: Bound): set<real> {
    RootValues(roots) + Limit(lower) + Limit(upper)
  }

  /** Its root samples: those of the polynomial, and after them those of the bounds, which nobody has as roots. */
  function SamplesFor(roots: seq<real>, pid: nat, lower: Bound, upper: Bound): (row: Row)
    ensures row != [] && AllRoots(row) && AllUnevaluated(row)
    ensures Values(row) == NewRoots(roots, lower, upper)
  {
    assert [0.0][0] == 0.0;
    assert Elements([0.0]) == {0.0};
    var own := RootRow(if roots == [] then [0.0] else roots, pid);
    SetsOfConcat(own, BoundSample(lower));
    SetsOfConcat(own + BoundSample(lower), BoundSample(upper));
    own + BoundSample(lower) + BoundSample(upper)
  }

  // ---------------------------------------------------------------- marks

  lemma SampleKinds(roots: seq<real>, pid: nat, lower: Bound, upper: Bound, s: Sample)
    ensures s in SamplesFor(roots, pid, lower, upper) <==>
      || (s.value in RootValues(roots) && s == RootOf(s.value, pid))
      || (s.value in Limit(lower) + Limit(upper) && s == Plain(s.value, true))
  {
    var values := if roots == [] then [0.0] else roots;
    var own := RootRow(values, pid);
    assert Elements([0.0]) == {0.0} by { assert [0.0][0] == 0.0; }
    if s.value in RootValues(roots) && s == RootOf(s.value, pid) {
      var i :| 0 <= i < |values| && values[i] == s.value;
      assert own[i] == s;
    }
    assert s in own <==> s.value in RootValues(roots) && s == RootOf(s.value, pid);
  }

  /** Roots that are no bounds get their mark, whichever sample is kept for a value; no mark is lost. */
  lemma LiftMarks(row: Row, roots: seq<real>, pid: nat, lower: Bound, upper: Bound, ss: Row, p: Picker)
    requires UniqueOf(SamplesFor(roots, pid, lower, upper), ss)
    ensures forall q :: RootsOf(row, q) <= RootsOf(Merged(row, ss, p), q)
    ensures RootValues(roots) - Limit(lower) - Limit(upper) <= RootsOf(Merged(row, ss, p), pid)
    ensures NoStrayMarks(row) ==> NoStrayMarks(Merged(row, ss, p))
    ensures NoStrayMarks(row) ==> forall q ::
      RootsOf(Merged(row, ss, p), q) <= RootsOf(row, q) + if q == pid then RootValues(roots) else {}
  {
    var samples := SamplesFor(roots, pid, lower, upper);
    forall i | 0 <= i < |ss|
      ensures ss[i].isRoot && (ss[i].value in RootValues(roots) - Limit(lower) - Limit(upper) ==> pid in ss[i].rootOf)
      ensures forall q :: q in ss[i].rootOf ==> q == pid && ss[i].value in RootValues(roots)
    {
      SampleKinds(roots, pid, lower, upper, ss[i]);
    }
    forall q
      ensures RootsOf(row, q) + RootsOf(ss, q) <= RootsOf(Merged(row, ss, p), q)
      ensures NoStrayMarks(row) ==> NoStrayMarks(Merged(row, ss, p))
      ensures NoStrayMarks(row) ==> RootsOf(Merged(row, ss, p), q) == RootsOf(row, q) + RootsOf(ss, q)
    {
      MergedMarks(row, ss, p, q);
    }
    assert RootValues(roots) <= Values(ss);
  }

  lemma KeepFirstUnique(samples: Row, r: Row, s: Sample)
    requires UniqueOf(samples, r)
    ensures UniqueOf(samples + [s], KeepFirst(r, s))
  {
    var p := Place(r, s.value);
    SetsOfConcat(samples, [s]);
    SetsOfOne(s);
    if !(p < |r| && r[p].value == s.value) {
      InsertAtIndex(r, p, s);
      InsertAtSets(r, p, s);
    }
  }

  /** There is such a list for all samples. */
  lemma {:induction false} UniqueExists(samples: Row) returns (r: Row)
    ensures UniqueOf(samples, r)
  {
    if samples == [] {
      r := [];
    } else {
      var before := samples[..|samples| - 1];
      r := UniqueExists(before);
      KeepFirstUnique(before, r, samples[|samples| - 1]);
      assert before + [samples[|samples| - 1]] == samples;
      r := KeepFirst(r, samples[|samples| - 1]);
    }
  }

  /** Every root is sure to get its mark exactly if none of them is a finite bound. */
  lemma MarksAreSure(roots: seq<real>, pid: nat, lower: Bound, upper: Bound)
    ensures (forall ss :: UniqueOf(SamplesFor(roots, pid, lower, upper), ss) ==> RootValues(roots) <= RootsOf(ss, pid))
       <==> RootValues(roots) !! Limit(lower) + Limit(upper)
  {
    var samples := SamplesFor(roots, pid, lower, upper);
    if RootValues(roots) !! Limit(lower) + Limit(upper) {
      forall ss | UniqueOf(samples, ss)
        ensures RootValues(roots) <= RootsOf(ss, pid)
      {
        MarkedUnlessBound(roots, pid, lower, upper, ss);
      }
    } else {
      var v :| v in RootValues(roots) && v in Limit(lower) + Limit(upper);
      var ss := LosingMark(roots, pid, lower, upper, v);
      assert UniqueOf(samples, ss) && v !in RootsOf(ss, pid);
    }
  }

  lemma MarkedUnlessBound(roots: seq<real>, pid: nat, lower: Bound, upper: Bound, ss: Row)
    requires UniqueOf(SamplesFor(roots, pid, lower, upper), ss)
    ensures RootValues(roots) - Limit(lower) - Limit(upper) <= RootsOf(ss, pid)
  {
    forall v | v in RootValues(roots) - Limit(lower) - Limit(upper)
      ensures v in RootsOf(ss, pid)
    {
      assert v in Values(ss);
      var i :| 0 <= i < |ss| && ss[i].value == v;
      SampleKinds(roots, pid, lower, upper, ss[i]);
    }
  }

  /** The sample of the bound may be the one that is kept. */
  lemma LosingMark(roots: seq<real>, pid: nat, lower: Bound, upper: Bound, v: real) returns (ss: Row)
    requires v in Limit(lower) + Limit(upper)
    ensures UniqueOf(SamplesFor(roots, pid, lower, upper), ss) && v !in RootsOf(ss, pid)
  {
    var samples := SamplesFor(roots, pid, lower, upper);
    var r := UniqueExists(samples);
    assert v in Values(r);
    var i :| 0 <= i < |r| && r[i].value == v;
    SampleKinds(roots, pid, lower, upper, Plain(v, true));
    ss := r[i := Plain(v, true)];
    OtherKept(samples, r, i, Plain(v, true));
    NotMarked(ss, i, pid);
  }

  lemma OtherKept(samples: Row, r: Row, i: nat, s: Sample)
    requires UniqueOf(samples, r) && i < |r| && s in samples && s.value == r[i].value
    ensures UniqueOf(samples, r[i := s])
  {
    var r' := r[i := s];
    assert forall j :: 0 <= j < |r| ==> r'[j].value == r[j].value;
  }

  lemma NotMarked(row: Row, i: nat, pid: nat)
    requires Sorted(row) && i < |row| && pid !in row[i].rootOf
    ensures row[i].value !in RootsOf(row, pid)
  {
  }

  /**
   What becomes of it: a polynomial has its root at the lower bound, which is the sample kept.
   When any other polynomial of the level is withdrawn, this root sample goes.
   */
  lemma LostRoot(tree: Tree, n: nat, v: real, pid: nat, other: nat, p: Picker)
    requires WellFormed(tree) && Picks(p) && n in tree && pid != other
    requires RowAt(tree, n) == Merged([], [Plain(v, true)], p)
    ensures UniqueOf(SamplesFor([v], pid, At(v), Infinite), [Plain(v, true)])
    ensures Roots(RowAt(tree, n)) == {v} && n in Purge(tree, tree[n].depth + 1, {other})
    ensures Roots(RowAt(Purge(tree, tree[n].depth + 1, {other}), n)) == {}
  {
    BoundKept(v, pid);
    UnmarkedRow(v, p);
    PurgedRoots(tree, tree[n].depth + 1, {other}, n);
  }

  lemma BoundKept(v: real, pid: nat)
    ensures UniqueOf(SamplesFor([v], pid, At(v), Infinite), [Plain(v, true)])
  {
    SampleKinds([v], pid, At(v), Infinite, Plain(v, true));
    SetsOfOne(Plain(v, true));
    assert Elements([v]) == {v} by { assert [v][0] == v; }
  }

  lemma UnmarkedRow(v: real, p: Picker)
    requires Picks(p)
    ensures var row := Merged([], [Plain(v, true)], p);
      && row != [] && Complete(row) && Roots(row) == {v}
      && forall i :: 0 <= i < |row| && row[i].isRoot ==> row[i].rootOf == {}
  {
    var ss := [Plain(v, true)];
    SetsOfOne(ss[0]);
    MergeCompletes([], ss, p);
    forall q
      ensures RootsOf(Merged([], ss, p), q) == {}
    {
      MergedMarks([], ss, p, q);
      RootsOfOne(ss[0], q);
    }
    var row := Merged([], ss, p);
    forall i, q: nat | 0 <= i < |row| && row[i].isRoot
      ensures q !in row[i].rootOf
    {
      MarkShows(row, i, q);
    }
  }

  lemma MarkShows(row: Row, i: nat, q: nat)
    requires i < |row| && row[i].isRoot
    ensures q in row[i].rootOf ==> row[i].value in RootsOf(row, q)
  {
  }

  // ---------------------------------------------------------------- trivial samples

  /** The samples that are appended around a centre. */
  function TrivialRow(center: real, radius: nat): Row {
    if radius <= 1 then [Plain(center, false)]
    else
      var i := (radius - 1) as real;
      TrivialRow(center, radius - 1) + [Plain(center + i, false), Plain(center - i, false)]
  }

  lemma {:induction false} TrivialRowBegins(center: real, radius: nat)
    requires radius >= 2
    ensures |TrivialRow(center, radius)| >= 3
    ensures TrivialRow(center, radius)[1].value == center + 1.0 && TrivialRow(center, radius)[2].value == center - 1.0
  {
    if radius > 2 {
      TrivialRowBegins(center, radius - 1);
    }
  }

  /** With a radius above one they are neither in order, nor are there roots between them. */
  lemma TrivialRowComplete(center: real, radius: nat)
    ensures Complete(TrivialRow(center, radius)) <==> radius <= 1
  {
    if radius >= 2 {
      TrivialRowBegins(center, radius);
      var row := TrivialRow(center, radius);
      assert row[1].value > row[2].value;
    }
  }
}
