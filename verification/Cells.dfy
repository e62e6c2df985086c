/**
 The children of one node of the CAD lifting tree, as a row of samples from left to right. The
 root samples cut the real line into cells, and the row shall hold a sample of each of them.
 */
module Cells {

  datatype Sample = Sample(
    value: real,
    isRoot: bool,
    liftedWith: set<nat>,
    rootOf: set<nat>,
    evaluatedWith: set<nat>,
    evaluationResult: set<nat>)
  {
    /** Being merged with a root sample of the same value makes a sample a root sample. */
    function Merge(s: Sample): Sample {
      this.(isRoot := isRoot || s.isRoot, liftedWith := liftedWith + s.liftedWith, rootOf := rootOf + s.rootOf)
    }

    predicate HasConflictWithConstraint() {
      evaluatedWith - evaluationResult != {}
    }
  }

  function Plain(value: real, isRoot: bool): Sample {
    Sample(value, isRoot, {}, {}, {}, {})
  }

  function RootOf(value: real, polynomial: nat): Sample {
    Plain(value, true).(rootOf := {polynomial})
  }

  type Row = seq<Sample>

  /** How samples are chosen below, between and above given values. */
  datatype Picker = Picker(below: real -> real, between: (real, real) -> real, above: real -> real)

  ghost predicate Picks(p: Picker) {
    && (forall v :: p.below(v) < v < p.above(v))
    && (forall v, w :: v < w ==> v < p.between(v, w) < w)
  }

  predicate Sorted(row: Row) {
    forall i, j :: 0 <= i < j < |row| ==> row[i].value < row[j].value
  }

  predicate AllRoots(row: Row) {
    forall i :: 0 <= i < |row| ==> row[i].isRoot
  }

  /** Non-root and root samples take turns, with non-root samples at both ends. */
  predicate Alternates(row: Row) {
    && |row| % 2 == 1
    && forall i :: 0 <= i < |row| ==> (row[i].isRoot <==> i % 2 == 1)
  }

  /** A lifted node's row; a node that is not lifted yet has no children. */
  predicate Complete(row: Row) {
    row == [] || (Sorted(row) && Alternates(row))
  }

  /** Two neighbours are never both non-root samples. */
  predicate Separated(row: Row) {
    forall i :: 0 < i < |row| ==> row[i - 1].isRoot || row[i].isRoot
  }

  // ---------------------------------------------------------------- cells

  /** x and y are in the same cell of the decomposition by the root samples. */
  predicate SameCell(row: Row, x: real, y: real) {
    forall i :: 0 <= i < |row| && row[i].isRoot ==>
      (x < row[i].value <==> y < row[i].value) && (x == row[i].value <==> y == row[i].value)
  }

  /** The row has a sample in the cell of x. */
  predicate Covers(row: Row, x: real) {
    exists k :: 0 <= k < |row| && SameCell(row, x, row[k].value)
  }

  /** A row that alternates has a sample in every cell. */
  lemma EveryCellSampled(row: Row, x: real)
    requires Sorted(row) && Alternates(row)
    ensures Covers(row, x)
  {
    var k := CellOf(row, x);
    assert SameCell(row, x, row[k].value);
  }

  /** The index of the sample that represents x: its root, or the sample between two roots. */
  function CellOf(row: Row, x: real): (k: nat)
    requires Sorted(row) && Alternates(row)
    ensures k < |row| && SameCell(row, x, row[k].value)
    decreases |row|
  {
    if |row| == 1 || x > row[|row| - 2].value then |row| - 1
    else if x == row[|row| - 2].value then |row| - 2
    else
      var k := CellOf(row[..|row| - 2], x);
      assert row[..|row| - 2][k] == row[k];
      assert SameCell(row[..|row| - 2], x, row[k].value);
      assert forall i :: 0 <= i < |row| && row[i].isRoot && i < |row| - 2 ==> row[..|row| - 2][i] == row[i];
      k
  }

  // ---------------------------------------------------------------- inserting roots

  /** The first position whose sample is not below v. */
  function Place(row: Row, v: real): (p: nat)
    ensures p <= |row|
    ensures forall i :: 0 <= i < p ==> row[i].value < v
    ensures p < |row| ==> row[p].value >= v
  {
    if row == [] || row[0].value >= v then 0 else 1 + Place(row[1..], v)
  }

  function InsertAt(row: Row, p: nat, s: Sample): Row
    requires p <= |row|
  {
    row[..p] + [s] + row[p..]
  }

  function InsertRoot(row: Row, s: Sample): Row {
    var p := Place(row, s.value);
    if p < |row| && row[p].value == s.value then row[p := row[p].Merge(s)] else InsertAt(row, p, s)
  }

  function InsertRoots(row: Row, ss: Row): Row
    decreases |ss|
  {
    if ss == [] then row else InsertRoots(InsertRoot(row, ss[0]), ss[1..])
  }

  /** Whether inserting s changes more than the marks on an existing root sample. */
  predicate IsNews(row: Row, s: Sample) {
    var p := Place(row, s.value);
    p == |row| || row[p].value != s.value || !row[p].isRoot
  }

  predicate AnyNews(row: Row, ss: Row)
    decreases |ss|
  {
    ss != [] && (IsNews(row, ss[0]) || AnyNews(InsertRoot(row, ss[0]), ss[1..]))
  }

  function Roots(row: Row): set<real> {
    set i | 0 <= i < |row| && row[i].isRoot :: row[i].value
  }

  function Values(row: Row): set<real> {
    set i | 0 <= i < |row| :: row[i].value
  }

  lemma InsertSorted(row: Row, s: Sample)
    requires Sorted(row)
    ensures Sorted(InsertRoot(row, s)) && InsertRoot(row, s) != []
  {
    var p, r := Place(row, s.value), InsertRoot(row, s);
    if p == |row| || row[p].value != s.value {
      InsertAtIndex(row, p, s);
    }
  }

  lemma InsertAtIndex(row: Row, p: nat, s: Sample)
    requires p <= |row|
    ensures var r := InsertAt(row, p, s);
      && |r| == |row| + 1 && r[p] == s
      && (forall i :: 0 <= i < p ==> r[i] == row[i])
      && (forall i :: p < i < |r| ==> r[i] == row[i - 1])
  {
  }

  lemma InsertAtEnds(row: Row, s: Sample)
    ensures InsertAt(row, 0, s) == [s] + row
    ensures InsertAt(row, |row|, s) == row + [s]
  {
  }

  lemma InsertSeparated(row: Row, s: Sample)
    requires Separated(row) && s.isRoot
    ensures Separated(InsertRoot(row, s))
  {
    var p, r := Place(row, s.value), InsertRoot(row, s);
    if p == |row| || row[p].value != s.value {
      InsertAtIndex(row, p, s);
    }
  }

  lemma SetsOfConcat(row: Row, row': Row)
    ensures Values(row + row') == Values(row) + Values(row')
    ensures Roots(row + row') == Roots(row) + Roots(row')
  {
    var r := row + row';
    forall i | 0 <= i < |row'|
      ensures row'[i].value in Values(r) && (row'[i].isRoot ==> row'[i].value in Roots(r))
    {
      assert r[|row| + i] == row'[i];
    }
    forall i | 0 <= i < |row|
      ensures row[i].value in Values(r) && (row[i].isRoot ==> row[i].value in Roots(r))
    {
      assert r[i] == row[i];
    }
  }

  lemma SetsOfOne(s: Sample)
    ensures Values([s]) == {s.value}
    ensures Roots([s]) == if s.isRoot then {s.value} else {}
  {
    assert [s][0] == s;
  }

  lemma InsertAtSets(row: Row, p: nat, s: Sample)
    requires p <= |row|
    ensures Values(InsertAt(row, p, s)) == Values(row) + {s.value}
    ensures Roots(InsertAt(row, p, s)) == Roots(row) + if s.isRoot then {s.value} else {}
  {
    SetsOfConcat(row[..p], row[p..]);
    SetsOfConcat(row[..p], [s]);
    SetsOfConcat(row[..p] + [s], row[p..]);
    SetsOfOne(s);
    assert row[..p] + row[p..] == row;
  }

  lemma InsertSets(row: Row, s: Sample)
    requires s.isRoot
    ensures Values(InsertRoot(row, s)) == Values(row) + {s.value}
    ensures Roots(InsertRoot(row, s)) == Roots(row) + {s.value}
  {
    var p, r := Place(row, s.value), InsertRoot(row, s);
    if p < |row| && row[p].value == s.value {
      assert forall i :: 0 <= i < |row| ==> r[i].value == row[i].value && (row[i].isRoot ==> r[i].isRoot);
      assert forall i :: 0 <= i < |row| && i != p ==> r[i] == row[i];
      assert r[p].value == s.value && r[p].isRoot;
    } else {
      InsertAtSets(row, p, s);
    }
  }

  lemma {:induction false} InsertRootsShape(row: Row, ss: Row)
    requires Sorted(row) && Separated(row) && AllRoots(ss)
    ensures var r := InsertRoots(row, ss);
      Sorted(r) && Separated(r) && (row != [] || ss != [] ==> r != [])
    decreases |ss|
  {
    if ss != [] {
      InsertSorted(row, ss[0]);
      InsertSeparated(row, ss[0]);
      InsertRootsShape(InsertRoot(row, ss[0]), ss[1..]);
    }
  }

  /** Inserting root samples adds their values to the roots, and loses none. */
  lemma {:induction false} InsertRootsSets(row: Row, ss: Row)
    requires AllRoots(ss)
    ensures Roots(InsertRoots(row, ss)) == Roots(row) + Values(ss)
    ensures Values(InsertRoots(row, ss)) == Values(row) + Values(ss)
    decreases |ss|
  {
    if ss != [] {
      InsertSets(row, ss[0]);
      InsertRootsSets(InsertRoot(row, ss[0]), ss[1..]);
      ValuesOfTail(ss);
    }
  }

  lemma ValuesOfTail(row: Row)
    requires row != []
    ensures Values(row) == {row[0].value} + Values(row[1..])
  {
    SetsOfConcat([row[0]], row[1..]);
    SetsOfOne(row[0]);
    assert [row[0]] + row[1..] == row;
  }

  /** News means that there are samples. */
  lemma {:induction false} NewsIsSomething(row: Row, ss: Row)
    requires AnyNews(row, ss)
    ensures InsertRoots(row, ss) != []
  {
    NotEmptied(InsertRoot(row, ss[0]), ss[1..]);
  }

  lemma {:induction false} NotEmptied(row: Row, ss: Row)
    requires row != []
    ensures InsertRoots(row, ss) != []
    decreases |ss|
  {
    if ss != [] {
      NotEmptied(InsertRoot(row, ss[0]), ss[1..]);
    }
  }

  /** Without news the row keeps its shape. */
  lemma {:induction false} NoNews(row: Row, ss: Row)
    requires !AnyNews(row, ss)
    ensures var r := InsertRoots(row, ss);
      |r| == |row| && forall i :: 0 <= i < |row| ==> r[i].value == row[i].value && r[i].isRoot == row[i].isRoot
    decreases |ss|
  {
    if ss != [] {
      NoNews(InsertRoot(row, ss[0]), ss[1..]);
    }
  }

  lemma PlaceIs(row: Row, v: real, p: nat)
    requires Sorted(row) && p <= |row|
    requires forall i :: 0 <= i < p ==> row[i].value < v
    requires p < |row| ==> row[p].value >= v
    ensures Place(row, v) == p
  {
  }

  lemma UpToInserted(row: Row, s: Sample)
    ensures var r := InsertRoot(row, s);
      |r| > Place(row, s.value) && forall i :: 0 <= i <= Place(row, s.value) ==> r[i].value <= s.value
  {
    var p := Place(row, s.value);
    if p == |row| || row[p].value != s.value {
      InsertAtIndex(row, p, s);
    }
  }

  /** Inserting one more root sample in the end. */
  lemma {:induction false} InsertRootsNext(row: Row, ss: Row, k: nat)
    requires k < |ss|
    ensures InsertRoots(row, ss[..k + 1]) == InsertRoot(InsertRoots(row, ss[..k]), ss[k])
    ensures AnyNews(row, ss[..k + 1]) <==> AnyNews(row, ss[..k]) || IsNews(InsertRoots(row, ss[..k]), ss[k])
    decreases k
  {
    var now := ss[..k + 1];
    assert now[0] == ss[0];
    if k > 0 {
      InsertRootsNext(InsertRoot(row, ss[0]), ss[1..], k - 1);
      assert now[1..] == ss[1..][..k] && ss[..k][1..] == ss[1..][..k - 1] && ss[..k][0] == ss[0];
    } else {
      assert now[1..] == [] && ss[..0] == [];
    }
  }

  // ---------------------------------------------------------------- filling gaps

  function FillGaps(row: Row, p: Picker): Row
    decreases |row|
  {
    if |row| <= 1 then row
    else if row[0].isRoot && row[1].isRoot then
      [row[0], Plain(p.between(row[0].value, row[1].value), false)] + FillGaps(row[1..], p)
    else [row[0]] + FillGaps(row[1..], p)
  }

  /** One step of the loop that fills the gaps, after `done` and before `rest`. */
  function GapStep(rest: Row, p: Picker): Row
    requires |rest| > 1
  {
    if rest[0].isRoot && rest[1].isRoot then [rest[0], Plain(p.between(rest[0].value, rest[1].value), false)]
    else [rest[0]]
  }

  lemma FillGapsStep(done: Row, rest: Row, p: Picker)
    requires |rest| > 1
    ensures done + FillGaps(rest, p) == (done + GapStep(rest, p)) + FillGaps(rest[1..], p)
  {
    assert FillGaps(rest, p) == GapStep(rest, p) + FillGaps(rest[1..], p);
  }

  lemma InsertGap(done: Row, rest: Row, s: Sample)
    requires rest != []
    ensures InsertAt(done + rest, |done| + 1, s) == (done + [rest[0], s]) + rest[1..]
    ensures done + rest == (done + [rest[0]]) + rest[1..]
  {
    assert (done + rest)[..|done| + 1] == done + [rest[0]] && (done + rest)[|done| + 1..] == rest[1..];
  }

  function LowEnd(row: Row, p: Picker): Row
    requires row != []
  {
    if row[0].isRoot then [Plain(p.below(row[0].value), false)] else []
  }

  function HighEnd(last: Sample, p: Picker): Row {
    if last.isRoot then [Plain(p.above(last.value), false)] else []
  }

  function Fill(row: Row, p: Picker): Row
    requires row != []
  {
    LowEnd(row, p) + FillGaps(row, p) + HighEnd(row[|row| - 1], p)
  }

  /** Non-root and root samples take turns, beginning with either. */
  predicate TakesTurns(row: Row) {
    forall i :: 0 < i < |row| ==> row[i - 1].isRoot != row[i].isRoot
  }

  lemma SortedCons(s: Sample, row: Row)
    requires Sorted(row) && (row != [] ==> s.value < row[0].value)
    ensures Sorted([s] + row)
  {
    var r := [s] + row;
    forall i, j | 0 <= i < j < |r|
      ensures r[i].value < r[j].value
    {
      assert i > 0 ==> r[i] == row[i - 1];
      assert r[j] == row[j - 1];
    }
  }

  lemma SortedSnoc(row: Row, s: Sample)
    requires Sorted(row) && (row != [] ==> row[|row| - 1].value < s.value)
    ensures Sorted(row + [s])
  {
  }

  lemma TurnsCons(s: Sample, row: Row)
    requires TakesTurns(row) && (row != [] ==> s.isRoot != row[0].isRoot)
    ensures TakesTurns([s] + row)
  {
    var r := [s] + row;
    assert forall i :: 0 < i < |r| ==> r[i] == row[i - 1];
  }

  lemma {:induction false} FillGapsTakesTurns(row: Row, p: Picker)
    requires row != [] && Picks(p) && Sorted(row) && Separated(row)
    ensures var r := FillGaps(row, p);
      && r != [] && Sorted(r) && TakesTurns(r)
      && r[0] == row[0] && r[|r| - 1] == row[|row| - 1]
    decreases |row|
  {
    if |row| > 1 {
      var tail, rest := row[1..], FillGaps(row[1..], p);
      TailOf(row);
      FillGapsTakesTurns(tail, p);
      if row[0].isRoot && row[1].isRoot {
        var s := Plain(p.between(row[0].value, row[1].value), false);
        SortedCons(s, rest);
        TurnsCons(s, rest);
        SortedCons(row[0], [s] + rest);
        TurnsCons(row[0], [s] + rest);
        assert [row[0], s] + rest == [row[0]] + ([s] + rest);
      } else {
        SortedCons(row[0], rest);
        TurnsCons(row[0], rest);
      }
    }
  }

  lemma TailOf(row: Row)
    requires |row| > 1 && Sorted(row) && Separated(row)
    ensures Sorted(row[1..]) && Separated(row[1..]) && row[1..][0] == row[1] && row[1..][|row| - 2] == row[|row| - 1]
  {
    assert forall i :: 0 <= i < |row| - 1 ==> row[1..][i] == row[i + 1];
  }

  /** Filling the gaps adds samples, but no root samples. */
  lemma {:induction false} FillGapsSets(row: Row, p: Picker)
    ensures Roots(FillGaps(row, p)) == Roots(row)
    ensures Values(row) <= Values(FillGaps(row, p))
    decreases |row|
  {
    if |row| > 1 {
      var rest := FillGaps(row[1..], p);
      FillGapsSets(row[1..], p);
      assert [row[0]] + row[1..] == row;
      SetsOfConcat([row[0]], row[1..]);
      SetsOfConcat([row[0]], rest);
      if row[0].isRoot && row[1].isRoot {
        var s := Plain(p.between(row[0].value, row[1].value), false);
        assert [row[0], s] == [row[0]] + [s];
        SetsOfConcat([row[0]], [s]);
        SetsOfOne(s);
        SetsOfConcat([row[0], s], rest);
      }
    }
  }

  lemma FillLeft(low: Sample, row: Row)
    requires row != [] && Sorted(row) && TakesTurns(row) && row[0].isRoot && !low.isRoot && low.value < row[0].value
    ensures var r := [low] + row;
      Sorted(r) && TakesTurns(r) && !r[0].isRoot && r[|r| - 1] == row[|row| - 1]
  {
    SortedCons(low, row);
    TurnsCons(low, row);
  }

  lemma FillRight(row: Row, high: Sample)
    requires row != [] && Sorted(row) && TakesTurns(row) && !row[0].isRoot && row[|row| - 1].isRoot
    requires !high.isRoot && row[|row| - 1].value < high.value
    ensures Sorted(row + [high]) && Alternates(row + [high])
  {
    SortedSnoc(row, high);
    TurnsAlternate(row + [high]);
  }

  /** Filled, a row of separated samples is complete. */
  lemma FillAlternates(row: Row, p: Picker)
    requires row != [] && Picks(p) && Sorted(row) && Separated(row)
    ensures Sorted(Fill(row, p)) && Alternates(Fill(row, p))
  {
    var mid := FillGaps(row, p);
    FillGapsTakesTurns(row, p);
    var left := if row[0].isRoot then [Plain(p.below(row[0].value), false)] + mid else mid;
    if row[0].isRoot {
      FillLeft(left[0], mid);
    }
    if row[|row| - 1].isRoot {
      FillRight(left, Plain(p.above(row[|row| - 1].value), false));
      assert Fill(row, p) == left + [Plain(p.above(row[|row| - 1].value), false)];
    } else {
      TurnsAlternate(left);
      assert Fill(row, p) == left;
    }
  }

  lemma FillSets(row: Row, p: Picker)
    requires row != []
    ensures Roots(Fill(row, p)) == Roots(row) && Values(row) <= Values(Fill(row, p))
  {
    var mid := FillGaps(row, p);
    FillGapsSets(row, p);
    var low, high := LowEnd(row, p), HighEnd(row[|row| - 1], p);
    SetsOfConcat(low, mid);
    SetsOfConcat(low + mid, high);
    assert Roots(low) == Roots(high) == {};
  }

  lemma TurnsAlternate(row: Row)
    requires row != [] && TakesTurns(row) && !row[0].isRoot && !row[|row| - 1].isRoot
    ensures Alternates(row)
  {
    TurnsParity(row, |row| - 1);
    forall i | 0 <= i < |row|
      ensures row[i].isRoot <==> i % 2 == 1
    {
      TurnsParity(row, i);
    }
  }

  lemma {:induction false} TurnsParity(row: Row, i: nat)
    requires i < |row| && TakesTurns(row) && !row[0].isRoot
    ensures row[i].isRoot <==> i % 2 == 1
  {
    if i > 0 {
      TurnsParity(row, i - 1);
    }
  }

  // ---------------------------------------------------------------- merging

  /** `mergeRootSamples` with root samples at hand: insert them, and fill the gaps if there is news. */
  function Merged(row: Row, ss: Row, p: Picker): Row {
    var r := InsertRoots(row, ss);
    if AnyNews(row, ss) && r != [] then Fill(r, p) else r
  }

  /** Lifting keeps the row complete, adds exactly the new roots, and keeps every old sample. */
  lemma MergeCompletes(row: Row, ss: Row, p: Picker)
    requires Picks(p) && Complete(row) && ss != [] && AllRoots(ss)
    ensures var r := Merged(row, ss, p);
      && Sorted(r) && Alternates(r)
      && Roots(r) == Roots(row) + Values(ss) && Values(row) <= Values(r)
  {
    assert Separated(row);
    InsertRootsShape(row, ss);
    InsertRootsSets(row, ss);
    if AnyNews(row, ss) {
      FillAlternates(InsertRoots(row, ss), p);
      FillSets(InsertRoots(row, ss), p);
    } else {
      NoNews(row, ss);
      assert row != [];
    }
  }

  // ---------------------------------------------------------------- withdrawing polynomials

  /** The row without the root samples that `gone` says, and without their left neighbours. */
  function Withdraw(row: Row, gone: Sample -> bool): Row
    requires Alternates(row)
    decreases |row|
  {
    if |row| == 1 then row
    else
      assert Alternates(row[2..]) by {
        assert forall i :: 0 <= i < |row[2..]| ==> row[2..][i] == row[i + 2];
      }
      (if gone(row[1]) then [] else row[..2]) + Withdraw(row[2..], gone)
  }

  /** The roots that stay. */
  function RemainingRoots(row: Row, gone: Sample -> bool): set<real> {
    set i | 0 <= i < |row| && row[i].isRoot && !gone(row[i]) :: row[i].value
  }

  lemma RemainingOfConcat(row: Row, row': Row, gone: Sample -> bool)
    ensures RemainingRoots(row + row', gone) == RemainingRoots(row, gone) + RemainingRoots(row', gone)
  {
    var r := row + row';
    forall i | 0 <= i < |row'| && row'[i].isRoot && !gone(row'[i])
      ensures row'[i].value in RemainingRoots(r, gone)
    {
      assert r[|row| + i] == row'[i];
    }
    forall i | 0 <= i < |row| && row[i].isRoot && !gone(row[i])
      ensures row[i].value in RemainingRoots(r, gone)
    {
      assert r[i] == row[i];
    }
  }

  lemma TwoAndRest(row: Row)
    requires |row| > 1 && Alternates(row)
    ensures row == [row[0], row[1]] + row[2..] && Alternates(row[2..]) && !row[0].isRoot && row[1].isRoot
  {
    assert forall i :: 0 <= i < |row| - 2 ==> row[2..][i] == row[i + 2];
  }

  lemma PairAlternates(s: Sample, t: Sample, row: Row)
    requires !s.isRoot && t.isRoot && Alternates(row)
    ensures Alternates([s, t] + row)
  {
    var r := [s, t] + row;
    forall i | 0 <= i < |r|
      ensures r[i].isRoot <==> i % 2 == 1
    {
      assert i >= 2 ==> r[i] == row[i - 2];
    }
  }

  lemma PairSorted(s: Sample, t: Sample, row: Row)
    requires Sorted(row) && row != [] && s.value < t.value < row[0].value
    ensures Sorted([s, t] + row)
  {
    SortedCons(t, row);
    SortedCons(s, [t] + row);
    assert [s, t] + row == [s] + ([t] + row);
  }

  lemma TailSorted(row: Row)
    requires Sorted(row) && |row| > 2
    ensures Sorted(row[2..]) && row[0].value < row[1].value < row[2..][0].value && row[2..][|row| - 3] == row[|row| - 1]
  {
    assert forall i :: 0 <= i < |row| - 2 ==> row[2..][i] == row[i + 2];
  }

  /** The row stays complete, and it ends with the same sample. */
  lemma {:induction false} WithdrawAlternates(row: Row, gone: Sample -> bool)
    requires Sorted(row) && Alternates(row)
    ensures var r := Withdraw(row, gone);
      && Sorted(r) && Alternates(r) && r[0].value >= row[0].value && r[|r| - 1] == row[|row| - 1]
    decreases |row|
  {
    if |row| > 1 {
      var rest := Withdraw(row[2..], gone);
      TwoAndRest(row);
      TailSorted(row);
      WithdrawAlternates(row[2..], gone);
      if !gone(row[1]) {
        PairSorted(row[0], row[1], rest);
        PairAlternates(row[0], row[1], rest);
        assert row[..2] == [row[0], row[1]];
      }
    }
  }

  lemma PairSets(s: Sample, t: Sample, gone: Sample -> bool)
    requires !s.isRoot && t.isRoot
    ensures Roots([s, t]) == {t.value}
    ensures RemainingRoots([s, t], gone) == if gone(t) then {} else {t.value}
  {
    var row := [s, t];
    assert row[1] == t;
  }

  /** Its roots are exactly the old ones that are not gone, and it has no new values. */
  lemma {:induction false} WithdrawSets(row: Row, gone: Sample -> bool)
    requires Alternates(row)
    ensures Roots(Withdraw(row, gone)) == RemainingRoots(row, gone)
    ensures Values(Withdraw(row, gone)) <= Values(row)
    decreases |row|
  {
    if |row| > 1 {
      var pair, tail := [row[0], row[1]], row[2..];
      TwoAndRest(row);
      WithdrawSets(tail, gone);
      RemainingOfConcat(pair, tail, gone);
      SetsOfConcat(pair, tail);
      SetsOfConcat(pair, Withdraw(tail, gone));
      PairSets(row[0], row[1], gone);
      assert row[..2] == pair;
      assert Withdraw(row, gone) == if gone(row[1]) then Withdraw(tail, gone) else pair + Withdraw(tail, gone);
    } else {
      assert !row[0].isRoot && row == [row[0]];
      assert Roots(row) == {} == RemainingRoots(row, gone);
    }
  }

  // ---------------------------------------------------------------- whose roots the samples are

  function Lacks(pid: nat): Sample -> bool {
    (s: Sample) => pid !in s.rootOf
  }

  /** Where a row has root samples that are marked as roots of a polynomial. */
  function RootsOf(row: Row, pid: nat): set<real> {
    RemainingRoots(row, Lacks(pid))
  }

  /** Only root samples are marked. */
  predicate NoStrayMarks(row: Row) {
    forall i :: 0 <= i < |row| && !row[i].isRoot ==> row[i].rootOf == {}
  }

  lemma RootsOfOne(s: Sample, pid: nat)
    ensures RootsOf([s], pid) == if s.isRoot && pid in s.rootOf then {s.value} else {}
  {
    assert [s][0] == s;
  }

  lemma InsertAtMarks(row: Row, p: nat, s: Sample, pid: nat)
    requires p <= |row|
    ensures RootsOf(InsertAt(row, p, s), pid) == RootsOf(row, pid) + RootsOf([s], pid)
  {
    var gone := Lacks(pid);
    RemainingOfConcat(row[..p], row[p..], gone);
    RemainingOfConcat(row[..p], [s], gone);
    RemainingOfConcat(row[..p] + [s], row[p..], gone);
    assert row[..p] + row[p..] == row;
  }

  /** Inserting a root sample loses no mark, and adds its own. */
  lemma InsertRootMarks(row: Row, s: Sample, pid: nat)
    requires s.isRoot
    ensures RootsOf(row, pid) + RootsOf([s], pid) <= RootsOf(InsertRoot(row, s), pid)
    ensures NoStrayMarks(row) ==> NoStrayMarks(InsertRoot(row, s))
    ensures NoStrayMarks(row) ==> RootsOf(InsertRoot(row, s), pid) == RootsOf(row, pid) + RootsOf([s], pid)
  {
    var p, r := Place(row, s.value), InsertRoot(row, s);
    RootsOfOne(s, pid);
    if p < |row| && row[p].value == s.value {
      assert r[p] == row[p].Merge(s);
      assert forall i :: 0 <= i < |row| && i != p ==> r[i] == row[i];
    } else {
      InsertAtMarks(row, p, s, pid);
      InsertAtIndex(row, p, s);
    }
  }

  lemma {:induction false} InsertRootsMarks(row: Row, ss: Row, pid: nat)
    requires AllRoots(ss)
    ensures RootsOf(row, pid) + RootsOf(ss, pid) <= RootsOf(InsertRoots(row, ss), pid)
    ensures NoStrayMarks(row) ==> NoStrayMarks(InsertRoots(row, ss))
    ensures NoStrayMarks(row) ==> RootsOf(InsertRoots(row, ss), pid) == RootsOf(row, pid) + RootsOf(ss, pid)
    decreases |ss|
  {
    if ss != [] {
      InsertRootMarks(row, ss[0], pid);
      InsertRootsMarks(InsertRoot(row, ss[0]), ss[1..], pid);
      RemainingOfConcat([ss[0]], ss[1..], Lacks(pid));
      assert [ss[0]] + ss[1..] == ss;
    }
  }

  lemma PlainUnmarked(value: real, pid: nat)
    ensures RootsOf([Plain(value, false)], pid) == {} && NoStrayMarks([Plain(value, false)])
  {
    RootsOfOne(Plain(value, false), pid);
  }

  lemma MarksOfConcat(row: Row, row': Row, pid: nat)
    ensures RootsOf(row + row', pid) == RootsOf(row, pid) + RootsOf(row', pid)
    ensures NoStrayMarks(row) && NoStrayMarks(row') ==> NoStrayMarks(row + row')
  {
    RemainingOfConcat(row, row', Lacks(pid));
  }

  /** Filling the gaps adds no marks. */
  lemma {:induction false} FillGapsMarks(row: Row, p: Picker, pid: nat)
    ensures RootsOf(FillGaps(row, p), pid) == RootsOf(row, pid)
    ensures NoStrayMarks(row) ==> NoStrayMarks(FillGaps(row, p))
    decreases |row|
  {
    if |row| > 1 {
      var rest := FillGaps(row[1..], p);
      FillGapsMarks(row[1..], p, pid);
      assert [row[0]] + row[1..] == row;
      MarksOfConcat([row[0]], row[1..], pid);
      MarksOfConcat([row[0]], rest, pid);
      if row[0].isRoot && row[1].isRoot {
        var s := Plain(p.between(row[0].value, row[1].value), false);
        assert [row[0], s] == [row[0]] + [s];
        PlainUnmarked(s.value, pid);
        MarksOfConcat([row[0]], [s], pid);
        MarksOfConcat([row[0], s], rest, pid);
      }
    }
  }

  lemma FillMarks(row: Row, p: Picker, pid: nat)
    requires row != []
    ensures RootsOf(Fill(row, p), pid) == RootsOf(row, pid)
    ensures NoStrayMarks(row) ==> NoStrayMarks(Fill(row, p))
  {
    var low, mid, high := LowEnd(row, p), FillGaps(row, p), HighEnd(row[|row| - 1], p);
    FillGapsMarks(row, p, pid);
    assert RootsOf(low, pid) == RootsOf(high, pid) == {};
    MarksOfConcat(low, mid, pid);
    MarksOfConcat(low + mid, high, pid);
  }

  /** Merging root samples into a row loses no mark and adds exactly theirs. */
  lemma MergedMarks(row: Row, ss: Row, p: Picker, pid: nat)
    requires AllRoots(ss)
    ensures RootsOf(row, pid) + RootsOf(ss, pid) <= RootsOf(Merged(row, ss, p), pid)
    ensures NoStrayMarks(row) ==> NoStrayMarks(Merged(row, ss, p))
    ensures NoStrayMarks(row) ==> RootsOf(Merged(row, ss, p), pid) == RootsOf(row, pid) + RootsOf(ss, pid)
  {
    InsertRootsMarks(row, ss, pid);
    if InsertRoots(row, ss) != [] {
      FillMarks(InsertRoots(row, ss), p, pid);
    }
  }

  /** Withdrawal loses no mark of a polynomial for whose sake a sample stays. */
  lemma {:induction false} WithdrawMarks(row: Row, gone: Sample -> bool, pid: nat)
    requires Alternates(row) && forall s :: gone(s) ==> pid !in s.rootOf
    ensures RootsOf(Withdraw(row, gone), pid) == RootsOf(row, pid)
    decreases |row|
  {
    if |row| > 1 {
      var pair, tail := [row[0], row[1]], row[2..];
      TwoAndRest(row);
      WithdrawMarks(tail, gone, pid);
      RemainingOfConcat(pair, tail, Lacks(pid));
      RemainingOfConcat(pair, Withdraw(tail, gone), Lacks(pid));
      PairSets(row[0], row[1], Lacks(pid));
      assert row[..2] == pair;
      assert Withdraw(row, gone) == if gone(row[1]) then Withdraw(tail, gone) else pair + Withdraw(tail, gone);
    }
  }
}
