/**
 The operators that propose smaller or simpler replacements for a node, and the measure that each
 of their proposals makes smaller.
 */
module DeltaOperators {
  import opened DeltaNodes
  import opened DeltaTexts

  // ---------------------------------------------------------------- numbers in names

  predicate IsDigit(c: char) {
    '0' <= c <= '9'
  }

  predicate IsNoDigit(c: char) {
    !IsDigit(c)
  }

  /** How many digits a text begins with. */
  function Digits(s: string): (d: nat)
    ensures d <= |s|
  {
    Run(s, IsNoDigit)
  }

  function Value(s: string): nat {
    if s == "" || !IsDigit(s[|s| - 1]) then 0
    else 10 * Value(s[..|s| - 1]) + (s[|s| - 1] as int - '0' as int)
  }

  const LONG_RANGE: nat := 0x1_0000_0000_0000_0000

  datatype Read = Reads(value: nat) | Throws

  /**
   The standard conversion to an unsigned long: blanks, a sign, and as many digits as there are. It
   throws if there are none or if they say too much; a minus sign wraps around.
   */
  function Stoul(s: string): (r: Read)
    ensures r.Reads? ==> r.value < LONG_RANGE
  {
    if s != "" && IsSpace(s[0]) then Stoul(s[1..])
    else
      var signed := s != "" && (s[0] == '-' || s[0] == '+');
      var t := if signed then s[1..] else s;
      var v := Value(t[..Digits(t)]);
      if Digits(t) == 0 || v >= LONG_RANGE then Throws
      else if signed && s[0] == '-' && v > 0 then Reads(LONG_RANGE - v)
      else Reads(v)
  }

  function ToString(v: nat): string {
    (if v < 10 then "" else ToString(v / 10)) + [('0' as int + v % 10) as char]
  }

  predicate AllDigits(s: string) {
    s != "" && forall i :: 0 <= i < |s| ==> IsDigit(s[i])
  }

  lemma {:induction false} DigitsBack(v: nat)
    ensures AllDigits(ToString(v)) && Value(ToString(v)) == v
  {
    var s := ToString(v);
    var c := ('0' as int + v % 10) as char;
    if v < 10 {
      assert s == [c] && s[..0] == "";
    } else {
      DigitsBack(v / 10);
      assert s[|s| - 1] == c && s[..|s| - 1] == ToString(v / 10);
    }
  }

  /** What is written is read again. */
  lemma ReadBack(v: nat)
    requires v < LONG_RANGE
    ensures Stoul(ToString(v)) == Reads(v)
  {
    DigitsBack(v);
    StoulOfDigits(ToString(v));
  }

  lemma StoulOfDigits(s: string)
    requires AllDigits(s) && Value(s) < LONG_RANGE
    ensures Stoul(s) == Reads(Value(s))
  {
    RunIs(s, IsNoDigit, |s|);
    assert forall i :: 0 <= i < |s| ==> !IsNoDigit(s[i]);
    assert IsDigit(s[0]) && s[..|s|] == s;
  }

  // ---------------------------------------------------------------- the operators

  /** All children of a node. */
  function Children(n: Node): seq<Node> {
    if n.name == "let" then [] else n.children
  }

  function Swapped(n: Node, i: nat): Node
    requires 0 < i < |n.children|
  {
    n.(children := n.children[i - 1 := n.children[i]][i := n.children[i - 1]])
  }

  /** The first i children, each put before its left neighbour if that one is larger. */
  function Reorderings(n: Node, i: nat): seq<Node>
    requires i <= |n.children|
  {
    if i <= 1 then []
    else Reorderings(n, i - 1)
         + if Size(n.children[i - 2]) > Size(n.children[i - 1]) then [Swapped(n, i - 1)] else []
  }

  method ReorderChildren(n: Node) returns (res: seq<Node>)
    ensures res == Reorderings(n, |n.children|)
  {
    res := [];
    var i := 1;
    while i < |n.children|
      invariant 1 <= i
      invariant i <= |n.children| ==> res == Reorderings(n, i)
      invariant i > |n.children| ==> n.children == [] && res == []
    {
      if Size(n.children[i - 1]) > Size(n.children[i]) {
        res := res + [Swapped(n, i)];
      }
      i := i + 1;
    }
  }

  predicate Associative(name: string) {
    name == "and" || name == "or" || name == "+" || name == "*"
  }

  function MergedAt(n: Node, i: nat): Node
    requires i < |n.children|
  {
    n.(children := n.children[..i] + n.children[i].children + n.children[i + 1..])
  }

  /** The node with one of its children replaced by that child's own children. */
  function Merges(n: Node): seq<Node> {
    if Associative(n.name) then seq(|n.children|, i requires 0 <= i < |n.children| => MergedAt(n, i)) else []
  }

  method MergeChild(n: Node) returns (res: seq<Node>)
    ensures res == Merges(n)
  {
    res := [];
    if n.children != [] && Associative(n.name) {
      var i := 0;
      while i < |n.children|
        invariant i <= |n.children| && |res| == i
        invariant forall j :: 0 <= j < i ==> res[j] == MergedAt(n, j)
      {
        var merged := n.children[..i];
        merged := merged + n.children[i].children;
        i := i + 1;
        merged := merged + n.children[i..];
        res := res + [Node(n.name, merged, n.brackets)];
      }
    }
  }

  /** The first i proper prefixes of a name. */
  function Prefixes(s: string, i: nat): seq<Node>
    requires i <= |s|
  {
    if i == 0 then [] else Prefixes(s, i - 1) + [Leaf(s[..i], false)]
  }

  /**
   Shorter numbers: leading digits of a whole number, the number before a trailing dot, a decimal
   without its fraction or without its last digit, and a zero for what is missing before a dot. A
   decimal without its last digit comes in brackets.
   */
  function Numbers(n: Node): seq<Node> {
    var s := n.name;
    var d := Digits(s);
    if n.children != [] || s == "" || n.brackets then []
    else if d == |s| then Prefixes(s, |s| - 1)
    else if s[d] != '.' || Digits(s[d + 1..]) < |s| - d - 1 then []
    else if d == |s| - 1 then if d > 0 then [Leaf(s[..d], false)] else []
    else if d == 0 then [Leaf("0" + s, false)]
    else [Leaf(s[..d], false), Leaf(s[..|s| - 1], true)]
  }

  method Number(n: Node) returns (res: seq<Node>)
    ensures res == Numbers(n)
  {
    res := [];
    var s := n.name;
    if n.children != [] || s == "" || n.brackets {
      return;
    }
    var d := Digits(s);
    if d < |s| && (s[d] != '.' || Digits(s[d + 1..]) < |s| - d - 1) {
      return;
    }
    if d == |s| {
      for i := 1 to |s|
        invariant res == Prefixes(s, i - 1)
      {
        res := res + [Leaf(s[..i], false)];
      }
    } else if d == |s| - 1 {
      if d > 0 {
        res := [Leaf(s[..d], false)];
      }
    } else if d == 0 {
      res := [Leaf("0" + s, false)];
    } else {
      res := [Leaf(s[..d], false), Leaf(s[..|s| - 1], true)];
    }
  }

  predicate IsFinal(name: string) {
    name == "0" || name == "1" || name == "true" || name == "false"
  }

  function Constants(n: Node): seq<Node> {
    if n.children != [] || n.name == "" || n.brackets || IsFinal(n.name) then []
    else if n.name == "Bool" || n.name == "Int" || n.name == "Real" then []
    else [Leaf("0", false), Leaf("1", false), Leaf("true", false), Leaf("false", false)]
  }

  /** What an operator proposes, in order; it may throw after that. */
  datatype Changes = Changes(nodes: seq<Node>, throws: bool)

  predicate IsApplied(n: Node, name: string) {
    n.name == name && |n.children| == 2
  }

  /** A zero extension of an indexed symbol, as a symbol with a larger index. */
  function ZeroExtend(n: Node): Changes {
    if !IsApplied(n, "") || !IsApplied(n.children[0], "_") then Changes([], false)
    else if n.children[0].children[0].name != "zero_extend" || !IsApplied(n.children[1], "_") then Changes([], false)
    else
      var ext := Stoul(n.children[0].children[1].name);
      var index := Stoul(n.children[1].children[1].name);
      if ext.Throws? || index.Throws? then Changes([], true)
      else
        var sum := ToString((index.value + ext.value) % LONG_RANGE);
        Changes([Node("_", [n.children[1].children[0], Leaf(sum, false)], true)], false)
  }

  predicate IsBitVector(s: string) {
    |s| > 2 && s[..2] == "bv" && Digits(s[2..]) == |s| - 2
  }

  /** Two shifts by constants of the same width, as one. */
  function MergeShift(n: Node): Changes {
    if n.name != "bvshl" && n.name != "bvlshr" then Changes([], false)
    else if |n.children| != 2 || !IsApplied(n.children[0], n.name) then Changes([], false)
    else
      var shift := n.children[0].children[1];
      var more := n.children[1];
      if !IsApplied(shift, "_") || !IsApplied(more, "_") then Changes([], false)
      else if shift.children[1].name != more.children[1].name then Changes([], false)
      else if !IsBitVector(more.children[0].name) || !IsBitVector(shift.children[0].name) then Changes([], false)
      else
        var inner := Stoul(shift.children[0].name[2..]);
        var outer := Stoul(more.children[0].name[2..]);
        if inner.Throws? || outer.Throws? then Changes([], true)
        else
          var sum := Leaf("bv" + ToString((inner.value + outer.value) % LONG_RANGE), false);
          Changes([Node(n.name, [n.children[0].children[0], Node("_", [sum, more.children[1]], true)], true)], false)
  }

  /** Which operators are switched off. */
  datatype Options =
    Options(noConstants: bool, noChildren: bool, noReorder: bool, noMerge: bool, noNumbers: bool,
            noRemoval: bool, delayDeclareFun: bool)

  /** All proposals for a node; the elimination of let expressions is switched off. */
  function Proposals(n: Node, o: Options): Changes {
    var plain :=
      (if o.noConstants then [] else Constants(n))
      + (if o.noChildren then [] else Children(n))
      + (if o.noReorder then [] else Reorderings(n, |n.children|))
      + (if o.noMerge then [] else Merges(n))
      + (if o.noNumbers then [] else Numbers(n));
    var extended := ZeroExtend(n);
    if extended.throws then Changes(plain, true)
    else Changes(plain + extended.nodes + MergeShift(n).nodes, MergeShift(n).throws)
  }

  // ---------------------------------------------------------------- what the operators propose, without their order

  /**
   The regular expressions of the source: digits; digits and a dot; a dot and digits; digits, a dot
   and digits.
   */
  ghost predicate IsShorterNumber(s: string, m: Node) {
    || (AllDigits(s) && exists i :: 0 < i < |s| && m == Leaf(s[..i], false))
    || (exists whole :: AllDigits(whole) && s == whole + "." && m == Leaf(whole, false))
    || (exists part :: AllDigits(part) && s == "." + part && m == Leaf("0." + part, false))
    || exists whole, part :: IsDecimal(s, whole, part) && (m == Leaf(whole, false) || m == Leaf(s[..|s| - 1], true))
  }

  predicate IsDecimal(s: string, whole: string, part: string) {
    AllDigits(whole) && AllDigits(part) && s == whole + "." + part
  }

  /** The number of leading digits is where they end. */
  lemma DigitsEnd(s: string, whole: string, rest: string)
    requires s == whole + rest && (forall i :: 0 <= i < |whole| ==> IsDigit(whole[i]))
    requires rest != "" ==> !IsDigit(rest[0])
    ensures Digits(s) == |whole|
  {
    RunIs(s, IsNoDigit, |whole|);
  }

  lemma DigitsAre(s: string)
    ensures forall i :: 0 <= i < Digits(s) ==> IsDigit(s[i])
    ensures Digits(s) < |s| ==> !IsDigit(s[Digits(s)])
  {
    RunIs(s, IsNoDigit, Digits(s));
  }

  lemma {:induction false} PrefixesExactly(s: string, k: nat, m: Node)
    requires k <= |s|
    ensures m in Prefixes(s, k) <==> exists i :: 0 < i <= k && m == Leaf(s[..i], false)
    decreases k
  {
    if k > 0 {
      PrefixesExactly(s, k - 1, m);
    }
  }

  /** Nothing but shorter numbers is proposed for a leaf. */
  lemma NumbersAreNumbers(n: Node, m: Node)
    requires m in Numbers(n)
    ensures IsLeaf(n) && IsShorterNumber(n.name, m)
  {
    var s := n.name;
    var d := Digits(s);
    DigitsAre(s);
    if d == |s| {
      PrefixesExactly(s, |s| - 1, m);
    } else {
      var whole, part := s[..d], s[d + 1..];
      assert s == whole + "." + part;
      DigitsAre(part);
      if part == "" {
        assert s == whole + "." && AllDigits(whole);
      } else if d == 0 {
        assert s == "." + part && "0" + s == "0." + part && AllDigits(part);
      } else {
        assert IsDecimal(s, whole, part);
      }
    }
  }

  lemma PrefixProposed(n: Node, i: nat)
    requires IsLeaf(n) && AllDigits(n.name) && 0 < i < |n.name|
    ensures Leaf(n.name[..i], false) in Numbers(n)
  {
    DigitsEnd(n.name, n.name, "");
    PrefixesExactly(n.name, |n.name| - 1, Leaf(n.name[..i], false));
  }

  lemma WholeProposed(n: Node, whole: string)
    requires IsLeaf(n) && AllDigits(whole) && n.name == whole + "."
    ensures Leaf(whole, false) in Numbers(n)
  {
    DigitsEnd(n.name, whole, ".");
    assert n.name[..|whole|] == whole && n.name[|whole| + 1..] == "";
  }

  lemma PartProposed(n: Node, part: string)
    requires IsLeaf(n) && AllDigits(part) && n.name == "." + part
    ensures Leaf("0." + part, false) in Numbers(n)
  {
    var s := n.name;
    assert s == "" + s && s[1..] == part && "0" + s == "0." + part;
    DigitsEnd(s, "", s);
    DigitsEnd(part, part, "");
  }

  lemma DecimalProposed(n: Node, whole: string, part: string)
    requires IsLeaf(n) && IsDecimal(n.name, whole, part)
    ensures Leaf(whole, false) in Numbers(n) && Leaf(n.name[..|n.name| - 1], true) in Numbers(n)
  {
    var s := n.name;
    assert s == whole + ("." + part) && s[|whole| + 1..] == part && s[..|whole|] == whole;
    DigitsEnd(s, whole, "." + part);
    DigitsEnd(part, part, "");
  }

  /** Every shorter number is proposed. */
  lemma NumbersAreProposed(n: Node, m: Node)
    requires IsLeaf(n) && IsShorterNumber(n.name, m)
    ensures m in Numbers(n)
  {
    var s := n.name;
    if i :| AllDigits(s) && 0 < i < |s| && m == Leaf(s[..i], false) {
      PrefixProposed(n, i);
    } else if whole :| AllDigits(whole) && s == whole + "." && m == Leaf(whole, false) {
      WholeProposed(n, whole);
    } else if part :| AllDigits(part) && s == "." + part && m == Leaf("0." + part, false) {
      PartProposed(n, part);
    } else {
      var whole, part :| IsDecimal(s, whole, part) && (m == Leaf(whole, false) || m == Leaf(s[..|s| - 1], true));
      DecimalProposed(n, whole, part);
    }
  }

  /** The proposals for a number are exactly those that the regular expressions give. */
  lemma NumbersExactly(n: Node, m: Node)
    ensures m in Numbers(n) <==> IsLeaf(n) && IsShorterNumber(n.name, m)
  {
    if m in Numbers(n) {
      NumbersAreNumbers(n, m);
    }
    if IsLeaf(n) && IsShorterNumber(n.name, m) {
      NumbersAreProposed(n, m);
    }
  }

  /** Two neighbours, the larger one first, change places. */
  predicate Reorders(n: Node, before: seq<Node>, a: Node, b: Node, after: seq<Node>, m: Node) {
    n.children == before + [a, b] + after && Size(a) > Size(b) && m == n.(children := before + [b, a] + after)
  }

  ghost predicate IsReordering(n: Node, m: Node) {
    exists before, a, b, after :: Reorders(n, before, a, b, after, m)
  }

  predicate SwapsAt(n: Node, i: nat, m: Node) {
    0 < i < |n.children| && Size(n.children[i - 1]) > Size(n.children[i]) && m == Swapped(n, i)
  }

  lemma {:induction false} InReorderings(n: Node, k: nat, m: Node)
    requires k <= |n.children|
    ensures m in Reorderings(n, k)
       <==> exists i: nat :: i < k && SwapsAt(n, i, m)
    decreases k
  {
    if k > 1 {
      InReorderings(n, k - 1, m);
      assert SwapsAt(n, k - 1, m)
        <==> Size(n.children[k - 2]) > Size(n.children[k - 1]) && m == Swapped(n, k - 1);
    }
  }

  lemma SwapReorders(n: Node, i: nat, m: Node)
    requires SwapsAt(n, i, m)
    ensures IsReordering(n, m)
  {
    assert Reorders(n, n.children[..i - 1], n.children[i - 1], n.children[i], n.children[i + 1..], m);
  }

  lemma ReorderIsSwap(n: Node, before: seq<Node>, a: Node, b: Node, after: seq<Node>, m: Node)
    requires Reorders(n, before, a, b, after, m)
    ensures |before| + 1 < |n.children| && n.children[|before|] == a && n.children[|before| + 1] == b
    ensures m == Swapped(n, |before| + 1)
  {
    assert Swapped(n, |before| + 1).children == before + [b, a] + after;
  }

  /** All neighbours in the wrong order are proposed to be swapped, and nothing else. */
  lemma ReorderingsExactly(n: Node, m: Node)
    ensures m in Reorderings(n, |n.children|) <==> IsReordering(n, m)
  {
    InReorderings(n, |n.children|, m);
    if i: nat :| i < |n.children| && SwapsAt(n, i, m) {
      SwapReorders(n, i, m);
    }
    if before, a, b, after :| Reorders(n, before, a, b, after, m) {
      ReorderIsSwap(n, before, a, b, after, m);
      assert SwapsAt(n, |before| + 1, m);
    }
  }

  /** A child of an associative operator makes way for its own children. */
  ghost predicate IsMerge(n: Node, m: Node) {
    Associative(n.name)
    && exists before, c, after ::
         n.children == before + [c] + after && m == n.(children := before + c.children + after)
  }

  lemma MergesExactly(n: Node, m: Node)
    ensures m in Merges(n) <==> IsMerge(n, m)
  {
    var cs := n.children;
    if m in Merges(n) {
      var i :| 0 <= i < |cs| && Merges(n)[i] == m;
      assert cs == cs[..i] + [cs[i]] + cs[i + 1..];
    }
    if IsMerge(n, m) {
      var before, c, after :| cs == before + [c] + after && m == n.(children := before + c.children + after);
      var i := |before|;
      assert cs[i] == c && cs[..i] == before && cs[i + 1..] == after;
      assert Merges(n)[i] == m;
    }
  }

  // ---------------------------------------------------------------- bit vectors

  /** The merged extension says the sum of the two indices, as far as an unsigned long can hold it. */
  lemma ExtensionAdds(n: Node, ext: nat, index: nat)
    requires IsApplied(n, "") && IsApplied(n.children[0], "_") && IsApplied(n.children[1], "_")
    requires n.children[0].children[0].name == "zero_extend"
    requires Stoul(n.children[0].children[1].name) == Reads(ext)
    requires Stoul(n.children[1].children[1].name) == Reads(index)
    ensures
      var c := ZeroExtend(n);
      && !c.throws && |c.nodes| == 1 && IsApplied(c.nodes[0], "_")
      && c.nodes[0].children[0] == n.children[1].children[0]
      && Stoul(c.nodes[0].children[1].name) == Reads((ext + index) % LONG_RANGE)
  {
    ReadBack((index + ext) % LONG_RANGE);
  }

  lemma BitVectorReadBack(v: nat)
    requires v < LONG_RANGE
    ensures Stoul(("bv" + ToString(v))[2..]) == Reads(v)
  {
    ReadBack(v);
    assert ("bv" + ToString(v))[2..] == ToString(v);
  }

  /** The merged shift shifts the same term by the sum, at the same width. */
  lemma ShiftAdds(n: Node, m: Node)
    requires m in MergeShift(n).nodes
    ensures IsApplied(m, n.name) && m.children[0] == n.children[0].children[0] && IsApplied(m.children[1], "_")
    ensures m.children[1].children[1] == n.children[1].children[1]
    ensures
      var inner := Stoul(n.children[0].children[1].children[0].name[2..]);
      var outer := Stoul(n.children[1].children[0].name[2..]);
      inner.Reads? && outer.Reads?
      && Stoul(m.children[1].children[0].name[2..]) == Reads((inner.value + outer.value) % LONG_RANGE)
  {
    var inner := Stoul(n.children[0].children[1].children[0].name[2..]);
    var outer := Stoul(n.children[1].children[0].name[2..]);
    BitVectorReadBack((inner.value + outer.value) % LONG_RANGE);
  }

  // ---------------------------------------------------------------- the measure

  /** Beside its size: pairs of children of a node in the wrong order, and what its leaves still allow. */
  datatype Tally = Tally(inversions: nat, open: nat, weight: nat)

  function Plus(a: Tally, b: Tally): Tally {
    Tally(a.inversions + b.inversions, a.open + b.open, a.weight + b.weight)
  }

  function Smaller(k: nat, cs: seq<Node>): nat {
    if cs == [] then 0 else (if Size(cs[0]) < k then 1 else 0) + Smaller(k, cs[1..])
  }

  function Pairs(cs: seq<Node>): nat {
    if cs == [] then 0 else Smaller(Size(cs[0]), cs[1..]) + Pairs(cs[1..])
  }

  function Own(n: Node): Tally {
    var open := if n.children == [] && !n.brackets && !IsFinal(n.name) then 1 else 0;
    var dot := if n.name != "" && n.name[0] == '.' then 3 else 0;
    Tally(Pairs(n.children), open, if n.children == [] && !n.brackets then 2 * |n.name| + dot else 0)
  }

  function Count(n: Node): Tally {
    Plus(Own(n), CountAll(n.children))
  }

  function CountAll(cs: seq<Node>): Tally {
    if cs == [] then Tally(0, 0, 0) else Plus(Count(cs[0]), CountAll(cs[1..]))
  }

  predicate Below(a: Tally, b: Tally) {
    a.inversions < b.inversions
    || (a.inversions == b.inversions && (a.open < b.open || (a.open == b.open && a.weight < b.weight)))
  }

  /** The first tree is simpler than the second one. */
  predicate Simpler(m: Node, n: Node) {
    Size(m) < Size(n) || (Size(m) == Size(n) && Below(Count(m), Count(n)))
  }

  // ---------------------------------------------------------------- every proposal is simpler

  lemma {:induction false} ChildIsSmaller(cs: seq<Node>, i: nat)
    requires i < |cs|
    ensures Size(cs[i]) <= SizeOfAll(cs)
    ensures SizeOfAll(cs) == SizeOfAll(cs[..i]) + Size(cs[i]) + SizeOfAll(cs[i + 1..])
  {
    assert cs == cs[..i] + ([cs[i]] + cs[i + 1..]);
    SizeOfConcat(cs[..i], [cs[i]] + cs[i + 1..]);
  }

  lemma MergedIsSmaller(n: Node, i: nat)
    requires i < |n.children|
    ensures Size(MergedAt(n, i)) == Size(n) - 1
  {
    ChildIsSmaller(n.children, i);
    var inner := n.children[i].children;
    SizeOfConcat(n.children[..i] + inner, n.children[i + 1..]);
    SizeOfConcat(n.children[..i], inner);
  }

  lemma {:induction false} SizeInPlace(cs: seq<Node>, i: nat, m: Node)
    requires i < |cs|
    ensures SizeOfAll(cs[i := m]) + Size(cs[i]) == SizeOfAll(cs) + Size(m)
    decreases i
  {
    if i == 0 {
      assert cs[i := m][1..] == cs[1..];
    } else {
      SizeInPlace(cs[1..], i - 1, m);
      assert cs[i := m][1..] == cs[1..][i - 1 := m];
    }
  }

  /** What stands at one place counts for itself. */
  lemma {:induction false} CountInPlace(cs: seq<Node>, i: nat, m: Node)
    requires i < |cs|
    ensures Plus(CountAll(cs[i := m]), Count(cs[i])) == Plus(CountAll(cs), Count(m))
    decreases i
  {
    var ds := cs[i := m];
    assert CountAll(cs) == Plus(Count(cs[0]), CountAll(cs[1..]));
    assert CountAll(ds) == Plus(Count(ds[0]), CountAll(ds[1..]));
    if i == 0 {
      assert ds[1..] == cs[1..];
    } else {
      CountInPlace(cs[1..], i - 1, m);
      assert ds[1..] == cs[1..][i - 1 := m];
    }
  }

  lemma {:induction false} SmallerInPlace(k: nat, cs: seq<Node>, i: nat, m: Node)
    requires i < |cs|
    ensures Smaller(k, cs[i := m]) + (if Size(cs[i]) < k then 1 else 0)
         == Smaller(k, cs) + (if Size(m) < k then 1 else 0)
    decreases i
  {
    if i == 0 {
      assert cs[i := m][1..] == cs[1..];
    } else {
      SmallerInPlace(k, cs[1..], i - 1, m);
      assert cs[i := m][1..] == cs[1..][i - 1 := m];
    }
  }

  /** The order of children is judged by their sizes alone. */
  lemma {:induction false} PairsInPlace(cs: seq<Node>, i: nat, m: Node)
    requires i < |cs| && Size(m) == Size(cs[i])
    ensures Pairs(cs[i := m]) == Pairs(cs)
    decreases i
  {
    if i == 0 {
      assert cs[i := m][1..] == cs[1..];
    } else {
      PairsInPlace(cs[1..], i - 1, m);
      SmallerInPlace(Size(cs[0]), cs[1..], i - 1, m);
      assert cs[i := m][1..] == cs[1..][i - 1 := m];
    }
  }

  /** Putting two neighbours in order rights exactly one pair. */
  lemma {:induction false} PairsSwapped(cs: seq<Node>, i: nat)
    requires 0 < i < |cs| && Size(cs[i - 1]) > Size(cs[i])
    ensures Pairs(cs[i - 1 := cs[i]][i := cs[i - 1]]) + 1 == Pairs(cs)
    decreases i
  {
    var swapped := cs[i - 1 := cs[i]][i := cs[i - 1]];
    if i == 1 {
      assert swapped[1..][1..] == cs[2..] == cs[1..][1..];
      assert swapped[1..][0] == cs[0] && cs[1..][0] == cs[1];
    } else {
      assert swapped[1..] == cs[1..][i - 2 := cs[i]][i - 1 := cs[i - 1]];
      PairsSwapped(cs[1..], i - 1);
      SmallerInPlace(Size(cs[0]), cs[1..], i - 2, cs[i]);
      SmallerInPlace(Size(cs[0]), cs[1..][i - 2 := cs[i]], i - 1, cs[i - 1]);
    }
  }

  lemma SwappedIsSimpler(n: Node, i: nat)
    requires 0 < i < |n.children| && Size(n.children[i - 1]) > Size(n.children[i])
    ensures Simpler(Swapped(n, i), n)
  {
    var cs := n.children;
    SizeInPlace(cs, i - 1, cs[i]);
    SizeInPlace(cs[i - 1 := cs[i]], i, cs[i - 1]);
    CountInPlace(cs, i - 1, cs[i]);
    CountInPlace(cs[i - 1 := cs[i]], i, cs[i - 1]);
    PairsSwapped(cs, i);
  }

  lemma {:induction false} ReorderingsAreSimpler(n: Node, i: nat)
    requires i <= |n.children|
    ensures forall m | m in Reorderings(n, i) :: Simpler(m, n)
    decreases i
  {
    if i > 1 {
      ReorderingsAreSimpler(n, i - 1);
      if Size(n.children[i - 2]) > Size(n.children[i - 1]) {
        SwappedIsSimpler(n, i - 1);
      }
    }
  }

  lemma LeafCount(n: Node)
    requires n.children == []
    ensures Size(n) == 1 && Count(n) == Own(n) && Own(n).inversions == 0
  {
  }

  lemma LeavesAreSimpler(n: Node, m: Node)
    requires m in Numbers(n) || m in Constants(n)
    ensures Simpler(m, n)
  {
    if m in Numbers(n) {
      NumbersAreShorter(n, m);
    }
    LeafIsSimpler(n, m);
  }

  lemma LeafIsSimpler(n: Node, m: Node)
    requires n.children == m.children == []
    requires Below(Own(m), Own(n))
    ensures Simpler(m, n)
  {
    LeafCount(n);
    LeafCount(m);
  }

  lemma {:induction false} PrefixesAreShorter(s: string, i: nat, m: Node)
    requires i <= |s| && m in Prefixes(s, i)
    ensures m.children == [] && !m.brackets && 0 < |m.name| <= i && m.name[0] == s[0]
    decreases i
  {
    if m != Leaf(s[..i], false) {
      PrefixesAreShorter(s, i - 1, m);
    }
  }

  lemma NumbersAreShorter(n: Node, m: Node)
    requires m in Numbers(n)
    ensures n.children == m.children == [] && Below(Own(m), Own(n))
  {
    var s := n.name;
    var d := Digits(s);
    RunIs(s, IsNoDigit, d);
    if d == |s| {
      PrefixesAreShorter(s, |s| - 1, m);
    }
  }

  lemma SizeOfTwo(n: Node)
    requires |n.children| == 2
    ensures Size(n) == 1 + Size(n.children[0]) + Size(n.children[1])
  {
    assert SizeOfAll(n.children[1..]) == Size(n.children[1]) + SizeOfAll(n.children[1..][1..]);
  }

  lemma ExtensionIsSmaller(n: Node, m: Node)
    requires m in ZeroExtend(n).nodes
    ensures Size(m) < Size(n)
  {
    SizeOfTwo(n);
    SizeOfTwo(n.children[0]);
    SizeOfTwo(n.children[1]);
    SizeOfTwo(m);
  }

  lemma ShiftIsSmaller(n: Node, m: Node)
    requires m in MergeShift(n).nodes
    ensures Size(m) < Size(n)
  {
    SizeOfTwo(n);
    SizeOfTwo(n.children[0]);
    SizeOfTwo(n.children[1]);
    SizeOfTwo(m);
    SizeOfTwo(m.children[1]);
  }

  /** Every proposal is simpler than the node it is for. */
  lemma ProposalsAreSimpler(n: Node, o: Options)
    ensures forall m | m in Proposals(n, o).nodes :: Simpler(m, n)
  {
    forall m | m in Proposals(n, o).nodes ensures Simpler(m, n) {
      if m in Children(n) {
        var i :| 0 <= i < |n.children| && n.children[i] == m;
        ChildIsSmaller(n.children, i);
      } else if m in Merges(n) {
        var i :| 0 <= i < |n.children| && MergedAt(n, i) == m;
        MergedIsSmaller(n, i);
      } else if m in Reorderings(n, |n.children|) {
        ReorderingsAreSimpler(n, |n.children|);
      } else if m in Numbers(n) || m in Constants(n) {
        LeavesAreSimpler(n, m);
      } else if m in ZeroExtend(n).nodes {
        ExtensionIsSmaller(n, m);
      } else {
        ShiftIsSmaller(n, m);
      }
    }
  }
}
