/**
 The syntax trees that the delta debugger works on. What an SMT-LIB file means is not known
 here: a node has a name, children, or both, and may have been in brackets.
 */
module DeltaNodes {

  datatype Node = Node(name: string, children: seq<Node>, brackets: bool)

  function Leaf(name: string, brackets: bool): Node {
    Node(name, [], brackets)
  }

  /** The number of nodes of a tree, which each node keeps with it. */
  function Size(n: Node): nat {
    1 + SizeOfAll(n.children)
  }

  function SizeOfAll(ns: seq<Node>): nat {
    if ns == [] then 0 else Size(ns[0]) + SizeOfAll(ns[1..])
  }

  lemma {:induction false} SizeOfConcat(ns: seq<Node>, ms: seq<Node>)
    ensures SizeOfAll(ns + ms) == SizeOfAll(ns) + SizeOfAll(ms)
  {
    if ns == [] {
      assert ns + ms == ms;
    } else {
      assert (ns + ms)[0] == ns[0] && (ns + ms)[1..] == ns[1..] + ms;
      SizeOfConcat(ns[1..], ms);
    }
  }

  // ---------------------------------------------------------------- the cached size

  /** A node as it is stored, with the size that it keeps. */
  datatype SizedNode = SizedNode(name: string, children: seq<SizedNode>, brackets: bool, size: nat)

  function Stored(n: SizedNode): Node {
    Node(n.name, StoredAll(n.children), n.brackets)
  }

  function StoredAll(ns: seq<SizedNode>): seq<Node> {
    if ns == [] then [] else [Stored(ns[0])] + StoredAll(ns[1..])
  }

  /** All sizes that are kept in a node and below are right. */
  predicate RightSizes(n: SizedNode) {
    n.size == Size(Stored(n)) && forall i :: 0 <= i < |n.children| ==> RightSizes(n.children[i])
  }

  lemma {:induction false} StoredAppend(ns: seq<SizedNode>, n: SizedNode)
    ensures StoredAll(ns + [n]) == StoredAll(ns) + [Stored(n)]
  {
    if ns != [] {
      StoredAppend(ns[1..], n);
      assert (ns + [n])[1..] == ns[1..] + [n];
    }
  }

  /** Every constructor sums up what its children keep; so all sizes are right if theirs are. */
  method RecalculateSize(n: SizedNode) returns (r: SizedNode)
    requires forall i :: 0 <= i < |n.children| ==> RightSizes(n.children[i])
    ensures RightSizes(r) && r == n.(size := r.size)
  {
    var size := 1;
    for i := 0 to |n.children|
      invariant size == 1 + SizeOfAll(StoredAll(n.children[..i]))
    {
      assert n.children[..i + 1] == n.children[..i] + [n.children[i]];
      StoredAppend(n.children[..i], n.children[i]);
      SizeOfConcat(StoredAll(n.children[..i]), [Stored(n.children[i])]);
      assert [Stored(n.children[i])][1..] == [];
      size := size + n.children[i].size;
    }
    assert n.children[..|n.children|] == n.children;
    r := n.(size := size);
  }

  // ---------------------------------------------------------------- unused declarations

  predicate IsDeclaration(n: Node) {
    n.name == "declare-fun"
  }

  /** All names of a tree, except those in declarations. */
  function Names(n: Node): set<string> {
    if IsDeclaration(n) then {} else {n.name} + NamesOfAll(n.children)
  }

  function NamesOfAll(ns: seq<Node>): set<string> {
    if ns == [] then {} else Names(ns[0]) + NamesOfAll(ns[1..])
  }

  /** A declaration of something that is not used. */
  predicate Unused(n: Node, names: set<string>) {
    IsDeclaration(n) && n.children != [] && n.children[0].name !in names
  }

  function Used(ns: seq<Node>, names: set<string>): (r: seq<Node>) {
    if ns == [] then [] else (if Unused(ns[0], names) then [] else [ns[0]]) + Used(ns[1..], names)
  }

  /** Every declaration says what it declares. */
  predicate AllNamed(ns: seq<Node>) {
    ns == [] || ((IsDeclaration(ns[0]) ==> ns[0].children != []) && AllNamed(ns[1..]))
  }

  /** A declaration without children is read beyond its end. */
  datatype Eliminated = Without(node: Node) | OutOfBounds

  method EliminateDefineFuns(n: Node) returns (r: Eliminated)
    ensures r == if AllNamed(n.children) then Without(n.(children := Used(n.children, Names(n)))) else OutOfBounds
  {
    r := Sweep(n, Names(n));
  }

  /** Its loop over the children, which shrink meanwhile. */
  method Sweep(n: Node, names: set<string>) returns (r: Eliminated)
    ensures r == if AllNamed(n.children) then Without(n.(children := Used(n.children, names))) else OutOfBounds
  {
    var children := n.children;
    ghost var done, rest := [], children;
    var i := 0;
    while i < |children|
      invariant children == done + rest && i == |done|
      invariant done + Used(rest, names) == Used(n.children, names)
      invariant AllNamed(rest) <==> AllNamed(n.children)
      decreases |rest|
    {
      PartsStep(done, rest);
      if IsDeclaration(children[i]) && children[i].children == [] {
        return OutOfBounds;
      }
      if IsDeclaration(children[i]) && children[i].children[0].name !in names {
        children := children[..i] + children[i + 1..];
      } else {
        done := done + [rest[0]];
        i := i + 1;
      }
      rest := rest[1..];
    }
    r := Without(n.(children := children));
  }

  lemma PartsStep(done: seq<Node>, rest: seq<Node>)
    requires rest != []
    ensures var all, i := done + rest, |done|;
      all[i] == rest[0] && all[..i] + all[i + 1..] == done + rest[1..] && all == (done + [rest[0]]) + rest[1..]
    ensures forall names: seq<Node> :: (done + [rest[0]]) + names == done + ([rest[0]] + names)
  {
    var all, i := done + rest, |done|;
    assert all[..i] == done && all[i + 1..] == rest[1..];
  }

  /** Taking out unused declarations leaves the names as they are, and every declaration that is used. */
  lemma {:induction false} UsedKeeps(ns: seq<Node>, names: set<string>)
    ensures NamesOfAll(Used(ns, names)) == NamesOfAll(ns)
    ensures forall c :: c in Used(ns, names) <==> c in ns && !Unused(c, names)
    ensures Used(Used(ns, names), names) == Used(ns, names)
  {
    if ns != [] {
      UsedKeeps(ns[1..], names);
      var rest := Used(ns[1..], names);
      if Unused(ns[0], names) {
        assert Names(ns[0]) == {} && {} + NamesOfAll(ns[1..]) == NamesOfAll(ns[1..]);
        assert Used(ns, names) == [] + rest == rest;
      } else {
        var kept := [ns[0]] + rest;
        assert kept[1..] == rest && Used(ns, names) == kept;
        assert NamesOfAll(kept) == Names(ns[0]) + NamesOfAll(rest);
      }
    }
  }

  /** Doing it again changes nothing. */
  lemma EliminationIsComplete(n: Node)
    ensures
      var r := n.(children := Used(n.children, Names(n)));
      Names(r) == Names(n) && Used(r.children, Names(r)) == r.children
  {
    UsedKeeps(n.children, Names(n));
  }
}
