/**
 Reading and writing the trees of the delta debugger, in the concrete syntax of sections 3.1 and
 3.2 of the SMT-LIB Standard 2.6. One parser faces three printers, which lay out a tree
 differently; it reads back any layout.
 */
module DeltaTexts {
  import opened DeltaNodes

  // ---------------------------------------------------------------- lexical matters

  predicate IsSpace(c: char) {
    c == ' ' || c == '\t' || c == '\n' || c == '\r' || c == '\U{b}' || c == '\U{c}'
  }

  predicate IsAlnum(c: char) {
    '0' <= c <= '9' || 'a' <= c <= 'z' || 'A' <= c <= 'Z'
  }

  /** What a simple symbol may go on with; it may also begin with a hash. */
  predicate IsSymbolChar(c: char) {
    || IsAlnum(c)
    || c == '~' || c == '\"' || c == ':' || c == '!' || c == '@' || c == '$' || c == '%'
    || c == '^' || c == '&' || c == '*' || c == '_' || c == '+' || c == '=' || c == '<'
    || c == '>' || c == '.' || c == '?' || c == '/' || c == '-'
  }

  predicate IsSymbolStart(c: char) {
    IsSymbolChar(c) || c == '#'
  }

  predicate IsSimple(s: string) {
    s != "" && IsSymbolStart(s[0]) && forall i :: 0 < i < |s| ==> IsSymbolChar(s[i])
  }

  predicate IsQuoted(s: string) {
    |s| >= 3 && s[0] == '|' && s[|s| - 1] == '|' && forall i :: 0 < i < |s| - 1 ==> s[i] != '|'
  }

  predicate IsSymbol(s: string) {
    IsSimple(s) || IsQuoted(s)
  }

  /** The number of characters before the first one that satisfies p. */
  function Run(s: string, p: char -> bool): (k: nat)
    ensures k <= |s|
  {
    if s == "" || p(s[0]) then 0 else 1 + Run(s[1..], p)
  }

  lemma {:induction false} RunIs(s: string, p: char -> bool, k: nat)
    requires k <= |s|
    ensures Run(s, p) == k <==> (forall i :: 0 <= i < k ==> !p(s[i])) && (k < |s| ==> p(s[k]))
  {
    if s != "" && !p(s[0]) && k > 0 {
      RunIs(s[1..], p, k - 1);
      assert (forall i :: 0 <= i < k ==> !p(s[i])) <== forall i :: 0 <= i < k - 1 ==> !p(s[1..][i]);
      assert forall i :: 0 <= i < k - 1 ==> s[1..][i] == s[i + 1];
    }
  }

  predicate IsLineEnd(c: char) {
    c == '\n' || c == '\r'
  }

  predicate IsBar(c: char) {
    c == '|'
  }

  predicate EndsSymbol(c: char) {
    !IsSymbolChar(c)
  }

  /** Skips blanks and comments; a comment must be ended by the end of a line. */
  function Skip(s: string): (r: string)
    ensures |r| <= |s|
    decreases |s|
  {
    if s == "" then s
    else if IsSpace(s[0]) then Skip(s[1..])
    else if s[0] == ';' then
      var k := Run(s, IsLineEnd);
      if k < |s| then Skip(s[k + 1..]) else s
    else s
  }

  // ---------------------------------------------------------------- the parser

  /** Refused means that another rule may be tried; Broken means that there is no way. */
  datatype Parsed<+T> = Ok(value: T, rest: string) | Refused | Broken

  function ParseSymbol(text: string): (r: Parsed<string>)
    ensures r.Ok? ==> |r.rest| < |text|
  {
    var s := Skip(text);
    if s == "" then Refused
    else if s[0] == '|' then
      var k := Run(s[1..], IsBar);
      if k == 0 || k == |s| - 1 then Broken else Ok(s[..k + 2], s[k + 2..])
    else if IsSymbolStart(s[0]) then
      var k := Run(s[1..], EndsSymbol);
      Ok(s[..k + 1], s[k + 1..])
    else Refused
  }

  function ParseNode(text: string): (r: Parsed<Node>)
    ensures r.Ok? ==> |r.rest| < |text|
    decreases |text|, 0
  {
    match ParseSymbol(text)
    case Ok(name, rest) => Ok(Leaf(name, false), rest)
    case Broken => Broken
    case Refused =>
      var s := Skip(text);
      if s == "" || s[0] != '(' then Refused
      else
        var full := ParseFull(s[1..]);
        if full.Refused? then ParseClosed("", s[1..]) else full
  }

  /** A symbol and further nodes, after an opening bracket. */
  function ParseFull(text: string): (r: Parsed<Node>)
    ensures r.Ok? ==> |r.rest| < |text|
    decreases |text|, 2
  {
    match ParseSymbol(text)
    case Ok(name, rest) => ParseClosed(name, rest)
    case Broken => Broken
    case Refused => Refused
  }

  function ParseClosed(name: string, text: string): (r: Parsed<Node>)
    ensures r.Ok? ==> |r.rest| < |text|
    decreases |text|, 2
  {
    match ParseNodes(text)
    case Ok(nodes, rest) =>
      var s := Skip(rest);
      if s != "" && s[0] == ')' then Ok(Node(name, nodes, true), s[1..]) else Refused
    case Broken => Broken
    case Refused => Refused
  }

  /** As many nodes as there are. */
  function ParseNodes(text: string): (r: Parsed<seq<Node>>)
    ensures r.Ok? ==> |r.rest| <= |text|
    decreases |text|, 1
  {
    match ParseNode(text)
    case Refused => Ok([], text)
    case Broken => Broken
    case Ok(node, rest) =>
      match ParseNodes(rest)
      case Ok(nodes, rest') => Ok([node] + nodes, rest')
      case Refused => Refused
      case Broken => Broken
  }

  /** A whole file. */
  function ParseFile(text: string): (r: Parsed<Node>) {
    match ParseNodes(text)
    case Ok(nodes, rest) => if Skip(rest) == "" then Ok(Node("", nodes, false), "") else Broken
    case Refused => Broken
    case Broken => Broken
  }

  // ---------------------------------------------------------------- layouts

  /** Blanks and comments. */
  predicate IsGap(g: string)
    decreases |g|
  {
    g == "" || (IsSpace(g[0]) && IsGap(g[1..]))
    || (g[0] == ';' && Run(g, IsLineEnd) < |g| && IsGap(g[Run(g, IsLineEnd) + 1..]))
  }

  /** What stands before each child, and after the last one. */
  datatype Layout = Layout(gaps: seq<string>, subs: seq<Layout>, end: string)

  /** A symbol, or brackets around an optional symbol and nodes; the nodes do not begin with a symbol then. */
  predicate WellFormed(n: Node) {
    if !n.brackets then IsSymbol(n.name) && n.children == []
    else
      && (n.name == "" || IsSymbol(n.name))
      && (n.name == "" && n.children != [] ==> n.children[0].brackets)
      && forall c | c in n.children :: WellFormed(c)
  }

  predicate IsFile(n: Node) {
    n.name == "" && !n.brackets && forall c | c in n.children :: WellFormed(c)
  }

  /** The layout separates the children from each other and from the name. */
  predicate LaidOut(cs: seq<Node>, l: Layout, named: bool)
    decreases cs
  {
    && |l.gaps| == |l.subs| == |cs| && IsGap(l.end)
    && (cs != [] ==>
          && IsGap(l.gaps[0]) && (named ==> l.gaps[0] != "")
          && LaidOut(cs[0].children, l.subs[0], cs[0].name != "")
          && LaidOut(cs[1..], Tail(cs, l), true))
  }

  function Render(n: Node, l: Layout): string
    requires LaidOut(n.children, l, n.name != "")
    decreases n, 0
  {
    if n.brackets then "(" + n.name + RenderAll(n.children, l, n.name != "") + ")"
    else n.name
  }

  function RenderAll(cs: seq<Node>, l: Layout, named: bool): string
    requires LaidOut(cs, l, named)
    decreases cs
  {
    if cs == [] then l.end
    else l.gaps[0] + Render(cs[0], l.subs[0]) + RenderAll(cs[1..], Tail(cs, l), true)
  }

  function Tail(cs: seq<Node>, l: Layout): Layout
    requires cs != [] && |l.gaps| == |l.subs| == |cs|
  {
    Layout(l.gaps[1..], l.subs[1..], l.end)
  }

  // ---------------------------------------------------------------- any layout is read back

  lemma {:induction false} SkipGap(g: string, t: string)
    requires IsGap(g)
    ensures Skip(g + t) == Skip(t)
    decreases |g|
  {
    if g == "" {
      assert g + t == t;
    } else if IsSpace(g[0]) {
      SkipGap(g[1..], t);
      assert (g + t)[1..] == g[1..] + t;
    } else {
      var k := Run(g, IsLineEnd);
      RunIs(g, IsLineEnd, k);
      RunIs(g + t, IsLineEnd, k);
      SkipGap(g[k + 1..], t);
      assert (g + t)[k + 1..] == g[k + 1..] + t;
    }
  }

  lemma NodeAfterGap(g: string, t: string)
    requires IsGap(g)
    ensures ParseSymbol(g + t) == ParseSymbol(t) && ParseNode(g + t) == ParseNode(t)
  {
    SkipGap(g, t);
  }

  /** Nothing that follows a symbol here could be taken for a part of it. */
  predicate Delimited(rest: string) {
    rest != "" ==> !IsSymbolChar(rest[0])
  }

  lemma ReadSymbol(name: string, rest: string)
    requires IsSymbol(name) && Delimited(rest)
    ensures ParseSymbol(name + rest) == Ok(name, rest)
  {
    var s := name + rest;
    assert Skip(s) == s;
    if IsSimple(name) {
      assert s[1..] == name[1..] + rest;
      RunIs(s[1..], EndsSymbol, |name| - 1);
    } else {
      RunIs(s[1..], IsBar, |name| - 2);
    }
    assert s[..|name|] == name && s[|name|..] == rest;
  }

  /** The end of a list of nodes. */
  predicate Stops(rest: string) {
    rest != "" ==> rest[0] == ')'
  }

  lemma RefuseEnd(g: string, rest: string)
    requires IsGap(g) && Stops(rest)
    ensures ParseSymbol(g + rest) == Refused && ParseNode(g + rest) == Refused
    ensures Delimited(g + rest)
  {
    NodeAfterGap(g, rest);
    assert Skip(rest) == rest;
  }

  lemma AfterChild(cs: seq<Node>, l: Layout, named: bool, rest: string)
    requires LaidOut(cs, l, named) && named && Stops(rest)
    ensures Delimited(RenderAll(cs, l, named) + rest)
  {
    if cs == [] {
      RefuseEnd(l.end, rest);
    } else {
      assert l.gaps[0] != "" && IsGap(l.gaps[0]);
      assert (RenderAll(cs, l, named) + rest)[0] == l.gaps[0][0];
    }
  }

  lemma {:induction false} ReadNode(n: Node, l: Layout, rest: string)
    requires WellFormed(n) && LaidOut(n.children, l, n.name != "") && Delimited(rest)
    ensures ParseNode(Render(n, l) + rest) == Ok(n, rest)
    decreases n, 0
  {
    if !n.brackets {
      ReadSymbol(n.name, rest);
    } else {
      var inner := RenderAll(n.children, l, n.name != "") + (")" + rest);
      assert Render(n, l) + rest == "(" + (n.name + inner);
      OpenBracket(n.name + inner);
      ReadInner(n, l, rest);
    }
  }

  lemma OpenBracket(text: string)
    ensures ParseNode("(" + text) == var full := ParseFull(text); if full.Refused? then ParseClosed("", text) else full
  {
    var s := "(" + text;
    assert Skip(s) == s && s[0] == '(' && s[1..] == text;
  }

  lemma {:induction false} ReadInner(n: Node, l: Layout, rest: string)
    requires WellFormed(n) && n.brackets && LaidOut(n.children, l, n.name != "")
    ensures
      var text := n.name + (RenderAll(n.children, l, n.name != "") + (")" + rest));
      var full := ParseFull(text);
      (if full.Refused? then ParseClosed("", text) else full) == Ok(n, rest)
    decreases n.children, 1
  {
    var inner := RenderAll(n.children, l, n.name != "") + (")" + rest);
    ReadNodes(n.children, l, n.name != "", ")" + rest);
    SkipGap(l.end, ")" + rest);
    assert (")" + rest)[1..] == rest;
    assert ParseClosed(n.name, inner) == Ok(n, rest);
    if n.name != "" {
      AfterChild(n.children, l, true, ")" + rest);
      ReadSymbol(n.name, inner);
    } else {
      assert n.name + inner == inner;
      RefuseBracket(n.children, l, ")" + rest);
    }
  }

  /** A list of nodes that begins with a bracket does not begin with a symbol. */
  lemma RefuseBracket(cs: seq<Node>, l: Layout, rest: string)
    requires LaidOut(cs, l, false) && Stops(rest) && (cs != [] ==> cs[0].brackets)
    ensures ParseSymbol(RenderAll(cs, l, false) + rest) == Refused
  {
    if cs == [] {
      RefuseEnd(l.end, rest);
    } else {
      var more := Render(cs[0], l.subs[0]) + (RenderAll(cs[1..], Tail(cs, l), true) + rest);
      RenderStep(cs, l, false, rest);
      NodeAfterGap(l.gaps[0], more);
      RefuseOpen(more);
    }
  }

  lemma RefuseOpen(text: string)
    requires text != "" && text[0] == '('
    ensures ParseSymbol(text) == Refused
  {
    assert Skip(text) == text;
  }

  lemma NodesStep(gap: string, shown: string, cs: seq<Node>, rest: string, left: string)
    requires IsGap(gap) && cs != [] && ParseNode(shown + rest) == Ok(cs[0], rest)
    requires ParseNodes(rest) == Ok(cs[1..], left)
    ensures ParseNodes(gap + (shown + rest)) == Ok(cs, left)
  {
    NodeAfterGap(gap, shown + rest);
    assert [cs[0]] + cs[1..] == cs;
  }

  lemma RenderStep(cs: seq<Node>, l: Layout, named: bool, rest: string)
    requires cs != [] && LaidOut(cs, l, named)
    ensures RenderAll(cs, l, named) + rest
         == l.gaps[0] + (Render(cs[0], l.subs[0]) + (RenderAll(cs[1..], Tail(cs, l), true) + rest))
  {
  }

  lemma {:induction false} ReadNodes(cs: seq<Node>, l: Layout, named: bool, rest: string)
    requires LaidOut(cs, l, named) && Stops(rest) && forall i :: 0 <= i < |cs| ==> WellFormed(cs[i])
    ensures ParseNodes(RenderAll(cs, l, named) + rest) == Ok(cs, l.end + rest)
    decreases cs, 0
  {
    if cs == [] {
      RefuseEnd(l.end, rest);
    } else {
      var more := RenderAll(cs[1..], Tail(cs, l), true) + rest;
      AfterChild(cs[1..], Tail(cs, l), true, rest);
      ReadNode(cs[0], l.subs[0], more);
      ReadNodes(cs[1..], Tail(cs, l), true, rest);
      NodesStep(l.gaps[0], Render(cs[0], l.subs[0]), cs, more, l.end + rest);
      RenderStep(cs, l, named, rest);
    }
  }

  /** However the nodes of a file are laid out, the file is read as these nodes. */
  lemma ReadFile(root: Node, l: Layout)
    requires IsFile(root) && LaidOut(root.children, l, false)
    ensures ParseFile(RenderAll(root.children, l, false)) == Ok(root, "")
  {
    var text := RenderAll(root.children, l, false);
    assert text + "" == text && l.end + "" == l.end;
    ReadNodes(root.children, l, false, "");
    SkipGap(l.end, "");
  }

  // ---------------------------------------------------------------- only files are read

  lemma SymbolsRead(text: string)
    ensures var r := ParseSymbol(text); r.Ok? ==> IsSymbol(r.value)
  {
    var s := Skip(text);
    if s != "" {
      RunIs(s[1..], IsBar, Run(s[1..], IsBar));
      RunIs(s[1..], EndsSymbol, Run(s[1..], EndsSymbol));
    }
  }

  lemma {:induction false} NodesRead(text: string)
    ensures !ParseNodes(text).Refused?
    ensures var r := ParseNodes(text); r.Ok? ==> forall c | c in r.value :: WellFormed(c)
    ensures var r := ParseNodes(text);
            r.Ok? && r.value != [] && ParseSymbol(text).Refused? ==> r.value[0].brackets
    decreases |text|, 1
  {
    NodeRead(text);
    var r := ParseNode(text);
    if r.Ok? {
      NodesRead(r.rest);
    }
  }

  lemma {:induction false} NodeRead(text: string)
    ensures var r := ParseNode(text); r.Ok? ==> WellFormed(r.value)
    ensures var r := ParseNode(text); r.Ok? && ParseSymbol(text).Refused? ==> r.value.brackets
    decreases |text|, 0
  {
    SymbolsRead(text);
    var s := Skip(text);
    if ParseSymbol(text).Refused? && s != "" && s[0] == '(' {
      SymbolsRead(s[1..]);
      NodesRead(s[1..]);
      match ParseSymbol(s[1..])
      case Ok(name, rest) =>
        NodesRead(rest);
        assert name != "";
        assert ParseNode(s[1..]) == Ok(Leaf(name, false), rest);
        assert ParseClosed(name, rest).Refused? ==> ParseClosed("", s[1..]).Refused?;
      case _ =>
    }
  }

  /** What the parser accepts is a file. */
  lemma FilesRead(text: string)
    ensures var r := ParseFile(text); r.Ok? ==> IsFile(r.value)
  {
    NodesRead(text);
  }

  // ---------------------------------------------------------------- the printers

  /** Texts one after the other, each between the same two strings. */
  function Spread(texts: seq<string>, before: string, after: string): string {
    if texts == [] then "" else before + texts[0] + after + Spread(texts[1..], before, after)
  }

  function Bracketed(n: Node, inner: string): string {
    if n.brackets then "(" + n.name + inner + ")" else n.name + inner
  }

  /** The stream operator. */
  function Stream(n: Node): string {
    var texts := seq(|n.children|, i requires 0 <= i < |n.children| => Stream(n.children[i]));
    if n.name != "" then Bracketed(n, Spread(texts, " ", ""))
    else Bracketed(n, Spread(texts, "", if n.brackets then " " else "\n"))
  }

  /** The printer that is not pretty. */
  function Print(n: Node): string {
    var texts := seq(|n.children|, i requires 0 <= i < |n.children| => Print(n.children[i]));
    if n.name == "" && !n.brackets then Spread(texts, "", "\n")
    else Bracketed(n, Spread(texts, " ", ""))
  }

  predicate IsLeaf(n: Node) {
    !n.brackets && n.children == []
  }

  /** The pretty printer. */
  function PrettyPrint(n: Node, indent: string): string {
    if n.name == "set-logic" || n.name == "declare-fun" then Print(n)
    else if n.name == "" && !n.brackets then
      Spread(seq(|n.children|, i requires 0 <= i < |n.children| => PrettyPrint(n.children[i], indent)), "", "\n")
    else if forall c | c in n.children :: IsLeaf(c) then
      Bracketed(n, Spread(seq(|n.children|, i requires 0 <= i < |n.children| => n.children[i].name), " ", ""))
    else
      var texts := seq(|n.children|, i requires 0 <= i < |n.children| => PrettyPrint(n.children[i], indent + "\t"));
      if n.brackets then "(" + n.name + "\n" + Spread(texts, indent + "\t", "\n") + indent + ")"
      else n.name + Spread(texts, indent + "\t", "")
  }

  // ---------------------------------------------------------------- the printers lay out trees

  predicate IsBlank(s: string) {
    forall i :: 0 <= i < |s| ==> IsSpace(s[i])
  }

  lemma {:induction false} BlankIsGap(s: string)
    requires IsBlank(s)
    ensures IsGap(s)
    decreases |s|
  {
    if s != "" {
      BlankIsGap(s[1..]);
    }
  }

  ghost predicate Shows(text: string, n: Node) {
    exists l :: LaidOut(n.children, l, n.name != "") && Render(n, l) == text
  }

  ghost predicate ShowsAll(text: string, cs: seq<Node>, named: bool) {
    exists l :: LaidOut(cs, l, named) && RenderAll(cs, l, named) == text
  }

  /** Blanks that separate the texts of nodes make a layout. */
  lemma {:induction false} SpreadShows(cs: seq<Node>, texts: seq<string>, named: bool, lead: string, before: string,
                                       after: string, end: string)
    requires |texts| == |cs| && forall i :: 0 <= i < |cs| ==> Shows(texts[i], cs[i])
    requires IsBlank(lead) && IsBlank(before) && IsBlank(after) && IsBlank(end)
    requires after + before != "" && (named ==> lead + before != "")
    ensures ShowsAll(lead + Spread(texts, before, after) + end, cs, named)
    decreases |cs|
  {
    var text := lead + Spread(texts, before, after) + end;
    if cs == [] {
      BlankIsGap(lead + end);
      NoneShow(lead + end, named);
      assert text == lead + end;
    } else {
      SpreadShows(cs[1..], texts[1..], true, after, before, after, end);
      BlankIsGap(lead + before);
      var more := after + Spread(texts[1..], before, after) + end;
      PutFirst(cs, lead + before, texts[0], more, named);
      SpreadStep(texts, lead, before, after, end);
    }
  }

  lemma SpreadStep(texts: seq<string>, lead: string, before: string, after: string, end: string)
    requires texts != []
    ensures lead + Spread(texts, before, after) + end
         == (lead + before) + texts[0] + (after + Spread(texts[1..], before, after) + end)
  {
  }

  lemma NoneShow(gap: string, named: bool)
    requires IsGap(gap)
    ensures ShowsAll(gap, [], named)
  {
    var l := Layout([], [], gap);
    assert LaidOut([], l, named) && RenderAll([], l, named) == gap;
  }

  lemma PutFirst(cs: seq<Node>, gap: string, text: string, more: string, named: bool)
    requires cs != [] && Shows(text, cs[0]) && ShowsAll(more, cs[1..], true)
    requires IsGap(gap) && (named ==> gap != "")
    ensures ShowsAll(gap + text + more, cs, named)
  {
    var l: Layout :| LaidOut(cs[1..], l, true) && RenderAll(cs[1..], l, true) == more;
    var sub: Layout :| LaidOut(cs[0].children, sub, cs[0].name != "") && Render(cs[0], sub) == text;
    PutLayoutFirst(cs, l, gap, sub, named);
  }

  lemma PutLayoutFirst(cs: seq<Node>, l: Layout, gap: string, sub: Layout, named: bool)
    requires cs != [] && LaidOut(cs[1..], l, true) && LaidOut(cs[0].children, sub, cs[0].name != "")
    requires IsGap(gap) && (named ==> gap != "")
    ensures
      var all := Layout([gap] + l.gaps, [sub] + l.subs, l.end);
      LaidOut(cs, all, named) && RenderAll(cs, all, named) == gap + Render(cs[0], sub) + RenderAll(cs[1..], l, true)
  {
    assert Tail(cs, Layout([gap] + l.gaps, [sub] + l.subs, l.end)) == l;
  }

  lemma BracketsShow(n: Node, text: string)
    requires WellFormed(n) && ShowsAll(text, n.children, n.name != "")
    requires !n.brackets ==> text == ""
    ensures Shows(Bracketed(n, text), n)
  {
    var l :| LaidOut(n.children, l, n.name != "") && RenderAll(n.children, l, n.name != "") == text;
    assert n.name + "" == n.name;
    assert Render(n, l) == Bracketed(n, text);
  }

  lemma SpreadBrackets(n: Node, texts: seq<string>, lead: string, before: string, after: string, end: string)
    requires WellFormed(n) && |texts| == |n.children|
    requires forall i :: 0 <= i < |texts| ==> Shows(texts[i], n.children[i])
    requires IsBlank(lead) && IsBlank(before) && IsBlank(after) && IsBlank(end)
    requires after + before != "" && (n.name != "" ==> lead + before != "")
    requires !n.brackets ==> lead == end == ""
    ensures Shows(Bracketed(n, lead + Spread(texts, before, after) + end), n)
  {
    SpreadShows(n.children, texts, n.name != "", lead, before, after, end);
    BracketsShow(n, lead + Spread(texts, before, after) + end);
  }

  lemma NothingAround(text: string)
    ensures "" + text + "" == text
  {
  }

  lemma {:induction false} StreamShows(n: Node)
    requires WellFormed(n)
    ensures Shows(Stream(n), n)
    decreases n
  {
    var texts := seq(|n.children|, i requires 0 <= i < |n.children| => Stream(n.children[i]));
    forall i | 0 <= i < |n.children| ensures Shows(texts[i], n.children[i]) {
      assert n.children[i] in n.children;
      StreamShows(n.children[i]);
    }
    if n.name != "" {
      SpreadBrackets(n, texts, "", " ", "", "");
      NothingAround(Spread(texts, " ", ""));
    } else {
      SpreadBrackets(n, texts, "", "", " ", "");
      NothingAround(Spread(texts, "", " "));
    }
  }

  lemma {:induction false} PrintShows(n: Node)
    requires WellFormed(n)
    ensures Shows(Print(n), n)
    decreases n
  {
    var texts := seq(|n.children|, i requires 0 <= i < |n.children| => Print(n.children[i]));
    forall i | 0 <= i < |n.children| ensures Shows(texts[i], n.children[i]) {
      assert n.children[i] in n.children;
      PrintShows(n.children[i]);
    }
    SpreadBrackets(n, texts, "", " ", "", "");
    NothingAround(Spread(texts, " ", ""));
  }

  lemma {:induction false} PrettyShows(n: Node, indent: string)
    requires WellFormed(n) && IsBlank(indent)
    ensures Shows(PrettyPrint(n, indent), n)
    decreases n
  {
    if n.name == "set-logic" || n.name == "declare-fun" {
      PrintShows(n);
    } else if forall c | c in n.children :: IsLeaf(c) {
      LineShows(n);
    } else {
      var texts := seq(|n.children|, i requires 0 <= i < |n.children| => PrettyPrint(n.children[i], indent + "\t"));
      forall i | 0 <= i < |n.children| ensures Shows(texts[i], n.children[i]) {
        assert n.children[i] in n.children;
        PrettyShows(n.children[i], indent + "\t");
      }
      SpreadBrackets(n, texts, "\n", indent + "\t", "\n", indent);
      var text := Spread(texts, indent + "\t", "\n");
      assert "(" + n.name + ("\n" + text + indent) + ")" == "(" + n.name + "\n" + text + indent + ")";
    }
  }

  /** A node whose children are all leaves goes on one line. */
  lemma LineShows(n: Node)
    requires WellFormed(n) && forall c | c in n.children :: IsLeaf(c)
    ensures
      var names := seq(|n.children|, i requires 0 <= i < |n.children| => n.children[i].name);
      Shows(Bracketed(n, Spread(names, " ", "")), n)
  {
    var names := seq(|n.children|, i requires 0 <= i < |n.children| => n.children[i].name);
    forall i | 0 <= i < |n.children| ensures Shows(names[i], n.children[i]) {
      assert n.children[i] in n.children;
      LeafShows(n.children[i]);
    }
    SpreadBrackets(n, names, "", " ", "", "");
    NothingAround(Spread(names, " ", ""));
  }

  lemma LeafShows(n: Node)
    requires WellFormed(n) && IsLeaf(n)
    ensures Shows(n.name, n)
  {
    var l := Layout([], [], "");
    assert LaidOut(n.children, l, true) && Render(n, l) == n.name;
  }

  // ---------------------------------------------------------------- round trips

  /** Nodes on lines of their own are read back. */
  lemma ReadLines(root: Node, texts: seq<string>)
    requires IsFile(root) && |texts| == |root.children|
    requires forall i :: 0 <= i < |texts| ==> Shows(texts[i], root.children[i])
    ensures ParseFile(Spread(texts, "", "\n")) == Ok(root, "")
  {
    SpreadShows(root.children, texts, false, "", "", "\n", "");
    var text := Spread(texts, "", "\n");
    assert "" + text + "" == text;
    var l :| LaidOut(root.children, l, false) && RenderAll(root.children, l, false) == text;
    ReadFile(root, l);
  }

  /** What the stream operator writes is read back exactly when the tree is a file. */
  lemma StreamRoundTrip(root: Node)
    ensures ParseFile(Stream(root)) == Ok(root, "") <==> IsFile(root)
  {
    FilesRead(Stream(root));
    if IsFile(root) {
      var texts := seq(|root.children|, i requires 0 <= i < |root.children| => Stream(root.children[i]));
      forall i | 0 <= i < |texts| ensures Shows(texts[i], root.children[i]) {
        assert root.children[i] in root.children;
        StreamShows(root.children[i]);
      }
      ReadLines(root, texts);
      assert "" + Spread(texts, "", "\n") == Spread(texts, "", "\n");
    }
  }

  lemma PrintRoundTrip(root: Node)
    ensures ParseFile(Print(root)) == Ok(root, "") <==> IsFile(root)
  {
    FilesRead(Print(root));
    if IsFile(root) {
      var texts := seq(|root.children|, i requires 0 <= i < |root.children| => Print(root.children[i]));
      forall i | 0 <= i < |texts| ensures Shows(texts[i], root.children[i]) {
        assert root.children[i] in root.children;
        PrintShows(root.children[i]);
      }
      ReadLines(root, texts);
    }
  }

  lemma PrettyRoundTrip(root: Node, indent: string)
    requires IsBlank(indent)
    ensures ParseFile(PrettyPrint(root, indent)) == Ok(root, "") <==> IsFile(root)
  {
    FilesRead(PrettyPrint(root, indent));
    if IsFile(root) {
      var texts := seq(|root.children|, i requires 0 <= i < |root.children| => PrettyPrint(root.children[i], indent));
      forall i | 0 <= i < |texts| ensures Shows(texts[i], root.children[i]) {
        assert root.children[i] in root.children;
        PrettyShows(root.children[i], indent);
      }
      ReadLines(root, texts);
    }
  }

  /** The three printers say the same, and printing is injective. */
  lemma PrintersAgree(root: Node, other: Node)
    requires IsFile(root) && IsFile(other)
    ensures ParseFile(Stream(root)) == ParseFile(Print(root)) == ParseFile(PrettyPrint(root, ""))
    ensures Stream(root) == Stream(other) ==> root == other
    ensures Print(root) == Print(other) ==> root == other
    ensures PrettyPrint(root, "") == PrettyPrint(other, "") ==> root == other
  {
    StreamRoundTrip(root);
    PrintRoundTrip(root);
    PrettyRoundTrip(root, "");
    StreamRoundTrip(other);
    PrintRoundTrip(other);
    PrettyRoundTrip(other, "");
  }
}
