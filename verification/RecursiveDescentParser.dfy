/**
 The acceptor for conditions of strategy edges. It is written for an LL(1) grammar; what it
 accepts is compared with the ambiguous grammar that the LL(1) grammar was made from:

   S -> E | C | D | E B E            C -> C and C | E
   E -> P | ( C ) | ( D ) | ( E B E ) | not E
   B -> iff | xor | implies          D -> D or D | E
 */
module RecursiveDescentParsers {
  import opened Basics

  type Token = string

  const AND: Token := "a"
  const OR: Token := "o"
  const IFF: Token := "e"
  const XOR: Token := "x"
  const IMPLIES: Token := "i"
  const NOT: Token := "n"
  const OPEN: Token := "("
  const CLOSE: Token := ")"

  predicate IsWhitespace(t: Token) {
    t == "\\s" || t == "\\t" || t == "\\r" || t == "\\n"
  }

  predicate IsBinary(t: Token) {
    t == IFF || t == XOR || t == IMPLIES
  }

  /** No proposition is spelled like another token. */
  predicate Apart(props: set<Token>) {
    forall p :: p in props ==>
      !IsWhitespace(p) && !IsBinary(p) && p != AND && p != OR && p != NOT && p != OPEN && p != CLOSE
  }

  function NonBlank(ts: seq<Token>): seq<Token> {
    if ts == [] then [] else (if IsWhitespace(ts[0]) then [] else [ts[0]]) + NonBlank(ts[1..])
  }

  // ---------------------------------------------------------------- derivations in the original grammar

  /** A derivation from E; the chain of a bracket is derived from C or from D, as its operator says. */
  datatype E =
    | Proposition(p: Token)
    | Bracket(op: Token, chain: Chain)
    | Binary(left: E, op: Token, right: E)
    | Not(e: E)

  /** A derivation from C or from D. */
  datatype Chain = One(e: E) | Two(left: Chain, right: Chain)

  /** A derivation from S. */
  datatype S = Top(op: Token, chain: Chain) | TopBinary(left: E, op: Token, right: E)

  predicate IsE(e: E, props: set<Token>) {
    match e
    case Proposition(p) => p in props
    case Bracket(op, chain) => (op == AND || op == OR) && IsChain(chain, props)
    case Binary(l, op, r) => IsBinary(op) && IsE(l, props) && IsE(r, props)
    case Not(f) => IsE(f, props)
  }

  predicate IsChain(c: Chain, props: set<Token>) {
    match c
    case One(e) => IsE(e, props)
    case Two(l, r) => IsChain(l, props) && IsChain(r, props)
  }

  predicate IsS(s: S, props: set<Token>) {
    match s
    case Top(op, chain) => (op == AND || op == OR) && IsChain(chain, props)
    case TopBinary(l, op, r) => IsBinary(op) && IsE(l, props) && IsE(r, props)
  }

  function YieldE(e: E): seq<Token> {
    match e
    case Proposition(p) => [p]
    case Bracket(op, chain) => [OPEN] + YieldChain(chain, op) + [CLOSE]
    case Binary(l, op, r) => [OPEN] + (YieldE(l) + [op] + YieldE(r)) + [CLOSE]
    case Not(f) => [NOT] + YieldE(f)
  }

  function YieldChain(c: Chain, op: Token): seq<Token> {
    match c
    case One(e) => YieldE(e)
    case Two(l, r) => YieldChain(l, op) + [op] + YieldChain(r, op)
  }

  function YieldS(s: S): seq<Token> {
    match s
    case Top(op, chain) => YieldChain(chain, op)
    case TopBinary(l, op, r) => YieldE(l) + [op] + YieldE(r)
  }

  ghost predicate Derivable(ts: seq<Token>, props: set<Token>) {
    exists s :: IsS(s, props) && YieldS(s) == ts
  }

  // ---------------------------------------------------------------- what the procedures do

  /** What is left of the input; None means that the input is refused. */
  type Rest = Option<seq<Token>>

  function ParseE(ts: seq<Token>, props: set<Token>): (r: Rest)
    ensures r.Some? ==> |r.value| < |ts|
    decreases |ts|, 0
  {
    if ts == [] then None
    else if ts[0] in props then Some(ts[1..])
    else if ts[0] == OPEN then ParseF(ts[1..], props)
    else if ts[0] == NOT then ParseE(ts[1..], props)
    else None
  }

  function ParseF(ts: seq<Token>, props: set<Token>): (r: Rest)
    ensures r.Some? ==> |r.value| < |ts|
    decreases |ts|, 1
  {
    var e := ParseE(ts, props);
    if e.None? then None else ParseG(e.value, props)
  }

  function ParseG(ts: seq<Token>, props: set<Token>): (r: Rest)
    ensures r.Some? ==> |r.value| < |ts|
    decreases |ts|, 1
  {
    if ts == [] then None
    else if ts[0] == AND || ts[0] == OR then Closed(ParseTail(ts, ts[0], true, props))
    else if ts[0] == CLOSE then Some(ts[1..])
    else if IsBinary(ts[0]) then Closed(ParseE(ts[1..], props))
    else None
  }

  function Closed(r: Rest): (r': Rest)
    ensures r'.Some? ==> r.Some? && |r'.value| < |r.value|
  {
    if r.Some? && r.value != [] && r.value[0] == CLOSE then Some(r.value[1..]) else None
  }

  /** Operators and operands, up to a closing bracket or to the end of the input. */
  function ParseTail(ts: seq<Token>, op: Token, inner: bool, props: set<Token>): (r: Rest)
    ensures r.Some? ==> |r.value| <= |ts|
    decreases |ts|, 0
  {
    if ts != [] && ts[0] == op then
      var e := ParseE(ts[1..], props);
      if e.None? then None else ParseTail(e.value, op, inner, props)
    else if inner then
      if ts != [] && ts[0] == CLOSE then Some(ts) else None
    else
      if ts == [] then Some(ts) else None
  }

  function ParseT(ts: seq<Token>, props: set<Token>): Rest {
    if ts == [] then Some([])
    else if ts[0] == AND || ts[0] == OR then ParseTail(ts, ts[0], false, props)
    else if IsBinary(ts[0]) then ParseE(ts[1..], props)
    else None
  }

  predicate ParseS(ts: seq<Token>, props: set<Token>) {
    var e := ParseE(ts, props);
    e.Some? && ParseT(e.value, props) == Some([])
  }

  // ---------------------------------------------------------------- what is accepted is derivable

  function YieldTail(es: seq<E>, op: Token): seq<Token> {
    if es == [] then [] else [op] + YieldE(es[0]) + YieldTail(es[1..], op)
  }

  predicate AllE(es: seq<E>, props: set<Token>) {
    forall i :: 0 <= i < |es| ==> IsE(es[i], props)
  }

  function ChainOf(e: E, es: seq<E>): Chain
    decreases |es|
  {
    if es == [] then One(e) else Two(One(e), ChainOf(es[0], es[1..]))
  }

  lemma {:induction false} ChainOfYield(e: E, es: seq<E>, op: Token, props: set<Token>)
    requires IsE(e, props) && AllE(es, props)
    ensures IsChain(ChainOf(e, es), props)
    ensures YieldChain(ChainOf(e, es), op) == YieldE(e) + YieldTail(es, op)
    decreases |es|
  {
    if es != [] {
      ChainOfYield(es[0], es[1..], op, props);
    }
  }

  lemma {:induction false} SoundE(ts: seq<Token>, props: set<Token>) returns (e: E)
    requires ParseE(ts, props).Some?
    ensures IsE(e, props) && ts == YieldE(e) + ParseE(ts, props).value
    decreases |ts|, 0
  {
    if ts[0] in props {
      e := Proposition(ts[0]);
    } else if ts[0] == OPEN {
      e := SoundF(ts[1..], props);
    } else {
      var f := SoundE(ts[1..], props);
      e := Not(f);
    }
  }

  lemma {:induction false} SoundF(ts: seq<Token>, props: set<Token>) returns (e: E)
    requires ParseF(ts, props).Some?
    ensures IsE(e, props) && [OPEN] + ts == YieldE(e) + ParseF(ts, props).value
    decreases |ts|, 1
  {
    var first := SoundE(ts, props);
    var rest := ParseE(ts, props).value;
    e := SoundG(first, rest, props);
    assert [OPEN] + ts == [OPEN] + (YieldE(first) + rest);
  }

  lemma {:induction false} SoundG(first: E, ts: seq<Token>, props: set<Token>) returns (e: E)
    requires IsE(first, props) && ParseG(ts, props).Some?
    ensures IsE(e, props) && [OPEN] + (YieldE(first) + ts) == YieldE(e) + ParseG(ts, props).value
    decreases |ts|, 1
  {
    var rest := ParseG(ts, props).value;
    if ts[0] == AND || ts[0] == OR {
      var es := SoundTail(ts, ts[0], true, props);
      ChainOfYield(first, es, ts[0], props);
      e := Bracket(ts[0], ChainOf(first, es));
      Enclosed(YieldE(first), YieldTail(es, ts[0]), rest);
      assert ParseTail(ts, ts[0], true, props).value == [CLOSE] + rest;
    } else if ts[0] == CLOSE {
      e := Bracket(AND, One(first));
      Enclosed(YieldE(first), [], rest);
      assert ts == [] + ([CLOSE] + rest);
    } else {
      var second := SoundE(ts[1..], props);
      e := Binary(first, ts[0], second);
      Enclosed(YieldE(first), [ts[0]] + YieldE(second), rest);
      assert ParseE(ts[1..], props).value == [CLOSE] + rest;
      assert ts == ([ts[0]] + YieldE(second)) + ([CLOSE] + rest);
      assert YieldE(first) + ([ts[0]] + YieldE(second)) == YieldE(first) + [ts[0]] + YieldE(second);
    }
  }

  lemma Enclosed(x: seq<Token>, y: seq<Token>, rest: seq<Token>)
    ensures [OPEN] + (x + (y + ([CLOSE] + rest))) == ([OPEN] + (x + y) + [CLOSE]) + rest
    ensures y == [] ==> x + y == x
  {
  }

  lemma TailCons(e: E, es: seq<E>, op: Token, rest: seq<Token>, props: set<Token>)
    requires IsE(e, props) && AllE(es, props)
    ensures AllE([e] + es, props)
    ensures YieldTail([e] + es, op) + rest == [op] + (YieldE(e) + (YieldTail(es, op) + rest))
  {
    assert ([e] + es)[1..] == es;
  }

  lemma {:induction false} SoundTail(ts: seq<Token>, op: Token, inner: bool, props: set<Token>) returns (es: seq<E>)
    requires ParseTail(ts, op, inner, props).Some?
    ensures AllE(es, props) && ts == YieldTail(es, op) + ParseTail(ts, op, inner, props).value
    decreases |ts|, 0
  {
    es := [];
    if ts != [] && ts[0] == op {
      var e := SoundE(ts[1..], props);
      var more := SoundTail(ParseE(ts[1..], props).value, op, inner, props);
      es := [e] + more;
      TailCons(e, more, op, ParseTail(ts, op, inner, props).value, props);
      assert ts == [op] + ts[1..];
    } else {
      assert ts == [] + ts;
    }
  }

  lemma SoundS(ts: seq<Token>, props: set<Token>) returns (s: S)
    requires ParseS(ts, props)
    ensures IsS(s, props) && YieldS(s) == ts
  {
    var first := SoundE(ts, props);
    var rest := ParseE(ts, props).value;
    if rest == [] {
      s := Top(AND, One(first));
    } else if rest[0] == AND || rest[0] == OR {
      var es := SoundTail(rest, rest[0], false, props);
      ChainOfYield(first, es, rest[0], props);
      s := Top(rest[0], ChainOf(first, es));
    } else {
      var second := SoundE(rest[1..], props);
      s := TopBinary(first, rest[0], second);
    }
  }

  // ---------------------------------------------------------------- what is derivable is accepted

  function Operands(c: Chain): (es: seq<E>)
    ensures es != []
  {
    match c
    case One(e) => [e]
    case Two(l, r) => Operands(l) + Operands(r)
  }

  lemma {:induction false} OperandsYield(c: Chain, op: Token, props: set<Token>)
    requires IsChain(c, props)
    ensures AllE(Operands(c), props)
    ensures [op] + YieldChain(c, op) == YieldTail(Operands(c), op)
  {
    match c
    case One(e) =>
      assert Operands(c)[1..] == [];
    case Two(l, r) =>
      OperandsYield(l, op, props);
      OperandsYield(r, op, props);
      YieldTailAppend(Operands(l), Operands(r), op);
  }

  lemma {:induction false} YieldTailAppend(es: seq<E>, fs: seq<E>, op: Token)
    ensures YieldTail(es + fs, op) == YieldTail(es, op) + YieldTail(fs, op)
  {
    if es == [] {
      assert es + fs == fs;
    } else {
      assert (es + fs)[0] == es[0] && (es + fs)[1..] == es[1..] + fs;
      YieldTailAppend(es[1..], fs, op);
    }
  }

  /** An expression ends where it ends, whatever follows it. */
  lemma {:induction false} CompleteE(e: E, rest: seq<Token>, props: set<Token>)
    requires IsE(e, props) && Apart(props)
    ensures ParseE(YieldE(e) + rest, props) == Some(rest)
    decreases |YieldE(e)|, 1
  {
    var ts := YieldE(e) + rest;
    match e
    case Proposition(p) =>
      assert ts[1..] == rest;
    case Not(f) =>
      assert ts[1..] == YieldE(f) + rest;
      CompleteE(f, rest, props);
    case Binary(l, op, r) =>
      CompleteBinary(l, op, r, rest, props);
    case Bracket(op, chain) =>
      CompleteBracket(op, chain, rest, props);
  }

  lemma {:induction false} CompleteBinary(l: E, op: Token, r: E, rest: seq<Token>, props: set<Token>)
    requires IsE(Binary(l, op, r), props) && Apart(props)
    ensures ParseE(YieldE(Binary(l, op, r)) + rest, props) == Some(rest)
    decreases |YieldE(Binary(l, op, r))|, 0
  {
    var ts, end := YieldE(Binary(l, op, r)) + rest, [CLOSE] + rest;
    var mid := [op] + (YieldE(r) + end);
    assert ts[0] == OPEN && ts[1..] == YieldE(l) + mid;
    CompleteE(l, mid, props);
    CompleteE(r, end, props);
    assert mid[1..] == YieldE(r) + end && end[1..] == rest;
    assert ParseG(mid, props) == Closed(Some(end));
    assert ParseF(ts[1..], props) == Some(rest);
  }

  lemma {:induction false} CompleteBracket(op: Token, chain: Chain, rest: seq<Token>, props: set<Token>)
    requires IsE(Bracket(op, chain), props) && Apart(props)
    ensures ParseE(YieldE(Bracket(op, chain)) + rest, props) == Some(rest)
    decreases |YieldE(Bracket(op, chain))|, 0
  {
    var ts, end := YieldE(Bracket(op, chain)) + rest, [CLOSE] + rest;
    var es := Operands(chain);
    ChainYield(chain, op, props);
    var mid := YieldTail(es[1..], op) + end;
    assert ts[0] == OPEN && ts[1..] == YieldE(es[0]) + mid;
    CompleteE(es[0], mid, props);
    CompleteTail(es[1..], op, end, true, props);
    assert end[1..] == rest;
    if es[1..] == [] {
      assert mid == end;
    } else {
      assert mid[0] == op;
      assert ParseG(mid, props) == Closed(ParseTail(mid, op, true, props));
    }
    assert ParseG(mid, props) == Some(rest);
    assert ParseF(ts[1..], props) == Some(rest);
  }

  /** The first operand of a chain, and then operators with operands. */
  lemma ChainYield(c: Chain, op: Token, props: set<Token>)
    requires IsChain(c, props)
    ensures AllE(Operands(c), props)
    ensures YieldChain(c, op) == YieldE(Operands(c)[0]) + YieldTail(Operands(c)[1..], op)
  {
    var es := Operands(c);
    OperandsYield(c, op, props);
    assert ([op] + YieldChain(c, op))[1..] == YieldChain(c, op);
    assert ([op] + YieldE(es[0]) + YieldTail(es[1..], op))[1..] == YieldE(es[0]) + YieldTail(es[1..], op);
  }

  lemma {:induction false} CompleteTail(es: seq<E>, op: Token, rest: seq<Token>, inner: bool, props: set<Token>)
    requires AllE(es, props) && Apart(props) && (op == AND || op == OR)
    requires if inner then rest != [] && rest[0] == CLOSE else rest == []
    ensures ParseTail(YieldTail(es, op) + rest, op, inner, props) == Some(rest)
    decreases |YieldTail(es, op)|, 2
  {
    var ts := YieldTail(es, op) + rest;
    if es == [] {
      assert ts == rest;
    } else {
      var mid := YieldTail(es[1..], op) + rest;
      assert ts[1..] == YieldE(es[0]) + mid;
      CompleteE(es[0], mid, props);
      CompleteTail(es[1..], op, rest, inner, props);
    }
  }

  lemma CompleteS(s: S, props: set<Token>)
    requires IsS(s, props) && Apart(props)
    ensures ParseS(YieldS(s), props)
  {
    match s
    case Top(op, chain) =>
      var es := Operands(chain);
      ChainYield(chain, op, props);
      CompleteE(es[0], YieldTail(es[1..], op), props);
      CompleteTail(es[1..], op, [], false, props);
      assert YieldTail(es[1..], op) + [] == YieldTail(es[1..], op);
    case TopBinary(l, op, r) =>
      assert YieldS(s) == YieldE(l) + ([op] + YieldE(r));
      CompleteE(l, [op] + YieldE(r), props);
      assert ([op] + YieldE(r))[1..] == YieldE(r) + [];
      CompleteE(r, [], props);
  }

  /** The procedures accept exactly what the original grammar derives. */
  lemma AcceptsExactlyDerivable(ts: seq<Token>, props: set<Token>)
    requires Apart(props)
    ensures ParseS(ts, props) <==> Derivable(ts, props)
  {
    if ParseS(ts, props) {
      var s := SoundS(ts, props);
    }
    if Derivable(ts, props) {
      var s :| IsS(s, props) && YieldS(s) == ts;
      CompleteS(s, props);
    }
  }

  // ---------------------------------------------------------------- the procedures themselves

  lemma NonBlankStep(ts: seq<Token>, i: nat)
    requires i < |ts|
    ensures NonBlank(ts[i..]) == (if IsWhitespace(ts[i]) then [] else [ts[i]]) + NonBlank(ts[i + 1..])
  {
    assert ts[i..][0] == ts[i] && ts[i..][1..] == ts[i + 1..];
  }

  class Parser {
    const propositions: set<Token>
    const condition: seq<Token>
    var index: nat
    var token: Option<Token>
    var parsedSuccessfully: bool

    /** What has not been consumed yet, without whitespace; the first token is looked at already. */
    ghost function Left(): seq<Token>
      requires index <= |condition|
      reads this
    {
      (if token.Some? then [token.value] else []) + NonBlank(condition[index..])
    }

    ghost predicate Valid()
      reads this
    {
      index <= |condition| && (token.None? ==> Left() == [])
    }

    /** What a procedure makes of the input if nothing was wrong before. */
    ghost predicate Outcome(before: bool, r: Rest)
      requires index <= |condition|
      reads this
    {
      && (parsedSuccessfully <==> before && r.Some?)
      && (parsedSuccessfully ==> Left() == r.value)
    }

    constructor (condition: seq<Token>, propositions: set<Token>)
      ensures this.condition == condition && this.propositions == propositions
    {
      this.condition, this.propositions := condition, propositions;
      index, token, parsedSuccessfully := 0, None, true;
    }

    /** Accepts the condition exactly if the original grammar derives its tokens. */
    method Parse() returns (accepted: bool)
      modifies this
      ensures accepted <==> ParseS(NonBlank(condition), propositions)
      ensures Apart(propositions) ==> (accepted <==> Derivable(NonBlank(condition), propositions))
    {
      index := 0;
      assert condition[0..] == condition;
      Next();
      parsedSuccessfully := true;
      ParseTop();
      accepted := parsedSuccessfully;
      if Apart(propositions) {
        AcceptsExactlyDerivable(NonBlank(condition), propositions);
      }
    }

    /** Moves on to the next token that is not whitespace. */
    method Next()
      requires index <= |condition|
      modifies `index, `token
      ensures Valid() && Left() == old(NonBlank(condition[index..]))
      decreases |condition| - index
    {
      if index == |condition| {
        token := None;
      } else {
        NonBlankStep(condition, index);
        var value := condition[index];
        index := index + 1;
        if IsWhitespace(value) {
          Next();
        } else {
          token := Some(value);
        }
      }
    }

    /** Consumes the token looked at. */
    method Advance()
      requires Valid() && token.Some?
      modifies `index, `token
      ensures Valid() && Left() == old(Left())[1..]
    {
      assert Left()[1..] == NonBlank(condition[index..]);
      Next();
    }

    method ParseTop()
      requires Valid() && parsedSuccessfully
      modifies this
      ensures Valid() && (parsedSuccessfully <==> ParseS(old(Left()), propositions))
    {
      if token.Some? && (token.value in propositions || token.value == OPEN || token.value == NOT) {
        Expression();
        Continuation();
        if token.Some? {
          parsedSuccessfully := false;
        }
      } else {
        parsedSuccessfully := false;
      }
    }

    /** T */
    method Continuation()
      requires Valid()
      modifies this
      ensures Valid() && (old(parsedSuccessfully) ==> Outcome(true, ParseT(old(Left()), propositions)))
      ensures !old(parsedSuccessfully) ==> !parsedSuccessfully
    {
      if parsedSuccessfully {
        if token.None? {
        } else if token.value == AND {
          Tail(AND, false);
        } else if token.value == OR {
          Tail(OR, false);
        } else if IsBinary(token.value) {
          BinaryOperator();
          Expression();
        } else {
          parsedSuccessfully := false;
        }
      }
    }

    /** E */
    method Expression()
      requires Valid()
      modifies this
      ensures Valid() && |Left()| <= |old(Left())|
        && Outcome(old(parsedSuccessfully), ParseE(old(Left()), propositions))
      decreases |Left()|, 1
    {
      if parsedSuccessfully {
        if token.Some? && token.value in propositions {
          PropositionOnly();
        } else if token.Some? && token.value == OPEN {
          Advance();
          Inside();
        } else if token.Some? && token.value == NOT {
          Advance();
          Expression();
        } else {
          parsedSuccessfully := false;
        }
      }
    }

    /** F */
    method Inside()
      requires Valid()
      modifies this
      ensures Valid() && |Left()| <= |old(Left())|
        && Outcome(old(parsedSuccessfully), ParseF(old(Left()), propositions))
      decreases |Left()|, 3
    {
      if parsedSuccessfully {
        if token.Some? && (token.value in propositions || token.value == OPEN || token.value == NOT) {
          Expression();
          Ending();
        } else {
          parsedSuccessfully := false;
        }
      }
    }

    /** G */
    method Ending()
      requires Valid()
      modifies this
      ensures Valid() && |Left()| <= |old(Left())|
      ensures !old(parsedSuccessfully) ==> !parsedSuccessfully
      ensures old(parsedSuccessfully) ==> Outcome(true, ParseG(old(Left()), propositions))
      decreases |Left()|, 2
    {
      if parsedSuccessfully {
        if token.Some? && token.value == AND {
          Tail(AND, true);
          Close();
        } else if token.Some? && token.value == OR {
          Tail(OR, true);
          Close();
        } else if token.Some? && token.value == CLOSE {
          Advance();
        } else if token.Some? && IsBinary(token.value) {
          BinaryOperator();
          Expression();
          Close();
        } else {
          parsedSuccessfully := false;
        }
      }
    }

    method Close()
      requires Valid()
      modifies this
      ensures Valid() && |Left()| <= |old(Left())|
      ensures !old(parsedSuccessfully) ==> !parsedSuccessfully
      ensures old(parsedSuccessfully) ==> Outcome(true, Closed(Some(old(Left()))))
    {
      if token.Some? && token.value == CLOSE {
        Advance();
      } else {
        parsedSuccessfully := false;
      }
    }

    /** B */
    method BinaryOperator()
      requires Valid() && parsedSuccessfully
      modifies this
      ensures Valid() && |Left()| <= |old(Left())|
      ensures if old(Left()) != [] && IsBinary(old(Left())[0]) then parsedSuccessfully && Left() == old(Left())[1..]
              else !parsedSuccessfully
    {
      if token.Some? && IsBinary(token.value) {
        Advance();
      } else {
        parsedSuccessfully := false;
      }
    }

    /** C1, C2, D1 and D2, which differ in the operator and in what may follow. */
    method Tail(op: Token, inner: bool)
      requires Valid()
      modifies this
      ensures Valid() && |Left()| <= |old(Left())|
      ensures !old(parsedSuccessfully) ==> !parsedSuccessfully
      ensures old(parsedSuccessfully) ==> Outcome(true, ParseTail(old(Left()), op, inner, propositions))
      decreases |Left()|, 0
    {
      if parsedSuccessfully {
        if token.Some? && token.value == op {
          Advance();
          Expression();
          Tail(op, inner);
        } else if inner && token.Some? && token.value == CLOSE {
        } else if !inner && token.None? {
        } else {
          parsedSuccessfully := false;
        }
      }
    }

    /** P */
    method PropositionOnly()
      requires Valid() && parsedSuccessfully
      modifies this
      ensures Valid() && |Left()| <= |old(Left())|
      ensures
        if old(Left()) != [] && old(Left())[0] in propositions then parsedSuccessfully && Left() == old(Left())[1..]
              else !parsedSuccessfully
    {
      if token.Some? && token.value in propositions {
        Advance();
      } else {
        parsedSuccessfully := false;
      }
    }
  }
}
