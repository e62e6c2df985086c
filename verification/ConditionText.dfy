/**
 Conditions of strategy edges as texts: the tokens, their three spellings, and the tokeniser.
 A token is accepted in the spelling it is displayed in and in the one it is stored in.
 */
module ConditionTexts {
  import opened Basics

  datatype Operator = And | Iff | Implies | Not | Or | Xor

  datatype Blank = Space | Tab | Return | Newline

  function OperatorChar(o: Operator): char {
    match o
    case And => '\U{2227}'
    case Iff => '\U{2194}'
    case Implies => '\U{21d2}'
    case Not => '\U{00ac}'
    case Or => '\U{2228}'
    case Xor => '\U{2295}'
  }

  function OperatorCPP(o: Operator): string {
    match o
    case And => "&&"
    case Iff => "=="
    case Implies => "<="
    case Not => "!"
    case Or => "||"
    case Xor => "!="
  }

  function OperatorXML(o: Operator): char {
    match o
    case And => 'a'
    case Iff => 'e'
    case Implies => 'i'
    case Not => 'n'
    case Or => 'o'
    case Xor => 'x'
  }

  function BlankChar(b: Blank): char {
    match b
    case Space => ' '
    case Tab => '\t'
    case Return => '\r'
    case Newline => '\n'
  }

  /** A blank is stored as a backslash and this letter. */
  function BlankXML(b: Blank): char {
    match b
    case Space => 's'
    case Tab => 't'
    case Return => 'r'
    case Newline => 'n'
  }

  /** The operator with this display, or with this stored letter. */
  function OperatorShown(c: char): (o: Option<Operator>)
    ensures o.Some? ==> OperatorChar(o.value) == c
    ensures o.None? ==> forall p :: OperatorChar(p) != c
  {
    if c == '\U{2227}' then Some(And) else if c == '\U{2194}' then Some(Iff) else if c == '\U{21d2}' then Some(Implies)
    else if c == '\U{00ac}' then Some(Not) else if c == '\U{2228}' then Some(Or) else if c == '\U{2295}' then Some(Xor)
    else None
  }

  function OperatorStored(c: char): (o: Option<Operator>)
    ensures o.Some? ==> OperatorXML(o.value) == c
    ensures o.None? ==> forall p :: OperatorXML(p) != c
  {
    if c == 'a' then Some(And) else if c == 'e' then Some(Iff) else if c == 'i' then Some(Implies)
    else if c == 'n' then Some(Not) else if c == 'o' then Some(Or) else if c == 'x' then Some(Xor)
    else None
  }

  function BlankShown(c: char): (b: Option<Blank>)
    ensures b.Some? ==> BlankChar(b.value) == c
    ensures b.None? ==> forall d :: BlankChar(d) != c
  {
    if c == ' ' then Some(Space) else if c == '\t' then Some(Tab) else if c == '\r' then Some(Return)
    else if c == '\n' then Some(Newline) else None
  }

  function BlankStored(c: char): (b: Option<Blank>)
    ensures b.Some? ==> BlankXML(b.value) == c
    ensures b.None? ==> forall d :: BlankXML(d) != c
  {
    if c == 's' then Some(Space) else if c == 't' then Some(Tab) else if c == 'r' then Some(Return)
    else if c == 'n' then Some(Newline) else None
  }

  datatype ConditionValue = ConditionValue(value: string, valueCPP: string, valueXML: string, length: nat)

  predicate IsBracket(s: string) {
    |s| == 1 && (s[0] == '(' || s[0] == ')')
  }

  predicate IsOperator(s: string) {
    |s| == 1 && OperatorShown(s[0]).Some?
  }

  predicate IsOperatorXML(s: string) {
    |s| == 1 && OperatorStored(s[0]).Some?
  }

  predicate IsBlank(s: string) {
    |s| == 1 && BlankShown(s[0]).Some?
  }

  predicate IsBlankXML(s: string) {
    |s| == 2 && s[0] == '\\' && BlankStored(s[1]).Some?
  }

  /** Whether a text is a token; which propositions there are is decided elsewhere. */
  predicate Allowed(s: string, props: set<string>) {
    IsBracket(s) || IsOperator(s) || IsOperatorXML(s) || s in props || IsBlank(s) || IsBlankXML(s)
  }

  /** The value for a token; its length is that of the token it was made from. */
  function ValueOf(s: string): ConditionValue {
    if IsOperator(s) then
      var o := OperatorShown(s[0]).value;
      ConditionValue(s, OperatorCPP(o), [OperatorXML(o)], |s|)
    else if IsOperatorXML(s) then
      var o := OperatorStored(s[0]).value;
      ConditionValue([OperatorChar(o)], OperatorCPP(o), s, |s|)
    else if IsBlank(s) then
      ConditionValue(s, "", ['\\', BlankXML(BlankShown(s[0]).value)], |s|)
    else if IsBlankXML(s) then
      ConditionValue([BlankChar(BlankStored(s[1]).value)], "", s, |s|)
    else
      ConditionValue(s, if IsBracket(s) then s else "carl::PROP_" + s, s, |s|)
  }

  function Display(s: string): string {
    ValueOf(s).value
  }

  /** Values that differ at most in the length they have noted. */
  predicate SameValue(v: ConditionValue, w: ConditionValue) {
    v.value == w.value && v.valueCPP == w.valueCPP && v.valueXML == w.valueXML
  }

  /** The displayed and the stored spelling of a token are tokens for the same value. */
  lemma SpellingsAgree(s: string, props: set<string>)
    requires Allowed(s, props)
    ensures Allowed(Display(s), props) && SameValue(ValueOf(Display(s)), ValueOf(s))
    ensures Allowed(ValueOf(s).valueXML, props) && SameValue(ValueOf(ValueOf(s).valueXML), ValueOf(s))
    ensures s != "" ==> Display(s) != "" && ValueOf(s).valueXML != ""
  {
    if IsOperatorXML(s) {
      assert OperatorShown(OperatorChar(OperatorStored(s[0]).value)) == OperatorStored(s[0]);
      assert s == [s[0]];
    } else if IsOperator(s) {
      assert OperatorStored(OperatorXML(OperatorShown(s[0]).value)) == OperatorShown(s[0]);
      assert s == [s[0]];
    } else if IsBlank(s) {
      assert BlankStored(BlankXML(BlankShown(s[0]).value)) == BlankShown(s[0]);
      assert s == [s[0]];
    } else if IsBlankXML(s) {
      assert BlankShown(BlankChar(BlankStored(s[1]).value)) == BlankStored(s[1]);
      assert s == ['\\', s[1]];
    }
  }

  // ---------------------------------------------------------------- the tokeniser

  /** Cuts a text into tokens, each as short as possible; None when something is left over. */
  function Tokenise(pending: string, text: string, props: set<string>): (r: Option<seq<string>>)
    ensures r.Some? ==> forall i :: 0 <= i < |r.value| ==> r.value[i] != "" && Allowed(r.value[i], props)
    decreases |text|
  {
    if text == "" then (if pending == "" then Some([]) else None)
    else
      var word := pending + [text[0]];
      if Allowed(word, props) then
        var rest := Tokenise("", text[1..], props);
        if rest.None? then None else Some([word] + rest.value)
      else Tokenise(word, text[1..], props)
  }

  function Concat(words: seq<string>): string {
    if words == [] then "" else words[0] + Concat(words[1..])
  }

  lemma {:induction false} ConcatAppend(words: seq<string>, words': seq<string>)
    ensures Concat(words + words') == Concat(words) + Concat(words')
  {
    if words == [] {
      assert words + words' == words';
    } else {
      assert (words + words')[0] == words[0] && (words + words')[1..] == words[1..] + words';
      ConcatAppend(words[1..], words');
    }
  }

  /** The tokens are a way to cut the text. */
  lemma {:induction false} TokensSpellText(pending: string, text: string, props: set<string>)
    requires Tokenise(pending, text, props).Some?
    ensures Concat(Tokenise(pending, text, props).value) == pending + text
    decreases |text|
  {
    if text != "" {
      var word := pending + [text[0]];
      assert pending + text == word + text[1..];
      if Allowed(word, props) {
        TokensSpellText("", text[1..], props);
        var rest := Tokenise("", text[1..], props).value;
        assert ([word] + rest)[1..] == rest;
      } else {
        TokensSpellText(word, text[1..], props);
      }
    }
  }

  /** No proper beginning of the text, beyond what is pending, is a token. */
  predicate NoTokenWithin(pending: string, text: string, props: set<string>) {
    forall k :: 0 < k < |text| ==> !Allowed(pending + text[..k], props)
  }

  /** A token none of whose proper beginnings is a token is recognised, whatever follows. */
  lemma {:induction false} TokenRecognised(pending: string, text: string, rest: string, props: set<string>)
    requires text != "" && Allowed(pending + text, props) && NoTokenWithin(pending, text, props)
    ensures Tokenise(pending, text + rest, props)
         == var r := Tokenise("", rest, props); if r.None? then None else Some([pending + text] + r.value)
    decreases |text|
  {
    var word, tail := pending + [text[0]], text[1..];
    assert (text + rest)[0] == text[0] && (text + rest)[1..] == tail + rest;
    if |text| == 1 {
      assert word == pending + text && tail + rest == rest;
    } else {
      assert text[..1] == [text[0]];
      assert word + tail == pending + text;
      forall k | 0 < k < |tail|
        ensures !Allowed(word + tail[..k], props)
      {
        assert word + tail[..k] == pending + text[..k + 1];
      }
      TokenRecognised(word, tail, rest, props);
    }
  }

  /** A token that has a token as a proper beginning is cut in two or more, or not at all. */
  lemma {:induction false} TokenCut(pending: string, text: string, k: nat, props: set<string>)
    requires 0 < k < |text| && Allowed(pending + text[..k], props)
    ensures Tokenise(pending, text, props).Some? ==> |Tokenise(pending, text, props).value| >= 2
    decreases |text|
  {
    var word, tail := pending + [text[0]], text[1..];
    if Allowed(word, props) {
      if Tokenise("", tail, props).Some? {
        NonEmptyHasTokens(tail, props);
      }
    } else {
      assert k > 1 by {
        assert text[..1] == [text[0]];
      }
      assert word + tail[..k - 1] == pending + text[..k];
      TokenCut(word, tail, k - 1, props);
    }
  }

  lemma NonEmptyHasTokens(text: string, props: set<string>)
    requires text != "" && Tokenise("", text, props).Some?
    ensures Tokenise("", text, props).value != []
  {
    TokensSpellText("", text, props);
  }

  // ---------------------------------------------------------------- round trip

  predicate AllTokens(words: seq<string>, props: set<string>) {
    forall i :: 0 <= i < |words| ==> words[i] != "" && Allowed(words[i], props)
  }

  function Displays(words: seq<string>): (ds: seq<string>)
    ensures |ds| == |words|
  {
    seq(|words|, i requires 0 <= i < |words| => Display(words[i]))
  }

  /** What `toString` gives for the values of these tokens. */
  function TextOf(words: seq<string>): string {
    Concat(Displays(words))
  }

  /** Reading the text of a condition gives the displayed spellings of its tokens back. */
  predicate ReadsBack(words: seq<string>, props: set<string>) {
    Tokenise("", TextOf(words), props) == Some(Displays(words))
  }

  /** No token is a proper beginning of a displayed token. This depends on the propositions only. */
  ghost predicate PrefixFree(props: set<string>) {
    forall s, t :: s != "" && t != "" && Allowed(s, props) && Allowed(t, props) ==> !(t < Display(s))
  }

  lemma {:induction false} PrefixFreeReadsBack(words: seq<string>, props: set<string>)
    requires PrefixFree(props) && AllTokens(words, props)
    ensures ReadsBack(words, props)
  {
    if words != [] {
      var ds, d := Displays(words), Display(words[0]);
      SpellingsAgree(words[0], props);
      forall k | 0 < k < |d|
        ensures !Allowed("" + d[..k], props)
      {
        assert "" + d[..k] == d[..k] && d[..k] < d;
      }
      assert "" + d == d;
      assert Displays(words[1..]) == ds[1..];
      TokenRecognised("", d, TextOf(words[1..]), props);
      PrefixFreeReadsBack(words[1..], props);
      assert ds == [d] + ds[1..];
    }
  }

  lemma NotPrefixFree(s: string, t: string, props: set<string>)
    requires s != "" && t != "" && Allowed(s, props) && Allowed(t, props) && t < Display(s)
    ensures AllTokens([s], props) && !ReadsBack([s], props)
  {
    var d := Display(s);
    assert Displays([s])[1..] == [];
    assert Concat(Displays([s])) == d + "" == d;
    assert "" + d[..|t|] == t;
    TokenCut("", d, |t|, props);
  }

  /** Every condition survives being written and read exactly if the propositions are prefix-free. */
  lemma RoundTripExactlyIfPrefixFree(props: set<string>)
    ensures PrefixFree(props) <==> forall words :: AllTokens(words, props) ==> ReadsBack(words, props)
  {
    if PrefixFree(props) {
      forall words | AllTokens(words, props)
        ensures ReadsBack(words, props)
      {
        PrefixFreeReadsBack(words, props);
      }
    } else {
      var s, t :| s != "" && t != "" && Allowed(s, props) && Allowed(t, props) && t < Display(s);
      NotPrefixFree(s, t, props);
    }
  }

  /** What is read back has the same values, but the lengths are those of the displayed spellings. */
  lemma ReadBackValues(words: seq<string>, props: set<string>)
    requires AllTokens(words, props)
    ensures forall i :: 0 <= i < |words| ==> SameValue(ValueOf(Displays(words)[i]), ValueOf(words[i]))
    ensures forall i :: 0 <= i < |words| ==>
      (ValueOf(Displays(words)[i]) == ValueOf(words[i]) <==> !IsBlankXML(words[i]))
  {
    forall i | 0 <= i < |words|
      ensures SameValue(ValueOf(Displays(words)[i]), ValueOf(words[i]))
      ensures ValueOf(Displays(words)[i]) == ValueOf(words[i]) <==> !IsBlankXML(words[i])
    {
      SpellingsAgree(words[i], props);
    }
  }

  /** The stored spelling of a value is read as that single value, exactly if no token begins it. */
  lemma StoredReadsBack(s: string, props: set<string>)
    requires s != "" && Allowed(s, props)
    ensures Tokenise("", ValueOf(s).valueXML, props) == Some([ValueOf(s).valueXML])
      <==> forall t :: t != "" && Allowed(t, props) ==> !(t < ValueOf(s).valueXML)
    ensures SameValue(ValueOf(ValueOf(s).valueXML), ValueOf(s))
  {
    var x := ValueOf(s).valueXML;
    SpellingsAgree(s, props);
    if t :| t != "" && Allowed(t, props) && t < x {
      assert "" + x[..|t|] == t;
      TokenCut("", x, |t|, props);
    } else {
      WholeTokenRead(x, props);
    }
  }

  lemma WholeTokenRead(x: string, props: set<string>)
    requires x != "" && Allowed(x, props) && forall t :: t != "" && Allowed(t, props) ==> !(t < x)
    ensures Tokenise("", x, props) == Some([x])
  {
    forall k | 0 < k < |x|
      ensures !Allowed("" + x[..k], props)
    {
      assert "" + x[..k] == x[..k] && x[..k] < x;
    }
    assert "" + x == x && x + "" == x;
    TokenRecognised("", x, "", props);
    assert Tokenise("", "", props) == Some([]);
    assert [x] + [] == [x];
  }

  // ---------------------------------------------------------------- the condition itself

  function ValuesOf(words: seq<string>): (vs: seq<ConditionValue>)
    ensures |vs| == |words|
  {
    seq(|words|, i requires 0 <= i < |words| => ValueOf(words[i]))
  }

  function Prepend(words: seq<string>, r: Option<seq<string>>): Option<seq<string>> {
    if r.None? then None else Some(words + r.value)
  }

  lemma TextOfMore(words: seq<string>, word: string)
    ensures TextOf(words + [word]) == TextOf(words) + Display(word)
    ensures ValuesOf(words + [word]) == ValuesOf(words) + [ValueOf(word)]
  {
    assert Displays(words + [word]) == Displays(words) + [Display(word)];
    ConcatAppend(Displays(words), [Display(word)]);
    assert Concat([Display(word)]) == Display(word) + "" == Display(word);
  }

  lemma TokeniseStep(words: seq<string>, pending: string, text: string, props: set<string>)
    requires text != ""
    ensures var word := pending + [text[0]];
      Prepend(words, Tokenise(pending, text, props)) ==
        if Allowed(word, props) then Prepend(words + [word], Tokenise("", text[1..], props))
        else Prepend(words, Tokenise(word, text[1..], props))
  {
    var word := pending + [text[0]];
    var rest := Tokenise("", text[1..], props);
    if Allowed(word, props) && rest.Some? {
      assert words + ([word] + rest.value) == (words + [word]) + rest.value;
    }
  }

  class Condition {
    const props: set<string>
    var values: seq<ConditionValue>

    constructor (props: set<string>)
      ensures values == [] && this.props == props
    {
      this.props, values := props, [];
    }

    /** Inserts the values that the text consists of, if it consists of tokens; else nothing. */
    method AddElement(index: nat, element: string) returns (ret: string)
      requires index <= |values|
      modifies this
      ensures var words := Tokenise("", element, props);
        if words.None? then values == old(values) && ret == ""
        else values == old(values)[..index] + ValuesOf(words.value) + old(values)[index..] && ret == TextOf(words.value)
    {
      ret := "";
      assert values[..index] + [] + values[index..] == values;
      if |element| == 1 {
        assert element == "" + [element[0]] && element[1..] == "";
        if Allowed(element, props) {
          TextOfMore([], element);
          assert [] + [element] == [element];
          assert TextOf([]) + Display(element) == Display(element);
          assert Tokenise("", "", props) == Some([]) && [element] + [] == [element];
          values := values[..index] + [ValueOf(element)] + values[index..];
          ret := ValueOf(element).value;
        }
      } else if |element| > 1 {
        var valuesToBeAdded, text, matched := Scan(element);
        if matched {
          values := values[..index] + valuesToBeAdded + values[index..];
          ret := text;
        }
      }
    }

    /** The loop of the tokeniser. */
    method Scan(element: string) returns (vs: seq<ConditionValue>, text: string, matched: bool)
      ensures matched <==> Tokenise("", element, props).Some?
      ensures matched ==> vs == ValuesOf(Tokenise("", element, props).value)
      ensures matched ==> text == TextOf(Tokenise("", element, props).value)
    {
      vs, text := [], "";
      var matchingWord := "";
      ghost var words: seq<string> := [];
      assert element[0..] == element;
      PrependNothing(Tokenise("", element, props));
      for i := 0 to |element|
        invariant vs == ValuesOf(words) && text == TextOf(words)
        invariant Prepend(words, Tokenise(matchingWord, element[i..], props)) == Tokenise("", element, props)
      {
        var currentValue := [element[i]];
        assert element[i..][0] == element[i] && element[i..][1..] == element[i + 1..];
        TokeniseStep(words, matchingWord, element[i..], props);
        assert matchingWord == "" ==> matchingWord + currentValue == currentValue;
        if matchingWord == "" && Allowed(currentValue, props) {
          TextOfMore(words, currentValue);
          vs, text, words := vs + [ValueOf(currentValue)], text + ValueOf(currentValue).value, words + [currentValue];
        } else {
          matchingWord := matchingWord + currentValue;
          if Allowed(matchingWord, props) {
            TextOfMore(words, matchingWord);
            vs, text, words := vs + [ValueOf(matchingWord)], text + ValueOf(matchingWord).value, words + [matchingWord];
            matchingWord := "";
          }
        }
      }
      assert element[|element|..] == "";
      assert words + [] == words;
      matched := matchingWord == "";
    }

    method ToString() returns (ret: string)
      ensures ret == Concat(Shown(values))
    {
      ret := "";
      for k := 0 to |values|
        invariant ret == Concat(Shown(values[..k]))
      {
        ShownNext(values, k);
        ret := ret + values[k].value;
      }
      assert values[..|values|] == values;
    }
  }

  function Shown(vs: seq<ConditionValue>): (ds: seq<string>)
    ensures |ds| == |vs|
  {
    seq(|vs|, i requires 0 <= i < |vs| => vs[i].value)
  }

  lemma ShownNext(vs: seq<ConditionValue>, k: nat)
    requires k < |vs|
    ensures Concat(Shown(vs[..k + 1])) == Concat(Shown(vs[..k])) + vs[k].value
  {
    assert Shown(vs[..k + 1]) == Shown(vs[..k]) + [vs[k].value];
    ConcatAppend(Shown(vs[..k]), [vs[k].value]);
    assert Concat([vs[k].value]) == vs[k].value + "" == vs[k].value;
  }

  lemma PrependNothing(r: Option<seq<string>>)
    ensures Prepend([], r) == r
  {
    if r.Some? {
      assert [] + r.value == r.value;
    }
  }

  /** Writing a condition and adding the text to an empty one gives the same values, lengths apart. */
  method Rebuild(condition: Condition, words: seq<string>) returns (copy: Condition)
    requires PrefixFree(condition.props) && AllTokens(words, condition.props) && condition.values == ValuesOf(words)
    ensures fresh(copy) && |copy.values| == |condition.values|
    ensures forall i :: 0 <= i < |copy.values| ==> SameValue(copy.values[i], condition.values[i])
  {
    copy := new Condition(condition.props);
    var text := condition.ToString();
    assert Shown(ValuesOf(words)) == Displays(words);
    PrefixFreeReadsBack(words, condition.props);
    ReadBackValues(words, condition.props);
    var _ := copy.AddElement(0, text);
    assert copy.values == [] + ValuesOf(Displays(words)) + [];
    assert copy.values == ValuesOf(Displays(words));
  }
}
