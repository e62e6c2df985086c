/**
 Origins: why a passed formula is there. This file is about list elements as values: when a
 list of passed formulas is justified by the received formulas, how a conflict among passed
 formulas is explained by received ones, and what withdrawing a received formula leaves.
 */
module Origins {
  import opened Basics
  import opened Formulas
  import opened ModuleInputs

  function Names(es: seq<Entry>): (fs: seq<Formula>)
    ensures |fs| == |es|
    ensures forall i :: 0 <= i < |es| ==> fs[i] == es[i].formula
  {
    seq(|es|, i requires 0 <= i < |es| => es[i].formula)
  }

  // ---------------------------------------------------------------- justification

  /** An origin is a received formula or a conjunction of received formulas. */
  predicate FromReceived(received: set<Formula>, o: Formula) {
    o in received || (o.And? && forall s | s in o.subs :: s in received)
  }

  /** Every origin is received and entails the formula; without origins the formula is valid. */
  ghost predicate Justified(theory: Theory, received: set<Formula>, e: Entry) {
    match e.origins
    case None => Tautology(theory, e.formula)
    case Some(os) => os != [] && forall o | o in os :: FromReceived(received, o) && Entails(theory, o, e.formula)
  }

  ghost predicate AllJustified(theory: Theory, received: set<Formula>, es: seq<Entry>) {
    forall i :: 0 <= i < |es| ==> Justified(theory, received, es[i])
  }

  lemma JustifiedByMore(theory: Theory, received: set<Formula>, more: set<Formula>, es: seq<Entry>)
    requires AllJustified(theory, received, es) && received <= more
    ensures AllJustified(theory, more, es)
  {
    forall i | 0 <= i < |es|
      ensures Justified(theory, more, es[i])
    {
      assert Justified(theory, received, es[i]);
    }
  }

  lemma AddOneJustified(theory: Theory, received: set<Formula>, es: seq<Entry>, f: Formula, extra: Option<seq<Formula>>)
    requires AllJustified(theory, received, es) && Justified(theory, received, Entry(f, extra))
    ensures AllJustified(theory, received, AddOne(es, f, extra))
  {
    var r := AddOne(es, f, extra);
    forall i | 0 <= i < |r|
      ensures Justified(theory, received, r[i])
    {
      assert i < |es| ==> Justified(theory, received, es[i]);
    }
  }

  lemma {:induction false} AddAllJustified(theory: Theory, received: set<Formula>, es: seq<Entry>, fs: seq<Formula>,
                                           extra: Option<seq<Formula>>)
    requires AllJustified(theory, received, es)
    requires forall f :: f in fs ==> Justified(theory, received, Entry(f, extra))
    ensures AllJustified(theory, received, AddAll(es, fs, extra))
    decreases |fs|
  {
    if fs != [] {
      assert fs[0] in fs;
      AddOneJustified(theory, received, es, fs[0], extra);
      AddAllJustified(theory, received, AddOne(es, fs[0], extra), fs[1..], extra);
    }
  }

  /** What justifies a conjunction justifies each of its conjuncts. */
  lemma ConjunctsJustified(theory: Theory, received: set<Formula>, f: Formula, mightBeConjunction: bool,
                           extra: Option<seq<Formula>>)
    requires Justified(theory, received, Entry(f, extra))
    ensures forall g :: g in Conjuncts(f, mightBeConjunction) ==> Justified(theory, received, Entry(g, extra))
  {
    if mightBeConjunction {
      forall v | v in theory && Satisfies(v, f)
        ensures forall g :: g in Flatten(f) ==> Satisfies(v, g)
      {
        FlattenMeaning(v, f);
      }
    }
  }

  // ---------------------------------------------------------------- explaining a conflict

  /** `findBestOrigin`: the first origin of size 1 if there is one, else the first of least size. */
  predicate IsBestOrigin(os: seq<Formula>, k: nat) {
    && k < |os|
    && (Size(os[k]) == 1 || forall o | o in os :: Size(o) != 1 && Size(os[k]) <= Size(o))
    && forall j :: 0 <= j < k ==> Size(os[j]) != 1 && (Size(os[k]) != 1 ==> Size(os[k]) < Size(os[j]))
  }

  lemma {:induction false} BestOriginExists(os: seq<Formula>)
    requires os != []
    ensures exists k: nat :: IsBestOrigin(os, k)
  {
    var rest, last := os[..|os| - 1], |os| - 1;
    if rest == [] {
      assert IsBestOrigin(os, 0);
    } else {
      BestOriginExists(rest);
      var k: nat :| IsBestOrigin(rest, k);
      assert forall o :: o in os <==> o in rest || o == os[last];
      var stays := Size(os[k]) == 1 || (Size(os[last]) != 1 && Size(os[k]) <= Size(os[last]));
      assert IsBestOrigin(os, if stays then k else last);
    }
  }

  ghost function BestOrigin(os: seq<Formula>): (k: nat)
    requires os != []
    ensures IsBestOrigin(os, k)
    ensures forall l: nat :: IsBestOrigin(os, l) ==> l == k
  {
    BestOriginExists(os);
    var k: nat :| IsBestOrigin(os, k);
    k
  }

  method FindBestOrigin(os: seq<Formula>) returns (k: nat)
    requires os != []
    ensures k == BestOrigin(os)
  {
    k := 0;
    var i := 0;
    while i < |os|
      invariant 0 <= i <= |os| && 0 <= k < |os| && k <= i
      invariant forall j :: 0 <= j < i ==> Size(os[j]) != 1 && Size(os[k]) <= Size(os[j])
      invariant forall j :: 0 <= j < k ==> Size(os[k]) < Size(os[j])
    {
      if Size(os[i]) == 1 {
        k := i;
        break;
      } else if Size(os[i]) < Size(os[k]) {
        k := i;
      }
      i := i + 1;
    }
    assert IsBestOrigin(os, k);
  }

  /** `collectOrigins`: the received formulas an origin stands for. */
  function Collected(received: set<Formula>, o: Formula): set<Formula> {
    if o in received then {o} else if o.And? then Elements(o.subs) else {}
  }

  /** The received formulas that explain a list element: those of its best origin. */
  ghost function Sources(received: set<Formula>, e: Entry): set<Formula> {
    if e.origins.None? || e.origins.value == [] then {}
    else Collected(received, e.origins.value[BestOrigin(e.origins.value)])
  }

  lemma SourcesEntail(theory: Theory, received: set<Formula>, e: Entry)
    requires Justified(theory, received, e)
    ensures Sources(received, e) <= received
    ensures forall v :: v in theory && (forall f | f in Sources(received, e) :: Satisfies(v, f)) ==>
      Satisfies(v, e.formula)
  {
    if e.origins.Some? {
      var o := e.origins.value[BestOrigin(e.origins.value)];
      assert o in e.origins.value;
      forall v | v in theory && forall f | f in Sources(received, e) :: Satisfies(v, f)
        ensures Satisfies(v, e.formula)
      {
        assert o !in received ==> forall f :: f in o.subs ==> f in Sources(received, e);
        assert Satisfies(v, o);
      }
    }
  }

  ghost function SourcesOf(received: set<Formula>, es: seq<Entry>, c: Formula): set<Formula> {
    var i := Position(es, c);
    if i < |es| then Sources(received, es[i]) else {}
  }

  /** The explanation of a set of passed formulas: the sources of each. */
  ghost function Lifted(received: set<Formula>, es: seq<Entry>, conflict: set<Formula>): set<Formula> {
    set c, f | c in conflict && f in SourcesOf(received, es, c) :: f
  }

  /** Lifting is sound: a conflict among passed formulas becomes one among received formulas. */
  lemma LiftingSound(theory: Theory, received: set<Formula>, es: seq<Entry>, conflict: set<Formula>)
    requires AllJustified(theory, received, es)
    requires Unsat(theory, conflict) && conflict <= Elements(Names(es))
    ensures Lifted(received, es, conflict) <= received && Unsat(theory, Lifted(received, es, conflict))
  {
    var lifted := Lifted(received, es, conflict);
    forall c | c in conflict
      ensures Position(es, c) < |es| && Justified(theory, received, es[Position(es, c)])
      ensures SourcesOf(received, es, c) <= received
    {
      assert c in Names(es);
      var i :| 0 <= i < |es| && es[i].formula == c;
      SourcesEntail(theory, received, es[Position(es, c)]);
    }
    forall v | v in theory
      ensures exists f :: f in lifted && !Satisfies(v, f)
    {
      var c :| c in conflict && !Satisfies(v, c);
      SourcesEntail(theory, received, es[Position(es, c)]);
      var f :| f in SourcesOf(received, es, c) && !Satisfies(v, f);
      assert f in lifted;
    }
  }

  /** If what is passed has no common model, then what is received has none. */
  lemma PassedConflict(theory: Theory, received: set<Formula>, es: seq<Entry>)
    requires AllJustified(theory, received, es)
    requires Unsat(theory, Elements(Names(es)))
    ensures Unsat(theory, received)
  {
    forall v | v in theory
      ensures exists f :: f in received && !Satisfies(v, f)
    {
      var c :| c in Elements(Names(es)) && !Satisfies(v, c);
      var i :| 0 <= i < |es| && es[i].formula == c;
      assert Justified(theory, received, es[i]);
      if es[i].origins.Some? {
        var o := es[i].origins.value[0];
        assert FromReceived(received, o) && Entails(theory, o, c);
        assert !Satisfies(v, o);
      }
    }
  }

  // ---------------------------------------------------------------- withdrawing a formula

  function Surviving(es: seq<Entry>, f: Formula): seq<Entry> {
    if es == [] then [] else (if Survives(es[0], f) then [es[0]] else []) + Surviving(es[1..], f)
  }

  lemma {:induction false} SurvivingNext(es: seq<Entry>, k: nat, f: Formula)
    requires k < |es|
    ensures Surviving(es[..k + 1], f) == Surviving(es[..k], f) + if Survives(es[k], f) then [es[k]] else []
  {
    if k > 0 {
      SurvivingNext(es[1..], k - 1, f);
      assert es[1..][..k] == es[..k + 1][1..] && es[1..][..k - 1] == es[..k][1..];
      assert es[..k + 1][0] == es[0] == es[..k][0];
    } else {
      assert es[..1][1..] == [] && es[..1][0] == es[0];
    }
  }

  lemma {:induction false} SurvivingElements(es: seq<Entry>, f: Formula)
    ensures forall e :: e in Surviving(es, f) <==> e in es && Survives(e, f)
  {
    if es != [] {
      SurvivingElements(es[1..], f);
      assert forall e :: e in es <==> e == es[0] || e in es[1..];
    }
  }

  ghost predicate AllCleaned(es: seq<Entry>, es': seq<Entry>, f: Formula) {
    |es'| == |es| && forall i :: 0 <= i < |es| ==> Cleaned(es[i], es'[i], f)
  }

  ghost predicate AllThinned(es: seq<Entry>, es': seq<Entry>, f: Formula) {
    |es'| == |es| && forall i :: 0 <= i < |es| ==> Thinned(es[i], es'[i], f)
  }

  /**
   The loop of `remove` over the passed formulas, with k of them done: those that stay come
   first, cleaned; the others are as before, but vectors they share may have been cleaned.
   */
  ghost predicate Withdrawing(es0: seq<Entry>, k: nat, es: seq<Entry>, i: nat, f: Formula) {
    && k <= |es0| && i <= |es|
    && AllCleaned(Surviving(es0[..k], f), es[..i], f)
    && AllThinned(es0[k..], es[i..], f)
  }

  /** One round: the element at i is cleaned, or it is removed if nothing keeps it. */
  ghost predicate WithdrawOne(es: seq<Entry>, i: nat, es': seq<Entry>, f: Formula, gone: bool) {
    && i < |es| && (gone <==> !Survives(es[i], f))
    && |es'| == (if gone then |es| - 1 else |es|)
    && (forall j :: 0 <= j < i ==> Thinned(es[j], es'[j], f))
    && (!gone ==> Cleaned(es[i], es'[i], f))
    && (forall j :: i < j < |es| ==> Thinned(es[j], es'[if gone then j - 1 else j], f))
  }

  lemma WithdrawsOne(es: seq<Entry>, i: nat, es': seq<Entry>, f: Formula, gone: bool)
    requires i < |es| == |es'| && (gone <==> !Survives(es[i], f)) && (!gone ==> Cleaned(es[i], es'[i], f))
    requires forall j :: 0 <= j < |es| && j != i ==> Thinned(es[j], es'[j], f)
    ensures WithdrawOne(es, i, if gone then es'[..i] + es'[i + 1..] else es', f, gone)
  {
  }

  lemma CleanedTwice(e: Entry, e': Entry, e'': Entry, f: Formula)
    requires Thinned(e', e'', f)
    ensures Cleaned(e, e', f) ==> Cleaned(e, e'', f)
    ensures Thinned(e, e', f) ==> Thinned(e, e'', f)
    ensures Thinned(e, e', f) ==> (Survives(e, f) <==> Survives(e', f))
  {
    if e''.origins.Some? && e'.origins.Some? && e'' != e' {
      WithoutMatchesElements(e''.origins.value, e'.origins.value, f);
      if e.origins.Some? && WithoutMatches(e'.origins.value, e.origins.value, f) {
        WithoutMatchesElements(e'.origins.value, e.origins.value, f);
        if e'.origins.value != [] {
          assert e'.origins.value[0] in e''.origins.value;
        }
      }
    }
    if Thinned(e, e', f) && e != e' {
      WithoutMatchesElements(e'.origins.value, e.origins.value, f);
    }
  }

  lemma CleanedAfterThinned(e: Entry, e': Entry, e'': Entry, f: Formula)
    requires Thinned(e, e', f) && Cleaned(e', e'', f)
    ensures Cleaned(e, e'', f)
  {
  }

  lemma WithdrawStart(es0: seq<Entry>, f: Formula)
    ensures Withdrawing(es0, 0, es0, 0, f)
  {
  }

  lemma WithdrawStep(es0: seq<Entry>, k: nat, es: seq<Entry>, i: nat, es': seq<Entry>, f: Formula, gone: bool)
    requires Withdrawing(es0, k, es, i, f) && WithdrawOne(es, i, es', f, gone)
    ensures k < |es0| && Withdrawing(es0, k + 1, es', if gone then i else i + 1, f)
  {
    assert es0[k] == es0[k..][0] && es[i] == es[i..][0];
    CleanedTwice(es0[k], es[i], es[i], f);
    SurvivingNext(es0, k, f);
    var i' := if gone then i else i + 1;
    var done, done' := Surviving(es0[..k], f), Surviving(es0[..k + 1], f);
    forall j | 0 <= j < |done'|
      ensures Cleaned(done'[j], es'[..i'][j], f)
    {
      if j < i {
        assert Cleaned(done[j], es[..i][j], f);
        CleanedTwice(done[j], es[j], es'[j], f);
      } else {
        CleanedAfterThinned(es0[k], es[i], es'[i], f);
      }
    }
    forall j | 0 <= j < |es0[k + 1..]|
      ensures Thinned(es0[k + 1..][j], es'[i'..][j], f)
    {
      assert Thinned(es0[k..][j + 1], es[i..][j + 1], f);
      CleanedTwice(es0[k + 1 + j], es[i + 1 + j], es'[i' + j], f);
    }
  }

  /** What is left when the loop is done. */
  ghost predicate Withdrawn(es0: seq<Entry>, es: seq<Entry>, f: Formula) {
    AllCleaned(Surviving(es0, f), es, f)
  }

  lemma WithdrawDone(es0: seq<Entry>, k: nat, es: seq<Entry>, f: Formula)
    requires Withdrawing(es0, k, es, |es|, f)
    ensures k == |es0| && Withdrawn(es0, es, f)
  {
    assert es0[..k] == es0 && es[..|es|] == es;
  }

  /** What survives the withdrawal of f is justified by the other received formulas. */
  lemma StillJustified(theory: Theory, received: set<Formula>, es0: seq<Entry>, es: seq<Entry>, f: Formula)
    requires AllJustified(theory, received, es0) && Withdrawn(es0, es, f)
    ensures AllJustified(theory, received - {f}, es)
  {
    var old' := Surviving(es0, f);
    SurvivingElements(es0, f);
    forall i | 0 <= i < |es|
      ensures Justified(theory, received - {f}, es[i])
    {
      assert old'[i] in es0;
      var j :| 0 <= j < |es0| && es0[j] == old'[i];
      assert Justified(theory, received, es0[j]);
      WithoutMatchesElements(es[i].origins.value, es0[j].origins.value, f);
    }
  }

  // ---------------------------------------------------------------- the base module

  /** The passed list of the base module: a prefix of what is received, each its own origin. */
  predicate Mirrors(es: seq<Entry>, received: seq<Formula>) {
    && |es| <= |received|
    && forall i :: 0 <= i < |es| ==> es[i] == Entry(received[i], Some([received[i]]))
  }

  lemma MirrorJustified(theory: Theory, es: seq<Entry>, received: seq<Formula>)
    requires Mirrors(es, received)
    ensures AllJustified(theory, Elements(received), es)
  {
    assert forall i :: 0 <= i < |es| ==> received[i] in received;
  }

  lemma MirrorAppend(es: seq<Entry>, received: seq<Formula>)
    requires Mirrors(es, received) && |es| < |received| && Distinct(received)
    ensures var f := received[|es|];
      && AddAll(es, [f], Some([f])) == es + [Entry(f, Some([f]))]
      && Mirrors(es + [Entry(f, Some([f]))], received)
      && forall i :: 0 <= i < |es| ==> es[i].formula != f
  {
    var f := received[|es|];
    assert AddAll(es, [f], Some([f])) == AddOne(es, f, Some([f]));
  }

  lemma {:induction false} SurvivingAppend(es: seq<Entry>, es': seq<Entry>, f: Formula)
    ensures Surviving(es + es', f) == Surviving(es, f) + Surviving(es', f)
  {
    if es == [] {
      assert es + es' == es';
    } else {
      assert (es + es')[0] == es[0] && (es + es')[1..] == es[1..] + es';
      SurvivingAppend(es[1..], es', f);
    }
  }

  lemma {:induction false} AllSurvive(es: seq<Entry>, f: Formula)
    requires forall i :: 0 <= i < |es| ==> Survives(es[i], f)
    ensures Surviving(es, f) == es
  {
    if es != [] {
      AllSurvive(es[1..], f);
      assert es == [es[0]] + es[1..];
    }
  }

  lemma SurvivingTail(e: Entry, es: seq<Entry>, f: Formula)
    requires !Survives(e, f) && forall i :: 0 <= i < |es| ==> Survives(es[i], f)
    ensures Surviving([e] + es, f) == es
  {
    AllSurvive(es, f);
    assert ([e] + es)[1..] == es;
  }

  lemma AllButOneSurvive(es: seq<Entry>, n: nat, f: Formula)
    requires n < |es| && forall i :: 0 <= i < |es| ==> (Survives(es[i], f) <==> i != n)
    ensures Surviving(es, f) == es[..n] + es[n + 1..]
  {
    AllSurvive(es[..n], f);
    SurvivingTail(es[n], es[n + 1..], f);
    SurvivingAppend(es[..n], [es[n]] + es[n + 1..], f);
    assert es[..n] + ([es[n]] + es[n + 1..]) == es;
  }

  lemma MirrorSurvives(es: seq<Entry>, received: seq<Formula>, n: nat, i: nat)
    requires Mirrors(es, received) && n < |received| && Distinct(received) && i < |es|
    requires !received[i].And?
    ensures Survives(es[i], received[n]) <==> i != n
  {
    assert received[i] in es[i].origins.value;
  }

  lemma MirrorSurvivors(es: seq<Entry>, received: seq<Formula>, n: nat)
    requires Mirrors(es, received) && n < |received| && Distinct(received)
    requires forall i :: 0 <= i < |received| ==> !received[i].And?
    ensures n < |es| ==> Surviving(es, received[n]) == es[..n] + es[n + 1..]
    ensures n >= |es| ==> Surviving(es, received[n]) == es
  {
    forall i | 0 <= i < |es|
      ensures Survives(es[i], received[n]) <==> i != n
    {
      MirrorSurvives(es, received, n, i);
    }
    if n < |es| {
      AllButOneSurvive(es, n, received[n]);
    } else {
      AllSurvive(es, received[n]);
    }
  }

  /** Retracting a received formula keeps the passed list a mirror of what is still received. */
  lemma MirrorKept(es: seq<Entry>, es': seq<Entry>, received: seq<Formula>, n: nat)
    requires Mirrors(es, received) && n < |received| && Distinct(received)
    requires forall i :: 0 <= i < |received| ==> !received[i].And?
    requires Withdrawn(es, es', received[n])
    ensures Mirrors(es', received[..n] + received[n + 1..])
    ensures |es'| == if n < |es| then |es| - 1 else |es|
  {
    MirrorSurvivors(es, received, n);
    var left, rest := Surviving(es, received[n]), received[..n] + received[n + 1..];
    forall i | 0 <= i < |es'|
      ensures es'[i] == Entry(rest[i], Some([rest[i]]))
    {
      assert Cleaned(left[i], es'[i], received[n]) && left[i] == Entry(rest[i], Some([rest[i]]));
      OnlyOne(es'[i].origins.value, rest[i], received[n]);
    }
  }

  lemma OnlyOne(os: seq<Formula>, o: Formula, f: Formula)
    requires WithoutMatches(os, [o], f) && os != []
    ensures os == [o]
  {
    WithoutMatchesElements(os, [o], f);
    assert os[0] in os;
    assert multiset(os) == multiset([o]);
    assert |os| == |multiset(os)| == |multiset([o])| == 1;
  }
}
