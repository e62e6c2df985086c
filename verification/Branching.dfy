/**
 Lemmas by which a module asks for a case split. A branch introduces two splitting variables, one
 for each side; the lemmas must not rule out any model of the received formula.
 */
module Branching {
  import opened Basics

  datatype Relation = LESS | LEQ | GREATER | GEQ | NEQ

  /** A constraint relates a polynomial, known by a number, to a bound. */
  datatype Formula =
    | True
    | Var(id: nat)
    | Constraint(poly: nat, relation: Relation, bound: real)
    | Not(arg: Formula)
    | Or(args: seq<Formula>)

  /** What is true, and what polynomials evaluate to. */
  datatype Model = Model(truths: iset<nat>, value: nat -> real)

  predicate Compare(x: real, relation: Relation, y: real) {
    match relation
    case LESS => x < y
    case LEQ => x <= y
    case GREATER => x > y
    case GEQ => x >= y
    case NEQ => x != y
  }

  predicate Holds(m: Model, f: Formula) {
    match f
    case True => true
    case Var(id) => id in m.truths
    case Constraint(poly, relation, bound) => Compare(m.value(poly), relation, bound)
    case Not(arg) => !Holds(m, arg)
    case Or(args) => exists i :: 0 <= i < |args| && Holds(m, args[i])
  }

  predicate AllHold(m: Model, fs: seq<Formula>) {
    forall i :: 0 <= i < |fs| ==> Holds(m, fs[i])
  }

  predicate Mentions(f: Formula, id: nat) {
    match f
    case True => false
    case Var(id') => id == id'
    case Constraint(_, _, _) => false
    case Not(arg) => Mentions(arg, id)
    case Or(args) => exists i :: 0 <= i < |args| && Mentions(args[i], id)
  }

  /** The two models agree but for some variables. */
  ghost predicate AgreeBut(m: Model, m': Model, ids: set<nat>) {
    m.value == m'.value && forall id: nat :: id !in ids ==> (id in m.truths <==> id in m'.truths)
  }

  ghost predicate MentionsNone(f: Formula, ids: set<nat>) {
    forall id | id in ids :: !Mentions(f, id)
  }

  lemma {:induction false} AgreeOn(m: Model, m': Model, ids: set<nat>, f: Formula)
    requires AgreeBut(m, m', ids) && MentionsNone(f, ids)
    ensures Holds(m, f) == Holds(m', f)
    decreases f
  {
    match f
    case Not(arg) =>
      AgreeOn(m, m', ids, arg);
    case Or(args) =>
      forall i | 0 <= i < |args| ensures Holds(m, args[i]) == Holds(m', args[i]) {
        AgreeOn(m, m', ids, args[i]);
      }
    case _ =>
  }

  // ---------------------------------------------------------------- the lemmas

  datatype LemmaType = NORMAL | PERMANENT

  /** A lemma to learn, and a formula in it that should be tried first. */
  datatype Lemma = Lemma(formula: Formula, kind: LemmaType, preferred: Formula)

  /** The two sides of a branch; at a whole number there is a gap of one between them. */
  function LeftSide(poly: nat, integral: bool, value: real, leftWeak: bool): Formula {
    if integral then
      Constraint(poly, LEQ, if leftWeak then value.Floor as real else value.Floor as real - 1.0)
    else Constraint(poly, if leftWeak then LEQ else LESS, value)
  }

  function RightSide(poly: nat, integral: bool, value: real, leftWeak: bool): Formula {
    if integral then
      Constraint(poly, GEQ, if leftWeak then value.Floor as real + 1.0 else value.Floor as real)
    else Constraint(poly, if leftWeak then GREATER else GEQ, value)
  }

  function Negations(fs: seq<Formula>): (r: seq<Formula>)
    ensures |r| == |fs| && forall i :: 0 <= i < |fs| ==> r[i] == Not(fs[i])
  {
    seq(|fs|, i requires 0 <= i < |fs| => Not(fs[i]))
  }

  function BranchLemmas(premise: seq<Formula>, s1: nat, s2: nat, left: Formula, right: Formula,
                        preferLeft: bool): seq<Lemma> {
    [Lemma(Or(Negations(premise) + [Var(s1), Var(s2)]), NORMAL, if preferLeft then Var(s1) else Var(s2)),
     Lemma(If(s1, Not(Var(s2))), NORMAL, True),
     Lemma(If(s1, left), NORMAL, True),
     Lemma(If(s2, right), NORMAL, True)]
  }

  function If(s: nat, f: Formula): Formula {
    Or([Not(Var(s)), f])
  }

  function UnequalLemmas(poly: nat, bound: real): seq<Lemma> {
    var unequal := Constraint(poly, NEQ, bound);
    var less := Constraint(poly, LESS, bound);
    var greater := Constraint(poly, GREATER, bound);
    [Lemma(Or([Not(unequal), less, greater]), PERMANENT, True),
     Lemma(Or([Not(less), unequal]), PERMANENT, True),
     Lemma(Or([Not(greater), unequal]), PERMANENT, True),
     Lemma(Or([Not(greater), Not(less)]), PERMANENT, True)]
  }

  predicate Learns(m: Model, lemmas: seq<Lemma>) {
    forall i :: 0 <= i < |lemmas| ==> Holds(m, lemmas[i].formula)
  }

  lemma HoldsOr2(m: Model, f: Formula, g: Formula)
    ensures Holds(m, Or([f, g])) <==> Holds(m, f) || Holds(m, g)
  {
    assert [f, g][0] == f && [f, g][1] == g;
  }

  lemma HoldsPremise(m: Model, premise: seq<Formula>, s1: nat, s2: nat)
    ensures Holds(m, Or(Negations(premise) + [Var(s1), Var(s2)]))
       <==> (AllHold(m, premise) ==> s1 in m.truths || s2 in m.truths)
  {
    var args := Negations(premise) + [Var(s1), Var(s2)];
    assert args[|premise|] == Var(s1) && args[|premise| + 1] == Var(s2);
    assert forall i :: 0 <= i < |premise| ==> args[i] == Not(premise[i]);
    assert Holds(m, args[|premise|]) == (s1 in m.truths);
    assert Holds(m, args[|premise| + 1]) == (s2 in m.truths);
    if !AllHold(m, premise) {
      var i :| 0 <= i < |premise| && !Holds(m, premise[i]);
      assert Holds(m, args[i]);
    }
  }

  /** The lemmas of a branch in one formula. */
  lemma BranchMeaning(m: Model, premise: seq<Formula>, s1: nat, s2: nat, left: Formula, right: Formula, prefer: bool)
    ensures Learns(m, BranchLemmas(premise, s1, s2, left, right, prefer))
       <==> && (AllHold(m, premise) ==> s1 in m.truths || s2 in m.truths)
            && !(s1 in m.truths && s2 in m.truths)
            && (s1 in m.truths ==> Holds(m, left)) && (s2 in m.truths ==> Holds(m, right))
  {
    var lemmas := BranchLemmas(premise, s1, s2, left, right, prefer);
    LearnsFour(m, lemmas);
    assert Holds(m, lemmas[0].formula) <==> (AllHold(m, premise) ==> s1 in m.truths || s2 in m.truths) by {
      HoldsPremise(m, premise, s1, s2);
    }
    assert Holds(m, lemmas[1].formula) <==> !(s1 in m.truths && s2 in m.truths) by {
      HoldsIf(m, s1, Not(Var(s2)));
    }
    assert Holds(m, lemmas[2].formula) <==> (s1 in m.truths ==> Holds(m, left)) by {
      HoldsIf(m, s1, left);
    }
    assert Holds(m, lemmas[3].formula) <==> (s2 in m.truths ==> Holds(m, right)) by {
      HoldsIf(m, s2, right);
    }
  }

  lemma HoldsIf(m: Model, s: nat, f: Formula)
    ensures Holds(m, If(s, f)) <==> (s in m.truths ==> Holds(m, f))
  {
    HoldsOr2(m, Not(Var(s)), f);
  }

  lemma LearnsFour(m: Model, lemmas: seq<Lemma>)
    requires |lemmas| == 4
    ensures Learns(m, lemmas)
      <==> && Holds(m, lemmas[0].formula) && Holds(m, lemmas[1].formula)
           && Holds(m, lemmas[2].formula) && Holds(m, lemmas[3].formula)
  {
  }

  // ---------------------------------------------------------------- the two sides of a branch

  /** The value of the polynomial is in the gap between the sides of an integral branch. */
  predicate InGap(m: Model, poly: nat, integral: bool, value: real, leftWeak: bool) {
    var low := if leftWeak then value.Floor as real else value.Floor as real - 1.0;
    integral && low < m.value(poly) < low + 1.0
  }

  predicate IsWhole(x: real) {
    x == x.Floor as real
  }

  /** At most one side holds, and one does unless the value is in the gap; whole numbers are not. */
  lemma Sides(m: Model, poly: nat, integral: bool, value: real, leftWeak: bool)
    ensures
      var left, right := Holds(m, LeftSide(poly, integral, value, leftWeak)),
                         Holds(m, RightSide(poly, integral, value, leftWeak));
      !(left && right) && (left || right <==> !InGap(m, poly, integral, value, leftWeak))
    ensures IsWhole(m.value(poly)) ==> !InGap(m, poly, integral, value, leftWeak)
    ensures !integral ==> !InGap(m, poly, integral, value, leftWeak)
  {
    var low := if leftWeak then value.Floor else value.Floor - 1;
    NothingBetween(m.value(poly), low);
  }

  lemma NothingBetween(x: real, low: int)
    ensures IsWhole(x) ==> !(low as real < x < low as real + 1.0)
  {
    if IsWhole(x) && low as real < x {
      assert low < x.Floor;
      assert low + 1 <= x.Floor;
      assert (low + 1) as real <= x;
    }
  }

  /** Who satisfies the premise of a branch and its lemmas is on exactly one side, as its variables say. */
  lemma BranchDecides(m: Model, premise: seq<Formula>, s1: nat, s2: nat, poly: nat, integral: bool, value: real,
                      leftWeak: bool, prefer: bool)
    requires AllHold(m, premise)
    requires
      var left, right := LeftSide(poly, integral, value, leftWeak), RightSide(poly, integral, value, leftWeak);
      Learns(m, BranchLemmas(premise, s1, s2, left, right, prefer))
    ensures
      var left, right := LeftSide(poly, integral, value, leftWeak), RightSide(poly, integral, value, leftWeak);
      && (s1 in m.truths <==> Holds(m, left)) && (s2 in m.truths <==> Holds(m, right))
      && (Holds(m, left) <==> !Holds(m, right))
  {
    var left, right := LeftSide(poly, integral, value, leftWeak), RightSide(poly, integral, value, leftWeak);
    BranchMeaning(m, premise, s1, s2, left, right, prefer);
    Sides(m, poly, integral, value, leftWeak);
  }

  /** The model that also says which side holds. */
  function Choose(m: Model, s1: nat, s2: nat, left: Formula, right: Formula): Model {
    var kept := m.truths - iset{s1, s2};
    m.(truths := kept + (if Holds(m, left) then iset{s1} else iset{}) + if Holds(m, right) then iset{s2} else iset{})
  }

  lemma ChooseTruths(m: Model, s1: nat, s2: nat, poly: nat, integral: bool, value: real, leftWeak: bool)
    requires s1 != s2
    ensures
      var left, right := LeftSide(poly, integral, value, leftWeak), RightSide(poly, integral, value, leftWeak);
      var m' := Choose(m, s1, s2, left, right);
      && AgreeBut(m, m', {s1, s2})
      && (s1 in m'.truths <==> Holds(m', left)) && (s2 in m'.truths <==> Holds(m', right))
  {
  }

  /** A branch can be satisfied by choosing its variables exactly when its premise fails or its sides leave no gap. */
  lemma BranchIsHarmless(m: Model, premise: seq<Formula>, s1: nat, s2: nat, poly: nat, integral: bool, value: real,
                         leftWeak: bool, prefer: bool)
    requires s1 != s2 && forall i :: 0 <= i < |premise| ==> MentionsNone(premise[i], {s1, s2})
    ensures
      var left, right := LeftSide(poly, integral, value, leftWeak), RightSide(poly, integral, value, leftWeak);
      var lemmas := BranchLemmas(premise, s1, s2, left, right, prefer);
      (exists m' :: AgreeBut(m, m', {s1, s2}) && Learns(m', lemmas))
      <==> !AllHold(m, premise) || !InGap(m, poly, integral, value, leftWeak)
  {
    var left, right := LeftSide(poly, integral, value, leftWeak), RightSide(poly, integral, value, leftWeak);
    var lemmas := BranchLemmas(premise, s1, s2, left, right, prefer);
    if !AllHold(m, premise) || !InGap(m, poly, integral, value, leftWeak) {
      BranchCanBeMet(m, premise, s1, s2, poly, integral, value, leftWeak, prefer);
    }
    if m' :| AgreeBut(m, m', {s1, s2}) && Learns(m', lemmas) && AllHold(m, premise) {
      AgreeOnAll(m, m', {s1, s2}, premise);
      BranchMeaning(m', premise, s1, s2, left, right, prefer);
      Sides(m', poly, integral, value, leftWeak);
    }
  }

  lemma AgreeOnAll(m: Model, m': Model, ids: set<nat>, fs: seq<Formula>)
    requires AgreeBut(m, m', ids) && forall i :: 0 <= i < |fs| ==> MentionsNone(fs[i], ids)
    ensures AllHold(m, fs) <==> AllHold(m', fs)
  {
    forall i | 0 <= i < |fs| ensures Holds(m, fs[i]) == Holds(m', fs[i]) {
      AgreeOn(m, m', ids, fs[i]);
    }
  }

  lemma BranchCanBeMet(m: Model, premise: seq<Formula>, s1: nat, s2: nat, poly: nat, integral: bool, value: real,
                       leftWeak: bool, prefer: bool)
    requires s1 != s2 && forall i :: 0 <= i < |premise| ==> MentionsNone(premise[i], {s1, s2})
    requires !AllHold(m, premise) || !InGap(m, poly, integral, value, leftWeak)
    ensures
      var left, right := LeftSide(poly, integral, value, leftWeak), RightSide(poly, integral, value, leftWeak);
      var m' := Choose(m, s1, s2, left, right);
      AgreeBut(m, m', {s1, s2}) && Learns(m', BranchLemmas(premise, s1, s2, left, right, prefer))
  {
    var left, right := LeftSide(poly, integral, value, leftWeak), RightSide(poly, integral, value, leftWeak);
    var m' := Choose(m, s1, s2, left, right);
    ChooseTruths(m, s1, s2, poly, integral, value, leftWeak);
    Sides(m', poly, integral, value, leftWeak);
    AgreeOnAll(m, m', {s1, s2}, premise);
    BranchMeaning(m', premise, s1, s2, left, right, prefer);
  }

  /** A split at an inequality says nothing new. */
  lemma UnequalIsValid(m: Model, poly: nat, bound: real)
    ensures Learns(m, UnequalLemmas(poly, bound))
  {
    var unequal, less, greater := Constraint(poly, NEQ, bound), Constraint(poly, LESS, bound), Constraint(poly,
      GREATER, bound);
    var three := [Not(unequal), less, greater];
    assert three[0] == Not(unequal) && three[1] == less && three[2] == greater;
    assert Holds(m, three[0]) || Holds(m, three[1]) || Holds(m, three[2]);
    HoldsOr2(m, Not(less), unequal);
    HoldsOr2(m, Not(greater), unequal);
    HoldsOr2(m, Not(greater), Not(less));
  }

  // ---------------------------------------------------------------- whole runs

  ghost predicate NoneMentions(lemmas: seq<Lemma>, ids: set<nat>) {
    forall i :: 0 <= i < |lemmas| ==> MentionsNone(lemmas[i].formula, ids)
  }

  ghost predicate WholeOn(m: Model, polys: set<nat>) {
    forall p | p in polys :: IsWhole(m.value(p))
  }

  /** Every model whose values are whole where they must be extends to one of all lemmas. */
  ghost predicate Conservative(lemmas: seq<Lemma>, introduced: set<nat>, integral: set<nat>) {
    forall m: Model | WholeOn(m, integral) :: Extends(m, lemmas, introduced)
  }

  ghost predicate Extends(m: Model, lemmas: seq<Lemma>, introduced: set<nat>) {
    exists m': Model :: AgreeBut(m, m', introduced) && Learns(m', lemmas)
  }

  lemma BranchConserves(lemmas: seq<Lemma>, introduced: set<nat>, integrals: set<nat>, premise: seq<Formula>,
                        s1: nat, s2: nat, poly: nat, integral: bool, value: real, leftWeak: bool, prefer: bool)
    requires Conservative(lemmas, introduced, integrals)
    requires s1 != s2 && NoneMentions(lemmas, {s1, s2})
    requires forall i :: 0 <= i < |premise| ==> MentionsNone(premise[i], {s1, s2})
    ensures
      var left, right := LeftSide(poly, integral, value, leftWeak), RightSide(poly, integral, value, leftWeak);
      Conservative(lemmas + BranchLemmas(premise, s1, s2, left, right, prefer), introduced + {s1, s2},
                   integrals + if integral then {poly} else {})
  {
    var left, right := LeftSide(poly, integral, value, leftWeak), RightSide(poly, integral, value, leftWeak);
    var more := BranchLemmas(premise, s1, s2, left, right, prefer);
    forall m: Model | WholeOn(m, integrals + if integral then {poly} else {})
      ensures Extends(m, lemmas + more, introduced + {s1, s2})
    {
      assert WholeOn(m, integrals);
      assert Extends(m, lemmas, introduced);
      var m' :| AgreeBut(m, m', introduced) && Learns(m', lemmas);
      Sides(m', poly, integral, value, leftWeak);
      assert integral ==> IsWhole(m.value(poly));
      BranchCanBeMet(m', premise, s1, s2, poly, integral, value, leftWeak, prefer);
      var m'' := Choose(m', s1, s2, left, right);
      StillLearns(m', m'', {s1, s2}, lemmas, more);
      assert AgreeBut(m, m'', introduced + {s1, s2});
    }
  }

  lemma StillLearns(m: Model, m': Model, ids: set<nat>, lemmas: seq<Lemma>, more: seq<Lemma>)
    requires AgreeBut(m, m', ids) && NoneMentions(lemmas, ids) && Learns(m, lemmas) && Learns(m', more)
    ensures Learns(m', lemmas + more)
  {
    forall i | 0 <= i < |lemmas| ensures Holds(m', lemmas[i].formula) {
      AgreeOn(m, m', ids, lemmas[i].formula);
    }
  }

  lemma UnequalConserves(lemmas: seq<Lemma>, introduced: set<nat>, integrals: set<nat>, poly: nat, bound: real)
    requires Conservative(lemmas, introduced, integrals)
    ensures Conservative(lemmas + UnequalLemmas(poly, bound), introduced, integrals)
  {
    forall m: Model | WholeOn(m, integrals) ensures Extends(m, lemmas + UnequalLemmas(poly, bound), introduced) {
      assert Extends(m, lemmas, introduced);
      var m' :| AgreeBut(m, m', introduced) && Learns(m', lemmas);
      UnequalIsValid(m', poly, bound);
      assert Learns(m', lemmas + UnequalLemmas(poly, bound));
    }
  }

  /** What a module branches on, or an inequality that it splits. */
  datatype Call =
    | Branch(poly: nat, integral: bool, value: real, premise: seq<Formula>, leftWeak: bool, preferLeft: bool,
             useReceived: bool)
    | SplitUnequal(poly: nat, bound: real)

  lemma MentionsOr2(f: Formula, g: Formula, id: nat)
    ensures Mentions(Or([f, g]), id) <==> Mentions(f, id) || Mentions(g, id)
  {
    assert [f, g][0] == f && [f, g][1] == g;
  }

  /** The lemmas of a branch speak of its premise, its sides and its own variables only. */
  lemma BranchMentions(premise: seq<Formula>, s1: nat, s2: nat, left: Formula, right: Formula, prefer: bool, id: nat)
    requires id != s1 && id != s2 && forall i :: 0 <= i < |premise| ==> !Mentions(premise[i], id)
    requires left.Constraint? && right.Constraint?
    ensures
      var lemmas := BranchLemmas(premise, s1, s2, left, right, prefer);
      forall i :: 0 <= i < |lemmas| ==> !Mentions(lemmas[i].formula, id)
  {
    var args := Negations(premise) + [Var(s1), Var(s2)];
    forall i | 0 <= i < |args| ensures !Mentions(args[i], id) {
      if i < |premise| {
        assert args[i] == Not(premise[i]);
      }
    }
    MentionsOr2(Not(Var(s1)), Not(Var(s2)), id);
    MentionsOr2(Not(Var(s1)), left, id);
    MentionsOr2(Not(Var(s2)), right, id);
  }

  lemma UnequalMentions(poly: nat, bound: real, id: nat)
    ensures var lemmas := UnequalLemmas(poly, bound); forall i :: 0 <= i < |lemmas| ==> !Mentions(lemmas[i].formula, id)
  {
    var unequal, less, greater := Constraint(poly, NEQ, bound), Constraint(poly, LESS, bound), Constraint(poly,
      GREATER, bound);
    var three := [Not(unequal), less, greater];
    assert forall i :: 0 <= i < 3 ==> !Mentions(three[i], id);
    MentionsOr2(Not(less), unequal, id);
    MentionsOr2(Not(greater), unequal, id);
    MentionsOr2(Not(greater), Not(less), id);
  }

  predicate Free(received: seq<Formula>, lemmas: seq<Lemma>, id: nat) {
    && (forall i :: 0 <= i < |received| ==> !Mentions(received[i], id))
    && forall i :: 0 <= i < |lemmas| ==> !Mentions(lemmas[i].formula, id)
  }

  /** Variables for reuse differ, and nothing mentions them or those yet to be made. */
  ghost predicate Prepared(received: seq<Formula>, lemmas: seq<Lemma>, pool: seq<nat>, next: nat) {
    && Distinct(pool) && (forall i :: 0 <= i < |pool| ==> pool[i] < next)
    && (forall i :: 0 <= i < |pool| ==> Free(received, lemmas, pool[i]))
    && forall id: nat :: id >= next ==> Free(received, lemmas, id)
  }

  /** A splitting variable for reuse if there is one, or a fresh one, and what is left. */
  function Take(pool: seq<nat>, next: nat): (nat, seq<nat>, nat) {
    if pool == [] then (next, pool, next + 1) else (pool[|pool| - 1], pool[..|pool| - 1], next)
  }

  /** The two variables of a branch, and what is left. */
  function TakeTwo(pool: seq<nat>, next: nat): (nat, nat, seq<nat>, nat) {
    var (s1, pool1, next1) := Take(pool, next);
    var (s2, pool2, next2) := Take(pool1, next1);
    (s1, s2, pool2, next2)
  }

  /** What the part of a module that asks for case splits keeps. */
  datatype Splits = Splits(pool: seq<nat>, next: nat, lemmas: seq<Lemma>, introduced: set<nat>, integrals: set<nat>)

  /** A call adds its lemmas; nothing is asked for if the left side of a branch is decided already. */
  function After(received: seq<Formula>, s: Splits, call: Call, undecided: Formula -> bool): Splits {
    match call
    case SplitUnequal(poly, bound) => s.(lemmas := s.lemmas + UnequalLemmas(poly, bound))
    case Branch(poly, integral, value, premise, leftWeak, prefer, useReceived) =>
      var left, right := LeftSide(poly, integral, value, leftWeak), RightSide(poly, integral, value, leftWeak);
      if !undecided(left) then s
      else
        var (s1, s2, pool, next) := TakeTwo(s.pool, s.next);
        var from := if useReceived then received else premise;
        Splits(pool, next, s.lemmas + BranchLemmas(from, s1, s2, left, right, prefer),
               s.introduced + {s1, s2}, s.integrals + if integral then {poly} else {})
  }

  function AfterAll(received: seq<Formula>, s: Splits, calls: seq<Call>, undecided: Formula -> bool): Splits {
    if calls == [] then s
    else After(received, AfterAll(received, s, calls[..|calls| - 1], undecided), calls[|calls| - 1], undecided)
  }

  lemma TakeOne(received: seq<Formula>, lemmas: seq<Lemma>, pool: seq<nat>, next: nat)
    requires Prepared(received, lemmas, pool, next)
    ensures
      var (s, pool', next') := Take(pool, next);
      && Prepared(received, lemmas, pool', next') && s < next' && (forall i :: 0 <= i < |pool'| ==> pool'[i] != s)
      && Free(received, lemmas, s)
  {
  }

  /** The module's lemmas grow by those of a branch, with two variables that nothing mentioned before. */
  lemma BranchPrepares(received: seq<Formula>, lemmas: seq<Lemma>, pool: seq<nat>, next: nat, premise: seq<Formula>,
                       s1: nat, s2: nat, left: Formula, right: Formula, prefer: bool)
    requires Prepared(received, lemmas, pool, next) && left.Constraint? && right.Constraint?
    requires s1 < next && s2 < next && forall i :: 0 <= i < |pool| ==> pool[i] != s1 && pool[i] != s2
    requires forall i :: 0 <= i < |premise| ==> premise[i] in received
    ensures Prepared(received, lemmas + BranchLemmas(premise, s1, s2, left, right, prefer), pool, next)
  {
    var more := BranchLemmas(premise, s1, s2, left, right, prefer);
    forall id: nat | Free(received, lemmas, id) && id != s1 && id != s2
      ensures Free(received, lemmas + more, id)
    {
      BranchMentions(premise, s1, s2, left, right, prefer, id);
    }
  }

  lemma UnequalPrepares(received: seq<Formula>, lemmas: seq<Lemma>, pool: seq<nat>, next: nat, poly: nat, bound: real)
    requires Prepared(received, lemmas, pool, next)
    ensures Prepared(received, lemmas + UnequalLemmas(poly, bound), pool, next)
  {
    forall id: nat | Free(received, lemmas, id)
      ensures Free(received, lemmas + UnequalLemmas(poly, bound), id)
    {
      UnequalMentions(poly, bound, id);
    }
  }

  /** The part of a module that asks for case splits. */
  class Brancher {
    const received: seq<Formula>
    var pool: seq<nat>
    var next: nat
    var lemmas: seq<Lemma>
    ghost var introduced: set<nat>
    ghost var integrals: set<nat>

    ghost predicate Valid()
      reads this
    {
      && Prepared(received, lemmas, pool, next) && Conservative(lemmas, introduced, integrals)
      && forall i :: 0 <= i < |received| ==> MentionsNone(received[i], introduced)
    }

    constructor (received: seq<Formula>, pool: seq<nat>, next: nat)
      requires Prepared(received, [], pool, next)
      ensures Valid() && this.received == received && lemmas == [] && introduced == {} && integrals == {}
    {
      this.received, this.pool, this.next, this.lemmas := received, pool, next, [];
      introduced, integrals := {}, {};
      new;
      forall m: Model ensures Extends(m, [], {}) {
        assert AgreeBut(m, m, {}) && Learns(m, []);
      }
    }

    method TakeVariable() returns (s: nat)
      requires Prepared(received, lemmas, pool, next)
      modifies `pool, `next
      ensures (s, pool, next) == Take(old(pool), old(next))
      ensures Prepared(received, lemmas, pool, next) && Free(received, lemmas, s)
      ensures s < next && forall i :: 0 <= i < |pool| ==> pool[i] != s
    {
      TakeOne(received, lemmas, pool, next);
      if pool == [] {
        s := next;
        next := next + 1;
      } else {
        s := pool[|pool| - 1];
        pool := pool[..|pool| - 1];
      }
    }

    ghost function Look(): Splits
      reads this
    {
      Splits(pool, next, lemmas, introduced, integrals)
    }

    /** The two variables of a branch differ, and neither what is received nor any lemma mentions them. */
    method TakeVariables() returns (s1: nat, s2: nat)
      requires Prepared(received, lemmas, pool, next)
      modifies `pool, `next
      ensures (s1, s2, pool, next) == TakeTwo(old(pool), old(next))
      ensures Prepared(received, lemmas, pool, next) && Free(received, lemmas, s1) && Free(received, lemmas, s2)
      ensures s1 != s2 && s1 < next && s2 < next && forall i :: 0 <= i < |pool| ==> pool[i] != s1 && pool[i] != s2
    {
      s1 := TakeVariable();
      s2 := TakeVariable();
    }

    /** Nothing is asked for if the left side is already decided. */
    method BranchAt(poly: nat, integral: bool, value: real, premise: seq<Formula>, leftWeak: bool, preferLeft: bool,
                    useReceived: bool, undecided: Formula -> bool)
      returns (branched: bool)
      requires Valid()
      requires WellCalled(received, Branch(poly, integral, value, premise, leftWeak, preferLeft, useReceived))
      modifies this
      ensures Valid()
      ensures branched == undecided(LeftSide(poly, integral, value, leftWeak))
      ensures
        var call := Branch(poly, integral, value, premise, leftWeak, preferLeft, useReceived);
        Look() == After(received, old(Look()), call, undecided)
    {
      var left, right := LeftSide(poly, integral, value, leftWeak), RightSide(poly, integral, value, leftWeak);
      branched := undecided(left);
      if branched {
        AddBranch(poly, integral, value, if useReceived then received else premise, leftWeak, preferLeft);
      }
    }

    method AddBranch(poly: nat, integral: bool, value: real, from: seq<Formula>, leftWeak: bool, preferLeft: bool)
      requires Valid() && forall i :: 0 <= i < |from| ==> from[i] in received
      modifies this
      ensures Valid()
      ensures
        var (s1, s2, pool', next') := TakeTwo(old(pool), old(next));
        var left, right := LeftSide(poly, integral, value, leftWeak), RightSide(poly, integral, value, leftWeak);
        && Free(received, old(lemmas), s1) && Free(received, old(lemmas), s2) && s1 != s2
        && Look() == Splits(pool', next', old(lemmas) + BranchLemmas(from, s1, s2, left, right, preferLeft),
                            old(introduced) + {s1, s2}, old(integrals) + if integral then {poly} else {})
    {
      var left, right := LeftSide(poly, integral, value, leftWeak), RightSide(poly, integral, value, leftWeak);
      var s1, s2 := TakeVariables();
      FreeInAll(received, lemmas, s1, s2, from);
      BranchConserves(lemmas, introduced, integrals, from, s1, s2, poly, integral, value, leftWeak, preferLeft);
      BranchPrepares(received, lemmas, pool, next, from, s1, s2, left, right, preferLeft);
      lemmas := lemmas + BranchLemmas(from, s1, s2, left, right, preferLeft);
      introduced := introduced + {s1, s2};
      integrals := integrals + if integral then {poly} else {};
    }

    method SplitUnequalConstraint(poly: nat, bound: real)
      requires Valid()
      modifies `lemmas
      ensures Valid() && Look() == old(Look()).(lemmas := old(lemmas) + UnequalLemmas(poly, bound))
    {
      UnequalConserves(lemmas, introduced, integrals, poly, bound);
      UnequalPrepares(received, lemmas, pool, next, poly, bound);
      lemmas := lemmas + UnequalLemmas(poly, bound);
    }

    /**
     After any calls the lemmas are those of the calls, and a model of the received formulas that
     gives whole values to all polynomials with an integral branch extends to a model of these
     formulas and of all lemmas.
     */
    method Run(calls: seq<Call>, undecided: Formula -> bool)
      requires Valid()
      requires forall i :: 0 <= i < |calls| ==> WellCalled(received, calls[i])
      modifies this
      ensures Valid() && Look() == AfterAll(received, old(Look()), calls, undecided)
      ensures forall m: Model ::
        AllHold(m, received) && WholeOn(m, integrals) ==> ExtendsWith(m, received, lemmas, introduced)
    {
      for i := 0 to |calls|
        invariant Valid() && Look() == AfterAll(received, old(Look()), calls[..i], undecided)
      {
        assert calls[..i + 1][..i] == calls[..i];
        Apply(calls[i], undecided);
      }
      assert calls[..|calls|] == calls;
      forall m: Model | AllHold(m, received) && WholeOn(m, integrals)
        ensures ExtendsWith(m, received, lemmas, introduced)
      {
        ExtendKeepsReceived(m, received, lemmas, introduced);
      }
    }

    method Apply(call: Call, undecided: Formula -> bool)
      requires Valid() && WellCalled(received, call)
      modifies this
      ensures Valid() && Look() == After(received, old(Look()), call, undecided)
    {
      match call
      case Branch(poly, integral, value, premise, leftWeak, preferLeft, useReceived) =>
        var _ := BranchAt(poly, integral, value, premise, leftWeak, preferLeft, useReceived, undecided);
      case SplitUnequal(poly, bound) =>
        SplitUnequalConstraint(poly, bound);
    }
  }

  ghost predicate ExtendsWith(m: Model, received: seq<Formula>, lemmas: seq<Lemma>, introduced: set<nat>) {
    exists m': Model :: AgreeBut(m, m', introduced) && Learns(m', lemmas) && AllHold(m', received)
  }

  lemma ExtendKeepsReceived(m: Model, received: seq<Formula>, lemmas: seq<Lemma>, introduced: set<nat>)
    requires Extends(m, lemmas, introduced) && AllHold(m, received)
    requires forall i :: 0 <= i < |received| ==> MentionsNone(received[i], introduced)
    ensures ExtendsWith(m, received, lemmas, introduced)
  {
    var m' :| AgreeBut(m, m', introduced) && Learns(m', lemmas);
    AgreeOnAll(m, m', introduced, received);
  }

  /** An integral branch rules out a model that gives its polynomial the value one half. */
  lemma HalfIsRuledOut(s1: nat, s2: nat)
    requires s1 != s2
    ensures
      var m := Model(iset{}, (poly: nat) => 0.5);
      var lemmas := BranchLemmas([], s1, s2, LeftSide(0, true, 0.0, true), RightSide(0, true, 0.0, true), true);
      !Extends(m, lemmas, {s1, s2})
  {
    var m := Model(iset{}, (poly: nat) => 0.5);
    BranchIsHarmless(m, [], s1, s2, 0, true, 0.0, true, true);
  }

  // ---------------------------------------------------------------- reusing variables too early

  lemma LearnsBoth(m: Model, first: seq<Lemma>, second: seq<Lemma>)
    ensures Learns(m, first + second) <==> Learns(m, first) && Learns(m, second)
  {
    assert forall i :: 0 <= i < |first| ==> first[i] == (first + second)[i];
    assert forall i :: 0 <= i < |second| ==> second[i] == (first + second)[|first| + i];
  }

  /** Two branches with the same variables, in the same order or the other way round. */
  function Both(premise: seq<Formula>, premise': seq<Formula>, s1: nat, s2: nat, swapped: bool, left: Formula,
                right: Formula, left': Formula, right': Formula, prefer: bool, prefer': bool): seq<Lemma> {
    BranchLemmas(premise, s1, s2, left, right, prefer)
    + BranchLemmas(premise', if swapped then s2 else s1, if swapped then s1 else s2, left', right', prefer')
  }

  /** A model extends to both branches exactly if neither premise holds, or their sides agree. */
  predicate Agree(m: Model, premise: seq<Formula>, premise': seq<Formula>, swapped: bool, left: Formula, right: Formula,
                  left': Formula, right': Formula) {
    || (!AllHold(m, premise) && !AllHold(m, premise'))
    || (Holds(m, left) && Holds(m, if swapped then right' else left'))
    || (Holds(m, right) && Holds(m, if swapped then left' else right'))
  }

  lemma ReuseMeaning(m: Model, premise: seq<Formula>, premise': seq<Formula>, s1: nat, s2: nat, swapped: bool,
                     left: Formula, right: Formula, left': Formula, right': Formula, prefer: bool, prefer': bool)
    requires s1 != s2 && left.Constraint? && right.Constraint? && left'.Constraint? && right'.Constraint?
    requires forall i :: 0 <= i < |premise| ==> MentionsNone(premise[i], {s1, s2})
    requires forall i :: 0 <= i < |premise'| ==> MentionsNone(premise'[i], {s1, s2})
    ensures Extends(m, Both(premise, premise', s1, s2, swapped, left, right, left', right', prefer, prefer'), {s1, s2})
       <==> Agree(m, premise, premise', swapped, left, right, left', right')
  {
    var both := Both(premise, premise', s1, s2, swapped, left, right, left', right', prefer, prefer');
    if m' :| AgreeBut(m, m', {s1, s2}) && Learns(m', both) {
      BothMeaning(m, m', premise, premise', s1, s2, swapped, left, right, left', right', prefer, prefer');
    }
    if Agree(m, premise, premise', swapped, left, right, left', right') {
      var chosen := if !AllHold(m, premise) && !AllHold(m, premise') then iset{} else if
        Holds(m, left) && Holds(m, if swapped then right' else left') then iset{s1} else iset{s2};
      var m' := m.(truths := (m.truths - iset{s1, s2}) + chosen);
      assert AgreeBut(m, m', {s1, s2});
      BothMeaning(m, m', premise, premise', s1, s2, swapped, left, right, left', right', prefer, prefer');
      assert Learns(m', both);
    }
  }

  lemma BothMeaning(m: Model, m': Model, premise: seq<Formula>, premise': seq<Formula>, s1: nat, s2: nat, swapped: bool,
                    left: Formula, right: Formula, left': Formula, right': Formula, prefer: bool, prefer': bool)
    requires AgreeBut(m, m', {s1, s2}) && left.Constraint? && right.Constraint? && left'.Constraint?
      && right'.Constraint?
    requires forall i :: 0 <= i < |premise| ==> MentionsNone(premise[i], {s1, s2})
    requires forall i :: 0 <= i < |premise'| ==> MentionsNone(premise'[i], {s1, s2})
    ensures Learns(m', Both(premise, premise', s1, s2, swapped, left, right, left', right', prefer, prefer'))
      <==> && (AllHold(m, premise) || AllHold(m, premise') ==> s1 in m'.truths || s2 in m'.truths)
           && !(s1 in m'.truths && s2 in m'.truths)
           && (s1 in m'.truths ==> Holds(m, left) && Holds(m, if swapped then right' else left'))
           && (s2 in m'.truths ==> Holds(m, right) && Holds(m, if swapped then left' else right'))
  {
    var t1, t2 := if swapped then s2 else s1, if swapped then s1 else s2;
    AgreeOnAll(m, m', {s1, s2}, premise);
    AgreeOnAll(m, m', {s1, s2}, premise');
    BranchMeaning(m', premise, s1, s2, left, right, prefer);
    BranchMeaning(m', premise', t1, t2, left', right', prefer');
    LearnsBoth(m', BranchLemmas(premise, s1, s2, left, right, prefer),
      BranchLemmas(premise', t1, t2, left', right', prefer'));
    assert forall f: Formula :: f.Constraint? ==> Holds(m', f) == Holds(m, f);
  }

  /** So two branches with the same variables are conservative exactly if their sides agree in all whole models. */
  lemma ReuseConserves(premise: seq<Formula>, premise': seq<Formula>, s1: nat, s2: nat, swapped: bool, left: Formula,
                       right: Formula, left': Formula, right': Formula, prefer: bool, prefer': bool,
                       integrals: set<nat>)
    requires s1 != s2 && left.Constraint? && right.Constraint? && left'.Constraint? && right'.Constraint?
    requires forall i :: 0 <= i < |premise| ==> MentionsNone(premise[i], {s1, s2})
    requires forall i :: 0 <= i < |premise'| ==> MentionsNone(premise'[i], {s1, s2})
    ensures Conservative(Both(premise, premise', s1, s2, swapped, left, right, left', right', prefer, prefer'),
      {s1, s2}, integrals)
       <==> forall m: Model | WholeOn(m, integrals) :: Agree(m, premise, premise', swapped, left, right, left', right')
  {
    var both := Both(premise, premise', s1, s2, swapped, left, right, left', right', prefer, prefer');
    forall m: Model
      ensures Extends(m, both, {s1, s2}) <==> Agree(m, premise, premise', swapped, left, right, left', right')
    {
      ReuseMeaning(m, premise, premise', s1, s2, swapped, left, right, left', right', prefer, prefer');
    }
  }

  /** Where a branch cuts the line. */
  datatype Cut = Cut(poly: nat, integral: bool, value: real, leftWeak: bool)

  function Left(c: Cut): Formula {
    LeftSide(c.poly, c.integral, c.value, c.leftWeak)
  }

  function Right(c: Cut): Formula {
    RightSide(c.poly, c.integral, c.value, c.leftWeak)
  }

  /** The last whole number on the left side. */
  function LastLeft(c: Cut): int {
    if c.leftWeak then c.value.Floor
    else if c.integral || IsWhole(c.value) then c.value.Floor - 1
    else c.value.Floor
  }

  /** Both branches cut the line, or the whole numbers if one of them is integral, at the same place. */
  predicate SameCut(c: Cut, c': Cut) {
    && c.poly == c'.poly
    && if c.integral || c'.integral then LastLeft(c) == LastLeft(c')
       else c.value == c'.value && c.leftWeak == c'.leftWeak
  }

  function WholePolys(c: Cut, c': Cut): set<nat> {
    (if c.integral then {c.poly} else {}) + if c'.integral then {c'.poly} else {}
  }

  lemma AtWhole(m: Model, c: Cut)
    requires IsWhole(m.value(c.poly))
    ensures Holds(m, Left(c)) <==> m.value(c.poly) <= LastLeft(c) as real
    ensures Holds(m, Right(c)) <==> !Holds(m, Left(c))
  {
    var x := m.value(c.poly).Floor;
    assert x as real <= c.value <==> x <= c.value.Floor;
    assert x as real < c.value.Floor as real + 1.0 <==> x <= c.value.Floor;
    assert x as real >= c.value.Floor as real <==> x >= c.value.Floor;
  }

  lemma SameSides(m: Model, c: Cut, c': Cut)
    requires SameCut(c, c') && WholeOn(m, WholePolys(c, c'))
    ensures Holds(m, Left(c)) <==> Holds(m, Left(c'))
    ensures Holds(m, Right(c)) <==> !Holds(m, Left(c))
    ensures Holds(m, Right(c')) <==> !Holds(m, Left(c'))
  {
    if c.integral || c'.integral {
      assert c.poly in WholePolys(c, c');
      AtWhole(m, c);
      AtWhole(m, c');
    } else {
      Sides(m, c.poly, false, c.value, c.leftWeak);
    }
  }

  /** Variables alone, none of which is a splitting variable. */
  predicate OnlyVariables(fs: seq<Formula>, s1: nat, s2: nat) {
    forall i :: 0 <= i < |fs| ==> fs[i].Var? && fs[i].id != s1 && fs[i].id != s2
  }

  /** A model in which these variables are true. */
  function WithTrue(fs: seq<Formula>, value: nat -> real): Model {
    Model(iset i | 0 <= i < |fs| && fs[i].Var? :: fs[i].id, value)
  }

  lemma VariablesHold(fs: seq<Formula>, s1: nat, s2: nat, value: nat -> real)
    requires OnlyVariables(fs, s1, s2)
    ensures AllHold(WithTrue(fs, value), fs)
  {
    forall i | 0 <= i < |fs|
      ensures fs[i].id in WithTrue(fs, value).truths
    {
    }
  }

  /** The branches differ at some whole value: one puts it on the left, the other on the right. */
  lemma DifferAtWhole(m: Model, c: Cut, c': Cut)
    requires IsWhole(m.value(c.poly)) && IsWhole(m.value(c'.poly))
    requires (m.value(c.poly) <= LastLeft(c) as real) != (m.value(c'.poly) <= LastLeft(c') as real)
    ensures WholeOn(m, WholePolys(c, c'))
    ensures !(Holds(m, Left(c)) && Holds(m, Left(c'))) && !(Holds(m, Right(c)) && Holds(m, Right(c')))
  {
    AtWhole(m, c);
    AtWhole(m, c');
  }

  lemma DifferingModel(fs: seq<Formula>, c: Cut, c': Cut) returns (m: Model)
    requires !SameCut(c, c')
    ensures WholeOn(m, WholePolys(c, c')) && m == WithTrue(fs, m.value)
    ensures !(Holds(m, Left(c)) && Holds(m, Left(c'))) && !(Holds(m, Right(c)) && Holds(m, Right(c')))
  {
    var low, low' := LastLeft(c), LastLeft(c');
    if c.poly != c'.poly {
      m := WithTrue(fs, (p: nat) => if p == c.poly then low as real else (low' + 1) as real);
      DifferAtWhole(m, c, c');
    } else if c.integral || c'.integral {
      m := WithTrue(fs, (p: nat) => if low < low' then low' as real else low as real);
      DifferAtWhole(m, c, c');
    } else {
      m := WithTrue(fs, (p: nat) => (c.value + c'.value) / 2.0);
    }
  }

  lemma BothLeft(fs: seq<Formula>, c: Cut, c': Cut) returns (m: Model)
    ensures WholeOn(m, WholePolys(c, c')) && m == WithTrue(fs, m.value)
    ensures Holds(m, Left(c)) && Holds(m, Left(c')) && !Holds(m, Right(c)) && !Holds(m, Right(c'))
  {
    var low, low' := LastLeft(c), LastLeft(c');
    m := WithTrue(fs, (p: nat) => if low < low' then low as real else low' as real);
    AtWhole(m, c);
    AtWhole(m, c');
  }

  /** Reuse for the same branch again is conservative, whatever the premises. */
  lemma SameBranchAgain(premise: seq<Formula>, premise': seq<Formula>, s1: nat, s2: nat, c: Cut, c': Cut, prefer: bool,
                        prefer': bool)
    requires s1 != s2 && SameCut(c, c')
    requires forall i :: 0 <= i < |premise| ==> MentionsNone(premise[i], {s1, s2})
    requires forall i :: 0 <= i < |premise'| ==> MentionsNone(premise'[i], {s1, s2})
    ensures Conservative(Both(premise, premise', s1, s2, false, Left(c), Right(c), Left(c'), Right(c'), prefer,
      prefer'), {s1, s2}, WholePolys(c, c'))
  {
    ReuseConserves(premise, premise', s1, s2, false, Left(c), Right(c), Left(c'), Right(c'), prefer, prefer',
      WholePolys(c, c'));
    forall m: Model | WholeOn(m, WholePolys(c, c'))
      ensures Agree(m, premise, premise', false, Left(c), Right(c), Left(c'), Right(c'))
    {
      SameSides(m, c, c');
    }
  }

  /**
   With premises that are variables, or none, reuse is conservative exactly for the same branch
   again: the variables stand for the same sides, and both branches cut at the same place.
   */
  lemma ReusedTooEarly(premise: seq<Formula>, premise': seq<Formula>, s1: nat, s2: nat, swapped: bool, c: Cut, c': Cut,
                       prefer: bool, prefer': bool)
    requires s1 != s2 && OnlyVariables(premise, s1, s2) && OnlyVariables(premise', s1, s2)
    ensures Conservative(Both(premise, premise', s1, s2, swapped, Left(c), Right(c), Left(c'), Right(c'), prefer,
      prefer'), {s1, s2}, WholePolys(c, c'))
      <==> !swapped && SameCut(c, c')
  {
    ReuseConserves(premise, premise', s1, s2, swapped, Left(c), Right(c), Left(c'), Right(c'), prefer, prefer',
      WholePolys(c, c'));
    if swapped {
      var m := BothLeft(premise, c, c');
      VariablesHold(premise, s1, s2, m.value);
      assert !Agree(m, premise, premise', swapped, Left(c), Right(c), Left(c'), Right(c'));
    } else if SameCut(c, c') {
      SameBranchAgain(premise, premise', s1, s2, c, c', prefer, prefer');
    } else {
      var m := DifferingModel(premise, c, c');
      VariablesHold(premise, s1, s2, m.value);
      assert !Agree(m, premise, premise', swapped, Left(c), Right(c), Left(c'), Right(c'));
    }
  }

  lemma FreeInAll(received: seq<Formula>, lemmas: seq<Lemma>, s1: nat, s2: nat, from: seq<Formula>)
    requires Free(received, lemmas, s1) && Free(received, lemmas, s2)
    requires forall i :: 0 <= i < |from| ==> from[i] in received
    ensures NoneMentions(lemmas, {s1, s2})
    ensures forall i :: 0 <= i < |from| ==> MentionsNone(from[i], {s1, s2})
  {
  }

  /** What the source asserts of the premise of a branch. */
  predicate WellCalled(received: seq<Formula>, call: Call) {
    call.Branch? ==>
      (call.useReceived ==> call.premise == [])
      && forall i :: 0 <= i < |call.premise| ==> call.premise[i] in received
  }
}
