/**
 Formulas as the solver's bookkeeping sees them: conjunctions are taken apart, everything
 else is opaque. What an opaque formula means is given by a theory, the collection of truth
 assignments to opaque formulas that some model realises.
 */
module Formulas {

  /** `size` is the number of sub-formulas; only the choice of an origin looks at it. */
  datatype Formula =
    | Atom(id: nat, size: nat, vars: set<nat>)
    | And(subs: seq<Formula>)

  function Size(f: Formula): nat {
    if f.Atom? then f.size else |f.subs|
  }

  function Vars(f: Formula): set<nat> {
    match f
    case Atom(_, _, vars) => vars
    case And(subs) => set s, v | s in subs && v in Vars(s) :: v
  }

  /** The conjuncts of an arbitrarily nested conjunction, from left to right. */
  function Flatten(f: Formula): seq<Formula> {
    match f
    case Atom(_, _, _) => [f]
    case And(subs) => FlattenAll(subs)
  }

  function FlattenAll(fs: seq<Formula>): seq<Formula> {
    if fs == [] then [] else Flatten(fs[0]) + FlattenAll(fs[1..])
  }

  lemma {:induction false} FlattenAllNext(fs: seq<Formula>, i: nat)
    requires i < |fs|
    ensures FlattenAll(fs[..i + 1]) == FlattenAll(fs[..i]) + Flatten(fs[i])
  {
    if i == 0 {
      assert fs[..1][0] == fs[0] && fs[..1][1..] == [];
    } else {
      FlattenAllNext(fs[1..], i - 1);
      assert fs[1..][..i] == fs[..i + 1][1..] && fs[1..][..i - 1] == fs[..i][1..];
      assert fs[..i + 1][0] == fs[0] == fs[..i][0];
    }
  }

  // ---------------------------------------------------------------- meaning

  type Valuation = iset<nat>

  type Theory = iset<Valuation>

  predicate Satisfies(v: Valuation, f: Formula) {
    match f
    case Atom(id, _, _) => id in v
    case And(subs) => forall s | s in subs :: Satisfies(v, s)
  }

  ghost predicate Entails(theory: Theory, f: Formula, g: Formula) {
    forall v | v in theory && Satisfies(v, f) :: Satisfies(v, g)
  }

  ghost predicate Tautology(theory: Theory, f: Formula) {
    forall v | v in theory :: Satisfies(v, f)
  }

  /** No model of the theory satisfies all of the formulas. */
  ghost predicate Unsat(theory: Theory, fs: set<Formula>) {
    forall v | v in theory :: exists f :: f in fs && !Satisfies(v, f)
  }

  /** A formula says the same as its flattened conjuncts do together. */
  lemma {:induction false} FlattenMeaning(v: Valuation, f: Formula)
    ensures Satisfies(v, f) <==> forall g | g in Flatten(f) :: Satisfies(v, g)
    decreases f
  {
    if f.And? {
      FlattenAllMeaning(v, f.subs);
    }
  }

  lemma {:induction false} FlattenAllMeaning(v: Valuation, fs: seq<Formula>)
    ensures (forall s | s in fs :: Satisfies(v, s)) <==> forall g | g in FlattenAll(fs) :: Satisfies(v, g)
    decreases fs
  {
    if fs != [] {
      FlattenMeaning(v, fs[0]);
      FlattenAllMeaning(v, fs[1..]);
      assert forall s :: s in fs <==> s == fs[0] || s in fs[1..];
      assert forall g :: g in FlattenAll(fs) <==> g in Flatten(fs[0]) || g in FlattenAll(fs[1..]);
    }
  }
}
