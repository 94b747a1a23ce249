/**
 * Literals: a bound on a discrete variable, `x <= c` or `x > c`, stored as the affected
 * `VarBound` and a raw bound value. The raw value of an upper bound `c` is `c`, that of a
 * lower bound `c` is `-c`, so that "stronger" is `<=` on raw values whatever the side.
 */
module Lits {
  import opened VarBounds

  /** Relations, declared in the order of the derived `Ord` (`Gt < Leq`). */
  datatype Relation = Gt | Leq

  datatype Lit = Lit(varBound: VarBound, rawValue: int)

  // ---- BoundValue (not part of lit.rs; its meaning is taken from the doc comment on
  // `raw_value` and the entailment tests) ----

  /** `BoundValue::ub(v)`. */
  function RawUb(v: int): int { v }
  /** `BoundValue::lb(v)`. */
  function RawLb(v: int): int { -v }
  /** `BoundValue::as_ub`. */
  function AsUb(raw: int): int { raw }
  /** `BoundValue::as_lb`. */
  function AsLb(raw: int): int { -raw }
  /** `BoundValue::neg`. */
  function RawNeg(raw: int): int { -raw - 1 }
  /** `BoundValue::stronger`. */
  predicate Stronger(a: int, b: int) { a <= b }

  // ---- Lit ----

  /** `Lit::new(v, r, c)`: the literal `v r c`, which reads back as that relation, constant and (encodable) variable. */
  function New(v: VarRef, r: Relation, c: int): (l: Lit)
    ensures RelationOf(l) == r && ValueOf(l) == c
    ensures v < ENCODABLE_VARS ==> VariableOf(l) == v
  {
    match r
    case Leq => Lit(Ub(v), RawUb(c))
    case Gt => Lit(Lb(v), RawLb(c + 1))
  }

  function Leq(v: VarRef, c: int): Lit { New(v, Relation.Leq, c) }
  function Lt(v: VarRef, c: int): Lit { Leq(v, c - 1) }
  function Geq(v: VarRef, c: int): Lit { Gt(v, c - 1) }
  function Gt(v: VarRef, c: int): Lit { New(v, Relation.Gt, c) }

  const ZERO: VarRef := 0
  /** The literal `ZERO <= 0`, always true. */
  const TRUE: Lit := New(ZERO, Relation.Leq, 0)
  /** The negation of `TRUE`. */
  const FALSE: Lit := Not(TRUE)

  function VariableOf(l: Lit): VarRef { Variable(l.varBound) }

  function RelationOf(l: Lit): Relation
  {
    if IsUb(l.varBound) then Relation.Leq else Relation.Gt
  }

  function ValueOf(l: Lit): int
  {
    match RelationOf(l)
    case Leq => AsUb(l.rawValue)
    case Gt => AsLb(l.rawValue) - 1
  }

  /** `unpack`: the variable, relation and constant from which `new` rebuilds the literal. */
  function Unpack(l: Lit): (u: (VarRef, Relation, int))
    ensures New(u.0, u.1, u.2) == l
  {
    (VariableOf(l), RelationOf(l), ValueOf(l))
  }

  /** The negation is the symmetric bound with the negated raw value. */
  function Not(l: Lit): (n: Lit)
    ensures VariableOf(n) == VariableOf(l) && RelationOf(n) != RelationOf(l)
  {
    Lit(SymmetricBound(l.varBound), RawNeg(l.rawValue))
  }

  /** `entails`: same bound, stronger raw value; then every value satisfying `a` satisfies `b`. */
  predicate Entails(a: Lit, b: Lit)
    ensures Entails(a, b) ==> forall x :: Holds(a, x) ==> Holds(b, x)
  {
    a.varBound == b.varBound && Stronger(a.rawValue, b.rawValue)
  }

  /** `From<bool>`: a literal on `ZERO` (whose only value is 0) that holds exactly when `b` does. */
  function FromBool(b: bool): (l: Lit)
    ensures VariableOf(l) == ZERO && (Holds(l, 0) <==> b)
  {
    if b then TRUE else FALSE
  }

  /** The derived `Ord`: by `var_bound` id, then by raw value. */
  predicate LitLess(a: Lit, b: Lit)
    ensures LitLess(a, b) ==> a != b && a.varBound.id <= b.varBound.id
  {
    a.varBound.id < b.varBound.id || (a.varBound.id == b.varBound.id && a.rawValue < b.rawValue)
  }

  predicate LitLessEq(a: Lit, b: Lit) { LitLess(a, b) || a == b }

  predicate Sorted(s: seq<Lit>)
  {
    forall i, j :: 0 <= i < j < |s| ==> LitLessEq(s[i], s[j])
  }

  /** Reference meaning of a literal: does the value `x` of its variable satisfy it? */
  predicate Holds(l: Lit, x: int)
  {
    match RelationOf(l)
    case Leq => x <= ValueOf(l)
    case Gt => x > ValueOf(l)
  }

  // ---- Properties ----

  /** `new(v, Leq, c)` is the upper bound with raw value `ub(c)`; `new(v, Gt, c)` the lower bound with raw `lb(c+1)`. */
  lemma NewTargets(v: VarRef, c: int)
    ensures Leq(v, c).varBound == Ub(v) && Leq(v, c).rawValue == c
    ensures Gt(v, c).varBound == Lb(v) && Gt(v, c).rawValue == -(c + 1)
  {
  }

  /** `unpack` inverts `new` for every encodable variable. */
  lemma UnpackNew(v: VarRef, r: Relation, c: int)
    requires v < ENCODABLE_VARS
    ensures Unpack(New(v, r, c)) == (v, r, c)
  {
    VariableOfBound(v);
  }

  /** The strict relations are shifted non-strict ones. */
  lemma StrictForms(v: VarRef, c: int)
    ensures Lt(v, c) == Leq(v, c - 1) && Geq(v, c) == Gt(v, c - 1)
    ensures Geq(v, c) == Lit(Lb(v), -c)
  {
  }

  /** The documented example: `geq(y, 5)` is stored as `y > 4`. */
  lemma GeqExample(y: VarRef)
    requires y < ENCODABLE_VARS
    ensures VariableOf(Geq(y, 5)) == y && RelationOf(Geq(y, 5)) == Relation.Gt
    ensures ValueOf(Geq(y, 5)) == 4 && Unpack(Geq(y, 5)) == (y, Relation.Gt, 4)
  {
    UnpackNew(y, Relation.Gt, 4);
  }

  /** `not` is an involution. */
  lemma NotInvolutive(l: Lit)
    ensures Not(Not(l)) == l && Not(l) != l
  {
  }

  /** `leq` and `gt` on the same constant are each other's negation. */
  lemma {:induction false} NotOfLeq(v: VarRef, c: int)
    ensures Not(Leq(v, c)) == Gt(v, c) && Not(Gt(v, c)) == Leq(v, c)
  {
    var s := Shl1(v);
    assert Leq(v, c) == Lit(VarBound(s + 1), c);
    assert Gt(v, c) == Lit(VarBound(s), -(c + 1));
  }

  /** `FALSE` is `ZERO > 0`, the lower bound of variable 0 with raw value -1. */
  lemma FalseIsNotTrue()
    ensures TRUE == Lit(VarBound(1), 0) && FALSE == Lit(VarBound(0), -1) && FALSE == Gt(ZERO, 0)
  {
    assert Shl1(ZERO) == 0;
  }

  /** The negation holds of exactly the values its literal does not hold of. */
  lemma {:induction false} NotIsComplement(l: Lit, x: int)
    ensures Holds(Not(l), x) <==> !Holds(l, x)
  {
    if IsUb(l.varBound) {
      assert RelationOf(Not(l)) == Relation.Gt;
      assert ValueOf(Not(l)) == -RawNeg(l.rawValue) - 1 == l.rawValue;
    } else {
      assert RelationOf(Not(l)) == Relation.Leq;
      assert ValueOf(Not(l)) == RawNeg(l.rawValue) == -l.rawValue - 1;
    }
  }

  /** `TRUE` holds of every value of `ZERO` that respects its domain `[0, 0]`, and `FALSE` of none. */
  lemma TrueAndFalseMeaning()
    ensures Holds(TRUE, 0) && !Holds(FALSE, 0)
    ensures FromBool(true) == TRUE && FromBool(false) == FALSE && FromBool(false) == Not(FromBool(true))
  {
  }

  /** Entailment is sound: whenever `a` holds, so does `b` on the same variable. */
  lemma {:induction false} EntailsSound(a: Lit, b: Lit, x: int)
    requires Entails(a, b) && Holds(a, x)
    ensures VariableOf(a) == VariableOf(b) && Holds(b, x)
  {
  }

  /** Entailment is complete for bounds on the same `var_bound`. */
  lemma {:induction false} EntailsComplete(a: Lit, b: Lit)
    requires a.varBound == b.varBound
    requires forall x :: Holds(a, x) ==> Holds(b, x)
    ensures Entails(a, b)
  {
    if IsUb(a.varBound) {
      assert Holds(a, ValueOf(a));
    } else {
      assert Holds(a, ValueOf(a) + 1);
    }
  }

  /** The entailment tests of lit.rs: on the same variable, weaker bounds are entailed; across variables nothing is. */
  lemma EntailmentExamples(a: VarRef, b: VarRef)
    requires a < ENCODABLE_VARS && b < ENCODABLE_VARS && a != b
    ensures Entails(Leq(a, 0), Leq(a, 0)) && Entails(Leq(a, 0), Leq(a, 1)) && !Entails(Leq(a, 0), Leq(a, -1))
    ensures Entails(Geq(a, 0), Geq(a, 0)) && Entails(Geq(a, 0), Geq(a, -1)) && !Entails(Geq(a, 0), Geq(a, 1))
    ensures forall c :: !Entails(Leq(a, 0), Leq(b, c)) && !Entails(Geq(a, 0), Geq(b, c))
  {
    EncodingInjective(a, b);
  }

  /** The derived order is a strict total order on literals. */
  lemma LitLessIsTotalOrder(a: Lit, b: Lit, c: Lit)
    ensures !LitLess(a, a)
    ensures LitLess(a, b) && LitLess(b, c) ==> LitLess(a, c)
    ensures a == b || LitLess(a, b) || LitLess(b, a)
  {
  }

  /**
   * In a sorted list a literal can only entail the literals that follow it contiguously:
   * anything sorted between a literal and one it entails is entailed too.
   */
  lemma EntailedAreContiguous(a: Lit, c: Lit, b: Lit)
    requires LitLessEq(a, c) && LitLessEq(c, b) && Entails(a, b)
    ensures Entails(a, c)
  {
  }

  /** Sorting groups by variable, then lower bound (`Gt`) before upper bound (`Leq`). */
  lemma {:induction false} OrderGroupsBySide(v: VarRef, c: int, d: int)
    requires v < ENCODABLE_VARS
    ensures LitLess(Gt(v, c), Leq(v, d))
  {
    BoundIds(v);
  }

  /**
   * The order is not that of the `unpack` tuples, contrary to the doc comment: on lower bounds it
   * sorts values downwards (`x >= 2` comes before `x >= 1`).
   */
  lemma OrderReversesLowerBoundValues(x: VarRef)
    requires x < ENCODABLE_VARS
    ensures LitLess(Geq(x, 2), Geq(x, 1)) && ValueOf(Geq(x, 2)) > ValueOf(Geq(x, 1))
  {
    UnpackNew(x, Relation.Gt, 1);
    UnpackNew(x, Relation.Gt, 0);
  }

  /** The head of a sorted list is below every element of the list. */
  lemma SortedHeadIsLeast(s: seq<Lit>, x: Lit)
    requires Sorted(s) && x in multiset(s)
    ensures LitLessEq(s[0], x)
  {
    assert x in s;
    var i :| 0 <= i < |s| && s[i] == x;
    if i > 0 {
      assert LitLessEq(s[0], s[i]);
    }
  }

  /** Two sorted lists with the same elements are equal: sorting has one result. */
  lemma {:induction false} SortedPermutationUnique(s: seq<Lit>, t: seq<Lit>)
    requires Sorted(s) && Sorted(t) && multiset(s) == multiset(t)
    ensures s == t
    decreases |s|
  {
    assert |t| == |multiset(t)| == |multiset(s)| == |s|;
    if |s| > 0 {
      assert s[0] in multiset(t) by { assert s[0] in multiset(s); }
      assert t[0] in multiset(s) by { assert t[0] in multiset(t); }
      SortedHeadIsLeast(t, s[0]);
      SortedHeadIsLeast(s, t[0]);
      LitLessIsTotalOrder(s[0], t[0], s[0]);
      var s', t' := s[1..], t[1..];
      assert s == [s[0]] + s' && t == [t[0]] + t';
      assert s[0] == t[0];
      assert multiset(s) == multiset{s[0]} + multiset(s');
      assert multiset(t) == multiset{t[0]} + multiset(t');
      forall x ensures multiset(s')[x] == multiset(t')[x] {
        assert multiset(s)[x] == multiset{s[0]}[x] + multiset(s')[x];
        assert multiset(t)[x] == multiset{t[0]}[x] + multiset(t')[x];
      }
      assert multiset(s') == multiset(t');
      assert Sorted(s') && Sorted(t');
      SortedPermutationUnique(s', t');
    }
  }

  /** A list whose consecutive elements are ordered is sorted. */
  lemma {:induction false} SortedByNeighbours(s: seq<Lit>)
    requires forall i :: 0 <= i < |s| - 1 ==> LitLess(s[i], s[i + 1])
    ensures Sorted(s)
    decreases |s|
  {
    if |s| > 1 {
      SortedByNeighbours(s[1..]);
      forall j | 1 <= j < |s| ensures LitLess(s[0], s[j]) {
        if j > 1 {
          assert LitLessEq(s[1], s[j]) by { assert s[1..][0] == s[1] && s[1..][j - 1] == s[j]; }
          LitLessIsTotalOrder(s[0], s[1], s[j]);
        }
      }
      forall i, j | 0 <= i < j < |s| ensures LitLessEq(s[i], s[j]) {
        if i > 0 {
          assert s[1..][i - 1] == s[i] && s[1..][j - 1] == s[j];
        }
      }
    }
  }

  /** Exchanging the first and last elements keeps the multiset. */
  lemma SwapEnds<T>(a: T, middle: seq<T>, b: T)
    ensures multiset([a] + middle + [b]) == multiset([b] + middle + [a])
  {
    assert multiset([a] + middle + [b]) == multiset([a]) + multiset(middle) + multiset([b]);
    assert multiset([b] + middle + [a]) == multiset([b]) + multiset(middle) + multiset([a]);
  }

  /** The documented sort of lit.rs: sorting the given literals yields exactly the documented list. */
  lemma DocumentedSort(sorted: seq<Lit>)
    requires Sorted(sorted)
    requires multiset(sorted) == multiset([Geq(2, 4), Geq(1, 1), Leq(1, 3), Leq(1, 4), Leq(1, 6), Geq(1, 2)])
    ensures sorted == [Geq(1, 2), Geq(1, 1), Leq(1, 3), Leq(1, 4), Leq(1, 6), Geq(2, 4)]
  {
    assert Shl1(1) == 2 && Shl1(2) == 4;
    var y4, x1, x3, x4, x6, x2 := Geq(2, 4), Geq(1, 1), Leq(1, 3), Leq(1, 4), Leq(1, 6), Geq(1, 2);
    assert y4 == Lit(VarBound(4), -4) && x2 == Lit(VarBound(2), -2) && x1 == Lit(VarBound(2), -1);
    assert x3 == Lit(VarBound(3), 3) && x4 == Lit(VarBound(3), 4) && x6 == Lit(VarBound(3), 6);
    var expected := [x2, x1, x3, x4, x6, y4];
    SortedByNeighbours(expected);
    var middle := [x1, x3, x4, x6];
    assert expected == [x2] + middle + [y4];
    assert [y4, x1, x3, x4, x6, x2] == [y4] + middle + [x2];
    SwapEnds(x2, middle, y4);
    SortedPermutationUnique(sorted, expected);
  }
}
