/**
 * The value types of the Simple Temporal Network: edge ids, edges `target - source <= weight`
 * with their negation and canonical form, the two directional views of an edge used for
 * propagation, directed edge ids, and the cause attached to the bound updates the network makes.
 */
module StnEdges {
  import opened VarBounds

  type Timepoint = VarRef

  // ---- Edge ids ----

  /** An edge id: base id in the high 31 bits, negation flag in the lowest bit. */
  datatype EdgeId = EdgeId(raw: Uint32)

  /** `EdgeId::new`: `(base << 1) + 1` when negated, `base << 1` otherwise. */
  function NewEdgeId(base: Uint32, negated: bool): (id: EdgeId)
    ensures IsNegatedId(id) == negated
    ensures base < ENCODABLE_VARS ==> BaseId(id) == base
  {
    if negated then EdgeId(Shl1(base) + 1) else EdgeId(Shl1(base))
  }

  function BaseId(e: EdgeId): (b: Uint32)
    ensures b < ENCODABLE_VARS
  {
    e.raw / 2
  }

  predicate IsNegatedId(e: EdgeId) { e.raw % 2 == 1 }

  /** `!e`: flips the lowest bit. */
  function NotId(e: EdgeId): (n: EdgeId)
    ensures BaseId(n) == BaseId(e) && IsNegatedId(n) != IsNegatedId(e)
  {
    if e.raw % 2 == 0 then EdgeId(e.raw + 1) else EdgeId(e.raw - 1)
  }

  function EdgeIdToU32(e: EdgeId): Uint32 { e.raw }

  function EdgeIdFromU32(u: Uint32): EdgeId { EdgeId(u) }

  /** `EdgeId::from(usize)`: the `as u32` cast keeps the low 32 bits. */
  function EdgeIdFromUsize(u: Usize): EdgeId { EdgeId(u % U32_MODULUS) }

  // ---- Edges ----

  /** The constraint `target - source <= weight`. */
  datatype Edge = Edge(source: Timepoint, target: Timepoint, weight: int)

  /** The meaning of an edge under an assignment of times to timepoints. */
  predicate Holds(e: Edge, time: Timepoint -> int)
  {
    time(e.target) - time(e.source) <= e.weight
  }

  predicate IsCanonical(e: Edge)
  {
    e.source < e.target || (e.source == e.target && e.weight >= 0)
  }

  /** `not(target - source <= w)` is `source - target <= -w - 1`. */
  function Negated(e: Edge): (n: Edge)
    ensures forall time :: Holds(n, time) <==> !Holds(e, time)
  {
    Edge(e.target, e.source, -e.weight - 1)
  }

  function Canonical(e: Edge): (c: Edge)
    ensures IsCanonical(c)
    ensures c == e || c == Negated(e)
  {
    if IsCanonical(e) then e else Negated(e)
  }

  /** Both endpoints have bounds whose ids do not wrap. */
  predicate Encodable(e: Edge)
  {
    e.source < ENCODABLE_VARS && e.target < ENCODABLE_VARS
  }

  // ---- Bound arithmetic (`BoundValueAdd`, assumed) ----

  /** A weight applied to upper bounds is the weight itself. */
  function OnUb(w: int): int { w }

  /** A weight applied to lower bounds is negated, lower bounds being stored negated. */
  function OnLb(w: int): int { -w }

  function AsUbAdd(raw: int): int { raw }

  function AsLbAdd(raw: int): int { -raw }

  /** The raw bound value of a time: the time itself for an upper bound, its negation for a lower bound. */
  function RawValue(b: VarBound, time: Timepoint -> int): int
  {
    if IsUb(b) then time(Variable(b)) else -time(Variable(b))
  }

  // ---- Directional constraints ----

  /**
   * A propagation rule: a raw bound `X` on `source` implies the raw bound `X + weight` on
   * `target`. (The enablers and the always-active flag are not part of this model.)
   */
  datatype DirConstraint = DirConstraint(active: bool, source: VarBound, target: VarBound, weight: int)

  /** `ub(source) <= X  ==>  ub(target) <= X + weight`. */
  function Forward(e: Edge): (c: DirConstraint)
    ensures !c.active && IsUb(c.source) && IsUb(c.target)
    ensures Encodable(e) ==> AsEdge(c) == e
  {
    DirConstraint(false, Ub(e.source), Ub(e.target), OnUb(e.weight))
  }

  /** `lb(target) >= X  ==>  lb(source) >= X - weight`. */
  function Backward(e: Edge): (c: DirConstraint)
    ensures !c.active && IsLb(c.source) && IsLb(c.target)
    ensures Encodable(e) ==> AsEdge(c) == e
  {
    DirConstraint(false, Lb(e.target), Lb(e.source), OnLb(-e.weight))
  }

  /** The edge a view propagates (see `AsEdgeMeaning`). */
  function AsEdge(c: DirConstraint): Edge
  {
    if IsUb(c.source) then Edge(Variable(c.source), Variable(c.target), AsUbAdd(c.weight))
    else Edge(Variable(c.target), Variable(c.source), -AsLbAdd(c.weight))
  }

  /** The raw propagation rule of a view is satisfied by an assignment. */
  predicate ViewHolds(c: DirConstraint, time: Timepoint -> int)
  {
    RawValue(c.target, time) <= RawValue(c.source, time) + c.weight
  }

  /** The four inactive constraints created for an edge: both views of its canonical form, then of its negation. */
  datatype ConstraintPair = ConstraintPair(
    baseForward: DirConstraint, baseBackward: DirConstraint,
    negatedForward: DirConstraint, negatedBackward: DirConstraint)

  function NewInactives(edge: Edge): (p: ConstraintPair)
    ensures forall c :: c in PairSeq(p) ==> !c.active
  {
    var base := Canonical(edge);
    ConstraintPair(Forward(base), Backward(base), Forward(Negated(base)), Backward(Negated(base)))
  }

  /** The pair in the order it is stored in the database. */
  function PairSeq(p: ConstraintPair): (s: seq<DirConstraint>)
    ensures |s| == 4
  {
    [p.baseForward, p.baseBackward, p.negatedForward, p.negatedBackward]
  }

  // ---- Directed edge ids ----

  /** An edge id with the direction in the lowest bit: also the index of its constraint. */
  datatype DirEdge = DirEdge(raw: Uint32)

  /** The forward view of an edge id, at index `2e`. */
  function DirForward(e: EdgeId): (d: DirEdge)
    ensures IsForward(d)
    ensures e.raw < ENCODABLE_VARS ==> d.raw == 2 * e.raw
  {
    DirEdge(Shl1(e.raw))
  }

  /** The backward view of an edge id, at index `2e + 1`. */
  function DirBackward(e: EdgeId): (d: DirEdge)
    ensures !IsForward(d)
    ensures e.raw < ENCODABLE_VARS ==> d.raw == 2 * e.raw + 1
  {
    DirEdge(Shl1(e.raw) + 1)
  }

  predicate IsForward(d: DirEdge) { d.raw % 2 == 0 }

  /** The edge id a directed id is a view of. */
  function EdgeOf(d: DirEdge): (e: EdgeId)
    ensures d == DirForward(e) || d == DirBackward(e)
  {
    EdgeId(d.raw / 2)
  }

  function DirEdgeFromUsize(u: Usize): DirEdge { DirEdge(u % U32_MODULUS) }

  // ---- Causes of the network's bound updates ----

  datatype ModelUpdateCause = EdgePropagation(edge: DirEdge) | TheoryPropagation(index: Uint32)

  /** The lowest bit of the code tells the two kinds of cause apart. */
  function EncodeCause(c: ModelUpdateCause): (enc: Uint32)
    ensures enc % 2 == (if c.EdgePropagation? then 0 else 1)
  {
    match c
    case EdgePropagation(edge) => Shl1(edge.raw)
    case TheoryPropagation(index) => Shl1(index) + 1
  }

  /** Decoding gives the one cause that encodes to `enc`. */
  function DecodeCause(enc: Uint32): (c: ModelUpdateCause)
    ensures EncodeCause(c) == enc
  {
    if enc % 2 == 0 then EdgePropagation(DirEdge(enc / 2)) else TheoryPropagation(enc / 2)
  }

  // ---- Lemmas ----

  /** `EdgeId::new(b, n)` has base id `b` (below 2^31) and negation flag `n`. */
  lemma EdgeIdFields(base: Uint32, negated: bool)
    requires base < ENCODABLE_VARS
    ensures BaseId(NewEdgeId(base, negated)) == base
    ensures IsNegatedId(NewEdgeId(base, negated)) == negated
  {
  }

  /** Every id is rebuilt from its base id and flag. */
  lemma EdgeIdDecomposes(e: EdgeId)
    ensures NewEdgeId(BaseId(e), IsNegatedId(e)) == e
  {
  }

  /** `!e` keeps the base id, flips the flag, and is an involution. */
  lemma NotIdFlips(e: EdgeId)
    ensures BaseId(NotId(e)) == BaseId(e)
    ensures IsNegatedId(NotId(e)) != IsNegatedId(e)
    ensures NotId(NotId(e)) == e
  {
  }

  lemma NotIdOfNew(base: Uint32, negated: bool)
    ensures NotId(NewEdgeId(base, negated)) == NewEdgeId(base, !negated)
  {
  }

  lemma EdgeIdConversionsRoundTrip(e: EdgeId, u: Uint32, w: Usize)
    ensures EdgeIdFromU32(EdgeIdToU32(e)) == e && EdgeIdToU32(EdgeIdFromU32(u)) == u
    ensures EdgeIdFromUsize(e.raw) == e
    ensures EdgeIdFromUsize(w).raw == w <==> w < U32_MODULUS
  {
  }

  /** The negation of an edge holds exactly when the edge does not. */
  lemma NegationIsComplement(e: Edge, time: Timepoint -> int)
    ensures Holds(Negated(e), time) <==> !Holds(e, time)
  {
  }

  lemma NegatedInvolutive(e: Edge)
    ensures Negated(Negated(e)) == e
  {
  }

  /** Of an edge and its negation, exactly one is canonical. */
  lemma ExactlyOneCanonical(e: Edge)
    ensures IsCanonical(e) != IsCanonical(Negated(e))
  {
  }

  lemma NegationExample(a: Timepoint, b: Timepoint)
    ensures Negated(Edge(a, b, 3)) == Edge(b, a, -4)
  {
  }

  /** An edge and its negation have the same canonical form. */
  lemma CanonicalOfNegation(e: Edge)
    ensures Canonical(Negated(e)) == Canonical(e)
  {
    ExactlyOneCanonical(e);
  }

  /** Both views of an encodable edge give the edge back. */
  lemma ViewsAsEdge(e: Edge)
    requires Encodable(e)
    ensures AsEdge(Forward(e)) == e && AsEdge(Backward(e)) == e
  {
    VariableOfBound(e.source);
    VariableOfBound(e.target);
  }

  /** Each view's propagation rule holds exactly when the edge does: propagating a view is sound and loses nothing. */
  lemma ViewsMeanTheEdge(e: Edge, time: Timepoint -> int)
    requires Encodable(e)
    ensures ViewHolds(Forward(e), time) <==> Holds(e, time)
    ensures ViewHolds(Backward(e), time) <==> Holds(e, time)
  {
    VariableOfBound(e.source);
    VariableOfBound(e.target);
  }

  /** A view joining two bounds of the same side means exactly the edge it reads as. */
  lemma AsEdgeMeaning(c: DirConstraint, time: Timepoint -> int)
    requires IsUb(c.source) == IsUb(c.target)
    ensures ViewHolds(c, time) <==> Holds(AsEdge(c), time)
  {
  }

  /** The views of a new pair: the canonical edge first, then its negation. */
  lemma PairViews(edge: Edge)
    requires Encodable(edge)
    ensures var p := NewInactives(edge);
      && IsCanonical(AsEdge(p.baseForward))
      && AsEdge(p.baseForward) == AsEdge(p.baseBackward) == Canonical(edge)
      && AsEdge(p.negatedForward) == AsEdge(p.negatedBackward) == Negated(Canonical(edge))
      && forall c :: c in PairSeq(p) ==> !c.active
  {
    ViewsAsEdge(Canonical(edge));
    ViewsAsEdge(Negated(Canonical(edge)));
  }

  /** The constraints of a new pair only mention the bounds of the edge's two endpoints. */
  lemma PairBoundsBelow(edge: Edge, n: nat)
    requires Encodable(edge) && edge.source < n && edge.target < n
    ensures forall c :: c in PairSeq(NewInactives(edge)) ==> c.source.id < 2 * n && c.target.id < 2 * n
  {
    BoundIds(edge.source);
    BoundIds(edge.target);
  }

  /** Both directed ids lead back to the edge (for ids below 2^31); only the forward one is forward. */
  lemma DirEdgeViews(e: EdgeId)
    requires e.raw < ENCODABLE_VARS
    ensures EdgeOf(DirForward(e)) == e && EdgeOf(DirBackward(e)) == e
    ensures IsForward(DirForward(e)) && !IsForward(DirBackward(e))
  {
  }

  /** The four constraints of base id `b` sit at indices `4b` to `4b + 3`. */
  lemma DirEdgeIndices(b: Uint32)
    requires b < 0x4000_0000
    ensures DirForward(NewEdgeId(b, false)).raw == 4 * b
    ensures DirBackward(NewEdgeId(b, false)).raw == 4 * b + 1
    ensures DirForward(NewEdgeId(b, true)).raw == 4 * b + 2
    ensures DirBackward(NewEdgeId(b, true)).raw == 4 * b + 3
  {
  }

  /** Decoding an encoded cause gives it back when its payload is below 2^31. */
  lemma CauseRoundTrip(c: ModelUpdateCause)
    requires c.EdgePropagation? ==> c.edge.raw < ENCODABLE_VARS
    requires c.TheoryPropagation? ==> c.index < ENCODABLE_VARS
    ensures DecodeCause(EncodeCause(c)) == c
  {
  }

  /** Every `u32` is the encoding of the cause it decodes to. */
  lemma CauseEncodingComplete(enc: Uint32)
    ensures EncodeCause(DecodeCause(enc)) == enc
  {
  }
}
