/**
 * The STN's constraint database: four directional constraints per edge (both views of the
 * canonical edge, then both views of its negation), and a lookup from canonical edges to their
 * base id, so that an edge and its negation are unified under one base id.
 */
module StnDb {
  import opened Wrappers
  import opened VarBounds
  import opened StnEdges

  /** Base ids stay below 2^30 so that constraint indices fit in a `u32`. */
  const MAX_EDGES: int := 0x4000_0000

  /**
   * `e` is canonical and encodable, and the four constraints from index `i` are, up to their
   * flags, the views of `e` and of its negation.
   */
  predicate LaidOut(cs: seq<DirConstraint>, i: nat, e: Edge)
  {
    && IsCanonical(e) && Encodable(e)
    && i + 4 <= |cs|
    && cs[i].(active := false) == Forward(e)
    && cs[i + 1].(active := false) == Backward(e)
    && cs[i + 2].(active := false) == Forward(Negated(e))
    && cs[i + 3].(active := false) == Backward(Negated(e))
  }

  /**
   * Four constraints per canonical edge, equal up to their activity flag to the pair built for
   * it, and a lookup that maps exactly those edges to their base ids.
   */
  predicate Organized(cs: seq<DirConstraint>, lookup: map<Edge, Uint32>, edges: seq<Edge>)
  {
    && |edges| <= MAX_EDGES
    && |cs| == 4 * |edges|
    && (forall b :: 0 <= b < |edges| ==> LaidOut(cs, 4 * b, edges[b]))
    && (forall e :: e in lookup ==> lookup[e] < |edges| && edges[lookup[e]] == e)
    && (forall b :: 0 <= b < |edges| ==> edges[b] in lookup && lookup[edges[b]] == b)
  }

  class ConstraintDb {
    var constraints: seq<DirConstraint>
    var lookup: map<Edge, Uint32>
    /** The canonical edges, by base id. */
    ghost var edges: seq<Edge>

    ghost predicate Valid()
      reads this
    {
      Organized(constraints, lookup, edges)
    }

    constructor ()
      ensures Valid() && constraints == [] && lookup == map[] && edges == []
    {
      constraints := [];
      lookup := map[];
      edges := [];
    }

    function Get(d: DirEdge): DirConstraint
      reads this
      requires d.raw < |constraints|
    {
      constraints[d.raw]
    }

    /** The id of `edge` if it or its negation is already known. */
    function FindExisting(edge: Edge): (r: Option<EdgeId>)
      reads this
      ensures r.Some? <==> Canonical(edge) in lookup
      ensures r.Some? ==> IsNegatedId(r.value) == !IsCanonical(edge)
    {
      if IsCanonical(edge) then
        if edge in lookup then Some(NewEdgeId(lookup[edge], false)) else None
      else
        if Negated(edge) in lookup then Some(NewEdgeId(lookup[Negated(edge)], true)) else None
    }

    /**
     * Adds `target - source <= weight`, unified with an identical edge or the negation of a known
     * one: returns whether constraints were created and the edge's id, which afterwards denotes
     * the edge (its negation denoting the negated edge).
     */
    method PushEdge(source: Timepoint, target: Timepoint, weight: int) returns (created: bool, id: EdgeId)
      requires Valid() && Encodable(Edge(source, target, weight)) && |edges| < MAX_EDGES
      modifies this
      ensures Valid()
      ensures var edge := Edge(source, target, weight);
        && (old(FindExisting(edge)).Some? ==>
              && !created && id == old(FindExisting(edge)).value
              && constraints == old(constraints) && lookup == old(lookup) && edges == old(edges))
        && (old(FindExisting(edge)).None? ==>
              && created && id == NewEdgeId(|old(edges)|, !IsCanonical(edge))
              && edges == old(edges) + [Canonical(edge)]
              && constraints == old(constraints) + PairSeq(NewInactives(edge))
              && lookup == old(lookup)[Canonical(edge) := |old(edges)|])
      ensures FindExisting(Edge(source, target, weight)) == Some(id)
      ensures FindExisting(Negated(Edge(source, target, weight))) == Some(NotId(id))
    {
      var edge := Edge(source, target, weight);
      ExactlyOneCanonical(edge);
      NegatedInvolutive(edge);
      match FindExisting(edge) {
        case Some(existing) =>
          return false, existing;
        case None =>
      }
      created := true;
      id := AppendEdge(edge);
    }

    /** The creating branch of `push_edge`: the four views of the edge are stored under the next base id. */
    method AppendEdge(edge: Edge) returns (id: EdgeId)
      requires Valid() && Encodable(edge) && |edges| < MAX_EDGES && Canonical(edge) !in lookup
      modifies this
      ensures Valid()
      ensures id == NewEdgeId(|old(edges)|, !IsCanonical(edge))
      ensures edges == old(edges) + [Canonical(edge)]
      ensures constraints == old(constraints) + PairSeq(NewInactives(edge))
      ensures lookup == old(lookup)[Canonical(edge) := |old(edges)|]
    {
      var pair := NewInactives(edge);
      PairViews(edge);
      var base := AsEdge(pair.baseForward);
      var n := |constraints|;
      ghost var cs := constraints;
      constraints := constraints + PairSeq(pair);
      var baseId := BaseId(EdgeOf(DirEdgeFromUsize(n)));
      assert baseId == |edges|;
      lookup := lookup[base := baseId];
      ghost var prefix := edges;
      edges := edges + [base];
      var edgeId := if !IsCanonical(edge) then DirEdgeFromUsize(n + 2) else DirEdgeFromUsize(n);
      id := EdgeOf(edgeId);
      assert NewInactives(base) == pair;
      OrganizedPush(cs, old(lookup), prefix, base);
    }

    /** Removes the constraints of the last created edge and its lookup entry (nothing when empty). */
    method PopLast()
      requires Valid()
      modifies this
      ensures Valid()
      ensures |old(edges)| == 0 ==> constraints == old(constraints) && lookup == old(lookup) && edges == old(edges)
      ensures |old(edges)| > 0 ==>
        && constraints == old(constraints)[..|old(constraints)| - 4]
        && edges == old(edges)[..|old(edges)| - 1]
        && lookup == old(lookup) - {old(edges)[|old(edges)| - 1]}
        && old(edges)[|old(edges)| - 1] == AsEdge(old(constraints)[|old(constraints)| - 4])
    {
      ghost var cs := constraints;
      ghost var n := |cs|;
      assert n == 0 || n >= 4;
      var _ := PopConstraint();
      assert n > 0 ==> constraints == cs[..n - 1];
      var _ := PopConstraint();
      assert n > 0 ==> constraints == cs[..n - 2];
      var _ := PopConstraint();
      assert n > 0 ==> constraints == cs[..n - 3];
      var last := PopConstraint();
      if last.Some? {
        assert last.value == cs[n - 4] && constraints == cs[..n - 4];
        OrganizedPop(cs, lookup, edges);
        lookup := lookup - {AsEdge(last.value)};
        edges := edges[..|edges| - 1];
      } else {
        assert constraints == cs;
      }
    }

    /** `Vec::pop` on the constraints: the last one, removed, if any. */
    method PopConstraint() returns (c: Option<DirConstraint>)
      modifies this
      ensures |old(constraints)| == 0 ==> c == None && constraints == old(constraints)
      ensures |old(constraints)| > 0 ==>
        c == Some(old(constraints)[|old(constraints)| - 1]) && constraints == old(constraints)[..|old(constraints)| - 1]
      ensures lookup == old(lookup) && edges == old(edges)
    {
      if |constraints| == 0 {
        return None;
      }
      c := Some(constraints[|constraints| - 1]);
      constraints := constraints[..|constraints| - 1];
    }

    /** Sets the activity flag of one directional constraint. */
    method SetActive(d: DirEdge, active: bool)
      requires Valid() && d.raw < |constraints|
      modifies this
      ensures Valid()
      ensures constraints == old(constraints)[d.raw := old(constraints)[d.raw].(active := active)]
      ensures lookup == old(lookup) && edges == old(edges)
    {
      OrganizedSetFlag(constraints, lookup, edges, d.raw, active);
      constraints := constraints[d.raw := constraints[d.raw].(active := active)];
    }

    /** `has_edge` as written: compares the base id with the number of constraints. */
    function HasEdge(id: EdgeId): (b: bool)
      reads this
      ensures Organized(constraints, lookup, edges) ==> (b <==> BaseId(id) <= 4 * |edges|)
    {
      BaseId(id) <= |constraints|
    }

    /** `has_edge` as evidently intended: the edge's constraints exist. */
    function HasEdgeCorrected(id: EdgeId): (b: bool)
      reads this
      ensures Organized(constraints, lookup, edges) ==> (b <==> BaseId(id) < |edges|)
    {
      BaseId(id) < |constraints| / 4
    }
  }

  // ---- Lemmas ----

  /** Storing the inactive constraints of a new canonical edge under the next base id keeps the organisation. */
  lemma OrganizedPush(cs: seq<DirConstraint>, lookup: map<Edge, Uint32>, edges: seq<Edge>, e: Edge)
    requires Organized(cs, lookup, edges) && |edges| < MAX_EDGES
    requires IsCanonical(e) && Encodable(e) && e !in lookup
    ensures Organized(cs + PairSeq(NewInactives(e)), lookup[e := |edges|], edges + [e])
  {
    var cs' := cs + PairSeq(NewInactives(e));
    var edges' := edges + [e];
    assert LaidOut(cs', 4 * |edges|, e);
    forall b | 0 <= b < |edges|
      ensures LaidOut(cs', 4 * b, edges'[b])
    {
      assert LaidOut(cs, 4 * b, edges[b]);
    }
  }

  /** Removing the last edge's constraints and lookup entry keeps the organisation; its first constraint is the edge's forward view. */
  lemma OrganizedPop(cs: seq<DirConstraint>, lookup: map<Edge, Uint32>, edges: seq<Edge>)
    requires Organized(cs, lookup, edges) && |edges| > 0
    ensures |cs| >= 4 && cs[|cs| - 4].(active := false) == Forward(edges[|edges| - 1])
    ensures AsEdge(cs[|cs| - 4]) == edges[|edges| - 1]
    ensures Organized(cs[..|cs| - 4], lookup - {edges[|edges| - 1]}, edges[..|edges| - 1])
  {
    var m := |edges| - 1;
    var cs' := cs[..|cs| - 4];
    var edges' := edges[..m];
    var lookup' := lookup - {edges[m]};
    assert LaidOut(cs, 4 * m, edges[m]);
    ViewsAsEdge(edges[m]);
    assert AsEdge(cs[4 * m]) == AsEdge(cs[4 * m].(active := false));
    forall b | 0 <= b < m
      ensures LaidOut(cs', 4 * b, edges'[b])
    {
      assert LaidOut(cs, 4 * b, edges[b]);
    }
    forall e | e in lookup'
      ensures lookup'[e] < m && edges'[lookup'[e]] == e
    {
      assert lookup[e] != m;
    }
    forall b | 0 <= b < m
      ensures edges'[b] in lookup' && lookup'[edges'[b]] == b
    {
      assert edges[b] != edges[m];
    }
  }

  /** Changing one activity flag keeps the organisation. */
  lemma OrganizedSetFlag(cs: seq<DirConstraint>, lookup: map<Edge, Uint32>, edges: seq<Edge>, i: nat, active: bool)
    requires Organized(cs, lookup, edges) && i < |cs|
    ensures Organized(cs[i := cs[i].(active := active)], lookup, edges)
  {
    var cs' := cs[i := cs[i].(active := active)];
    forall b | 0 <= b < |edges|
      ensures LaidOut(cs', 4 * b, edges[b])
    {
      assert LaidOut(cs, 4 * b, edges[b]);
    }
  }

  /** In a valid database, `find_existing` finds an edge exactly when its canonical form is stored, under the right flag. */
  lemma FindExistingMeaning(db: ConstraintDb, edge: Edge)
    requires db.Valid()
    ensures db.FindExisting(edge).Some? <==> Canonical(edge) in db.edges
    ensures db.FindExisting(edge).Some? ==>
      var id := db.FindExisting(edge).value;
      && BaseId(id) < |db.edges| && db.edges[BaseId(id)] == Canonical(edge)
      && IsNegatedId(id) == !IsCanonical(edge)
  {
    if Canonical(edge) in db.edges {
      var b :| 0 <= b < |db.edges| && db.edges[b] == Canonical(edge);
      assert Canonical(edge) in db.lookup;
    }
    if db.FindExisting(edge).Some? {
      var key := Canonical(edge);
      assert key in db.lookup;
      EdgeIdFields(db.lookup[key], !IsCanonical(edge));
    }
  }

  /**
   * The views stored for a known edge id are, up to their flags, the two views of the edge it
   * denotes, and a known edge has encodable endpoints.
   */
  lemma KnownIdDenotesEdge(db: ConstraintDb, edge: Edge)
    requires db.Valid() && db.FindExisting(edge).Some?
    ensures var id := db.FindExisting(edge).value;
      && DirForward(id).raw < |db.constraints| && AsEdge(db.constraints[DirForward(id).raw]) == edge
      && DirBackward(id).raw < |db.constraints|
      && db.constraints[DirForward(id).raw].(active := false) == Forward(edge)
      && db.constraints[DirBackward(id).raw].(active := false) == Backward(edge)
      && Encodable(edge)
  {
    FindExistingMeaning(db, edge);
    var id := db.FindExisting(edge).value;
    var b := BaseId(id);
    var i := DirForward(id).raw;
    EdgeIdDecomposes(id);
    DirEdgeIndices(b);
    assert LaidOut(db.constraints, 4 * b, db.edges[b]);
    var base := db.edges[b];
    PairViews(base);
    ExactlyOneCanonical(edge);
    NegatedInvolutive(edge);
    assert AsEdge(db.constraints[i]) == AsEdge(db.constraints[i].(active := false));
  }

  /** The corrected check holds exactly for the ids of stored edges. */
  lemma HasEdgeCorrectedMeaning(db: ConstraintDb, id: EdgeId)
    requires db.Valid()
    ensures db.HasEdgeCorrected(id) <==> BaseId(id) < |db.edges|
    ensures db.HasEdgeCorrected(id) ==> DirBackward(id).raw < |db.constraints|
  {
    if BaseId(id) < |db.edges| {
      EdgeIdDecomposes(id);
      DirEdgeIndices(BaseId(id));
    }
  }

  /** The id found for an edge passes the corrected check. */
  lemma FoundIdStored(db: ConstraintDb, edge: Edge)
    requires db.Valid() && db.FindExisting(edge).Some?
    ensures db.HasEdgeCorrected(db.FindExisting(edge).value)
  {
    FindExistingMeaning(db, edge);
    HasEdgeCorrectedMeaning(db, db.FindExisting(edge).value);
  }

  /** As written the check accepts an id in an empty database, where no edge exists. */
  lemma HasEdgeAcceptsMissingEdge(db: ConstraintDb)
    requires db.Valid() && db.constraints == []
    ensures db.HasEdge(EdgeId(0)) && !db.HasEdgeCorrected(EdgeId(0))
  {
  }

  // ---- Scenario of the unification test ----

  /** The unification test: the same edge twice gets one id; an edge and its negation share a base id. */
  method TestUnification() returns (id1: EdgeId, id2: EdgeId, id: EdgeId, nid: EdgeId)
    ensures id1 == id2
    ensures BaseId(id) == BaseId(nid) && IsNegatedId(id) != IsNegatedId(nid)
  {
    var db := new ConstraintDb();
    var a, b := 0, 1;
    var c1, c2, c3, c4;
    c1, id1 := db.PushEdge(a, b, 1);
    c2, id2 := db.PushEdge(a, b, 1);
    var e := Edge(a, b, 3);
    assert Negated(e) == Edge(b, a, -4);
    c3, id := db.PushEdge(e.source, e.target, e.weight);
    c4, nid := db.PushEdge(b, a, -4);
    NotIdFlips(id);
  }
}
