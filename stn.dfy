/**
 * The incremental simple temporal network (`IncStn`): difference constraints between timepoints
 * whose bounds live in the integer model. Active edges are propagators between raw bounds; bound
 * changes are propagated until every active propagator is satisfied, and the changes of the
 * network itself are recorded on a trail so that they can be undone to a backtrack point.
 */
module Stn {
  import opened Wrappers
  import opened VarBounds
  import opened Queues
  import opened StnEdges
  import opened StnDb
  import opened StnState
  import IntModel

  /**
   * `events` extends `before` with inferences of `writer` only, and by no more entries than the
   * total domain width lost.
   */
  ghost predicate OwnGrowth(before: seq<IntModel.TrailEntry>, events: seq<IntModel.TrailEntry>, w0: int, w: int, writer: nat)
  {
    && before <= events && |events| - |before| <= w0 - w
    && forall i :: |before| <= i < |events| ==> !External(events[i], writer)
  }

  lemma OwnGrowthTrans(e0: seq<IntModel.TrailEntry>, e1: seq<IntModel.TrailEntry>, e2: seq<IntModel.TrailEntry>, w0: int, w1: int, w2: int, writer: nat)
    requires OwnGrowth(e0, e1, w0, w1, writer) && OwnGrowth(e1, e2, w1, w2, writer)
    ensures OwnGrowth(e0, e2, w0, w2, writer)
  {
    forall i | |e0| <= i < |e2|
      ensures !External(e2[i], writer)
    {
      if i < |e1| {
        assert e2[i] == e1[i];
      }
    }
  }

  /** Inferences of the network itself leave the pending external changes as they were. */
  lemma OwnGrowthKeepsPending(before: seq<IntModel.TrailEntry>, events: seq<IntModel.TrailEntry>, w0: int, w: int, writer: nat, p: nat)
    requires OwnGrowth(before, events, w0, w, writer) && p <= |before|
    ensures PendingExternal(events[p..], writer) == PendingExternal(before[p..], writer)
  {
    var more := events[|before|..];
    assert events[p..] == before[p..] + more;
    PendingExternalOwnSuffix(before[p..], more, writer);
  }

  /**
   * A stored edge between distinct timepoints whose two views are active holds once every
   * linked propagator is satisfied.
   */
  lemma KnownEdgeHolds(db: ConstraintDb, s: NetState, doms: Domains, edge: Edge, id: EdgeId)
    requires db.Valid() && db.FindExisting(edge) == Some(id) && edge.source != edge.target
    requires s.constraints == db.constraints && ActiveLinked(s) && Propagated(s.props, doms, {})
    requires |s.props| <= 2 * |doms|
    requires forall i :: 0 <= i < |s.constraints| ==> s.constraints[i].source.id < |s.props|
    requires AllActive(s.constraints, [DirForward(id), DirBackward(id)])
    ensures Holds(edge, Latest(doms)) && Holds(edge, Earliest(doms))
  {
    KnownIdDenotesEdge(db, edge);
    var f, b := DirForward(id), DirBackward(id);
    assert f in [f, b] && b in [f, b];
    assert s.constraints[f.raw].source == Ub(edge.source) && s.constraints[b.raw].source == Lb(edge.target);
    BoundIds(edge.source);
    BoundIds(edge.target);
    ActiveEdgeHolds(s, doms, edge, f, b);
  }

  /**
   * `Domains::set_bound` on raw bounds: a bound that is not stronger changes nothing and gives
   * `Ok(false)`; a stronger one that would empty the domain gives an empty-domain contradiction
   * and changes nothing; otherwise the bound is set, one event with `cause` is recorded and the
   * result is `Ok(true)`.
   */
  method SetBound(model: IntModel.DiscreteModel, b: VarBound, raw: int, cause: IntModel.Cause) returns (r: Result<bool, Contradiction>)
    requires model.Valid() && b.id / 2 < |model.domains|
    modifies model, model.trail
    ensures model.Valid()
    ensures model.labels == old(model.labels) && model.exprBinding == old(model.exprBinding) && model.saved == old(model.saved)
    ensures model.trail.backtrackPoints == old(model.trail.backtrackPoints) && model.trail.lastBacktrack == old(model.trail.lastBacktrack)
    ensures old(RawBound(model.domains, b.id)) <= raw ==>
      r == Ok(false) && model.domains == old(model.domains) && model.trail.events == old(model.trail.events)
    ensures raw < old(RawBound(model.domains, b.id)) && old(Empties(model.domains, b.id, raw)) ==>
      r == Err(EmptyDomain(b)) && model.domains == old(model.domains) && model.trail.events == old(model.trail.events)
    ensures raw < old(RawBound(model.domains, b.id)) && !old(Empties(model.domains, b.id, raw)) ==>
      && r == Ok(true) && model.domains == SetRaw(old(model.domains), b.id, raw)
      && model.trail.events == old(model.trail.events) + [IntModel.TrailEntry(IntModel.VarEvent(b.id / 2,
           if b.id % 2 == 1 then IntModel.NewUB(old(model.domains[b.id / 2].ub), raw)
           else IntModel.NewLB(old(model.domains[b.id / 2].lb), -raw)), cause)]
  {
    var v := b.id / 2;
    if b.id % 2 == 1 {
      if raw < model.domains[v].ub {
        if raw < model.domains[v].lb {
          return Err(EmptyDomain(b));
        }
        model.SetUb(v, raw, cause);
        return Ok(true);
      }
      return Ok(false);
    } else {
      if -raw > model.domains[v].lb {
        if -raw > model.domains[v].ub {
          return Err(EmptyDomain(b));
        }
        model.SetLb(v, -raw, cause);
        return Ok(true);
      }
      return Ok(false);
    }
  }

  /** The work list of the propagation loop: the queue of bounds to visit and the set still pending. */
  class PropagationQueue {
    var queue: seq<nat>
    var pending: set<nat>

    constructor ()
      ensures queue == [] && pending == {}
    {
      queue := [];
      pending := {};
    }

    /** A pending bound is always still queued. */
    ghost predicate Valid()
      reads this
    {
      forall x :: x in pending ==> x in queue
    }

    /** `clean_up_propagation_state`: unmarks every queued bound, which leaves nothing pending. */
    method CleanUp()
      requires Valid()
      modifies this
      ensures Valid() && queue == [] && pending == {}
    {
      var i := 0;
      while i < |queue|
        invariant 0 <= i <= |queue| && queue == old(queue)
        invariant forall x :: x in pending ==> x in queue[i..]
      {
        pending := pending - {queue[i]};
        i := i + 1;
      }
      queue := [];
    }
  }

  /** Popping the last edge, four views at a time, is the undo of its `EdgeAdded` event. */
  lemma PopUndoesEdgeAdded(props: seq<seq<Propagator>>, cs: seq<DirConstraint>, lookup: map<Edge, Uint32>, edges: seq<Edge>,
                            cs': seq<DirConstraint>, lookup': map<Edge, Uint32>, edges': seq<Edge>)
    requires |cs| == 4 * |edges|
    requires |edges| == 0 ==> cs' == cs && lookup' == lookup && edges' == edges
    requires |edges| > 0 ==>
      && cs' == cs[..|cs| - 4] && edges' == edges[..|edges| - 1]
      && lookup' == lookup - {edges[|edges| - 1]} && edges[|edges| - 1] == AsEdge(cs[|cs| - 4])
    ensures NetState(props, cs', lookup') == UndoNetEvent(NetState(props, cs, lookup), EdgeAdded)
    ensures |cs'| <= |cs| && forall i :: 0 <= i < |cs'| ==> cs'[i] == cs[i]
  {
    if |edges| == 0 {
      assert cs == [];
    } else {
      assert |cs| >= 4;
    }
  }

  /**
   * Whether the network is still restorable after an activation that returned `r`: always with
   * the corrected activation, and as written unless a negative self loop was flagged.
   */
  predicate Restorable(mode: Activation, r: Result<(), Contradiction>)
  {
    mode == Corrected || !(r.Err? && r.error.NegativeSelfLoop?)
  }

  class IncStn {
    const db: ConstraintDb
    /** The active propagators out of each bound, by bound id: two slots per timepoint. */
    var activePropagators: seq<seq<Propagator>>
    /** The network's own changes, for undo. */
    const trail: ObsTrail<Event>
    var pendingActivations: seq<DirEdge>
    /** The writer under which the network records its inferences. */
    const writer: nat
    /** The read position in the model's trail. */
    const modelEvents: ObsTrailCursor<IntModel.TrailEntry>
    const work: PropagationQueue
    /** The network state at each backtrack point. */
    ghost var snapshots: seq<NetState>

    ghost function RawState(): NetState
      reads this, db
    {
      NetState(activePropagators, db.constraints, db.lookup)
    }

    ghost function State(): NetState
      reads this, db
    {
      NormState(RawState())
    }

    /** The structural invariant: indices in range, no propagator from a bound to itself. */
    ghost predicate Wf()
      reads this, db, trail
    {
      && db.Valid() && trail.Valid() && PropsWf()
      && (forall i :: 0 <= i < |db.constraints| ==>
            db.constraints[i].source.id < |activePropagators| && db.constraints[i].target.id < |activePropagators|)
      && (forall i :: 0 <= i < |pendingActivations| ==> pendingActivations[i].raw < |db.constraints|)
      && (forall i :: 0 <= i < |trail.events| ==> !trail.events[i].Level?)
    }

    /** Two slots per timepoint, and no propagator from a bound to itself or to a bound without a slot. */
    ghost predicate PropsWf()
      reads this
    {
      && |activePropagators| % 2 == 0 && |activePropagators| <= U32_MODULUS
      && (forall s, j :: 0 <= s < |activePropagators| && 0 <= j < |activePropagators[s]| ==>
            activePropagators[s][j].target.id != s && activePropagators[s][j].target.id < |activePropagators|)
    }

    /** Every active constraint has its propagator, now and in every saved state. */
    ghost predicate PropagatorsPresent()
      reads this, db
    {
      && ActiveLinked(RawState())
      && forall k :: 0 <= k < |snapshots| ==> ActiveLinked(snapshots[k])
    }

    /**
     * Undoing the events since each backtrack point restores the state saved there, and every
     * active constraint has its propagator.
     */
    ghost predicate Valid()
      reads this, db, trail
    {
      && Wf() && SavedStatesRestore(State(), trail.events, trail.backtrackPoints, snapshots)
      && PropagatorsPresent()
    }

    /**
     * The network reads the trail of `model`, whose domains hold the bounds of its timepoints,
     * and its work list is consistent.
     */
    ghost predicate Linked(model: IntModel.DiscreteModel)
      reads this, modelEvents, model, model.trail, work
    {
      && model.Valid() && modelEvents.MatchesQueue(model.trail)
      && modelEvents.SyncedRead(model.trail) <= |model.trail.events|
      && |activePropagators| <= 2 * |model.domains|
      && work.Valid()
    }

    /** The bounds changed by other writers that the network has not read yet. */
    ghost function ExternalPending(model: IntModel.DiscreteModel): set<nat>
      reads modelEvents, model.trail
      requires modelEvents.SyncedRead(model.trail) <= |model.trail.events|
    {
      PendingExternal(model.trail.events[modelEvents.SyncedRead(model.trail)..], writer)
    }

    constructor (writer: nat)
      ensures Valid() && fresh(db) && fresh(trail) && fresh(modelEvents) && fresh(work)
      ensures this.writer == writer
      ensures activePropagators == [] && pendingActivations == [] && work.queue == [] && work.pending == {}
      ensures db.constraints == [] && db.lookup == map[] && db.edges == []
      ensures trail.events == [] && trail.backtrackPoints == [] && snapshots == []
      ensures modelEvents.queueId == None && modelEvents.nextRead == 0 && modelEvents.lastBacktrack == None
    {
      db := new ConstraintDb();
      activePropagators := [];
      trail := new ObsTrail(0);
      pendingActivations := [];
      this.writer := writer;
      modelEvents := new ObsTrailCursor();
      work := new PropagationQueue();
      snapshots := [];
    }

    function NumNodes(): (n: nat)
      reads this
      ensures |activePropagators| % 2 == 0 ==> 2 * n == |activePropagators|
    {
      |activePropagators| / 2
    }

    /** `has_edges`: the timepoint has propagator slots. */
    function HasEdges(v: Timepoint): (b: bool)
      reads this
      ensures |activePropagators| % 2 == 0 && v < ENCODABLE_VARS ==>
        (b <==> Lb(v).id < |activePropagators| && Ub(v).id < |activePropagators|)
    {
      v < NumNodes()
    }

    function NumSaved(): nat
      reads trail
    {
      trail.NumSaved()
    }

    /** Adds empty propagator slots for both bounds of one more timepoint. */
    method ReserveTimepoint()
      requires Valid() && |activePropagators| + 2 <= U32_MODULUS
      modifies this
      ensures Valid()
      ensures activePropagators == old(activePropagators) + [[], []]
      ensures pendingActivations == old(pendingActivations) && snapshots == old(snapshots)
    {
      ghost var s := State();
      ActiveLinkedReserve(RawState());
      activePropagators := activePropagators + [[], []];
      assert State() == Reserve(s);
      SavedStatesReserve(s, trail.events, trail.backtrackPoints, snapshots);
    }

    /** The reservation loop of `add_inactive_constraint`: slots for both endpoints. */
    method ReserveUpTo(source: Timepoint, target: Timepoint)
      requires Valid() && source < ENCODABLE_VARS && target < ENCODABLE_VARS
      modifies this
      ensures Valid()
      ensures source < NumNodes() && target < NumNodes()
      ensures |old(activePropagators)| <= |activePropagators|
      ensures activePropagators[..|old(activePropagators)|] == old(activePropagators)
      ensures forall i :: |old(activePropagators)| <= i < |activePropagators| ==> activePropagators[i] == []
      ensures pendingActivations == old(pendingActivations) && snapshots == old(snapshots)
    {
      var top := if source > target then source else target;
      while source >= NumNodes() || target >= NumNodes()
        invariant Valid()
        invariant |old(activePropagators)| <= |activePropagators|
        invariant |activePropagators| > |old(activePropagators)| ==> |activePropagators| <= 2 * (top + 1)
        invariant activePropagators[..|old(activePropagators)|] == old(activePropagators)
        invariant forall i :: |old(activePropagators)| <= i < |activePropagators| ==> activePropagators[i] == []
        invariant pendingActivations == old(pendingActivations) && snapshots == old(snapshots)
        decreases top + 1 - NumNodes()
      {
        ReserveTimepoint();
      }
    }

    /** Pushes `ev` on the trail when undoing it gives back what each backtrack point saved. */
    method RecordEvent(ev: Event)
      requires Wf() && PropagatorsPresent() && !ev.Level?
      requires SavedStatesRestore(UndoNetEvent(State(), ev), trail.events, trail.backtrackPoints, snapshots)
      modifies trail
      ensures Valid()
      ensures trail.events == old(trail.events) + [ev] && trail.backtrackPoints == old(trail.backtrackPoints)
    {
      ghost var events := trail.events;
      trail.Push(ev);
      SavedStatesPush(State(), ev, events, trail.backtrackPoints, snapshots);
    }

    /**
     * The second half of `add_inactive_constraint`, once both endpoints have slots: adds the
     * edge's inactive constraints unless it or its negation is known; a created edge is recorded.
     */
    method PushConstraints(source: Timepoint, target: Timepoint, weight: int) returns (id: EdgeId, created: bool)
      requires Valid() && Encodable(Edge(source, target, weight)) && |db.edges| < MAX_EDGES
      requires source < NumNodes() && target < NumNodes()
      modifies db, trail
      ensures Valid()
      ensures created <==> old(db.FindExisting(Edge(source, target, weight))).None?
      ensures db.FindExisting(Edge(source, target, weight)) == Some(id)
      ensures db.FindExisting(Negated(Edge(source, target, weight))) == Some(NotId(id))
      ensures created ==> db.constraints == old(db.constraints) + PairSeq(NewInactives(Edge(source, target, weight)))
      ensures created ==> id == NewEdgeId(|old(db.edges)|, !IsCanonical(Edge(source, target, weight)))
      ensures !created ==> db.constraints == old(db.constraints) && db.edges == old(db.edges)
      ensures trail.events == old(trail.events) + (if created then [EdgeAdded] else [])
      ensures trail.backtrackPoints == old(trail.backtrackPoints)
    {
      var edge := Edge(source, target, weight);
      ghost var cs := db.constraints;
      ghost var lookup := db.lookup;
      ghost var b := |db.edges|;
      NegatedInvolutive(edge);
      ghost var found := db.FindExisting(edge);
      created, id := db.PushEdge(source, target, weight);
      if created {
        assert found.None? && Canonical(edge) !in lookup;
        RecordEdgeAdded(edge, cs, lookup, b);
      } else {
        assert db.constraints == cs && db.lookup == lookup;
        assert RawState() == old(RawState());
      }
    }

    /** Records the creation of `edge`, whose constraints were just appended to `cs`. */
    method RecordEdgeAdded(edge: Edge, ghost cs: seq<DirConstraint>, ghost lookup: map<Edge, Uint32>, ghost b: Uint32)
      requires db.Valid() && trail.Valid() && PropsWf()
      requires forall i :: 0 <= i < |cs| ==> cs[i].source.id < |activePropagators| && cs[i].target.id < |activePropagators|
      requires forall i :: 0 <= i < |pendingActivations| ==> pendingActivations[i].raw < |cs|
      requires forall i :: 0 <= i < |trail.events| ==> !trail.events[i].Level?
      requires Encodable(edge) && edge.source < NumNodes() && edge.target < NumNodes() && Canonical(edge) !in lookup
      requires db.constraints == cs + PairSeq(NewInactives(edge)) && db.lookup == lookup[Canonical(edge) := b]
      requires SavedStatesRestore(NormState(NetState(activePropagators, cs, lookup)), trail.events, trail.backtrackPoints, snapshots)
      requires ActiveLinked(NetState(activePropagators, cs, lookup)) && forall k :: 0 <= k < |snapshots| ==> ActiveLinked(snapshots[k])
      modifies trail
      ensures Valid()
      ensures trail.events == old(trail.events) + [EdgeAdded] && trail.backtrackPoints == old(trail.backtrackPoints)
    {
      PairBoundsBelow(edge, NumNodes());
      PairViews(edge);
      ActiveLinkedAppendInactive(activePropagators, cs, PairSeq(NewInactives(edge)), lookup, db.lookup);
      assert forall i :: |cs| <= i < |db.constraints| ==> db.constraints[i] in PairSeq(NewInactives(edge));
      UndoEdgeAddedRestores(activePropagators, cs, lookup, edge, b);
      RecordEvent(EdgeAdded);
    }

    /**
     * `add_inactive_constraint`: reserves timepoints up to both endpoints, then adds the edge's
     * inactive constraints unless it or its negation is known; a created edge is recorded.
     */
    method AddInactiveConstraint(source: Timepoint, target: Timepoint, weight: int) returns (id: EdgeId, created: bool)
      requires Valid() && Encodable(Edge(source, target, weight)) && |db.edges| < MAX_EDGES
      modifies this, db, trail
      ensures Valid()
      ensures created <==> old(db.FindExisting(Edge(source, target, weight))).None?
      ensures db.FindExisting(Edge(source, target, weight)) == Some(id)
      ensures db.FindExisting(Negated(Edge(source, target, weight))) == Some(NotId(id))
      ensures created ==> db.constraints == old(db.constraints) + PairSeq(NewInactives(Edge(source, target, weight)))
      ensures created ==> id == NewEdgeId(|old(db.edges)|, !IsCanonical(Edge(source, target, weight)))
      ensures !created ==> db.constraints == old(db.constraints) && db.edges == old(db.edges)
      ensures trail.events == old(trail.events) + (if created then [EdgeAdded] else [])
      ensures trail.backtrackPoints == old(trail.backtrackPoints)
      ensures source < NumNodes() && target < NumNodes()
      ensures |old(activePropagators)| <= |activePropagators|
      ensures activePropagators[..|old(activePropagators)|] == old(activePropagators)
      ensures forall i :: |old(activePropagators)| <= i < |activePropagators| ==> activePropagators[i] == []
      ensures pendingActivations == old(pendingActivations) && snapshots == old(snapshots)
    {
      ReserveUpTo(source, target);
      id, created := PushConstraints(source, target, weight);
    }

    /** `mark_active`: queues both directions of a stored edge for activation. */
    method MarkActive(e: EdgeId)
      requires Valid() && db.HasEdgeCorrected(e)
      modifies this
      ensures Valid()
      ensures pendingActivations == old(pendingActivations) + [DirForward(e), DirBackward(e)]
      ensures activePropagators == old(activePropagators) && snapshots == old(snapshots)
    {
      HasEdgeCorrectedMeaning(db, e);
      pendingActivations := pendingActivations + [DirForward(e), DirBackward(e)];
    }

    /**
     * One step of `run_propagation_loop`: relaxes propagator `p` out of `source`, whose bound
     * was `sourceBound` when it left the queue. A stronger bound on the target queues it, unless
     * updating `original` is a cycle. Bounds only ever tighten.
     */
    method Relax(p: Propagator, source: nat, sourceBound: int, original: VarBound, cycleOnUpdate: bool,
                 model: IntModel.DiscreteModel, ghost base: set<nat>) returns (r: Result<(), Contradiction>)
      requires PropsWf() && Linked(model)
      requires p.target.id < |activePropagators| && p.target.id != source
      requires forall i :: 0 <= i < |work.queue| ==> work.queue[i] < |activePropagators|
      requires RawBound(model.domains, source) == sourceBound
      requires Propagated(activePropagators, model.domains, base + work.pending + {source})
      modifies work, model, model.trail
      ensures Linked(model)
      ensures forall i :: 0 <= i < |work.queue| ==> work.queue[i] < |activePropagators|
      ensures model.labels == old(model.labels) && model.exprBinding == old(model.exprBinding) && model.saved == old(model.saved)
      ensures model.trail.backtrackPoints == old(model.trail.backtrackPoints) && model.trail.lastBacktrack == old(model.trail.lastBacktrack)
      ensures OwnGrowth(old(model.trail.events), model.trail.events, old(Width(model.domains)), Width(model.domains), writer)
      ensures modelEvents.SyncedRead(model.trail) == old(modelEvents.SyncedRead(model.trail))
      ensures Width(model.domains) == old(Width(model.domains)) ==> |work.queue| == old(|work.queue|)
      ensures r.Err? ==> r.error.EmptyDomain? || (cycleOnUpdate && r.error == NegativeCycle(original))
      ensures r.Ok? ==>
        && RawBound(model.domains, source) == sourceBound
        && RawBound(model.domains, p.target.id) <= sourceBound + p.weight
        && (forall x: nat :: RawBound(model.domains, x) <= RawBound(old(model.domains), x))
        && Propagated(activePropagators, model.domains, base + work.pending + {source})
    {
      var cause := IntModel.Inference(writer, EncodeCause(EdgePropagation(p.id)));
      var candidate := sourceBound + p.weight;
      ghost var doms := model.domains;
      ghost var events0 := model.trail.events;
      var outcome := SetBound(model, p.target, candidate, cause);
      if outcome.Err? {
        assert model.trail.events == events0;
        return Err(outcome.error);
      }
      if !outcome.value {
        assert model.trail.events == events0;
        return Ok(());
      }
      WidthDecreases(doms, p.target.id, candidate);
      assert OwnGrowth(events0, model.trail.events, Width(doms), Width(model.domains), writer);
      if cycleOnUpdate && p.target.id == original.id {
        return Err(NegativeCycle(original));
      }
      PropagatedAfterTighten(activePropagators, doms, base + work.pending + {source}, p.target.id, candidate);
      RawBoundAfterSet(doms, p.target.id, candidate, source);
      RawBoundAfterSet(doms, p.target.id, candidate, p.target.id);
      forall x: nat
        ensures RawBound(model.domains, x) <= RawBound(doms, x)
      {
        RawBoundAfterSet(doms, p.target.id, candidate, x);
      }
      work.queue := work.queue + [p.target.id];
      work.pending := work.pending + {p.target.id};
      r := Ok(());
    }

    /** The inner loop of `run_propagation_loop`: relaxes every active propagator out of `source`. */
    method RelaxAll(source: nat, sourceBound: int, original: VarBound, cycleOnUpdate: bool,
                    model: IntModel.DiscreteModel, ghost base: set<nat>) returns (r: Result<(), Contradiction>)
      requires PropsWf() && Linked(model) && source < |activePropagators|
      requires forall i :: 0 <= i < |work.queue| ==> work.queue[i] < |activePropagators|
      requires RawBound(model.domains, source) == sourceBound
      requires Propagated(activePropagators, model.domains, base + work.pending + {source})
      modifies work, model, model.trail
      ensures Linked(model)
      ensures forall i :: 0 <= i < |work.queue| ==> work.queue[i] < |activePropagators|
      ensures model.labels == old(model.labels) && model.exprBinding == old(model.exprBinding) && model.saved == old(model.saved)
      ensures model.trail.backtrackPoints == old(model.trail.backtrackPoints) && model.trail.lastBacktrack == old(model.trail.lastBacktrack)
      ensures OwnGrowth(old(model.trail.events), model.trail.events, old(Width(model.domains)), Width(model.domains), writer)
      ensures modelEvents.SyncedRead(model.trail) == old(modelEvents.SyncedRead(model.trail))
      ensures Width(model.domains) == old(Width(model.domains)) ==> |work.queue| == old(|work.queue|)
      ensures r.Err? ==> r.error.EmptyDomain? || (cycleOnUpdate && r.error == NegativeCycle(original))
      ensures r.Ok? ==> Propagated(activePropagators, model.domains, base + work.pending)
    {
      var list := activePropagators[source];
      ghost var events0 := model.trail.events;
      ghost var w0 := Width(model.domains);
      ghost var q0 := |work.queue|;
      var j := 0;
      while j < |list|
        invariant 0 <= j <= |list|
        invariant Linked(model)
        invariant forall i :: 0 <= i < |work.queue| ==> work.queue[i] < |activePropagators|
        invariant model.labels == old(model.labels) && model.exprBinding == old(model.exprBinding) && model.saved == old(model.saved)
        invariant model.trail.backtrackPoints == old(model.trail.backtrackPoints) && model.trail.lastBacktrack == old(model.trail.lastBacktrack)
        invariant OwnGrowth(events0, model.trail.events, w0, Width(model.domains), writer)
        invariant modelEvents.SyncedRead(model.trail) == old(modelEvents.SyncedRead(model.trail))
        invariant Width(model.domains) == w0 ==> |work.queue| == q0
        invariant RawBound(model.domains, source) == sourceBound
        invariant Propagated(activePropagators, model.domains, base + work.pending + {source})
        invariant forall k :: 0 <= k < j ==> RawBound(model.domains, list[k].target.id) <= sourceBound + list[k].weight
      {
        ghost var events1 := model.trail.events;
        ghost var w1 := Width(model.domains);
        r := Relax(list[j], source, sourceBound, original, cycleOnUpdate, model, base);
        OwnGrowthTrans(events0, events1, model.trail.events, w0, w1, Width(model.domains), writer);
        if r.Err? {
          return;
        }
        j := j + 1;
      }
      r := Ok(());
    }

    /** One turn of the propagation loop: pops the front bound and, when still pending, relaxes the propagators out of it. */
    method ProcessQueueFront(original: VarBound, model: IntModel.DiscreteModel, cycleOnUpdate: bool, ghost ext: set<nat>)
      returns (r: Result<(), Contradiction>)
      requires PropsWf() && Linked(model) && work.queue != []
      requires forall i :: 0 <= i < |work.queue| ==> work.queue[i] < |activePropagators|
      requires Propagated(activePropagators, model.domains, ext + work.pending)
      modifies work, model, model.trail
      ensures Linked(model)
      ensures forall i :: 0 <= i < |work.queue| ==> work.queue[i] < |activePropagators|
      ensures model.labels == old(model.labels) && model.exprBinding == old(model.exprBinding) && model.saved == old(model.saved)
      ensures model.trail.backtrackPoints == old(model.trail.backtrackPoints) && model.trail.lastBacktrack == old(model.trail.lastBacktrack)
      ensures OwnGrowth(old(model.trail.events), model.trail.events, old(Width(model.domains)), Width(model.domains), writer)
      ensures modelEvents.SyncedRead(model.trail) == old(modelEvents.SyncedRead(model.trail))
      ensures Width(model.domains) == old(Width(model.domains)) ==> |work.queue| < old(|work.queue|)
      ensures r.Err? ==> r.error.EmptyDomain? || (cycleOnUpdate && r.error == NegativeCycle(original))
      ensures r.Ok? ==> Propagated(activePropagators, model.domains, ext + work.pending)
    {
      var source := work.queue[0];
      work.queue := work.queue[1..];
      var sourceBound := RawBound(model.domains, source);
      if source !in work.pending {
        return Ok(());
      }
      ghost var pending0 := work.pending;
      work.pending := work.pending - {source};
      assert ext + work.pending + {source} == ext + pending0;
      r := RelaxAll(source, sourceBound, original, cycleOnUpdate, model, ext);
    }

    /**
     * `run_propagation_loop`: propagates from `original` until no pending bound is left. With
     * `cycleOnUpdate`, updating `original` again reports a negative cycle. On success every
     * propagator out of a bound not changed externally since the last read is satisfied.
     */
    method RunPropagationLoop(original: VarBound, model: IntModel.DiscreteModel, cycleOnUpdate: bool) returns (r: Result<(), Contradiction>)
      requires PropsWf() && Linked(model) && original.id < |activePropagators|
      requires Propagated(activePropagators, model.domains, ExternalPending(model) + {original.id})
      modifies work, model, model.trail
      ensures Linked(model)
      ensures model.labels == old(model.labels) && model.exprBinding == old(model.exprBinding) && model.saved == old(model.saved)
      ensures model.trail.backtrackPoints == old(model.trail.backtrackPoints) && model.trail.lastBacktrack == old(model.trail.lastBacktrack)
      ensures OwnGrowth(old(model.trail.events), model.trail.events, old(Width(model.domains)), Width(model.domains), writer)
      ensures ExternalPending(model) == old(ExternalPending(model))
      ensures r.Err? ==> r.error.EmptyDomain? || (cycleOnUpdate && r.error == NegativeCycle(original))
      ensures r.Ok? ==> Propagated(activePropagators, model.domains, ExternalPending(model))
    {
      work.CleanUp();
      ghost var ext := ExternalPending(model);
      ghost var p0 := modelEvents.SyncedRead(model.trail);
      ghost var events0 := model.trail.events;
      ghost var w0 := Width(model.domains);
      work.queue := [original.id];
      work.pending := {original.id};
      while work.queue != []
        invariant Linked(model)
        invariant forall i :: 0 <= i < |work.queue| ==> work.queue[i] < |activePropagators|
        invariant model.labels == old(model.labels) && model.exprBinding == old(model.exprBinding) && model.saved == old(model.saved)
        invariant model.trail.backtrackPoints == old(model.trail.backtrackPoints) && model.trail.lastBacktrack == old(model.trail.lastBacktrack)
        invariant OwnGrowth(events0, model.trail.events, w0, Width(model.domains), writer)
        invariant modelEvents.SyncedRead(model.trail) == p0
        invariant Propagated(activePropagators, model.domains, ext + work.pending)
        decreases Width(model.domains), |work.queue|
      {
        ghost var events1 := model.trail.events;
        ghost var w1 := Width(model.domains);
        r := ProcessQueueFront(original, model, cycleOnUpdate, ext);
        OwnGrowthTrans(events0, events1, model.trail.events, w0, w1, Width(model.domains), writer);
        if r.Err? {
          OwnGrowthKeepsPending(events0, model.trail.events, w0, Width(model.domains), writer, p0);
          return;
        }
      }
      OwnGrowthKeepsPending(events0, model.trail.events, w0, Width(model.domains), writer, p0);
      return Ok(());
    }

    /**
     * `propagate_new_edge`: propagates a newly activated propagator (the last one out of its
     * source) in a network where all the others were satisfied.
     */
    method PropagateNewEdge(edge: DirEdge, model: IntModel.DiscreteModel) returns (r: Result<(), Contradiction>)
      requires Valid() && Linked(model) && edge.raw < |db.constraints|
      requires var c := db.constraints[edge.raw];
        && c.source != c.target && |activePropagators[c.source.id]| > 0
        && activePropagators[c.source.id][|activePropagators[c.source.id]| - 1] == Propagator(c.target, c.weight, edge)
        && Propagated(activePropagators[c.source.id := PopList(activePropagators[c.source.id])], model.domains, ExternalPending(model))
      modifies work, model, model.trail
      ensures Linked(model)
      ensures model.labels == old(model.labels) && model.exprBinding == old(model.exprBinding) && model.saved == old(model.saved)
      ensures model.trail.backtrackPoints == old(model.trail.backtrackPoints) && model.trail.lastBacktrack == old(model.trail.lastBacktrack)
      ensures OwnGrowth(old(model.trail.events), model.trail.events, old(Width(model.domains)), Width(model.domains), writer)
      ensures ExternalPending(model) == old(ExternalPending(model))
      ensures r.Err? ==> r.error.EmptyDomain? || r.error.NegativeCycle?
      ensures r.Ok? ==> Propagated(activePropagators, model.domains, ExternalPending(model))
    {
      var c := db.Get(edge);
      var cause := IntModel.Inference(writer, EncodeCause(EdgePropagation(edge)));
      var candidate := RawBound(model.domains, c.source.id) + c.weight;
      ghost var s := c.source.id;
      ghost var np := Propagator(c.target, c.weight, edge);
      ghost var rest := activePropagators[s := PopList(activePropagators[s])];
      assert activePropagators[s] == PopList(activePropagators[s]) + [np];
      assert activePropagators == rest[s := rest[s] + [np]];
      ghost var doms := model.domains;
      ghost var ext := ExternalPending(model);
      ghost var p0 := modelEvents.SyncedRead(model.trail);
      ghost var events0 := model.trail.events;
      var outcome := SetBound(model, c.target, candidate, cause);
      if outcome.Err? {
        return Err(outcome.error);
      }
      if outcome.value {
        WidthDecreases(doms, c.target.id, candidate);
        OwnGrowthKeepsPending(events0, model.trail.events, Width(doms), Width(model.domains), writer, p0);
        PropagatedAfterTighten(rest, doms, ext, c.target.id, candidate);
        RawBoundAfterSet(doms, c.target.id, candidate, s);
        RawBoundAfterSet(doms, c.target.id, candidate, c.target.id);
        PropagatedPush(rest, model.domains, ext + {c.target.id}, s, np);
        ghost var events1 := model.trail.events;
        ghost var w1 := Width(model.domains);
        r := RunPropagationLoop(c.target, model, true);
        OwnGrowthTrans(events0, events1, model.trail.events, Width(doms), w1, Width(model.domains), writer);
      } else {
        PropagatedPush(rest, doms, ext, s, np);
        r := Ok(());
      }
    }

    /**
     * `propagate_bound_change`: a changed bound of a timepoint with propagator slots is
     * propagated; one of any other variable is ignored.
     */
    method PropagateBoundChange(changed: nat, model: IntModel.DiscreteModel) returns (r: Result<(), Contradiction>)
      requires Valid() && Linked(model)
      requires Propagated(activePropagators, model.domains, ExternalPending(model) + {changed})
      modifies work, model, model.trail
      ensures Linked(model)
      ensures model.labels == old(model.labels) && model.exprBinding == old(model.exprBinding) && model.saved == old(model.saved)
      ensures model.trail.backtrackPoints == old(model.trail.backtrackPoints) && model.trail.lastBacktrack == old(model.trail.lastBacktrack)
      ensures OwnGrowth(old(model.trail.events), model.trail.events, old(Width(model.domains)), Width(model.domains), writer)
      ensures ExternalPending(model) == old(ExternalPending(model))
      ensures r.Err? ==> r.error.EmptyDomain?
      ensures r.Ok? ==> Propagated(activePropagators, model.domains, ExternalPending(model))
    {
      if changed / 2 >= NumNodes() {
        assert Propagated(activePropagators, model.domains, ExternalPending(model));
        return Ok(());
      }
      r := RunPropagationLoop(VarBound(changed), model, false);
    }

    /**
     * Activation of an inactive constraint between distinct bounds: its propagator is added and
     * the activation recorded, then the new propagator is propagated.
     */
    method ActivatePropagator(edge: DirEdge, model: IntModel.DiscreteModel) returns (r: Result<(), Contradiction>)
      requires Valid() && Linked(model) && edge.raw < |db.constraints|
      requires !db.constraints[edge.raw].active && db.constraints[edge.raw].source != db.constraints[edge.raw].target
      requires Propagated(activePropagators, model.domains, ExternalPending(model))
      modifies this, db, trail, work, model, model.trail
      ensures Valid() && Linked(model)
      ensures pendingActivations == old(pendingActivations) && snapshots == old(snapshots)
      ensures db.lookup == old(db.lookup) && db.edges == old(db.edges) && trail.backtrackPoints == old(trail.backtrackPoints)
      ensures model.labels == old(model.labels) && model.exprBinding == old(model.exprBinding) && model.saved == old(model.saved)
      ensures model.trail.backtrackPoints == old(model.trail.backtrackPoints) && model.trail.lastBacktrack == old(model.trail.lastBacktrack)
      ensures OwnGrowth(old(model.trail.events), model.trail.events, old(Width(model.domains)), Width(model.domains), writer)
      ensures ExternalPending(model) == old(ExternalPending(model))
      ensures r.Err? ==> r.error.EmptyDomain? || r.error.NegativeCycle?
      ensures r.Ok? ==> Propagated(activePropagators, model.domains, ExternalPending(model))
      ensures var c := old(db.constraints[edge.raw]);
        && db.constraints == old(db.constraints)[edge.raw := c.(active := true)]
        && activePropagators == old(activePropagators)[c.source.id := old(activePropagators[c.source.id]) + [Propagator(c.target, c.weight, edge)]]
        && trail.events == old(trail.events) + [EdgeActivated(edge)]
    {
      var c := db.Get(edge);
      ghost var props := activePropagators;
      AddPropagator(edge);
      assert PopList(activePropagators[c.source.id]) == props[c.source.id];
      assert activePropagators[c.source.id := PopList(activePropagators[c.source.id])] == props;
      r := PropagateNewEdge(edge, model);
    }

    /** Flags the constraint active, appends its propagator to the list of its source and records the activation. */
    method AddPropagator(edge: DirEdge)
      requires Valid() && edge.raw < |db.constraints|
      requires !db.constraints[edge.raw].active && db.constraints[edge.raw].source != db.constraints[edge.raw].target
      modifies this, db, trail
      ensures Valid()
      ensures pendingActivations == old(pendingActivations) && snapshots == old(snapshots)
      ensures db.lookup == old(db.lookup) && db.edges == old(db.edges) && trail.backtrackPoints == old(trail.backtrackPoints)
      ensures var c := old(db.constraints[edge.raw]);
        && db.constraints == old(db.constraints)[edge.raw := c.(active := true)]
        && activePropagators == old(activePropagators)[c.source.id := old(activePropagators[c.source.id]) + [Propagator(c.target, c.weight, edge)]]
        && trail.events == old(trail.events) + [EdgeActivated(edge)]
    {
      var c := db.Get(edge);
      ghost var cs := db.constraints;
      ghost var props := activePropagators;
      ActiveLinkedActivate(props, cs, db.lookup, edge);
      db.SetActive(edge, true);
      var np := Propagator(c.target, c.weight, edge);
      activePropagators := activePropagators[c.source.id := activePropagators[c.source.id] + [np]];
      UndoActivationRestores(props, cs, db.lookup, edge, np);
      RecordEvent(EdgeActivated(edge));
    }

    /**
     * One activation of `propagate_all`, with the negative self loop corrected: an active
     * constraint is skipped; a negative self loop is a contradiction and stays inactive; a
     * positive self loop is only flagged; any other constraint gets its propagator, is recorded
     * and propagated.
     */
    method ActivateEdge(edge: DirEdge, model: IntModel.DiscreteModel) returns (r: Result<(), Contradiction>)
      requires Valid() && Linked(model) && edge.raw < |db.constraints|
      requires Propagated(activePropagators, model.domains, ExternalPending(model))
      modifies this, db, trail, work, model, model.trail
      ensures Valid() && Linked(model)
      ensures pendingActivations == old(pendingActivations) && snapshots == old(snapshots)
      ensures db.lookup == old(db.lookup) && db.edges == old(db.edges) && trail.backtrackPoints == old(trail.backtrackPoints)
      ensures model.labels == old(model.labels) && model.exprBinding == old(model.exprBinding) && model.saved == old(model.saved)
      ensures model.trail.backtrackPoints == old(model.trail.backtrackPoints) && model.trail.lastBacktrack == old(model.trail.lastBacktrack)
      ensures OwnGrowth(old(model.trail.events), model.trail.events, old(Width(model.domains)), Width(model.domains), writer)
      ensures ExternalPending(model) == old(ExternalPending(model))
      ensures r.Ok? ==> Propagated(activePropagators, model.domains, ExternalPending(model))
      ensures FlagsOnlyRise(old(db.constraints), db.constraints)
      ensures r.Ok? ==> db.constraints[edge.raw].active
      ensures r.Err? ==> ActivationFailure(Corrected, db.constraints, r.error, [edge])
      ensures var c := old(db.constraints[edge.raw]);
        (c.active || c.source == c.target) ==>
          && activePropagators == old(activePropagators) && trail.events == old(trail.events)
          && model.domains == old(model.domains) && model.trail.events == old(model.trail.events)
      ensures var c := old(db.constraints[edge.raw]);
        c.active ==> r == Ok(()) && db.constraints == old(db.constraints)
      ensures var c := old(db.constraints[edge.raw]);
        !c.active && c.source == c.target && c.weight < 0 ==>
          r == Err(NegativeSelfLoop(edge)) && db.constraints == old(db.constraints)
      ensures var c := old(db.constraints[edge.raw]);
        !c.active && c.source == c.target && c.weight >= 0 ==>
          r == Ok(()) && db.constraints == old(db.constraints)[edge.raw := c.(active := true)]
      ensures var c := old(db.constraints[edge.raw]);
        !c.active && c.source != c.target ==>
          && db.constraints == old(db.constraints)[edge.raw := c.(active := true)]
          && activePropagators == old(activePropagators)[c.source.id := old(activePropagators[c.source.id]) + [Propagator(c.target, c.weight, edge)]]
          && trail.events == old(trail.events) + [EdgeActivated(edge)]
    {
      var c := db.Get(edge);
      if c.active {
        return Ok(());
      }
      if c.source == c.target {
        if c.weight < 0 {
          return Err(NegativeSelfLoop(edge));
        }
        FlagSelfLoop(edge);
        return Ok(());
      }
      r := ActivatePropagator(edge, model);
    }

    /** Flags a positive self loop active: it has no propagator and the network state does not change. */
    method FlagSelfLoop(edge: DirEdge)
      requires Valid() && edge.raw < |db.constraints|
      requires var c := db.constraints[edge.raw]; !c.active && c.source == c.target && c.weight >= 0
      modifies db
      ensures Valid() && State() == old(State())
      ensures db.constraints == old(db.constraints)[edge.raw := old(db.constraints[edge.raw]).(active := true)]
      ensures db.lookup == old(db.lookup) && db.edges == old(db.edges)
    {
      PositiveSelfLoopInvisible(db.constraints, edge.raw);
      ActiveLinkedSelfLoop(activePropagators, db.constraints, db.lookup, edge.raw);
      db.SetActive(edge, true);
    }

    /**
     * The activation step as `propagate_all` writes it: the flag is set before the self-loop
     * test, so a negative self loop is left active, with nothing on the trail to reset it. In
     * every other case it behaves as `ActivateEdge`.
     */
    method ActivateEdgeAsWritten(edge: DirEdge, model: IntModel.DiscreteModel) returns (r: Result<(), Contradiction>)
      requires Valid() && Linked(model) && edge.raw < |db.constraints|
      requires Propagated(activePropagators, model.domains, ExternalPending(model))
      modifies this, db, trail, work, model, model.trail
      ensures Wf() && Linked(model)
      ensures pendingActivations == old(pendingActivations) && snapshots == old(snapshots)
      ensures db.lookup == old(db.lookup) && db.edges == old(db.edges) && trail.backtrackPoints == old(trail.backtrackPoints)
      ensures model.labels == old(model.labels) && model.exprBinding == old(model.exprBinding) && model.saved == old(model.saved)
      ensures model.trail.backtrackPoints == old(model.trail.backtrackPoints) && model.trail.lastBacktrack == old(model.trail.lastBacktrack)
      ensures OwnGrowth(old(model.trail.events), model.trail.events, old(Width(model.domains)), Width(model.domains), writer)
      ensures ExternalPending(model) == old(ExternalPending(model))
      ensures r.Ok? ==> Propagated(activePropagators, model.domains, ExternalPending(model))
      ensures FlagsOnlyRise(old(db.constraints), db.constraints)
      ensures r.Ok? ==> db.constraints[edge.raw].active
      ensures r.Err? ==> ActivationFailure(AsWritten, db.constraints, r.error, [edge])
      ensures Restorable(AsWritten, r) ==> Valid()
      ensures var c := old(db.constraints[edge.raw]);
        !c.active && c.source == c.target && c.weight < 0 ==>
          && r == Err(NegativeSelfLoop(edge))
          && db.constraints == old(db.constraints)[edge.raw := c.(active := true)]
          && State() != old(State()) && trail.events == old(trail.events)
          && activePropagators == old(activePropagators) && snapshots == old(snapshots)
          && model.domains == old(model.domains) && model.trail.events == old(model.trail.events)
    {
      var c := db.Get(edge);
      if !c.active && c.source == c.target && c.weight < 0 {
        db.SetActive(edge, true);
        NormUpdate(old(db.constraints), edge.raw, c.(active := true));
        assert State().constraints[edge.raw] != old(State()).constraints[edge.raw];
        return Err(NegativeSelfLoop(edge));
      }
      r := ActivateEdge(edge, model);
    }

    /**
     * One iteration of the first inner loop of `propagate_all`: pops the next unread entry of the
     * model's trail and propagates its bound when another writer caused it. `done` when the
     * whole trail has been read.
     */
    method ReadNext(model: IntModel.DiscreteModel) returns (r: Result<(), Contradiction>, done: bool)
      requires Valid() && Linked(model)
      requires Propagated(activePropagators, model.domains, ExternalPending(model))
      modifies work, modelEvents, model, model.trail
      ensures Linked(model)
      ensures model.labels == old(model.labels) && model.exprBinding == old(model.exprBinding) && model.saved == old(model.saved)
      ensures model.trail.backtrackPoints == old(model.trail.backtrackPoints) && model.trail.lastBacktrack == old(model.trail.lastBacktrack)
      ensures OwnGrowth(old(model.trail.events), model.trail.events, old(Width(model.domains)), Width(model.domains), writer)
      ensures done ==> r.Ok? && modelEvents.SyncedRead(model.trail) == |model.trail.events|
      ensures !done ==>
        || Width(model.domains) < old(Width(model.domains))
        || |model.trail.events| - modelEvents.SyncedRead(model.trail) < old(|model.trail.events| - modelEvents.SyncedRead(model.trail))
      ensures r.Err? ==> r.error.EmptyDomain?
      ensures r.Ok? ==> Propagated(activePropagators, model.domains, ExternalPending(model))
    {
      ghost var p := modelEvents.SyncedRead(model.trail);
      ghost var entries := model.trail.events[p..];
      var ev := modelEvents.Pop(model.trail);
      if ev.None? {
        return Ok(()), true;
      }
      var entry := ev.value;
      PendingExternalPop(entries, writer);
      assert entries[1..] == model.trail.events[p + 1..];
      done := false;
      if External(entry, writer) {
        r := PropagateBoundChange(ChangedBound(entry), model);
      } else {
        r := Ok(());
      }
    }

    /**
     * The first inner loop of `propagate_all`: reads the model's trail to its end, propagating
     * every bound changed by another writer; its own inferences are skipped.
     */
    method ReadModelEvents(model: IntModel.DiscreteModel) returns (r: Result<(), Contradiction>)
      requires Valid() && Linked(model)
      requires Propagated(activePropagators, model.domains, ExternalPending(model))
      modifies work, modelEvents, model, model.trail
      ensures Linked(model)
      ensures model.labels == old(model.labels) && model.exprBinding == old(model.exprBinding) && model.saved == old(model.saved)
      ensures model.trail.backtrackPoints == old(model.trail.backtrackPoints) && model.trail.lastBacktrack == old(model.trail.lastBacktrack)
      ensures OwnGrowth(old(model.trail.events), model.trail.events, old(Width(model.domains)), Width(model.domains), writer)
      ensures r.Err? ==> r.error.EmptyDomain?
      ensures r.Ok? ==>
        && modelEvents.SyncedRead(model.trail) == |model.trail.events|
        && Propagated(activePropagators, model.domains, {})
    {
      ghost var events0 := model.trail.events;
      ghost var w0 := Width(model.domains);
      var done := false;
      r := Ok(());
      while !done
        invariant Linked(model)
        invariant model.labels == old(model.labels) && model.exprBinding == old(model.exprBinding) && model.saved == old(model.saved)
        invariant model.trail.backtrackPoints == old(model.trail.backtrackPoints) && model.trail.lastBacktrack == old(model.trail.lastBacktrack)
        invariant OwnGrowth(events0, model.trail.events, w0, Width(model.domains), writer)
        invariant done ==> r.Ok? && modelEvents.SyncedRead(model.trail) == |model.trail.events|
        invariant Propagated(activePropagators, model.domains, ExternalPending(model))
        decreases !done, Width(model.domains), |model.trail.events| - modelEvents.SyncedRead(model.trail)
      {
        ghost var events1 := model.trail.events;
        ghost var w1 := Width(model.domains);
        r, done := ReadNext(model);
        OwnGrowthTrans(events0, events1, model.trail.events, w0, w1, Width(model.domains), writer);
        if r.Err? {
          return;
        }
      }
      assert model.trail.events[|model.trail.events|..] == [];
    }

    /**
     * The second inner loop of `propagate_all`: activates the pending edges in order until none
     * is left or one fails. With `AsWritten` a negative self loop is left flagged active and the
     * saved states may no longer be restorable.
     */
    method ActivatePending(mode: Activation, model: IntModel.DiscreteModel) returns (r: Result<(), Contradiction>)
      requires Valid() && Linked(model)
      requires Propagated(activePropagators, model.domains, ExternalPending(model))
      modifies this, db, trail, work, model, model.trail
      ensures Wf() && Linked(model)
      ensures Restorable(mode, r) ==> Valid()
      ensures snapshots == old(snapshots) && trail.backtrackPoints == old(trail.backtrackPoints)
      ensures db.lookup == old(db.lookup) && db.edges == old(db.edges)
      ensures model.labels == old(model.labels) && model.exprBinding == old(model.exprBinding) && model.saved == old(model.saved)
      ensures model.trail.backtrackPoints == old(model.trail.backtrackPoints) && model.trail.lastBacktrack == old(model.trail.lastBacktrack)
      ensures OwnGrowth(old(model.trail.events), model.trail.events, old(Width(model.domains)), Width(model.domains), writer)
      ensures modelEvents.SyncedRead(model.trail) == old(modelEvents.SyncedRead(model.trail))
      ensures ExternalPending(model) == old(ExternalPending(model))
      ensures r.Ok? ==> pendingActivations == [] && Propagated(activePropagators, model.domains, ExternalPending(model))
      ensures FlagsOnlyRise(old(db.constraints), db.constraints)
      ensures old(pendingActivations) == [] ==> db.constraints == old(db.constraints)
      ensures r.Ok? ==> AllActive(db.constraints, old(pendingActivations))
      ensures r.Err? ==> ActivationFailure(mode, db.constraints, r.error, old(pendingActivations))
    {
      ghost var events0 := model.trail.events;
      ghost var w0 := Width(model.domains);
      ghost var ext := ExternalPending(model);
      ghost var p0 := modelEvents.SyncedRead(model.trail);
      ghost var all := pendingActivations;
      ghost var done: seq<DirEdge> := [];
      r := Ok(());
      while pendingActivations != []
        invariant Valid() && Linked(model)
        invariant done + pendingActivations == all
        invariant all == [] ==> db.constraints == old(db.constraints)
        invariant FlagsOnlyRise(old(db.constraints), db.constraints)
        invariant AllActive(db.constraints, done) && r.Ok?
        invariant snapshots == old(snapshots) && trail.backtrackPoints == old(trail.backtrackPoints)
        invariant db.lookup == old(db.lookup) && db.edges == old(db.edges)
        invariant model.labels == old(model.labels) && model.exprBinding == old(model.exprBinding) && model.saved == old(model.saved)
        invariant model.trail.backtrackPoints == old(model.trail.backtrackPoints) && model.trail.lastBacktrack == old(model.trail.lastBacktrack)
        invariant OwnGrowth(events0, model.trail.events, w0, Width(model.domains), writer)
        invariant modelEvents.SyncedRead(model.trail) == p0
        invariant ExternalPending(model) == ext
        invariant Propagated(activePropagators, model.domains, ext)
        decreases |pendingActivations|
      {
        ghost var edge := pendingActivations[0];
        ghost var events1 := model.trail.events;
        ghost var w1 := Width(model.domains);
        ghost var cs1 := db.constraints;
        MoveFirst(done, pendingActivations);
        r := ActivateFirstPending(mode, model);
        OwnGrowthTrans(events0, events1, model.trail.events, w0, w1, Width(model.domains), writer);
        FlagsOnlyRiseTrans(old(db.constraints), cs1, db.constraints);
        if r.Err? {
          ActivationFailureAmong(mode, db.constraints, r.error, [edge], all);
          return;
        }
        AllActiveStep(cs1, db.constraints, done, edge);
        done := done + [edge];
      }
      NothingLeft(done);
    }

    /**
     * One iteration of the second inner loop of `propagate_all`: takes the first pending edge and
     * activates it as `mode` says.
     */
    method ActivateFirstPending(mode: Activation, model: IntModel.DiscreteModel) returns (r: Result<(), Contradiction>)
      requires Valid() && Linked(model) && pendingActivations != []
      requires Propagated(activePropagators, model.domains, ExternalPending(model))
      modifies this, db, trail, work, model, model.trail
      ensures Wf() && Linked(model)
      ensures Restorable(mode, r) ==> Valid()
      ensures pendingActivations == old(pendingActivations)[1..]
      ensures snapshots == old(snapshots) && trail.backtrackPoints == old(trail.backtrackPoints)
      ensures db.lookup == old(db.lookup) && db.edges == old(db.edges)
      ensures model.labels == old(model.labels) && model.exprBinding == old(model.exprBinding) && model.saved == old(model.saved)
      ensures model.trail.backtrackPoints == old(model.trail.backtrackPoints) && model.trail.lastBacktrack == old(model.trail.lastBacktrack)
      ensures OwnGrowth(old(model.trail.events), model.trail.events, old(Width(model.domains)), Width(model.domains), writer)
      ensures ExternalPending(model) == old(ExternalPending(model))
      ensures modelEvents.SyncedRead(model.trail) == old(modelEvents.SyncedRead(model.trail))
      ensures r.Ok? ==> Propagated(activePropagators, model.domains, ExternalPending(model))
      ensures FlagsOnlyRise(old(db.constraints), db.constraints)
      ensures r.Ok? ==> db.constraints[old(pendingActivations[0]).raw].active
      ensures r.Err? ==> ActivationFailure(mode, db.constraints, r.error, [old(pendingActivations[0])])
    {
      var edge := pendingActivations[0];
      pendingActivations := pendingActivations[1..];
      if mode == AsWritten {
        r := ActivateEdgeAsWritten(edge, model);
      } else {
        r := ActivateEdge(edge, model);
      }
    }

    /**
     * `propagate_all`: reads the model's trail, propagating each bound changed by another
     * writer, then activates the pending edges, until both are exhausted. On success every
     * active propagator is satisfied, nothing is pending and the whole trail has been read.
     * `PropagateAll(AsWritten, model)` is the program; with `Corrected` every failure keeps the
     * saved states restorable.
     */
    method PropagateAll(mode: Activation, model: IntModel.DiscreteModel) returns (r: Result<(), Contradiction>)
      requires Valid() && Linked(model)
      requires Propagated(activePropagators, model.domains, ExternalPending(model))
      modifies this, db, trail, work, modelEvents, model, model.trail
      ensures Wf() && Linked(model)
      ensures Restorable(mode, r) ==> Valid()
      ensures snapshots == old(snapshots) && trail.backtrackPoints == old(trail.backtrackPoints)
      ensures db.lookup == old(db.lookup) && db.edges == old(db.edges)
      ensures model.labels == old(model.labels) && model.exprBinding == old(model.exprBinding) && model.saved == old(model.saved)
      ensures model.trail.backtrackPoints == old(model.trail.backtrackPoints) && model.trail.lastBacktrack == old(model.trail.lastBacktrack)
      ensures old(model.trail.events) <= model.trail.events
      ensures r.Ok? ==>
        && pendingActivations == []
        && modelEvents.SyncedRead(model.trail) == |model.trail.events|
        && Propagated(activePropagators, model.domains, {})
      ensures r.Ok? ==> AllActive(db.constraints, old(pendingActivations))
      ensures r.Err? ==> ActivationFailure(mode, db.constraints, r.error, old(pendingActivations))
    {
      var pending := modelEvents.NumPending(model.trail);
      ghost var first := true;
      while pending > 0 || pendingActivations != []
        invariant Valid() && Linked(model)
        invariant first ==> pendingActivations == old(pendingActivations)
        invariant !first ==> pendingActivations == [] && AllActive(db.constraints, old(pendingActivations))
        invariant Propagated(activePropagators, model.domains, ExternalPending(model))
        invariant pending == |model.trail.events| - modelEvents.SyncedRead(model.trail)
        invariant snapshots == old(snapshots) && trail.backtrackPoints == old(trail.backtrackPoints)
        invariant db.lookup == old(db.lookup) && db.edges == old(db.edges)
        invariant model.labels == old(model.labels) && model.exprBinding == old(model.exprBinding) && model.saved == old(model.saved)
        invariant model.trail.backtrackPoints == old(model.trail.backtrackPoints) && model.trail.lastBacktrack == old(model.trail.lastBacktrack)
        invariant old(model.trail.events) <= model.trail.events
        decreases Width(model.domains), pending, |pendingActivations|
      {
        ghost var pa := pendingActivations;
        r, pending := PropagationStep(mode, model);
        if r.Err? {
          ActivationFailureAmong(mode, db.constraints, r.error, pa, old(pendingActivations));
          return;
        }
        first := false;
      }
      assert model.trail.events[|model.trail.events|..] == [];
      return Ok(());
    }

    /**
     * One iteration of the outer loop of `propagate_all`: a round, then the number of unread
     * events of the model's trail that the loop condition tests.
     */
    method PropagationStep(mode: Activation, model: IntModel.DiscreteModel) returns (r: Result<(), Contradiction>, pending: nat)
      requires Valid() && Linked(model)
      requires Propagated(activePropagators, model.domains, ExternalPending(model))
      modifies this, db, trail, work, modelEvents, model, model.trail
      ensures Wf() && Linked(model)
      ensures Restorable(mode, r) ==> Valid()
      ensures snapshots == old(snapshots) && trail.backtrackPoints == old(trail.backtrackPoints)
      ensures db.lookup == old(db.lookup) && db.edges == old(db.edges)
      ensures model.labels == old(model.labels) && model.exprBinding == old(model.exprBinding) && model.saved == old(model.saved)
      ensures model.trail.backtrackPoints == old(model.trail.backtrackPoints) && model.trail.lastBacktrack == old(model.trail.lastBacktrack)
      ensures old(model.trail.events) <= model.trail.events
      ensures Width(model.domains) <= old(Width(model.domains))
      ensures old(pendingActivations) == [] ==> db.constraints == old(db.constraints)
      ensures r.Err? ==> ActivationFailure(mode, db.constraints, r.error, old(pendingActivations))
      ensures r.Ok? ==>
        && pendingActivations == [] && AllActive(db.constraints, old(pendingActivations))
        && Propagated(activePropagators, model.domains, ExternalPending(model))
        && pending == |model.trail.events| - modelEvents.SyncedRead(model.trail)
        && (Width(model.domains) == old(Width(model.domains)) ==> pending == 0)
    {
      r := PropagationRound(mode, model);
      if r.Err? {
        return r, 0;
      }
      pending := modelEvents.NumPending(model.trail);
    }

    /**
     * One round of `propagate_all`: reads the model's events, then activates the pending edges.
     * A round that infers nothing leaves nothing to read.
     */
    method PropagationRound(mode: Activation, model: IntModel.DiscreteModel) returns (r: Result<(), Contradiction>)
      requires Valid() && Linked(model)
      requires Propagated(activePropagators, model.domains, ExternalPending(model))
      modifies this, db, trail, work, modelEvents, model, model.trail
      ensures Wf() && Linked(model)
      ensures Restorable(mode, r) ==> Valid()
      ensures snapshots == old(snapshots) && trail.backtrackPoints == old(trail.backtrackPoints)
      ensures db.lookup == old(db.lookup) && db.edges == old(db.edges)
      ensures model.labels == old(model.labels) && model.exprBinding == old(model.exprBinding) && model.saved == old(model.saved)
      ensures model.trail.backtrackPoints == old(model.trail.backtrackPoints) && model.trail.lastBacktrack == old(model.trail.lastBacktrack)
      ensures old(model.trail.events) <= model.trail.events
      ensures Width(model.domains) <= old(Width(model.domains))
      ensures r.Ok? ==>
        && pendingActivations == []
        && Propagated(activePropagators, model.domains, ExternalPending(model))
        && (Width(model.domains) == old(Width(model.domains)) ==> modelEvents.SyncedRead(model.trail) == |model.trail.events|)
      ensures FlagsOnlyRise(old(db.constraints), db.constraints)
      ensures old(pendingActivations) == [] ==> db.constraints == old(db.constraints)
      ensures r.Ok? ==> AllActive(db.constraints, old(pendingActivations))
      ensures r.Err? ==> ActivationFailure(mode, db.constraints, r.error, old(pendingActivations))
    {
      ghost var events0 := model.trail.events;
      r := ReadModelEvents(model);
      if r.Err? {
        return;
      }
      assert model.trail.events[|model.trail.events|..] == [];
      ghost var events1 := model.trail.events;
      r := ActivatePending(mode, model);
      if r.Err? {
        return;
      }
      assert events0 <= events1 <= model.trail.events;
    }

    /**
     * `propagate_all` after a stored edge between distinct timepoints was marked active: when
     * propagation succeeds, the edge holds at the latest and at the earliest times of the
     * model's domains.
     */
    method PropagateMarked(mode: Activation, edge: Edge, model: IntModel.DiscreteModel) returns (r: Result<(), Contradiction>)
      requires Valid() && Linked(model) && db.FindExisting(edge).Some? && edge.source != edge.target
      requires DirForward(db.FindExisting(edge).value) in pendingActivations
      requires DirBackward(db.FindExisting(edge).value) in pendingActivations
      requires Propagated(activePropagators, model.domains, ExternalPending(model))
      modifies this, db, trail, work, modelEvents, model, model.trail
      ensures Wf() && Linked(model)
      ensures Restorable(mode, r) ==> Valid()
      ensures r.Ok? ==> Holds(edge, Latest(model.domains)) && Holds(edge, Earliest(model.domains))
    {
      ghost var id := db.FindExisting(edge).value;
      r := PropagateAll(mode, model);
      if r.Ok? {
        KnownEdgeHolds(db, RawState(), model.domains, edge, id);
      }
    }

    /** `set_backtrack_point`: saves the trail position; nothing may be waiting for activation. */
    method SetBacktrackPoint() returns (level: nat)
      requires Valid() && pendingActivations == []
      modifies this, trail
      ensures Valid()
      ensures level == |old(trail.backtrackPoints)|
      ensures trail.backtrackPoints == old(trail.backtrackPoints) + [|trail.events|] && trail.events == old(trail.events)
      ensures RawState() == old(RawState()) && snapshots == old(snapshots) + [State()]
      ensures pendingActivations == []
    {
      SavedStatesSave(State(), trail.events, trail.backtrackPoints, snapshots);
      ActiveLinkedNorm(RawState());
      level := trail.SaveState();
      snapshots := snapshots + [State()];
    }

    /** Undoes the creation of the last edge: its four constraints and its lookup entry are removed. */
    method UndoEdgeAdded()
      requires Wf() && pendingActivations == []
      modifies db
      ensures Wf()
      ensures RawState() == UndoNetEvent(old(RawState()), EdgeAdded)
    {
      ghost var cs, lookup, edges := db.constraints, db.lookup, db.edges;
      db.PopLast();
      PopUndoesEdgeAdded(activePropagators, cs, lookup, edges, db.constraints, db.lookup, db.edges);
    }

    /** Undoes an activation: the last propagator out of its source is popped and its flag cleared. */
    method UndoActivation(e: DirEdge)
      requires Wf() && pendingActivations == []
      modifies this, db
      ensures Wf() && pendingActivations == [] && snapshots == old(snapshots)
      ensures RawState() == UndoNetEvent(old(RawState()), EdgeActivated(e))
    {
      if e.raw < |db.constraints| {
        var src := db.constraints[e.raw].source.id;
        if src < |activePropagators| {
          ghost var list := activePropagators[src];
          activePropagators := activePropagators[src := PopList(activePropagators[src])];
          assert forall j :: 0 <= j < |activePropagators[src]| ==> activePropagators[src][j] == list[j];
        }
        db.SetActive(e, false);
      }
    }

    /** The undo of one trail event, as `undo_to_last_backtrack_point` applies it. */
    method UndoEvent(ev: Event)
      requires Wf() && pendingActivations == []
      modifies this, db
      ensures Wf() && pendingActivations == [] && snapshots == old(snapshots)
      ensures RawState() == UndoNetEvent(old(RawState()), ev)
    {
      match ev {
        case EdgeAdded =>
          UndoEdgeAdded();
        case EdgeActivated(e) =>
          UndoActivation(e);
        case Level(_) =>
        case AddedTheoryPropagationCause =>
      }
    }

    /** Applies the undo of `entries`, given newest first. */
    method UndoEvents(undone: seq<Event>, ghost entries: seq<Event>)
      requires Wf() && pendingActivations == [] && undone == Reversed(entries)
      modifies this, db
      ensures Wf() && pendingActivations == [] && snapshots == old(snapshots)
      ensures RawState() == UndoNetAll(old(RawState()), entries)
    {
      var i := 0;
      while i < |undone|
        invariant 0 <= i <= |undone|
        invariant Wf() && pendingActivations == [] && snapshots == old(snapshots)
        invariant RawState() == UndoNetAll(old(RawState()), entries[|entries| - i..])
      {
        ReversedAt(entries, i);
        assert entries[|entries| - i - 1..][1..] == entries[|entries| - i..];
        UndoEvent(undone[i]);
        i := i + 1;
      }
      assert entries[0..] == entries;
    }

    /**
     * `undo_to_last_backtrack_point`: drops the pending activations and undoes every event since
     * the last backtrack point, which restores the state saved there.
     */
    method UndoToLastBacktrackPoint()
      requires Wf() && |trail.backtrackPoints| > 0
      modifies this, db, trail
      ensures Wf() && pendingActivations == []
      ensures var b := old(trail.backtrackPoints[|trail.backtrackPoints| - 1]);
        && trail.events == old(trail.events[..b])
        && trail.backtrackPoints == old(trail.backtrackPoints[..|trail.backtrackPoints| - 1])
        && RawState() == UndoNetAll(old(RawState()), old(trail.events[b..]))
      ensures old(Valid()) ==> Valid() && RestoresTo(State(), old(snapshots[|snapshots| - 1]))
      ensures old(Valid()) ==> snapshots == old(snapshots[..|snapshots| - 1])
    {
      ghost var wasValid := Valid();
      ghost var events := trail.events;
      ghost var points := trail.backtrackPoints;
      ghost var raw0 := RawState();
      ghost var s0 := State();
      pendingActivations := [];
      var b := trail.backtrackPoints[|trail.backtrackPoints| - 1];
      var undone := trail.BacktrackWithCallback();
      UndoEvents(undone, events[b..]);
      if |snapshots| > 0 {
        snapshots := snapshots[..|snapshots| - 1];
      }
      if wasValid {
        NormUndoAll(raw0, events[b..]);
        SavedStatesUndo(s0, events, points, old(snapshots));
        ActiveLinkedRestores(State(), old(snapshots[|snapshots| - 1]));
        ActiveLinkedNorm(RawState());
      }
    }
  }
}
