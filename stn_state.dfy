/**
 * The specification layer of the incremental STN: raw bounds read from the integer domains,
 * the propagation invariant, the set of bounds changed by others and not yet propagated, and the
 * abstract network state that the undo trail restores.
 */
module StnState {
  import opened VarBounds
  import opened StnEdges
  import IntModel

  type Domains = seq<IntModel.IntDomain>

  /** An active propagation rule out of one bound: `target <= source + weight` on raw bounds. */
  datatype Propagator = Propagator(target: VarBound, weight: int, id: DirEdge)

  datatype Event = Level(level: nat) | EdgeAdded | EdgeActivated(edge: DirEdge) | AddedTheoryPropagationCause

  /** The kinds of inconsistency the network reports (their explanations are not modelled). */
  datatype Contradiction = EmptyDomain(bound: VarBound) | NegativeCycle(bound: VarBound) | NegativeSelfLoop(edge: DirEdge)

  // ---- Raw bounds over the integer domains (`Domains::get_bound`/`set_bound`, assumed) ----

  /** The raw bound of id `b`: the upper bound of variable `b / 2` for odd ids, the negated lower bound for even ones. */
  function RawBound(doms: Domains, b: nat): int
  {
    if b / 2 >= |doms| then 0
    else if b % 2 == 1 then doms[b / 2].ub else -doms[b / 2].lb
  }

  /** Sets the raw bound of id `b`. */
  function SetRaw(doms: Domains, b: nat, raw: int): (r: Domains)
    requires b / 2 < |doms|
    ensures |r| == |doms|
  {
    doms[b / 2 := if b % 2 == 1 then IntModel.IntDomain(doms[b / 2].lb, raw) else IntModel.IntDomain(-raw, doms[b / 2].ub)]
  }

  /** Setting `raw` on `b` would leave its variable with an empty domain. */
  predicate Empties(doms: Domains, b: nat, raw: int)
    requires b / 2 < |doms|
  {
    raw + RawBound(doms, if b % 2 == 1 then b - 1 else b + 1) < 0
  }

  /** The sum of the domain widths (empty domains count zero): every tightening decreases it. */
  function Width(doms: Domains): nat
  {
    if doms == [] then 0
    else Width(doms[..|doms| - 1]) + (var d := doms[|doms| - 1]; if d.ub >= d.lb then d.ub - d.lb else 0)
  }

  // ---- The propagation invariant ----

  /** Every active propagator out of a bound not in `except` is satisfied. */
  predicate Propagated(props: seq<seq<Propagator>>, doms: Domains, except: set<nat>)
  {
    forall s, j :: 0 <= s < |props| && 0 <= j < |props[s]| && s !in except ==>
      RawBound(doms, props[s][j].target.id) <= RawBound(doms, s) + props[s][j].weight
  }

  /** The bound whose change a trail entry records. */
  function ChangedBound(entry: IntModel.TrailEntry): nat
  {
    match entry.event.ev
    case NewLB(_, _) => 2 * entry.event.v
    case NewUB(_, _) => 2 * entry.event.v + 1
  }

  /** An entry not caused by an inference of `writer`. */
  predicate External(entry: IntModel.TrailEntry, writer: nat)
  {
    !(entry.cause.Inference? && entry.cause.writer == writer)
  }

  /** The bounds changed by other writers in `entries`: those still to be propagated when unread. */
  function PendingExternal(entries: seq<IntModel.TrailEntry>, writer: nat): set<nat>
  {
    if entries == [] then {}
    else (if External(entries[0], writer) then {ChangedBound(entries[0])} else {}) + PendingExternal(entries[1..], writer)
  }

  // ---- The abstract state restored by undo ----

  /** Propagator lists, constraints (with the flag of positive self loops ignored) and lookup. */
  datatype NetState = NetState(props: seq<seq<Propagator>>, constraints: seq<DirConstraint>, lookup: map<Edge, Uint32>)

  /** A positive self loop is activated without being recorded: its flag is not part of the restored state. */
  function NormC(c: DirConstraint): DirConstraint
  {
    if c.source == c.target && c.weight >= 0 then c.(active := false) else c
  }

  function Norm(cs: seq<DirConstraint>): (r: seq<DirConstraint>)
    ensures |r| == |cs|
    ensures forall i :: 0 <= i < |cs| ==> r[i] == NormC(cs[i])
  {
    if cs == [] then [] else Norm(cs[..|cs| - 1]) + [NormC(cs[|cs| - 1])]
  }

  function PopList<T>(l: seq<T>): seq<T>
  {
    if l == [] then [] else l[..|l| - 1]
  }

  /** The effect of undoing one trail event in `undo_to_last_backtrack_point`. */
  function UndoNetEvent(s: NetState, ev: Event): NetState
  {
    match ev
    case EdgeAdded =>
      if |s.constraints| >= 4 then
        NetState(s.props, s.constraints[..|s.constraints| - 4], s.lookup - {AsEdge(s.constraints[|s.constraints| - 4])})
      else
        NetState(s.props, [], s.lookup)
    case EdgeActivated(e) =>
      if e.raw < |s.constraints| then
        var src := s.constraints[e.raw].source.id;
        NetState(
          if src < |s.props| then s.props[src := PopList(s.props[src])] else s.props,
          s.constraints[e.raw := s.constraints[e.raw].(active := false)],
          s.lookup)
      else s
    case Level(_) => s
    case AddedTheoryPropagationCause => s
  }

  /** Undoes a run of events, newest first. */
  function UndoNetAll(s: NetState, events: seq<Event>): NetState
  {
    if events == [] then s else UndoNetEvent(UndoNetAll(s, events[1..]), events[0])
  }

  /** `u` is the saved state, up to propagator slots reserved later, which are empty. */
  predicate RestoresTo(u: NetState, saved: NetState)
  {
    && u.constraints == saved.constraints && u.lookup == saved.lookup
    && |saved.props| <= |u.props| && u.props[..|saved.props|] == saved.props
    && forall i :: |saved.props| <= i < |u.props| ==> u.props[i] == []
  }

  /** Two more empty propagator slots. */
  function Reserve(s: NetState): NetState
  {
    s.(props := s.props + [[], []])
  }

  // ---- Lemmas ----

  /** Setting a raw bound changes that bound and no other. */
  lemma RawBoundAfterSet(doms: Domains, b: nat, raw: int, x: nat)
    requires b / 2 < |doms|
    ensures RawBound(SetRaw(doms, b, raw), x) == if x == b then raw else RawBound(doms, x)
  {
    if x != b && x / 2 == b / 2 {
      assert x % 2 != b % 2;
    }
  }

  /** A tightening that empties no domain decreases the total width. */
  lemma {:induction false} WidthDecreases(doms: Domains, b: nat, raw: int)
    requires b / 2 < |doms|
    requires raw < RawBound(doms, b) && !Empties(doms, b, raw)
    ensures Width(SetRaw(doms, b, raw)) < Width(doms)
    decreases |doms|
  {
    var n := |doms| - 1;
    var r := SetRaw(doms, b, raw);
    if b / 2 == n {
      assert r[..n] == doms[..n];
    } else {
      assert SetRaw(doms, b, raw)[..n] == SetRaw(doms[..n], b, raw);
      WidthDecreases(doms[..n], b, raw);
    }
  }

  /**
   * Tightening bound `t` keeps every propagator satisfied except possibly those out of `t`:
   * the propagators into `t` only get slack.
   */
  lemma PropagatedAfterTighten(props: seq<seq<Propagator>>, doms: Domains, except: set<nat>, t: nat, raw: int)
    requires t / 2 < |doms| && raw <= RawBound(doms, t)
    requires Propagated(props, doms, except)
    ensures Propagated(props, SetRaw(doms, t, raw), except + {t})
  {
    var d := SetRaw(doms, t, raw);
    forall s, j | 0 <= s < |props| && 0 <= j < |props[s]| && s !in except + {t}
      ensures RawBound(d, props[s][j].target.id) <= RawBound(d, s) + props[s][j].weight
    {
      RawBoundAfterSet(doms, t, raw, s);
      RawBoundAfterSet(doms, t, raw, props[s][j].target.id);
    }
  }

  /** Appending an entry adds its bound to the pending external changes exactly when it is external. */
  lemma {:induction false} PendingExternalAppend(entries: seq<IntModel.TrailEntry>, e: IntModel.TrailEntry, writer: nat)
    ensures PendingExternal(entries + [e], writer) ==
      PendingExternal(entries, writer) + (if External(e, writer) then {ChangedBound(e)} else {})
    decreases |entries|
  {
    if entries == [] {
      assert ([] + [e])[1..] == [];
    } else {
      assert (entries + [e])[1..] == entries[1..] + [e];
      PendingExternalAppend(entries[1..], e, writer);
    }
  }

  /** Entries of `writer` itself do not add to the pending external changes. */
  lemma PendingExternalOwnAppend(entries: seq<IntModel.TrailEntry>, e: IntModel.TrailEntry, writer: nat)
    requires !External(e, writer)
    ensures PendingExternal(entries + [e], writer) == PendingExternal(entries, writer)
  {
    PendingExternalAppend(entries, e, writer);
  }

  /** A run of entries of `writer` itself adds nothing to the pending external changes. */
  lemma {:induction false} PendingExternalOwnSuffix(entries: seq<IntModel.TrailEntry>, more: seq<IntModel.TrailEntry>, writer: nat)
    requires forall i :: 0 <= i < |more| ==> !External(more[i], writer)
    ensures PendingExternal(entries + more, writer) == PendingExternal(entries, writer)
    decreases |more|
  {
    if more == [] {
      assert entries + more == entries;
    } else {
      var init := more[..|more| - 1];
      assert entries + more == (entries + init) + [more[|more| - 1]];
      PendingExternalOwnAppend(entries + init, more[|more| - 1], writer);
      PendingExternalOwnSuffix(entries, init, writer);
    }
  }

  /** Reading one entry removes at most its own bound from the pending external changes. */
  lemma PendingExternalPop(entries: seq<IntModel.TrailEntry>, writer: nat)
    requires entries != []
    ensures PendingExternal(entries, writer) ==
      (if External(entries[0], writer) then {ChangedBound(entries[0])} else {}) + PendingExternal(entries[1..], writer)
  {
  }

  /** Adding a propagator that is satisfied keeps the network propagated. */
  lemma PropagatedPush(props: seq<seq<Propagator>>, doms: Domains, except: set<nat>, s: nat, p: Propagator)
    requires s < |props| && Propagated(props, doms, except)
    requires s !in except ==> RawBound(doms, p.target.id) <= RawBound(doms, s) + p.weight
    ensures Propagated(props[s := props[s] + [p]], doms, except)
  {
    var q: seq<seq<Propagator>> := props[s := props[s] + [p]];
    forall t: nat, j: nat | t < |q| && j < |q[t]| && t !in except
      ensures RawBound(doms, q[t][j].target.id) <= RawBound(doms, t) + q[t][j].weight
    {
      if t == s && j == |props[s]| {
      } else {
        assert q[t][j] == props[t][j];
      }
    }
  }

  /** Undoing commutes with reserving propagator slots. */
  lemma UndoNetEventReserve(s: NetState, ev: Event)
    ensures UndoNetEvent(Reserve(s), ev) == Reserve(UndoNetEvent(s, ev))
  {
  }

  lemma {:induction false} UndoNetAllReserve(s: NetState, events: seq<Event>)
    ensures UndoNetAll(Reserve(s), events) == Reserve(UndoNetAll(s, events))
    decreases |events|
  {
    if events != [] {
      UndoNetAllReserve(s, events[1..]);
      UndoNetEventReserve(UndoNetAll(s, events[1..]), events[0]);
    }
  }

  /** Reserved slots stay empty after undo, so the restored state is still the saved one. */
  lemma RestoresToReserve(u: NetState, saved: NetState)
    requires RestoresTo(u, saved)
    ensures RestoresTo(Reserve(u), saved)
  {
    var r := Reserve(u);
    assert r.props[..|u.props|] == u.props;
    assert r.props[..|saved.props|] == u.props[..|saved.props|];
  }

  /** Undoing an event recorded last is undoing it first. */
  lemma {:induction false} UndoNetAllPush(s: NetState, events: seq<Event>, last: Event)
    ensures UndoNetAll(s, events + [last]) == UndoNetAll(UndoNetEvent(s, last), events)
    decreases |events|
  {
    if events == [] {
      assert ([] + [last])[1..] == [];
    } else {
      assert (events + [last])[1..] == events[1..] + [last];
      UndoNetAllPush(s, events[1..], last);
    }
  }

  /** Undoing two runs, the newer run first. */
  lemma {:induction false} UndoNetAllConcat(s: NetState, older: seq<Event>, newer: seq<Event>)
    ensures UndoNetAll(s, older + newer) == UndoNetAll(UndoNetAll(s, newer), older)
    decreases |older|
  {
    if older == [] {
      assert [] + newer == newer;
    } else {
      assert (older + newer)[1..] == older[1..] + newer;
      UndoNetAllConcat(s, older[1..], newer);
    }
  }

  /** Undoing the events recorded since each backtrack point gives back the state saved there. */
  predicate SavedStatesRestore(s: NetState, events: seq<Event>, points: seq<nat>, snapshots: seq<NetState>)
  {
    && |snapshots| == |points|
    && (forall k :: 0 <= k < |points| ==> points[k] <= |events|)
    && forall k :: 0 <= k < |points| ==> RestoresTo(UndoNetAll(s, events[points[k]..]), snapshots[k])
  }

  /** Recording an event whose undo leads back to a state that restores the saved ones keeps them restorable. */
  lemma SavedStatesPush(s: NetState, ev: Event, events: seq<Event>, points: seq<nat>, snapshots: seq<NetState>)
    requires SavedStatesRestore(UndoNetEvent(s, ev), events, points, snapshots)
    ensures SavedStatesRestore(s, events + [ev], points, snapshots)
  {
    forall k | 0 <= k < |points|
      ensures RestoresTo(UndoNetAll(s, (events + [ev])[points[k]..]), snapshots[k])
    {
      assert (events + [ev])[points[k]..] == events[points[k]..] + [ev];
      UndoNetAllPush(s, events[points[k]..], ev);
    }
  }

  /** Reserving slots keeps every saved state restorable. */
  lemma SavedStatesReserve(s: NetState, events: seq<Event>, points: seq<nat>, snapshots: seq<NetState>)
    requires SavedStatesRestore(s, events, points, snapshots)
    ensures SavedStatesRestore(Reserve(s), events, points, snapshots)
  {
    forall k | 0 <= k < |points|
      ensures RestoresTo(UndoNetAll(Reserve(s), events[points[k]..]), snapshots[k])
    {
      UndoNetAllReserve(s, events[points[k]..]);
      RestoresToReserve(UndoNetAll(s, events[points[k]..]), snapshots[k]);
    }
  }

  /** Saving the current state at the end of the events keeps every saved state restorable, the new one included. */
  lemma SavedStatesSave(s: NetState, events: seq<Event>, points: seq<nat>, snapshots: seq<NetState>)
    requires SavedStatesRestore(s, events, points, snapshots)
    ensures SavedStatesRestore(s, events, points + [|events|], snapshots + [s])
  {
    assert events[|events|..] == [];
    assert s.props[..|s.props|] == s.props;
  }

  /**
   * Undoing the events since the last backtrack point restores the state saved there, and the
   * older saved states stay restorable from the shortened events.
   */
  lemma SavedStatesUndo(s: NetState, events: seq<Event>, points: seq<nat>, snapshots: seq<NetState>)
    requires SavedStatesRestore(s, events, points, snapshots) && |points| > 0
    requires forall k :: 0 <= k < |points| ==> points[k] <= points[|points| - 1]
    ensures var n := |points| - 1; var u := UndoNetAll(s, events[points[n]..]);
      && RestoresTo(u, snapshots[n])
      && SavedStatesRestore(u, events[..points[n]], points[..n], snapshots[..n])
  {
    var n := |points| - 1;
    var b := points[n];
    var u := UndoNetAll(s, events[b..]);
    forall k | 0 <= k < n
      ensures RestoresTo(UndoNetAll(u, events[..b][points[k]..]), snapshots[k])
    {
      var older := events[points[k]..b];
      assert events[points[k]..] == older + events[b..];
      assert events[..b][points[k]..] == older;
      UndoNetAllConcat(s, older, events[b..]);
    }
  }

  /** Two domain sequences agree on every bound of the first one's variables. */
  lemma RawBoundPrefix(doms: Domains, more: Domains, b: nat)
    requires |doms| <= |more| && more[..|doms|] == doms && b / 2 < |doms|
    ensures RawBound(more, b) == RawBound(doms, b)
  {
    assert more[b / 2] == doms[b / 2];
  }

  /** Every source and target of `props` is a bound of one of the first `n` variables. */
  predicate WithinVars(props: seq<seq<Propagator>>, n: nat)
  {
    && |props| <= 2 * n
    && forall s, j :: 0 <= s < |props| && 0 <= j < |props[s]| ==> props[s][j].target.id < |props|
  }

  /**
   * Restoring a propagated state: if the saved propagators were all satisfied by the saved
   * domains, they still are once the domains agree with the saved ones on their variables and
   * the propagators agree with the saved ones up to empty slots reserved later.
   */
  lemma PropagatedRestored(saved: seq<seq<Propagator>>, savedDoms: Domains, props: seq<seq<Propagator>>, doms: Domains)
    requires Propagated(saved, savedDoms, {}) && WithinVars(saved, |savedDoms|)
    requires |saved| <= |props| && props[..|saved|] == saved
    requires forall i :: |saved| <= i < |props| ==> props[i] == []
    requires |savedDoms| <= |doms| && doms[..|savedDoms|] == savedDoms
    ensures Propagated(props, doms, {})
  {
    forall s, j | 0 <= s < |props| && 0 <= j < |props[s]|
      ensures RawBound(doms, props[s][j].target.id) <= RawBound(doms, s) + props[s][j].weight
    {
      assert s < |saved| && props[s] == saved[s];
      RawBoundPrefix(savedDoms, doms, s);
      RawBoundPrefix(savedDoms, doms, saved[s][j].target.id);
    }
  }

  /** The latest times: every variable at its upper bound. */
  function Latest(doms: Domains): Timepoint -> int
  {
    (v: Timepoint) => if v < |doms| then doms[v].ub else 0
  }

  /** The earliest times: every variable at its lower bound. */
  function Earliest(doms: Domains): Timepoint -> int
  {
    (v: Timepoint) => if v < |doms| then doms[v].lb else 0
  }

  /**
   * What propagation achieves: when the propagators of both views of an edge are satisfied, the
   * edge holds both at the latest and at the earliest times of the domains.
   */
  lemma PropagatedEdgeHolds(props: seq<seq<Propagator>>, doms: Domains, e: Edge, j: nat, k: nat)
    requires Encodable(e) && e.source < |doms| && e.target < |doms|
    requires Propagated(props, doms, {})
    requires Ub(e.source).id < |props| && j < |props[Ub(e.source).id]|
    requires props[Ub(e.source).id][j].target == Ub(e.target) && props[Ub(e.source).id][j].weight == Forward(e).weight
    requires Lb(e.target).id < |props| && k < |props[Lb(e.target).id]|
    requires props[Lb(e.target).id][k].target == Lb(e.source) && props[Lb(e.target).id][k].weight == Backward(e).weight
    ensures Holds(e, Latest(doms)) && Holds(e, Earliest(doms))
  {
    BoundIds(e.source);
    BoundIds(e.target);
  }

  // ---- Active constraints and their propagators ----

  /** Every active constraint between distinct bounds has its propagator in the list of its source. */
  ghost predicate ActiveLinked(s: NetState)
  {
    forall d: DirEdge :: d.raw < |s.constraints| && s.constraints[d.raw].active && s.constraints[d.raw].source != s.constraints[d.raw].target ==>
      && s.constraints[d.raw].source.id < |s.props|
      && Propagator(s.constraints[d.raw].target, s.constraints[d.raw].weight, d) in s.props[s.constraints[d.raw].source.id]
  }

  /** Only the flags of self loops differ in the normalised state, and self loops have no propagator. */
  lemma ActiveLinkedNorm(s: NetState)
    ensures ActiveLinked(NormState(s)) <==> ActiveLinked(s)
  {
  }

  /** A restored state has the links of the saved one. */
  lemma ActiveLinkedRestores(u: NetState, saved: NetState)
    requires RestoresTo(u, saved) && ActiveLinked(saved)
    ensures ActiveLinked(u)
  {
    forall d: DirEdge | d.raw < |u.constraints| && u.constraints[d.raw].active && u.constraints[d.raw].source != u.constraints[d.raw].target
      ensures Propagator(u.constraints[d.raw].target, u.constraints[d.raw].weight, d) in u.props[u.constraints[d.raw].source.id]
    {
      assert u.props[u.constraints[d.raw].source.id] == u.props[..|saved.props|][u.constraints[d.raw].source.id];
    }
  }

  lemma ActiveLinkedReserve(s: NetState)
    requires ActiveLinked(s)
    ensures ActiveLinked(Reserve(s))
  {
    forall d: DirEdge | d.raw < |s.constraints| && s.constraints[d.raw].active && s.constraints[d.raw].source != s.constraints[d.raw].target
      ensures Reserve(s).props[s.constraints[d.raw].source.id] == s.props[s.constraints[d.raw].source.id]
    {
    }
  }

  /** Appending inactive constraints keeps the links. */
  lemma ActiveLinkedAppendInactive(props: seq<seq<Propagator>>, cs: seq<DirConstraint>, more: seq<DirConstraint>, lookup: map<Edge, Uint32>, lookup': map<Edge, Uint32>)
    requires ActiveLinked(NetState(props, cs, lookup)) && forall c :: c in more ==> !c.active
    ensures ActiveLinked(NetState(props, cs + more, lookup'))
  {
    forall d: DirEdge | |cs| <= d.raw < |cs + more|
      ensures !(cs + more)[d.raw].active
    {
      assert (cs + more)[d.raw] in more;
    }
  }

  /** Flagging a constraint active while appending its propagator to its source's list keeps the links. */
  lemma ActiveLinkedActivate(props: seq<seq<Propagator>>, cs: seq<DirConstraint>, lookup: map<Edge, Uint32>, e: DirEdge)
    requires ActiveLinked(NetState(props, cs, lookup))
    requires e.raw < |cs| && cs[e.raw].source.id < |props|
    ensures var c := cs[e.raw];
      ActiveLinked(NetState(props[c.source.id := props[c.source.id] + [Propagator(c.target, c.weight, e)]], cs[e.raw := c.(active := true)], lookup))
  {
    var c := cs[e.raw];
    var props' := props[c.source.id := props[c.source.id] + [Propagator(c.target, c.weight, e)]];
    forall s | 0 <= s < |props|
      ensures forall p :: p in props[s] ==> p in props'[s]
    {
    }
  }

  /** Flagging a self loop changes no link. */
  lemma ActiveLinkedSelfLoop(props: seq<seq<Propagator>>, cs: seq<DirConstraint>, lookup: map<Edge, Uint32>, i: nat)
    requires ActiveLinked(NetState(props, cs, lookup)) && i < |cs| && cs[i].source == cs[i].target
    ensures ActiveLinked(NetState(props, cs[i := cs[i].(active := true)], lookup))
  {
  }

  /** `after` is `before` with some flags raised and nothing else changed. */
  predicate FlagsOnlyRise(before: seq<DirConstraint>, after: seq<DirConstraint>)
  {
    |after| == |before| && forall i :: 0 <= i < |before| ==> after[i] == before[i] || after[i] == before[i].(active := true)
  }

  /** Raising flags twice is raising flags. */
  lemma FlagsOnlyRiseTrans(a: seq<DirConstraint>, b: seq<DirConstraint>, c: seq<DirConstraint>)
    requires FlagsOnlyRise(a, b) && FlagsOnlyRise(b, c)
    ensures FlagsOnlyRise(a, c)
  {
  }

  /** Every edge of `edges` names a constraint of `cs` flagged active. */
  predicate AllActive(cs: seq<DirConstraint>, edges: seq<DirEdge>)
  {
    forall d :: d in edges ==> d.raw < |cs| && cs[d.raw].active
  }

  /** Raising flags keeps the active edges active, and one more active edge joins them. */
  lemma AllActiveStep(a: seq<DirConstraint>, b: seq<DirConstraint>, done: seq<DirEdge>, edge: DirEdge)
    requires FlagsOnlyRise(a, b) && AllActive(a, done) && edge.raw < |b| && b[edge.raw].active
    ensures AllActive(b, done + [edge])
  {
  }

  /**
   * How a pending edge is activated: `AsWritten` raises its flag before testing for a self
   * loop, as `propagate_all` does; `Corrected` tests first, so a negative self loop is
   * reported without being flagged.
   */
  datatype Activation = AsWritten | Corrected

  /**
   * How activating `edges` can fail: an empty domain, a negative cycle, or one of them is a
   * negative self loop of `cs`, which is left flagged active exactly when activated `AsWritten`.
   */
  predicate ActivationFailure(mode: Activation, cs: seq<DirConstraint>, e: Contradiction, edges: seq<DirEdge>)
  {
    || e.EmptyDomain? || e.NegativeCycle?
    || (&& e.NegativeSelfLoop? && e.edge in edges && e.edge.raw < |cs|
        && cs[e.edge.raw].active == mode.AsWritten?
        && cs[e.edge.raw].source == cs[e.edge.raw].target && cs[e.edge.raw].weight < 0)
  }

  /** Moving the first pending edge to the done ones keeps their concatenation. */
  lemma MoveFirst(done: seq<DirEdge>, pending: seq<DirEdge>)
    requires pending != []
    ensures (done + [pending[0]]) + pending[1..] == done + pending
    ensures pending[0] in done + pending
  {
    assert (done + pending)[|done|] == pending[0];
  }

  /** With nothing pending, the done edges are all the edges. */
  lemma NothingLeft(done: seq<DirEdge>)
    ensures done + [] == done
  {
  }

  /** A failure activating some of `edges` is a failure activating `edges`. */
  lemma ActivationFailureAmong(mode: Activation, cs: seq<DirConstraint>, e: Contradiction, some: seq<DirEdge>, edges: seq<DirEdge>)
    requires ActivationFailure(mode, cs, e, some) && forall d :: d in some ==> d in edges
    ensures ActivationFailure(mode, cs, e, edges)
  {
  }

  /** Raising flags keeps active edges active. */
  lemma AllActiveRise(a: seq<DirConstraint>, b: seq<DirConstraint>, edges: seq<DirEdge>)
    requires FlagsOnlyRise(a, b) && AllActive(a, edges)
    ensures AllActive(b, edges)
  {
  }

  /**
   * What activation and propagation achieve together: when both views of an edge between
   * distinct timepoints are active, their propagators are linked and all satisfied, the edge holds
   * at the latest and at the earliest times of the domains.
   */
  lemma ActiveEdgeHolds(s: NetState, doms: Domains, e: Edge, f: DirEdge, b: DirEdge)
    requires ActiveLinked(s) && Propagated(s.props, doms, {})
    requires Encodable(e) && e.source != e.target && e.source < |doms| && e.target < |doms|
    requires f.raw < |s.constraints| && s.constraints[f.raw].active && s.constraints[f.raw].(active := false) == Forward(e)
    requires b.raw < |s.constraints| && s.constraints[b.raw].active && s.constraints[b.raw].(active := false) == Backward(e)
    ensures Holds(e, Latest(doms)) && Holds(e, Earliest(doms))
  {
    BoundIds(e.source);
    BoundIds(e.target);
    var fp := Propagator(Ub(e.target), Forward(e).weight, f);
    var bp := Propagator(Lb(e.source), Backward(e).weight, b);
    assert fp in s.props[Ub(e.source).id];
    assert bp in s.props[Lb(e.target).id];
    var j :| 0 <= j < |s.props[Ub(e.source).id]| && s.props[Ub(e.source).id][j] == fp;
    var k :| 0 <= k < |s.props[Lb(e.target).id]| && s.props[Lb(e.target).id][k] == bp;
    PropagatedEdgeHolds(s.props, doms, e, j, k);
  }

  /** Each trail entry's bound belongs to its variable. */
  lemma ChangedBoundOfEntry(entry: IntModel.TrailEntry)
    ensures ChangedBound(entry) / 2 == entry.event.v
    ensures ChangedBound(entry) % 2 == (if entry.event.ev.NewUB? then 1 else 0)
  {
  }

  /** The network state with the flags of positive self loops ignored. */
  function NormState(s: NetState): NetState
  {
    s.(constraints := Norm(s.constraints))
  }

  /** Undoing an event commutes with the normalisation. */
  lemma NormUndoEvent(s: NetState, ev: Event)
    ensures UndoNetEvent(NormState(s), ev) == NormState(UndoNetEvent(s, ev))
  {
    match ev {
      case EdgeAdded =>
        NormUndoEdgeAdded(s);
      case EdgeActivated(e) =>
        NormUndoActivated(s, e);
      case Level(_) =>
      case AddedTheoryPropagationCause =>
    }
  }

  /** Removing the last pair commutes with the normalisation. */
  lemma NormUndoEdgeAdded(s: NetState)
    ensures UndoNetEvent(NormState(s), EdgeAdded) == NormState(UndoNetEvent(s, EdgeAdded))
  {
    var cs := s.constraints;
    if |cs| >= 4 {
      NormPrefix(cs, |cs| - 4);
      assert AsEdge(Norm(cs)[|cs| - 4]) == AsEdge(cs[|cs| - 4]);
    }
  }

  /** Popping a propagator and clearing a flag commute with the normalisation. */
  lemma NormUndoActivated(s: NetState, e: DirEdge)
    ensures UndoNetEvent(NormState(s), EdgeActivated(e)) == NormState(UndoNetEvent(s, EdgeActivated(e)))
  {
    var cs := s.constraints;
    if e.raw < |cs| {
      NormUpdate(cs, e.raw, cs[e.raw].(active := false));
    }
  }

  lemma {:induction false} NormUndoAll(s: NetState, events: seq<Event>)
    ensures UndoNetAll(NormState(s), events) == NormState(UndoNetAll(s, events))
    decreases |events|
  {
    if events != [] {
      NormUndoAll(s, events[1..]);
      NormUndoEvent(UndoNetAll(s, events[1..]), events[0]);
    }
  }

  /** Undoing the creation of an edge removes its four constraints and its lookup entry. */
  lemma UndoEdgeAddedRestores(props: seq<seq<Propagator>>, cs: seq<DirConstraint>, lookup: map<Edge, Uint32>, edge: Edge, b: Uint32)
    requires Encodable(edge) && Canonical(edge) !in lookup
    ensures UndoNetEvent(NormState(NetState(props, cs + PairSeq(NewInactives(edge)), lookup[Canonical(edge) := b])), EdgeAdded)
      == NormState(NetState(props, cs, lookup))
  {
    var more := cs + PairSeq(NewInactives(edge));
    var n := |cs|;
    PairViews(edge);
    NormAppend(cs, PairSeq(NewInactives(edge)));
    assert more[..n] == cs;
    NormPrefix(more, n);
    assert AsEdge(Norm(more)[n]) == Canonical(edge);
    assert lookup[Canonical(edge) := b] - {Canonical(edge)} == lookup;
  }

  /** Undoing an activation pops the propagator pushed for it and clears its flag again. */
  lemma UndoActivationRestores(props: seq<seq<Propagator>>, cs: seq<DirConstraint>, lookup: map<Edge, Uint32>, e: DirEdge, p: Propagator)
    requires e.raw < |cs| && !cs[e.raw].active && cs[e.raw].source != cs[e.raw].target
    requires cs[e.raw].source.id < |props|
    ensures var c := cs[e.raw];
      UndoNetEvent(NormState(NetState(props[c.source.id := props[c.source.id] + [p]], cs[e.raw := c.(active := true)], lookup)), EdgeActivated(e))
        == NormState(NetState(props, cs, lookup))
  {
    var c := cs[e.raw];
    var src := c.source.id;
    NormUpdate(cs, e.raw, c.(active := true));
    assert PopList(props[src] + [p]) == props[src];
    assert props[src := props[src] + [p]][src := props[src]] == props;
    assert Norm(cs)[e.raw := NormC(c.(active := true)).(active := false)] == Norm(cs);
  }

  /** The flag of a positive self loop is invisible in the normalised state. */
  lemma PositiveSelfLoopInvisible(cs: seq<DirConstraint>, i: nat)
    requires i < |cs| && cs[i].source == cs[i].target && cs[i].weight >= 0
    ensures Norm(cs[i := cs[i].(active := true)]) == Norm(cs)
  {
    NormUpdate(cs, i, cs[i].(active := true));
  }

  /** The normalisation commutes with the updates the network makes to its constraints. */
  lemma NormUpdate(cs: seq<DirConstraint>, i: nat, c: DirConstraint)
    requires i < |cs|
    ensures Norm(cs[i := c]) == Norm(cs)[i := NormC(c)]
  {
  }

  lemma NormPrefix(cs: seq<DirConstraint>, n: nat)
    requires n <= |cs|
    ensures Norm(cs[..n]) == Norm(cs)[..n]
  {
  }

  lemma NormAppend(cs: seq<DirConstraint>, more: seq<DirConstraint>)
    ensures Norm(cs + more) == Norm(cs) + Norm(more)
  {
  }
  /** No event of `events` removes constraints or resets the flag of constraint `i`. */
  predicate LeavesFlag(events: seq<Event>, i: nat)
  {
    forall k :: 0 <= k < |events| ==> !events[k].EdgeAdded? && (events[k].EdgeActivated? ==> events[k].edge.raw != i)
  }

  /** A flag that no undone event resets survives the undo. */
  lemma {:induction false} FlagSurvivesUndo(s: NetState, events: seq<Event>, i: nat)
    requires i < |s.constraints| && s.constraints[i].active && LeavesFlag(events, i)
    ensures |UndoNetAll(s, events).constraints| == |s.constraints|
    ensures UndoNetAll(s, events).constraints[i].active
    decreases |events|
  {
    if events != [] {
      assert LeavesFlag(events[1..], i) by {
        forall k | 0 <= k < |events[1..]| ensures events[1..][k] == events[k + 1] { }
      }
      FlagSurvivesUndo(s, events[1..], i);
    }
  }

  /**
   * A constraint flagged active without a trail entry (as `propagate_all` does with a negative
   * self loop) is still active once the events since a backtrack point are undone, so the state
   * saved there, in which it was inactive, is not restored.
   */
  lemma UnrecordedFlagNotRestored(s: NetState, events: seq<Event>, i: nat, saved: NetState)
    requires i < |s.constraints| && s.constraints[i].active && LeavesFlag(events, i)
    requires i < |saved.constraints| && !saved.constraints[i].active
    ensures !RestoresTo(UndoNetAll(s, events), saved)
  {
    FlagSurvivesUndo(s, events, i);
  }
}
