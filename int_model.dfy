/**
 * The integer domain store: one `[lb, ub]` interval per variable, tightened monotonically by
 * `SetLb`/`SetUb`, each change recorded as a `(prev, new)` event on a backtrackable trail, so that
 * restoring a save point puts every domain back as it was.
 */
module IntModel {
  import opened Wrappers
  import opened Queues

  type VarRef = nat
  type ExprHandle = nat
  type Label = string

  datatype IntDomain = IntDomain(lb: int, ub: int)

  datatype DomEvent = NewLB(prev: int, next: int) | NewUB(prev: int, next: int)

  datatype VarEvent = VarEvent(v: VarRef, ev: DomEvent)

  /** A decision, or an inference by a writer with a 64-bit payload. */
  datatype Cause = Decision | Inference(writer: nat, payload: nat)

  datatype TrailEntry = TrailEntry(event: VarEvent, cause: Cause)

  /** `v <= val` or `v > val`. */
  datatype ILit = LEQ(v: VarRef, val: int) | GT(v: VarRef, val: int)

  /** The meaning of a literal: whether value `x` of its variable satisfies it. */
  predicate Satisfies(lit: ILit, x: int)
  {
    match lit
    case LEQ(_, c) => x <= c
    case GT(_, c) => x > c
  }

  /** Entailment of a literal by a variable's domain, as `entails` decides it. */
  predicate DomainEntails(d: IntDomain, lit: ILit)
  {
    match lit
    case LEQ(_, c) => d.ub <= c
    case GT(_, c) => d.lb > c
  }

  /** `undo_int_event` on a sequence of domains: puts back the event's previous bound. */
  function UndoEvent(domains: seq<IntDomain>, e: VarEvent): (r: seq<IntDomain>)
    ensures |r| == |domains|
  {
    if e.v >= |domains| then domains
    else
      match e.ev
      case NewLB(prev, _) => domains[e.v := IntDomain(prev, domains[e.v].ub)]
      case NewUB(prev, _) => domains[e.v := IntDomain(domains[e.v].lb, prev)]
  }

  /** Undoes a run of trail entries, newest first. */
  function UndoAll(domains: seq<IntDomain>, entries: seq<TrailEntry>): (r: seq<IntDomain>)
    ensures |r| == |domains|
  {
    if entries == [] then domains else UndoEvent(UndoAll(domains, entries[1..]), entries[0].event)
  }

  /** `intern_expr_with` on the binding map: the existing literal, or `made` newly bound. */
  function Intern(binding: map<ExprHandle, ILit>, handle: ExprHandle, made: ILit): (r: (map<ExprHandle, ILit>, ILit))
    ensures handle in r.0 && r.0[handle] == r.1
    ensures handle in binding ==> r == (binding, binding[handle])
    ensures handle !in binding ==> r.1 == made && r.0 == binding[handle := made]
  {
    if handle in binding then (binding, binding[handle]) else (binding[handle := made], made)
  }

  class DiscreteModel {
    var labels: seq<Label>
    var domains: seq<IntDomain>
    const trail: ObsTrail<TrailEntry>
    var exprBinding: map<ExprHandle, ILit>
    /** The domains at each save point still on the trail. */
    ghost var saved: seq<seq<IntDomain>>

    /**
     * Labels and domains in lock-step, every event on a known variable, and for each save point:
     * undoing the events recorded since gives back the domains saved there (variables created
     * later keep theirs).
     */
    ghost predicate Valid()
      reads this, trail
    {
      && trail.Valid()
      && |labels| == |domains|
      && |saved| == |trail.backtrackPoints|
      && (forall i :: 0 <= i < |trail.events| ==> trail.events[i].event.v < |domains|)
      && (forall k :: 0 <= k < |saved| ==>
            |saved[k]| <= |domains|
            && UndoAll(domains, trail.events[trail.backtrackPoints[k]..])[..|saved[k]|] == saved[k])
    }

    constructor (trailId: nat)
      ensures Valid() && fresh(trail)
      ensures labels == [] && domains == [] && exprBinding == map[] && saved == []
      ensures trail.events == [] && trail.backtrackPoints == []
    {
      labels := [];
      domains := [];
      trail := new ObsTrail(trailId);
      exprBinding := map[];
      saved := [];
    }

    method NewDiscreteVar(lb: int, ub: int, name: Label) returns (v: VarRef)
      requires Valid()
      modifies this
      ensures Valid()
      ensures v == |old(domains)|
      ensures labels == old(labels) + [name] && domains == old(domains) + [IntDomain(lb, ub)]
      ensures exprBinding == old(exprBinding) && saved == old(saved)
    {
      ghost var events := trail.events;
      v := |labels|;
      labels := labels + [name];
      domains := domains + [IntDomain(lb, ub)];
      forall k | 0 <= k < |saved|
        ensures UndoAll(domains, events[trail.backtrackPoints[k]..])[..|saved[k]|] == saved[k]
      {
        var es := events[trail.backtrackPoints[k]..];
        UndoAllExtend(old(domains), IntDomain(lb, ub), es);
      }
    }

    function DomainOf(v: VarRef): IntDomain
      reads this
      requires v < |domains|
    {
      domains[v]
    }

    /** `entails`: decided on the variable's current bounds. */
    /** `entails`: every value of the domain satisfies the literal; otherwise the domain's bound on the literal's side does not. */
    function Entails(lit: ILit): (r: bool)
      reads this
      requires lit.v < |domains|
      ensures r ==> forall x :: domains[lit.v].lb <= x <= domains[lit.v].ub ==> Satisfies(lit, x)
      ensures !r ==> !Satisfies(lit, if lit.LEQ? then domains[lit.v].ub else domains[lit.v].lb)
    {
      DomainEntails(domains[lit.v], lit)
    }

    /** Raises the lower bound of `v` when `lb` is strictly larger, recording one `NewLB` event. */
    method SetLb(v: VarRef, lb: int, cause: Cause)
      requires Valid() && v < |domains|
      modifies this, trail
      ensures Valid()
      ensures old(domains[v].lb) < lb ==>
        && domains == old(domains)[v := IntDomain(lb, old(domains[v].ub))]
        && trail.events == old(trail.events) + [TrailEntry(VarEvent(v, NewLB(old(domains[v].lb), lb)), cause)]
      ensures old(domains[v].lb) >= lb ==> domains == old(domains) && trail.events == old(trail.events)
      ensures trail.backtrackPoints == old(trail.backtrackPoints) && trail.lastBacktrack == old(trail.lastBacktrack)
      ensures labels == old(labels) && exprBinding == old(exprBinding) && saved == old(saved)
    {
      var prev := domains[v].lb;
      if prev < lb {
        var entry := TrailEntry(VarEvent(v, NewLB(prev, lb)), cause);
        domains := domains[v := IntDomain(lb, domains[v].ub)];
        UndoInvertsSetLb(old(domains), v, lb);
        RecordChange(entry);
      }
    }

    /** Lowers the upper bound of `v` when `ub` is strictly smaller, recording one `NewUB` event. */
    method SetUb(v: VarRef, ub: int, cause: Cause)
      requires Valid() && v < |domains|
      modifies this, trail
      ensures Valid()
      ensures old(domains[v].ub) > ub ==>
        && domains == old(domains)[v := IntDomain(old(domains[v].lb), ub)]
        && trail.events == old(trail.events) + [TrailEntry(VarEvent(v, NewUB(old(domains[v].ub), ub)), cause)]
      ensures old(domains[v].ub) <= ub ==> domains == old(domains) && trail.events == old(trail.events)
      ensures trail.backtrackPoints == old(trail.backtrackPoints) && trail.lastBacktrack == old(trail.lastBacktrack)
      ensures labels == old(labels) && exprBinding == old(exprBinding) && saved == old(saved)
    {
      var prev := domains[v].ub;
      if prev > ub {
        var entry := TrailEntry(VarEvent(v, NewUB(prev, ub)), cause);
        domains := domains[v := IntDomain(domains[v].lb, ub)];
        UndoInvertsSetUb(old(domains), v, ub);
        RecordChange(entry);
      }
    }

    /** Pushes the event of a change just made to `domains`, whose undo gives the domains before it. */
    method RecordChange(entry: TrailEntry)
      requires entry.event.v < |domains| && trail.Valid()
      requires |labels| == |domains| && |saved| == |trail.backtrackPoints|
      requires forall i :: 0 <= i < |trail.events| ==> trail.events[i].event.v < |domains|
      requires forall k :: 0 <= k < |saved| ==>
        |saved[k]| <= |domains|
        && UndoAll(UndoEvent(domains, entry.event), trail.events[trail.backtrackPoints[k]..])[..|saved[k]|] == saved[k]
      modifies trail
      ensures Valid()
      ensures trail.events == old(trail.events) + [entry]
      ensures trail.backtrackPoints == old(trail.backtrackPoints) && trail.lastBacktrack == old(trail.lastBacktrack)
    {
      ghost var before := UndoEvent(domains, entry.event);
      ghost var events := trail.events;
      trail.Push(entry);
      forall k | 0 <= k < |saved|
        ensures UndoAll(domains, trail.events[trail.backtrackPoints[k]..])[..|saved[k]|] == saved[k]
      {
        var b := trail.backtrackPoints[k];
        assert trail.events[b..] == events[b..] + [entry];
        UndoAllPush(domains, events[b..], entry);
      }
    }

    /** `undo_int_event`: puts back the recorded previous bound of the event's variable. */
    method UndoIntEvent(e: VarEvent)
      requires e.v < |domains|
      modifies this
      ensures e.ev.NewLB? ==> domains == old(domains)[e.v := IntDomain(e.ev.prev, old(domains[e.v].ub))]
      ensures e.ev.NewUB? ==> domains == old(domains)[e.v := IntDomain(old(domains[e.v].lb), e.ev.prev)]
      ensures labels == old(labels) && exprBinding == old(exprBinding) && saved == old(saved)
    {
      match e.ev {
        case NewLB(prev, _) =>
          domains := domains[e.v := IntDomain(prev, domains[e.v].ub)];
        case NewUB(prev, _) =>
          domains := domains[e.v := IntDomain(domains[e.v].lb, prev)];
      }
    }

    method SaveState() returns (id: nat)
      requires Valid()
      modifies this, trail
      ensures Valid()
      ensures id == |old(trail.backtrackPoints)| && saved == old(saved) + [domains]
      ensures trail.backtrackPoints == old(trail.backtrackPoints) + [|trail.events|]
      ensures domains == old(domains) && trail.events == old(trail.events) && trail.lastBacktrack == old(trail.lastBacktrack)
      ensures labels == old(labels) && exprBinding == old(exprBinding)
    {
      id := trail.SaveState();
      saved := saved + [domains];
      assert trail.events[|trail.events|..] == [];
    }

    function NumSaved(): nat
      reads this, trail
    {
      trail.NumSaved()
    }

    /**
     * Undoes, newest first, every event recorded since the last save point: each domain that
     * existed then gets its saved value back.
     */
    method RestoreLast()
      requires Valid() && |trail.backtrackPoints| > 0
      modifies this, trail
      ensures Valid()
      ensures |domains| == |old(domains)|
      ensures domains[..|old(saved)[|old(saved)| - 1]|] == old(saved)[|old(saved)| - 1]
      ensures saved == old(saved)[..|old(saved)| - 1]
      ensures trail.backtrackPoints == old(trail.backtrackPoints)[..|old(trail.backtrackPoints)| - 1]
      ensures trail.events == old(trail.events)[..old(trail.backtrackPoints)[|old(trail.backtrackPoints)| - 1]]
      ensures trail.lastBacktrack == Some(LastBacktrack(old(trail.backtrackPoints)[|old(trail.backtrackPoints)| - 1], NextBacktrackId(old(trail.lastBacktrack))))
      ensures labels == old(labels) && exprBinding == old(exprBinding)
    {
      ghost var events := trail.events;
      ghost var points := trail.backtrackPoints;
      var after := trail.backtrackPoints[|trail.backtrackPoints| - 1];
      SavedAfterRestore(domains, events, points, saved);
      var undone := trail.BacktrackWithCallback();
      UndoEntries(undone, events[after..]);
      saved := saved[..|saved| - 1];
    }

    /** Applies `undo_int_event` to each entry handed back by the trail, newest first. */
    method UndoEntries(undone: seq<TrailEntry>, ghost entries: seq<TrailEntry>)
      requires undone == Reversed(entries)
      requires forall i :: 0 <= i < |entries| ==> entries[i].event.v < |domains|
      modifies this
      ensures domains == UndoAll(old(domains), entries)
      ensures labels == old(labels) && exprBinding == old(exprBinding) && saved == old(saved)
    {
      var i := 0;
      while i < |undone|
        invariant 0 <= i <= |undone| == |entries|
        invariant |domains| == |old(domains)| && labels == old(labels) && exprBinding == old(exprBinding) && saved == old(saved)
        invariant domains == UndoAll(old(domains), entries[|entries| - i..])
      {
        ReversedAt(entries, i);
        assert entries[|entries| - 1 - i..][1..] == entries[|entries| - i..];
        UndoIntEvent(undone[i].event);
        i := i + 1;
      }
    }

    /** `restore`: backtracks until at most `id` save points remain. */
    method Restore(id: nat)
      requires Valid()
      modifies this, trail
      ensures Valid()
      ensures |domains| == |old(domains)| && labels == old(labels) && exprBinding == old(exprBinding)
      ensures |trail.backtrackPoints| == if id < |old(saved)| then id else |old(saved)|
      ensures id < |old(saved)| ==> domains[..|old(saved)[id]|] == old(saved)[id]
      ensures saved == old(saved)[..|trail.backtrackPoints|]
    {
      while |trail.backtrackPoints| > id
        invariant Valid()
        invariant |domains| == |old(domains)| && labels == old(labels) && exprBinding == old(exprBinding)
        invariant |saved| <= |old(saved)| && saved == old(saved)[..|saved|]
        invariant |saved| >= id || |saved| == |old(saved)|
        invariant id < |old(saved)| && |saved| == id ==> domains[..|old(saved)[id]|] == old(saved)[id]
        decreases |trail.backtrackPoints|
      {
        RestoreLast();
      }
    }

    function InternedExpr(handle: ExprHandle): Option<ILit>
      reads this
    {
      if handle in exprBinding then Some(exprBinding[handle]) else None
    }

    /**
     * `intern_expr_with`, where `made` is the literal the maker would return if called;
     * `called` tells whether it is called, which is exactly when the handle is not bound yet.
     */
    method InternExprWith(handle: ExprHandle, made: ILit) returns (lit: ILit, called: bool)
      modifies this
      ensures (exprBinding, lit) == Intern(old(exprBinding), handle, made)
      ensures called <==> handle !in old(exprBinding)
      ensures labels == old(labels) && domains == old(domains) && saved == old(saved)
    {
      match InternedExpr(handle) {
        case Some(l) =>
          lit := l;
          called := false;
        case None =>
          lit := made;
          called := true;
          exprBinding := exprBinding[handle := lit];
      }
    }
  }

  // ---- Lemmas ----

  /** What the save points below the last one still see once the last one is restored. */
  lemma SavedAfterRestore(d0: seq<IntDomain>, events: seq<TrailEntry>, points: seq<nat>, saved: seq<seq<IntDomain>>)
    requires |points| == |saved| > 0 && NonDecreasing(points)
    requires forall k :: 0 <= k < |points| ==> points[k] <= |events|
    requires forall k :: 0 <= k < |saved| ==>
      |saved[k]| <= |d0| && UndoAll(d0, events[points[k]..])[..|saved[k]|] == saved[k]
    ensures var after := points[|points| - 1];
      forall k :: 0 <= k < |saved| - 1 ==>
        UndoAll(UndoAll(d0, events[after..]), events[..after][points[k]..])[..|saved[k]|] == saved[k]
  {
    var after := points[|points| - 1];
    forall k | 0 <= k < |saved| - 1
      ensures UndoAll(UndoAll(d0, events[after..]), events[..after][points[k]..])[..|saved[k]|] == saved[k]
    {
      SavedBelowRestorePoint(d0, events, points[k], after, saved[k]);
    }
  }

  lemma SplitEntries(events: seq<TrailEntry>, b: nat, after: nat)
    requires b <= after <= |events|
    ensures events[..after][b..] == events[b..after]
    ensures events[b..] == events[b..after] + events[after..]
  {
  }

  lemma SavedBelowRestorePoint(d0: seq<IntDomain>, events: seq<TrailEntry>, b: nat, after: nat, s: seq<IntDomain>)
    requires b <= after <= |events| && |s| <= |d0|
    requires UndoAll(d0, events[b..])[..|s|] == s
    ensures UndoAll(UndoAll(d0, events[after..]), events[..after][b..])[..|s|] == s
  {
    var older := events[b..after];
    var newer := events[after..];
    SplitEntries(events, b, after);
    UndoAllConcat(d0, older, newer);
  }

  /** Undoing a run of entries leaves every variable that none of them touches as it was. */
  lemma {:induction false} UndoAllKeepsUntouched(domains: seq<IntDomain>, entries: seq<TrailEntry>, i: nat)
    requires i < |domains| && forall k :: 0 <= k < |entries| ==> entries[k].event.v != i
    ensures UndoAll(domains, entries)[i] == domains[i]
  {
    if entries != [] {
      assert forall k :: 0 <= k < |entries[1..]| ==> entries[1..][k] == entries[k + 1];
      UndoAllKeepsUntouched(domains, entries[1..], i);
    }
  }

  /** Undoing a change recorded last is undoing it first. */
  lemma {:induction false} UndoAllPush(domains: seq<IntDomain>, entries: seq<TrailEntry>, last: TrailEntry)
    ensures UndoAll(domains, entries + [last]) == UndoAll(UndoEvent(domains, last.event), entries)
    decreases |entries|
  {
    if entries == [] {
      assert ([] + [last])[1..] == [];
    } else {
      assert (entries + [last])[1..] == entries[1..] + [last];
      UndoAllPush(domains, entries[1..], last);
    }
  }

  /** Undoing two runs, the newer run first. */
  lemma {:induction false} UndoAllConcat(domains: seq<IntDomain>, older: seq<TrailEntry>, newer: seq<TrailEntry>)
    ensures UndoAll(domains, older + newer) == UndoAll(UndoAll(domains, newer), older)
    decreases |older|
  {
    if older == [] {
      assert [] + newer == newer;
    } else {
      assert (older + newer)[1..] == older[1..] + newer;
      UndoAllConcat(domains, older[1..], newer);
    }
  }

  /** Undo leaves a variable unknown to every event alone: a new variable keeps its domain. */
  lemma {:induction false} UndoAllExtend(domains: seq<IntDomain>, d: IntDomain, entries: seq<TrailEntry>)
    requires forall i :: 0 <= i < |entries| ==> entries[i].event.v < |domains|
    ensures UndoAll(domains + [d], entries) == UndoAll(domains, entries) + [d]
    decreases |entries|
  {
    if entries != [] {
      UndoAllExtend(domains, d, entries[1..]);
    }
  }

  /** `undo_int_event` inverts `set_lb`: it restores the recorded previous lower bound. */
  lemma UndoInvertsSetLb(domains: seq<IntDomain>, v: VarRef, lb: int)
    requires v < |domains| && domains[v].lb < lb
    ensures UndoEvent(domains[v := IntDomain(lb, domains[v].ub)], VarEvent(v, NewLB(domains[v].lb, lb))) == domains
  {
  }

  /** `undo_int_event` inverts `set_ub`. */
  lemma UndoInvertsSetUb(domains: seq<IntDomain>, v: VarRef, ub: int)
    requires v < |domains| && domains[v].ub > ub
    ensures UndoEvent(domains[v := IntDomain(domains[v].lb, ub)], VarEvent(v, NewUB(domains[v].ub, ub))) == domains
  {
  }

  /** On a non-empty domain, entailment means that every value of the domain satisfies the literal. */
  lemma EntailsMeansEveryValue(d: IntDomain, lit: ILit)
    requires d.lb <= d.ub
    ensures DomainEntails(d, lit) <==> forall x :: d.lb <= x <= d.ub ==> Satisfies(lit, x)
  {
    if !DomainEntails(d, lit) {
      if lit.LEQ? {
        assert d.lb <= d.ub <= d.ub && !Satisfies(lit, d.ub);
      } else {
        assert d.lb <= d.lb <= d.ub && !Satisfies(lit, d.lb);
      }
    }
  }

  /** Tightening a domain keeps what it entailed entailed. */
  lemma EntailmentPersists(d: IntDomain, tighter: IntDomain, lit: ILit)
    requires d.lb <= tighter.lb && tighter.ub <= d.ub
    requires DomainEntails(d, lit)
    ensures DomainEntails(tighter, lit)
  {
  }

  /** Interning a handle a second time returns the first literal, whatever the maker, and binds nothing new. */
  lemma InternIsMemoised(binding: map<ExprHandle, ILit>, handle: ExprHandle, first: ILit, second: ILit)
    ensures var (b1, l1) := Intern(binding, handle, first);
      Intern(b1, handle, second) == (b1, l1)
  {
  }

  // ---- Scenario: save, tighten, restore ----

  /** Two variables, a save point, then three tightenings (one of them not stronger). */
  method SaveAndTighten() returns (m: DiscreteModel)
    ensures fresh(m) && fresh(m.trail) && m.Valid()
    ensures m.domains == [IntDomain(3, 7), IntDomain(-5, 5)]
    ensures m.saved == [[IntDomain(0, 10), IntDomain(-5, 5)]] && |m.trail.backtrackPoints| == 1
  {
    m := new DiscreteModel(0);
    var x := m.NewDiscreteVar(0, 10, "x");
    var y := m.NewDiscreteVar(-5, 5, "y");
    assert m.domains == [IntDomain(0, 10), IntDomain(-5, 5)];
    var _ := m.SaveState();
    m.SetLb(x, 3, Decision);
    m.SetUb(x, 7, Inference(1, 0));
    m.SetLb(y, -6, Decision);
  }

  /** After the tightenings `x` entails `x <= 7` and `x > 2` but not `x > 3`; restoring brings back the saved domains. */
  method SaveTightenRestore() returns (entailed: seq<bool>, restored: seq<IntDomain>)
    ensures entailed == [true, false, true]
    ensures restored == [IntDomain(0, 10), IntDomain(-5, 5)]
  {
    var m := SaveAndTighten();
    entailed := [m.Entails(LEQ(0, 7)), m.Entails(GT(0, 3)), m.Entails(GT(0, 2))];
    m.RestoreLast();
    restored := m.domains;
  }
}
