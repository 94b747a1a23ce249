/**
 * The static-fluent rewrite `statics_as_tables`: a state function whose every instance effect
 * holds from the time origin with fully bound arguments (and no template effect may set it) is
 * turned into a table. Its instance effects become the table's lines, and every condition on it,
 * in instances and templates, becomes an `InTable` constraint over that table.
 *
 * Domains are finite sets of symbols, read through `contains` and `size`. Time expressions are
 * atoms; the effective start of an effect is compared with the origin atom.
 */
module Preprocessing {
  import opened Wrappers
  import opened VarBounds

  /** A variable or constant of the problem; the context gives its domain. */
  type Atom = nat

  type Sym = nat

  /** An argument of a template: an atom, or a parameter filled in at instantiation. */
  datatype Holed = Full(atom: Atom) | Param(index: nat)

  datatype Effect<A> = Effect(stateVar: seq<A>, value: A, effectiveStart: A)

  datatype Condition<A> = Condition(stateVar: seq<A>, value: A)

  /** Only the `InTable` constraint type matters here; the others are carried untouched. */
  datatype ConstraintType = InTable(tableId: Uint32) | OtherConstraint(kind: nat)

  datatype Constraint<A> = Constraint(variables: seq<A>, tpe: ConstraintType)

  datatype Chronicle<A> = Chronicle(effects: seq<Effect<A>>, conditions: seq<Condition<A>>, constraints: seq<Constraint<A>>)

  datatype StateFun = StateFun(sym: Sym, tpe: seq<nat>)

  datatype Table = Table(tpe: seq<nat>, lines: seq<seq<Sym>>)

  datatype Context = Context(domain: Atom -> set<Sym>, origin: Atom, stateFunctions: seq<StateFun>, tables: seq<Table>)

  datatype Problem = Problem(context: Context, templates: seq<Chronicle<Holed>>, chronicles: seq<Chronicle<Atom>>)

  /** The two ways the rewrite panics: a failed `assert!(unified(..))` and an `unwrap` of a non-singleton domain. */
  datatype Panic = NotUnified | NotSingleton

  // ---- Domains ----

  predicate Unifiable(ctx: Context, x: Atom, sym: Sym) { sym in ctx.domain(x) }

  predicate Unified(ctx: Context, x: Atom, sym: Sym) { sym in ctx.domain(x) && |ctx.domain(x)| == 1 }

  lemma SingletonUnique(d: set<Sym>, x: Sym, y: Sym)
    requires |d| == 1 && x in d && y in d
    ensures x == y
  {
    assert |d - {x}| == 0;
  }

  /** `as_singleton`: the only value of a domain of size one. */
  function AsSingleton(d: set<Sym>): (r: Option<Sym>)
    ensures r.Some? <==> |d| == 1
    ensures r.Some? ==> d == {r.value}
  {
    if |d| == 1 then
      var x :| x in d;
      assert d == {x} by {
        forall y | y in d ensures y == x { SingletonUnique(d, x, y); }
      }
      Some(x)
    else None
  }

  // ---- Heads of state variables ----

  /** The state function position of an instance state variable. */
  function InstanceHead(sv: seq<Atom>): Option<Atom>
  {
    if sv == [] then None else Some(sv[0])
  }

  /** The state function position of a template state variable, when it is not a parameter. */
  function TemplateHead(sv: seq<Holed>): Option<Atom>
  {
    if sv != [] && sv[0].Full? then Some(sv[0].atom) else None
  }

  predicate OnSf(ctx: Context, head: Option<Atom>, sym: Sym)
  {
    head.Some? && Unifiable(ctx, head.value, sym)
  }

  function Tail<A>(s: seq<A>): seq<A>
  {
    if s == [] then [] else s[1..]
  }

  // ---- The static test ----

  /** `effect_is_static` as written: every state variable atom is bound and the effect holds from the origin. */
  predicate EffectIsStaticAsWritten(ctx: Context, e: Effect<Atom>)
  {
    && (forall y :: y in e.stateVar ==> |ctx.domain(y)| == 1)
    && e.effectiveStart == ctx.origin
  }

  /** `effect_is_static` as its documentation states it: the value is bound too. */
  predicate EffectIsStatic(ctx: Context, e: Effect<Atom>)
  {
    EffectIsStaticAsWritten(ctx, e) && |ctx.domain(e.value)| == 1
  }

  /** A template effect may set the state function: its head is a parameter, or an atom whose domain holds the symbol. */
  predicate AppearsInTemplateEffects(ctx: Context, templates: seq<Chronicle<Holed>>, sym: Sym)
  {
    exists t, e :: t in templates && e in t.effects && e.stateVar != [] &&
      (e.stateVar[0].Param? || Unifiable(ctx, e.stateVar[0].atom, sym))
  }

  predicate EffectsInitAndBoundAsWritten(ctx: Context, chronicles: seq<Chronicle<Atom>>, sym: Sym)
  {
    forall ch, e :: ch in chronicles && e in ch.effects && OnSf(ctx, InstanceHead(e.stateVar), sym) ==>
      EffectIsStaticAsWritten(ctx, e)
  }

  predicate EffectsInitAndBound(ctx: Context, chronicles: seq<Chronicle<Atom>>, sym: Sym)
  {
    forall ch, e :: ch in chronicles && e in ch.effects && OnSf(ctx, InstanceHead(e.stateVar), sym) ==>
      EffectIsStatic(ctx, e)
  }

  /** Which static test the pass applies to instance effects: `effect_is_static` as written, or as documented. */
  datatype StaticTest = AsWritten | Documented

  /** Some instance effect on the state function has a value that is not bound. */
  predicate SomeValueUnbound(ctx: Context, chronicles: seq<Chronicle<Atom>>, sym: Sym)
  {
    exists ch, e :: ch in chronicles && e in ch.effects && OnSf(ctx, InstanceHead(e.stateVar), sym) && |ctx.domain(e.value)| != 1
  }

  /** The state function is turned into a table: no template effect may set it and every instance effect on it passes `test`. */
  predicate IsStatic(ctx: Context, test: StaticTest, templates: seq<Chronicle<Holed>>, chronicles: seq<Chronicle<Atom>>, sym: Sym)
  {
    && !AppearsInTemplateEffects(ctx, templates, sym)
    && (if test.AsWritten? then EffectsInitAndBoundAsWritten(ctx, chronicles, sym) else EffectsInitAndBound(ctx, chronicles, sym))
  }

  // ---- Reference definitions, element by element ----

  /** The singleton values of a run of atoms, or `None` when one of them is not bound. */
  function Singletons(ctx: Context, atoms: seq<Atom>): Option<seq<Sym>>
  {
    if atoms == [] then Some([])
    else match Singletons(ctx, atoms[..|atoms| - 1])
      case None => None
      case Some(vs) =>
        match AsSingleton(ctx.domain(atoms[|atoms| - 1]))
        case None => None
        case Some(v) => Some(vs + [v])
  }

  /** The table line of an effect: its arguments after the head, then its value. */
  function LineOf(ctx: Context, e: Effect<Atom>): Option<seq<Sym>>
  {
    Singletons(ctx, Tail(e.stateVar) + [e.value])
  }

  /** The `InTable` constraint replacing a condition: its arguments after the head, then its value. */
  function TableConstraint<A>(c: Condition<A>, tableId: Uint32): Constraint<A>
  {
    Constraint(Tail(c.stateVar) + [c.value], InTable(tableId))
  }

  datatype Moved = Moved(kept: seq<Effect<Atom>>, lines: seq<seq<Sym>>)

  /** One effect of the first loop over an instance's effects: an effect on the state function leaves, giving a line. */
  function MoveStep(ctx: Context, acc: Result<Moved, Panic>, e: Effect<Atom>, sym: Sym): Result<Moved, Panic>
  {
    match acc
    case Err(p) => Err(p)
    case Ok(m) =>
      var head := InstanceHead(e.stateVar);
      if !OnSf(ctx, head, sym) then Ok(Moved(m.kept + [e], m.lines))
      else if !Unified(ctx, head.value, sym) then Err(NotUnified)
      else match LineOf(ctx, e)
        case None => Err(NotSingleton)
        case Some(line) => Ok(Moved(m.kept, m.lines + [line]))
  }

  /** The first loop over an instance's effects: the effects on the state function leave, each giving a line. */
  function MoveEffects(ctx: Context, effects: seq<Effect<Atom>>, sym: Sym): (r: Result<Moved, Panic>)
  {
    if effects == [] then Ok(Moved([], []))
    else MoveStep(ctx, MoveEffects(ctx, effects[..|effects| - 1], sym), effects[|effects| - 1], sym)
  }

  datatype Replaced<A> = Replaced(kept: seq<Condition<A>>, added: seq<Constraint<A>>)

  /** The condition loops: the conditions on the state function leave, each giving an `InTable` constraint. */
  function ReplaceConds<A>(ctx: Context, conds: seq<Condition<A>>, head: seq<A> -> Option<Atom>, sym: Sym, tableId: Uint32): (r: Result<Replaced<A>, Panic>)
    ensures r.Ok? ==> |r.value.kept| + |r.value.added| == |conds|
  {
    if conds == [] then Ok(Replaced([], []))
    else
      var c := conds[|conds| - 1];
      match ReplaceConds(ctx, conds[..|conds| - 1], head, sym, tableId)
      case Err(p) => Err(p)
      case Ok(r) =>
        if !OnSf(ctx, head(c.stateVar), sym) then Ok(Replaced(r.kept + [c], r.added))
        else if !Unified(ctx, head(c.stateVar).value, sym) then Err(NotUnified)
        else Ok(Replaced(r.kept, r.added + [TableConstraint(c, tableId)]))
  }

  datatype Converted = Converted(chronicle: Chronicle<Atom>, lines: seq<seq<Sym>>)

  function ConvertInstance(ctx: Context, ch: Chronicle<Atom>, sym: Sym, tableId: Uint32): Result<Converted, Panic>
  {
    match MoveEffects(ctx, ch.effects, sym)
    case Err(p) => Err(p)
    case Ok(m) =>
      match ReplaceConds(ctx, ch.conditions, InstanceHead, sym, tableId)
      case Err(p) => Err(p)
      case Ok(r) => Ok(Converted(Chronicle(m.kept, r.kept, ch.constraints + r.added), m.lines))
  }

  datatype ConvertedAll = ConvertedAll(chronicles: seq<Chronicle<Atom>>, lines: seq<seq<Sym>>)

  function ConvertInstances(ctx: Context, chs: seq<Chronicle<Atom>>, sym: Sym, tableId: Uint32): Result<ConvertedAll, Panic>
  {
    if chs == [] then Ok(ConvertedAll([], []))
    else match ConvertInstances(ctx, chs[..|chs| - 1], sym, tableId)
      case Err(p) => Err(p)
      case Ok(a) =>
        match ConvertInstance(ctx, chs[|chs| - 1], sym, tableId)
        case Err(p) => Err(p)
        case Ok(c) => Ok(ConvertedAll(a.chronicles + [c.chronicle], a.lines + c.lines))
  }

  function ConvertTemplate(ctx: Context, t: Chronicle<Holed>, sym: Sym, tableId: Uint32): Result<Chronicle<Holed>, Panic>
  {
    match ReplaceConds(ctx, t.conditions, TemplateHead, sym, tableId)
    case Err(p) => Err(p)
    case Ok(r) => Ok(t.(conditions := r.kept, constraints := t.constraints + r.added))
  }

  function ConvertTemplates(ctx: Context, ts: seq<Chronicle<Holed>>, sym: Sym, tableId: Uint32): Result<seq<Chronicle<Holed>>, Panic>
  {
    if ts == [] then Ok([])
    else match ConvertTemplates(ctx, ts[..|ts| - 1], sym, tableId)
      case Err(p) => Err(p)
      case Ok(done) =>
        match ConvertTemplate(ctx, ts[|ts| - 1], sym, tableId)
        case Err(p) => Err(p)
        case Ok(t) => Ok(done + [t])
  }

  /** The chronicles as rewritten so far, and the tables produced so far. */
  datatype Progress = Progress(templates: seq<Chronicle<Holed>>, chronicles: seq<Chronicle<Atom>>, additional: seq<Table>)

  /** `table_id`: the number of tables before the rewrite plus those produced so far, cast to `u32`. */
  function NextTableId(ctx: Context, p: Progress): Uint32
  {
    (|ctx.tables| + |p.additional|) % U32_MODULUS
  }

  /** One iteration of the loop over state functions. */
  function StepSf(ctx: Context, test: StaticTest, sf: StateFun, p: Progress): (r: Result<Progress, Panic>)
    ensures r.Ok? ==> p.additional <= r.value.additional && |r.value.additional| <= |p.additional| + 1
    ensures r.Err? ==> IsStatic(ctx, test, p.templates, p.chronicles, sf.sym)
  {
    if !IsStatic(ctx, test, p.templates, p.chronicles, sf.sym) then Ok(p)
    else
      var id := NextTableId(ctx, p);
      match ConvertInstances(ctx, p.chronicles, sf.sym, id)
      case Err(e) => Err(e)
      case Ok(a) =>
        match ConvertTemplates(ctx, p.templates, sf.sym, id)
        case Err(e) => Err(e)
        case Ok(ts) => Ok(Progress(ts, a.chronicles, p.additional + [Table(sf.tpe, a.lines)]))
  }

  function StepSfs(ctx: Context, test: StaticTest, sfs: seq<StateFun>, p: Progress): Result<Progress, Panic>
  {
    if sfs == [] then Ok(p)
    else match StepSfs(ctx, test, sfs[..|sfs| - 1], p)
      case Err(e) => Err(e)
      case Ok(q) => StepSf(ctx, test, sfs[|sfs| - 1], q)
  }

  /** The whole rewrite: the state functions in order, then the new tables appended. */
  function Preprocess(pb: Problem, test: StaticTest): (r: Result<Problem, Panic>)
    ensures r.Ok? ==> pb.context.tables <= r.value.context.tables
    ensures r.Ok? ==> r.value.context.(tables := pb.context.tables) == pb.context
  {
    match StepSfs(pb.context, test, pb.context.stateFunctions, Progress(pb.templates, pb.chronicles, []))
    case Err(e) => Err(e)
    case Ok(q) => Ok(Problem(pb.context.(tables := pb.context.tables + q.additional), q.templates, q.chronicles))
  }

  // ---- Filters stating what the loops keep and what they move ----

  function OtherEffects(ctx: Context, effects: seq<Effect<Atom>>, sym: Sym): seq<Effect<Atom>>
  {
    if effects == [] then []
    else
      var e := effects[|effects| - 1];
      OtherEffects(ctx, effects[..|effects| - 1], sym) + (if OnSf(ctx, InstanceHead(e.stateVar), sym) then [] else [e])
  }

  function SfEffects(ctx: Context, effects: seq<Effect<Atom>>, sym: Sym): seq<Effect<Atom>>
  {
    if effects == [] then []
    else
      var e := effects[|effects| - 1];
      SfEffects(ctx, effects[..|effects| - 1], sym) + (if OnSf(ctx, InstanceHead(e.stateVar), sym) then [e] else [])
  }

  function OtherConds<A>(ctx: Context, conds: seq<Condition<A>>, head: seq<A> -> Option<Atom>, sym: Sym): seq<Condition<A>>
  {
    if conds == [] then []
    else
      var c := conds[|conds| - 1];
      OtherConds(ctx, conds[..|conds| - 1], head, sym) + (if OnSf(ctx, head(c.stateVar), sym) then [] else [c])
  }

  function SfConds<A>(ctx: Context, conds: seq<Condition<A>>, head: seq<A> -> Option<Atom>, sym: Sym): seq<Condition<A>>
  {
    if conds == [] then []
    else
      var c := conds[|conds| - 1];
      SfConds(ctx, conds[..|conds| - 1], head, sym) + (if OnSf(ctx, head(c.stateVar), sym) then [c] else [])
  }
  /** The effects on the state function of all the chronicles, chronicle by chronicle. */
  function SfEffectsAll(ctx: Context, chs: seq<Chronicle<Atom>>, sym: Sym): seq<Effect<Atom>>
  {
    if chs == [] then []
    else SfEffectsAll(ctx, chs[..|chs| - 1], sym) + SfEffects(ctx, chs[|chs| - 1].effects, sym)
  }

  // ---- A failure on a prefix is the failure of the whole ----

  lemma {:induction false} SingletonsNoneExtends(ctx: Context, atoms: seq<Atom>, n: nat)
    requires n <= |atoms| && Singletons(ctx, atoms[..n]).None?
    ensures Singletons(ctx, atoms).None?
    decreases |atoms|
  {
    if n < |atoms| {
      assert atoms[..|atoms| - 1][..n] == atoms[..n];
      SingletonsNoneExtends(ctx, atoms[..|atoms| - 1], n);
    } else {
      assert atoms[..n] == atoms;
    }
  }

  lemma {:induction false} MoveEffectsErrExtends(ctx: Context, effects: seq<Effect<Atom>>, sym: Sym, n: nat)
    requires n <= |effects| && MoveEffects(ctx, effects[..n], sym).Err?
    ensures MoveEffects(ctx, effects, sym) == MoveEffects(ctx, effects[..n], sym)
    decreases |effects|
  {
    if n < |effects| {
      assert effects[..|effects| - 1][..n] == effects[..n];
      MoveEffectsErrExtends(ctx, effects[..|effects| - 1], sym, n);
    } else {
      assert effects[..n] == effects;
    }
  }

  lemma {:induction false} ReplaceCondsErrExtends<A>(ctx: Context, conds: seq<Condition<A>>, head: seq<A> -> Option<Atom>, sym: Sym, tableId: Uint32, n: nat)
    requires n <= |conds| && ReplaceConds(ctx, conds[..n], head, sym, tableId).Err?
    ensures ReplaceConds(ctx, conds, head, sym, tableId) == ReplaceConds(ctx, conds[..n], head, sym, tableId)
    decreases |conds|
  {
    if n < |conds| {
      assert conds[..|conds| - 1][..n] == conds[..n];
      ReplaceCondsErrExtends(ctx, conds[..|conds| - 1], head, sym, tableId, n);
    } else {
      assert conds[..n] == conds;
    }
  }

  lemma {:induction false} ConvertInstancesErrExtends(ctx: Context, chs: seq<Chronicle<Atom>>, sym: Sym, tableId: Uint32, n: nat)
    requires n <= |chs| && ConvertInstances(ctx, chs[..n], sym, tableId).Err?
    ensures ConvertInstances(ctx, chs, sym, tableId) == ConvertInstances(ctx, chs[..n], sym, tableId)
    decreases |chs|
  {
    if n < |chs| {
      assert chs[..|chs| - 1][..n] == chs[..n];
      ConvertInstancesErrExtends(ctx, chs[..|chs| - 1], sym, tableId, n);
    } else {
      assert chs[..n] == chs;
    }
  }

  lemma {:induction false} ConvertTemplatesErrExtends(ctx: Context, ts: seq<Chronicle<Holed>>, sym: Sym, tableId: Uint32, n: nat)
    requires n <= |ts| && ConvertTemplates(ctx, ts[..n], sym, tableId).Err?
    ensures ConvertTemplates(ctx, ts, sym, tableId) == ConvertTemplates(ctx, ts[..n], sym, tableId)
    decreases |ts|
  {
    if n < |ts| {
      assert ts[..|ts| - 1][..n] == ts[..n];
      ConvertTemplatesErrExtends(ctx, ts[..|ts| - 1], sym, tableId, n);
    } else {
      assert ts[..n] == ts;
    }
  }

  lemma {:induction false} StepSfsErrExtends(ctx: Context, test: StaticTest, sfs: seq<StateFun>, p: Progress, n: nat)
    requires n <= |sfs| && StepSfs(ctx, test, sfs[..n], p).Err?
    ensures StepSfs(ctx, test, sfs, p) == StepSfs(ctx, test, sfs[..n], p)
    decreases |sfs|
  {
    if n < |sfs| {
      assert sfs[..|sfs| - 1][..n] == sfs[..n];
      StepSfsErrExtends(ctx, test, sfs[..|sfs| - 1], p, n);
    } else {
      assert sfs[..n] == sfs;
    }
  }

  // ---- The loops of `statics_as_tables` ----

  /** The table line of an effect on the state function, built as lines 78-82 do; `None` where an `unwrap` panics. */
  method BuildLine(ctx: Context, e: Effect<Atom>) returns (r: Option<seq<Sym>>)
    ensures r == LineOf(ctx, e)
  {
    var args := Tail(e.stateVar);
    ghost var atoms := args + [e.value];
    assert atoms[..|args|] == args;
    var line: seq<Sym> := [];
    for k := 0 to |args|
      invariant Singletons(ctx, args[..k]) == Some(line)
    {
      assert args[..k + 1][..k] == args[..k];
      var v := AsSingleton(ctx.domain(args[k]));
      if v.None? {
        assert atoms[..k + 1] == args[..k + 1];
        SingletonsNoneExtends(ctx, atoms, k + 1);
        return None;
      }
      line := line + [v.value];
    }
    assert args[..|args|] == args;
    var v := AsSingleton(ctx.domain(e.value));
    if v.None? {
      return None;
    }
    return Some(line + [v.value]);
  }

  /** A loop in place at index `i` of `s` while at index `j` of the original `whole`: both see the same element, and both may step on. */
  lemma CursorAt<T>(s: seq<T>, i: nat, whole: seq<T>, j: nat)
    requires i < |s| && j <= |whole| && s[i..] == whole[j..]
    ensures j < |whole| && s[i] == whole[j]
    ensures whole[..j + 1] == whole[..j] + [whole[j]]
    ensures s[..i + 1] == s[..i] + [s[i]] && s[i + 1..] == whole[j + 1..]
  {
    assert s[i..][0] == s[i];
  }

  /** Removing element `i` keeps the part before it and shifts the rest down. */
  lemma RemovedAt<T>(s: seq<T>, i: nat, whole: seq<T>, j: nat)
    requires i < |s| && j < |whole| && s[i + 1..] == whole[j + 1..]
    ensures (s[..i] + s[i + 1..])[..i] == s[..i]
    ensures (s[..i] + s[i + 1..])[i..] == whole[j + 1..]
  {
    assert (s[..i] + s[i + 1..])[i..] == s[i + 1..];
  }

  /** The loop of lines 70-91: removes the effects on the state function in place, collecting their lines. */
  method MoveStaticEffects(ctx: Context, effects: seq<Effect<Atom>>, sym: Sym) returns (r: Result<Moved, Panic>)
    ensures r == MoveEffects(ctx, effects, sym)
  {
    var effs := effects;
    var lines: seq<seq<Sym>> := [];
    var i := 0;
    ghost var j := 0;
    while i < |effs|
      invariant 0 <= i <= |effs| && j <= |effects|
      invariant effs[i..] == effects[j..]
      invariant MoveEffects(ctx, effects[..j], sym) == Ok(Moved(effs[..i], lines))
      decreases |effs| - i
    {
      var e := effs[i];
      CursorAt(effs, i, effects, j);
      assert MoveEffects(ctx, effects[..j + 1], sym) == MoveStep(ctx, Ok(Moved(effs[..i], lines)), e, sym);
      var head := InstanceHead(e.stateVar);
      if head.Some? && Unifiable(ctx, head.value, sym) {
        if !Unified(ctx, head.value, sym) {
          MoveEffectsErrExtends(ctx, effects, sym, j + 1);
          return Err(NotUnified);
        }
        var line := BuildLine(ctx, e);
        if line.None? {
          MoveEffectsErrExtends(ctx, effects, sym, j + 1);
          return Err(NotSingleton);
        }
        lines := lines + [line.value];
        RemovedAt(effs, i, effects, j);
        effs := effs[..i] + effs[i + 1..];
        j := j + 1;
        continue;
      }
      i := i + 1;
      j := j + 1;
    }
    assert effects[..j] == effects;
    assert effs[..i] == effs;
    return Ok(Moved(effs, lines));
  }

  /**
   * The loops of lines 93-116 and 121-143: removes the conditions on the state function in place,
   * each giving an `InTable` constraint over its arguments after the head, then its value.
   */
  method ReplaceConditions<A>(ctx: Context, conds: seq<Condition<A>>, head: seq<A> -> Option<Atom>, sym: Sym, tableId: Uint32)
    returns (r: Result<Replaced<A>, Panic>)
    ensures r == ReplaceConds(ctx, conds, head, sym, tableId)
  {
    var cs := conds;
    var added: seq<Constraint<A>> := [];
    var i := 0;
    ghost var j := 0;
    while i < |cs|
      invariant 0 <= i <= |cs| && j <= |conds|
      invariant cs[i..] == conds[j..]
      invariant ReplaceConds(ctx, conds[..j], head, sym, tableId) == Ok(Replaced(cs[..i], added))
      decreases |cs| - i
    {
      var c := cs[i];
      CursorAt(cs, i, conds, j);
      var h := head(c.stateVar);
      if h.Some? && Unifiable(ctx, h.value, sym) {
        if !Unified(ctx, h.value, sym) {
          ReplaceCondsErrExtends(ctx, conds, head, sym, tableId, j + 1);
          return Err(NotUnified);
        }
        var vars := Tail(c.stateVar) + [c.value];
        added := added + [Constraint(vars, InTable(tableId))];
        RemovedAt(cs, i, conds, j);
        cs := cs[..i] + cs[i + 1..];
        j := j + 1;
        continue;
      }
      i := i + 1;
      j := j + 1;
    }
    assert conds[..j] == conds;
    assert cs[..i] == cs;
    return Ok(Replaced(cs, added));
  }

  /** The loop of lines 69-117 over the chronicle instances. */
  method ConvertChronicles(ctx: Context, chs: seq<Chronicle<Atom>>, sym: Sym, tableId: Uint32) returns (r: Result<ConvertedAll, Panic>)
    ensures r == ConvertInstances(ctx, chs, sym, tableId)
  {
    var out := chs;
    var lines: seq<seq<Sym>> := [];
    for k := 0 to |chs|
      invariant |out| == |chs| && out[k..] == chs[k..]
      invariant ConvertInstances(ctx, chs[..k], sym, tableId) == Ok(ConvertedAll(out[..k], lines))
    {
      var ch := out[k];
      assert ch == chs[k];
      assert chs[..k + 1][..k] == chs[..k];
      var m := MoveStaticEffects(ctx, ch.effects, sym);
      if m.Err? {
        ConvertInstancesErrExtends(ctx, chs, sym, tableId, k + 1);
        return Err(m.error);
      }
      var rc := ReplaceConditions(ctx, ch.conditions, InstanceHead, sym, tableId);
      if rc.Err? {
        ConvertInstancesErrExtends(ctx, chs, sym, tableId, k + 1);
        return Err(rc.error);
      }
      var converted := Chronicle(m.value.kept, rc.value.kept, ch.constraints + rc.value.added);
      assert out[k := converted][..k + 1] == out[..k] + [converted];
      out := out[k := converted];
      lines := lines + m.value.lines;
    }
    assert chs[..|chs|] == chs;
    assert out[..|chs|] == out;
    return Ok(ConvertedAll(out, lines));
  }

  /** The loop of lines 120-144 over the templates. */
  method ConvertTemplateChronicles(ctx: Context, ts: seq<Chronicle<Holed>>, sym: Sym, tableId: Uint32) returns (r: Result<seq<Chronicle<Holed>>, Panic>)
    ensures r == ConvertTemplates(ctx, ts, sym, tableId)
  {
    var out := ts;
    for k := 0 to |ts|
      invariant |out| == |ts| && out[k..] == ts[k..]
      invariant ConvertTemplates(ctx, ts[..k], sym, tableId) == Ok(out[..k])
    {
      var t := out[k];
      assert t == ts[k];
      assert ts[..k + 1][..k] == ts[..k];
      var rc := ReplaceConditions(ctx, t.conditions, TemplateHead, sym, tableId);
      if rc.Err? {
        ConvertTemplatesErrExtends(ctx, ts, sym, tableId, k + 1);
        return Err(rc.error);
      }
      var converted := t.(conditions := rc.value.kept, constraints := t.constraints + rc.value.added);
      assert out[k := converted][..k + 1] == out[..k] + [converted];
      out := out[k := converted];
    }
    assert ts[..|ts|] == ts;
    assert out[..|ts|] == out;
    return Ok(out);
  }

  /** One iteration of the loop over state functions (lines 29-147), with the static test `test`. */
  method ConvertStateFunction(ctx: Context, test: StaticTest, sf: StateFun, p: Progress) returns (r: Result<Progress, Panic>)
    ensures r == StepSf(ctx, test, sf, p)
  {
    if AppearsInTemplateEffects(ctx, p.templates, sf.sym) {
      return Ok(p);
    }
    var initAndBound := if test.AsWritten? then EffectsInitAndBoundAsWritten(ctx, p.chronicles, sf.sym)
      else EffectsInitAndBound(ctx, p.chronicles, sf.sym);
    if !initAndBound {
      return Ok(p);
    }
    var tableId := (|ctx.tables| + |p.additional|) % U32_MODULUS;
    var a := ConvertChronicles(ctx, p.chronicles, sf.sym, tableId);
    if a.Err? {
      return Err(a.error);
    }
    var ts := ConvertTemplateChronicles(ctx, p.templates, sf.sym, tableId);
    if ts.Err? {
      return Err(ts.error);
    }
    return Ok(Progress(ts.value, a.value.chronicles, p.additional + [Table(sf.tpe, a.value.lines)]));
  }

  /** `statics_as_tables` as written: a panic is an `Err`. */
  method StaticsAsTables(pb: Problem) returns (r: Result<Problem, Panic>)
    ensures r == Preprocess(pb, AsWritten)
  {
    r := RewriteStatics(pb, AsWritten);
  }

  /** `statics_as_tables` with the static test its documentation states: the value must be bound too. */
  method StaticsAsTablesCorrected(pb: Problem) returns (r: Result<Problem, Panic>)
    ensures r == Preprocess(pb, Documented)
  {
    r := RewriteStatics(pb, Documented);
  }

  /** The loop over state functions of `statics_as_tables`, then the new tables appended. */
  method RewriteStatics(pb: Problem, test: StaticTest) returns (r: Result<Problem, Panic>)
    ensures r == Preprocess(pb, test)
  {
    var ctx := pb.context;
    var sfs := ctx.stateFunctions;
    var p := Progress(pb.templates, pb.chronicles, []);
    ghost var p0 := p;
    for s := 0 to |sfs|
      invariant StepSfs(ctx, test, sfs[..s], p0) == Ok(p)
    {
      assert sfs[..s + 1][..s] == sfs[..s];
      var q := ConvertStateFunction(ctx, test, sfs[s], p);
      if q.Err? {
        StepSfsErrExtends(ctx, test, sfs, p0, s + 1);
        return Err(q.error);
      }
      p := q.value;
    }
    assert sfs[..|sfs|] == sfs;
    return Ok(Problem(ctx.(tables := ctx.tables + p.additional), p.templates, p.chronicles));
  }
  // ---- What the rewrite keeps, moves and produces ----

  /** The kept effects are those not on the state function and the moved ones those on it, both in their original order. */
  lemma {:induction false} EffectsPartition(ctx: Context, effects: seq<Effect<Atom>>, sym: Sym)
    ensures forall e :: e in OtherEffects(ctx, effects, sym) <==> e in effects && !OnSf(ctx, InstanceHead(e.stateVar), sym)
    ensures forall e :: e in SfEffects(ctx, effects, sym) <==> e in effects && OnSf(ctx, InstanceHead(e.stateVar), sym)
    ensures |OtherEffects(ctx, effects, sym)| + |SfEffects(ctx, effects, sym)| == |effects|
  {
    if effects != [] {
      var pre := effects[..|effects| - 1];
      EffectsPartition(ctx, pre, sym);
      assert effects == pre + [effects[|effects| - 1]];
    }
  }

  lemma {:induction false} ConditionsPartition<A>(ctx: Context, conds: seq<Condition<A>>, head: seq<A> -> Option<Atom>, sym: Sym)
    ensures forall c :: c in OtherConds(ctx, conds, head, sym) <==> c in conds && !OnSf(ctx, head(c.stateVar), sym)
    ensures forall c :: c in SfConds(ctx, conds, head, sym) <==> c in conds && OnSf(ctx, head(c.stateVar), sym)
    ensures |OtherConds(ctx, conds, head, sym)| + |SfConds(ctx, conds, head, sym)| == |conds|
  {
    if conds != [] {
      var pre := conds[..|conds| - 1];
      ConditionsPartition(ctx, pre, head, sym);
      assert conds == pre + [conds[|conds| - 1]];
    }
  }

  /** The effects loop keeps the other effects in order and gives one line per moved effect, in order. */
  lemma {:induction false} MoveEffectsMeaning(ctx: Context, effects: seq<Effect<Atom>>, sym: Sym)
    requires MoveEffects(ctx, effects, sym).Ok?
    ensures var m := MoveEffects(ctx, effects, sym).value;
      && m.kept == OtherEffects(ctx, effects, sym)
      && |m.lines| == |SfEffects(ctx, effects, sym)|
      && forall k :: 0 <= k < |m.lines| ==> LineOf(ctx, SfEffects(ctx, effects, sym)[k]) == Some(m.lines[k])
  {
    if effects != [] {
      var pre := effects[..|effects| - 1];
      assert MoveEffects(ctx, pre, sym).Ok?;
      MoveEffectsMeaning(ctx, pre, sym);
    }
  }

  /** The condition loops keep the other conditions in order and give one `InTable` constraint per removed condition, in order. */
  lemma {:induction false} ReplaceCondsMeaning<A>(ctx: Context, conds: seq<Condition<A>>, head: seq<A> -> Option<Atom>, sym: Sym, tableId: Uint32)
    requires ReplaceConds(ctx, conds, head, sym, tableId).Ok?
    ensures var r := ReplaceConds(ctx, conds, head, sym, tableId).value;
      && r.kept == OtherConds(ctx, conds, head, sym)
      && |r.added| == |SfConds(ctx, conds, head, sym)|
      && forall k :: 0 <= k < |r.added| ==> r.added[k] == TableConstraint(SfConds(ctx, conds, head, sym)[k], tableId)
  {
    if conds != [] {
      var pre := conds[..|conds| - 1];
      assert ReplaceConds(ctx, pre, head, sym, tableId).Ok?;
      ReplaceCondsMeaning(ctx, pre, head, sym, tableId);
    }
  }

  /** The condition loops panic exactly when a condition's head holds the symbol without being bound to it. */
  lemma {:induction false} ReplaceCondsPanics<A>(ctx: Context, conds: seq<Condition<A>>, head: seq<A> -> Option<Atom>, sym: Sym, tableId: Uint32)
    ensures ReplaceConds(ctx, conds, head, sym, tableId).Err? <==>
      exists c :: c in conds && OnSf(ctx, head(c.stateVar), sym) && !Unified(ctx, head(c.stateVar).value, sym)
    ensures ReplaceConds(ctx, conds, head, sym, tableId).Err? ==> ReplaceConds(ctx, conds, head, sym, tableId).error == NotUnified
  {
    if conds != [] {
      var pre := conds[..|conds| - 1];
      ReplaceCondsPanics(ctx, pre, head, sym, tableId);
      assert conds == pre + [conds[|conds| - 1]];
    }
  }

  /** Atoms with singleton domains all have their value. */
  lemma {:induction false} BoundAtomsHaveValues(ctx: Context, atoms: seq<Atom>)
    requires forall a :: a in atoms ==> |ctx.domain(a)| == 1
    ensures Singletons(ctx, atoms).Some? && |Singletons(ctx, atoms).value| == |atoms|
  {
    if atoms != [] {
      BoundAtomsHaveValues(ctx, atoms[..|atoms| - 1]);
    }
  }

  /** With the documented test, an effect on the state function is bound to it and has a line: no `unwrap` or `assert!` of the effects loop fails. */
  lemma {:induction false} StaticEffectsMove(ctx: Context, effects: seq<Effect<Atom>>, sym: Sym)
    requires forall e :: e in effects && OnSf(ctx, InstanceHead(e.stateVar), sym) ==> EffectIsStatic(ctx, e)
    ensures MoveEffects(ctx, effects, sym).Ok?
  {
    if effects != [] {
      var e := effects[|effects| - 1];
      StaticEffectsMove(ctx, effects[..|effects| - 1], sym);
      if OnSf(ctx, InstanceHead(e.stateVar), sym) {
        assert e.stateVar[0] in e.stateVar;
        assert forall a :: a in Tail(e.stateVar) + [e.value] ==> a in e.stateVar || a == e.value;
        BoundAtomsHaveValues(ctx, Tail(e.stateVar) + [e.value]);
      }
    }
  }

  /** An atom without a line has an unbound argument or value. */
  lemma {:induction false} UnboundAtomOfNone(ctx: Context, atoms: seq<Atom>)
    requires Singletons(ctx, atoms).None?
    ensures exists a :: a in atoms && |ctx.domain(a)| != 1
  {
    if forall a :: a in atoms ==> |ctx.domain(a)| == 1 {
      BoundAtomsHaveValues(ctx, atoms);
      assert false;
    }
  }

  /** An effect passing the test as written that has no line has an unbound value: that is the `unwrap` of line 82. */
  lemma UnboundValueOfStaticEffect(ctx: Context, e: Effect<Atom>)
    requires EffectIsStaticAsWritten(ctx, e) && LineOf(ctx, e).None?
    ensures |ctx.domain(e.value)| != 1
  {
    assert forall a :: a in Tail(e.stateVar) ==> a in e.stateVar;
    UnboundAtomOfNone(ctx, Tail(e.stateVar) + [e.value]);
  }

  /** The effects loop fails on an `unwrap` only at an effect on the state function without a line. */
  lemma {:induction false} MoveEffectsNotSingleton(ctx: Context, effects: seq<Effect<Atom>>, sym: Sym)
    requires MoveEffects(ctx, effects, sym) == Err(NotSingleton)
    ensures exists e :: e in effects && OnSf(ctx, InstanceHead(e.stateVar), sym) && LineOf(ctx, e).None?
  {
    var pre := effects[..|effects| - 1];
    var e := effects[|effects| - 1];
    if MoveEffects(ctx, pre, sym).Err? {
      MoveEffectsNotSingleton(ctx, pre, sym);
      var x :| x in pre && OnSf(ctx, InstanceHead(x.stateVar), sym) && LineOf(ctx, x).None?;
      assert x in effects;
    } else {
      assert e in effects;
    }
  }

  /** The state function 7 with one fact `sf(2) := 1` at the origin, where atom 1 may be 3 or 4 and every other atom is 7. */
  function UnboundValueContext(): Context
  {
    Context(a => if a == 1 then {3, 4} else {7}, 0, [StateFun(7, [])], [])
  }

  function UnboundValueChronicle(): Chronicle<Atom>
  {
    Chronicle([Effect([2], 1, 0)], [], [])
  }

  lemma UnboundValueDomains()
    ensures var ctx := UnboundValueContext();
      |ctx.domain(1)| == 2 && |ctx.domain(2)| == 1 && 7 in ctx.domain(2) && 7 !in ctx.domain(1)
  {
    var ctx := UnboundValueContext();
    assert ctx.domain(1) == {3, 4};
    assert ctx.domain(2) == {7};
  }

  /**
   * `effect_is_static` as written lets through an effect whose value is not bound, and the
   * `unwrap` of the value's singleton (line 82) panics when its line is built.
   */
  lemma UnboundValueLine()
    ensures var ctx := UnboundValueContext();
      var e := Effect([2], 1, 0);
      && EffectIsStaticAsWritten(ctx, e) && !EffectIsStatic(ctx, e)
      && LineOf(ctx, e) == None
  {
    var ctx := UnboundValueContext();
    var e := Effect([2], 1, 0);
    UnboundValueDomains();
    assert Tail(e.stateVar) + [e.value] == [1];
    assert Singletons(ctx, [1]) == None by {
      assert [1][..0] == [];
    }
  }

  /** The only effect of the instance passes the test as written but not the documented one. */
  lemma UnboundValueTests()
    ensures var ctx := UnboundValueContext();
      && EffectsInitAndBoundAsWritten(ctx, [UnboundValueChronicle()], 7)
      && !EffectsInitAndBound(ctx, [UnboundValueChronicle()], 7)
  {
    var ctx := UnboundValueContext();
    var ch := UnboundValueChronicle();
    var e := Effect([2], 1, 0);
    UnboundValueLine();
    assert ch.effects == [e];
    forall c, x | c in [ch] && x in c.effects && OnSf(ctx, InstanceHead(x.stateVar), 7)
      ensures EffectIsStaticAsWritten(ctx, x)
    {
      assert c == ch && x == e;
    }
    assert OnSf(ctx, InstanceHead(e.stateVar), 7) by { UnboundValueDomains(); }
    assert e in ch.effects && ch in [ch] && !EffectIsStatic(ctx, e);
  }

  /**
   * On that fact the state function is found static as written, and converting its instance
   * panics; the documented test leaves it a fluent.
   */
  lemma UnboundValuePanicsAsWritten()
    ensures var ctx := UnboundValueContext();
      var p := Progress([], [UnboundValueChronicle()], []);
      && StepSf(ctx, AsWritten, StateFun(7, []), p) == Err(NotSingleton)
      && StepSf(ctx, Documented, StateFun(7, []), p) == Ok(p)
  {
    var ctx := UnboundValueContext();
    var p := Progress([], [UnboundValueChronicle()], []);
    UnboundValueTests();
    UnboundValueConvertPanics();
    assert !AppearsInTemplateEffects(ctx, [], 7);
    assert NextTableId(ctx, p) == 0;
  }

  /** Converting the instance panics: its effect on the state function has no line. */
  lemma UnboundValueConvertPanics()
    ensures ConvertInstances(UnboundValueContext(), [UnboundValueChronicle()], 7, 0) == Err(NotSingleton)
  {
    var ctx := UnboundValueContext();
    var ch := UnboundValueChronicle();
    var e := Effect([2], 1, 0);
    UnboundValueLine();
    UnboundValueDomains();
    assert [e][..0] == [];
    assert MoveEffects(ctx, [e], 7) == Err(NotSingleton);
    assert ConvertInstance(ctx, ch, 7, 0) == Err(NotSingleton);
    assert [ch][..0] == [];
  }

  /** A converted instance: the other effects and conditions in order, and one `InTable` constraint per removed condition after its constraints. */
  lemma ConvertInstanceMeaning(ctx: Context, ch: Chronicle<Atom>, sym: Sym, tableId: Uint32)
    requires ConvertInstance(ctx, ch, sym, tableId).Ok?
    ensures var c := ConvertInstance(ctx, ch, sym, tableId).value;
      var moved := SfConds(ctx, ch.conditions, InstanceHead, sym);
      && c.chronicle.effects == OtherEffects(ctx, ch.effects, sym)
      && c.chronicle.conditions == OtherConds(ctx, ch.conditions, InstanceHead, sym)
      && |c.chronicle.constraints| == |ch.constraints| + |moved|
      && c.chronicle.constraints[..|ch.constraints|] == ch.constraints
      && (forall k :: 0 <= k < |moved| ==> c.chronicle.constraints[|ch.constraints| + k] == TableConstraint(moved[k], tableId))
      && |c.lines| == |SfEffects(ctx, ch.effects, sym)|
      && (forall k :: 0 <= k < |c.lines| ==> LineOf(ctx, SfEffects(ctx, ch.effects, sym)[k]) == Some(c.lines[k]))
  {
    MoveEffectsMeaning(ctx, ch.effects, sym);
    ReplaceCondsMeaning(ctx, ch.conditions, InstanceHead, sym, tableId);
  }

  /** Every instance is converted on its own. */
  lemma {:induction false} ConvertInstancesEach(ctx: Context, chs: seq<Chronicle<Atom>>, sym: Sym, tableId: Uint32)
    requires ConvertInstances(ctx, chs, sym, tableId).Ok?
    ensures var a := ConvertInstances(ctx, chs, sym, tableId).value;
      && |a.chronicles| == |chs|
      && forall i :: 0 <= i < |chs| ==>
           ConvertInstance(ctx, chs[i], sym, tableId).Ok? && ConvertInstance(ctx, chs[i], sym, tableId).value.chronicle == a.chronicles[i]
  {
    if chs != [] {
      assert ConvertInstances(ctx, chs[..|chs| - 1], sym, tableId).Ok?;
      ConvertInstancesEach(ctx, chs[..|chs| - 1], sym, tableId);
    }
  }

  /** Each line is the line of the effect at the same position. */
  predicate LinesMatch(ctx: Context, effects: seq<Effect<Atom>>, lines: seq<seq<Sym>>)
  {
    && |lines| == |effects|
    && forall k :: 0 <= k < |lines| ==> LineOf(ctx, effects[k]) == Some(lines[k])
  }

  lemma LinesMatchConcat(ctx: Context, e1: seq<Effect<Atom>>, l1: seq<seq<Sym>>, e2: seq<Effect<Atom>>, l2: seq<seq<Sym>>)
    requires LinesMatch(ctx, e1, l1) && LinesMatch(ctx, e2, l2)
    ensures LinesMatch(ctx, e1 + e2, l1 + l2)
  {
    forall k | 0 <= k < |l1 + l2|
      ensures LineOf(ctx, (e1 + e2)[k]) == Some((l1 + l2)[k])
    {
      if k >= |l1| {
        assert (e1 + e2)[k] == e2[k - |l1|];
      }
    }
  }

  /** One step of `ConvertInstances`: the last chronicle's moved lines follow those of the prefix. */
  lemma ConvertInstancesStep(ctx: Context, chs: seq<Chronicle<Atom>>, sym: Sym, tableId: Uint32)
    requires chs != [] && ConvertInstances(ctx, chs, sym, tableId).Ok?
    ensures ConvertInstances(ctx, chs[..|chs| - 1], sym, tableId).Ok?
    ensures MoveEffects(ctx, chs[|chs| - 1].effects, sym).Ok?
    ensures ConvertInstances(ctx, chs, sym, tableId).value.lines
      == ConvertInstances(ctx, chs[..|chs| - 1], sym, tableId).value.lines + MoveEffects(ctx, chs[|chs| - 1].effects, sym).value.lines
  {
  }

  /** The table's lines are those of all moved effects, instance by instance. */
  lemma {:induction false} ConvertInstancesLines(ctx: Context, chs: seq<Chronicle<Atom>>, sym: Sym, tableId: Uint32)
    requires ConvertInstances(ctx, chs, sym, tableId).Ok?
    ensures var a := ConvertInstances(ctx, chs, sym, tableId).value;
      && |a.lines| == |SfEffectsAll(ctx, chs, sym)|
      && forall k :: 0 <= k < |a.lines| ==> LineOf(ctx, SfEffectsAll(ctx, chs, sym)[k]) == Some(a.lines[k])
  {
    if chs != [] {
      var pre := chs[..|chs| - 1];
      var last := chs[|chs| - 1];
      ConvertInstancesStep(ctx, chs, sym, tableId);
      ConvertInstancesLines(ctx, pre, sym, tableId);
      MoveEffectsMeaning(ctx, last.effects, sym);
      LinesMatchConcat(ctx, SfEffectsAll(ctx, pre, sym), ConvertInstances(ctx, pre, sym, tableId).value.lines,
        SfEffects(ctx, last.effects, sym), MoveEffects(ctx, last.effects, sym).value.lines);
    }
  }

  /** With the documented test, converting the instances can only fail on a condition's `assert!`. */
  lemma {:induction false} ConvertInstancesPanics(ctx: Context, chs: seq<Chronicle<Atom>>, sym: Sym, tableId: Uint32)
    requires EffectsInitAndBound(ctx, chs, sym)
    ensures ConvertInstances(ctx, chs, sym, tableId).Err? ==> ConvertInstances(ctx, chs, sym, tableId).error == NotUnified
  {
    if chs != [] {
      var last := chs[|chs| - 1];
      assert EffectsInitAndBound(ctx, chs[..|chs| - 1], sym) by {
        forall ch | ch in chs[..|chs| - 1] ensures ch in chs { }
      }
      ConvertInstancesPanics(ctx, chs[..|chs| - 1], sym, tableId);
      assert last in chs;
      StaticEffectsMove(ctx, last.effects, sym);
      ReplaceCondsPanics(ctx, last.conditions, InstanceHead, sym, tableId);
    }
  }

  /** Converting the instances fails on an `unwrap` only at some instance's effect on the state function without a line. */
  lemma {:induction false} ConvertInstancesNotSingleton(ctx: Context, chs: seq<Chronicle<Atom>>, sym: Sym, tableId: Uint32)
    requires ConvertInstances(ctx, chs, sym, tableId) == Err(NotSingleton)
    ensures exists ch, e :: ch in chs && e in ch.effects && OnSf(ctx, InstanceHead(e.stateVar), sym) && LineOf(ctx, e).None?
  {
    var pre := chs[..|chs| - 1];
    var last := chs[|chs| - 1];
    if ConvertInstances(ctx, pre, sym, tableId).Err? {
      ConvertInstancesNotSingleton(ctx, pre, sym, tableId);
      var ch, e :| ch in pre && e in ch.effects && OnSf(ctx, InstanceHead(e.stateVar), sym) && LineOf(ctx, e).None?;
      assert ch in chs;
    } else {
      ReplaceCondsPanics(ctx, last.conditions, InstanceHead, sym, tableId);
      MoveEffectsNotSingleton(ctx, last.effects, sym);
      assert last in chs;
    }
  }

  /** Every template is converted on its own; converting them can only fail on a condition's `assert!`. */
  lemma {:induction false} ConvertTemplatesMeaning(ctx: Context, ts: seq<Chronicle<Holed>>, sym: Sym, tableId: Uint32)
    ensures var r := ConvertTemplates(ctx, ts, sym, tableId);
      && (r.Err? ==> r.error == NotUnified)
      && (r.Ok? ==> |r.value| == |ts| && forall i :: 0 <= i < |ts| ==>
           ConvertTemplate(ctx, ts[i], sym, tableId) == Ok(r.value[i]))
  {
    if ts != [] {
      ConvertTemplatesMeaning(ctx, ts[..|ts| - 1], sym, tableId);
      ReplaceCondsPanics(ctx, ts[|ts| - 1].conditions, TemplateHead, sym, tableId);
    }
  }

  /** A converted template keeps its effects and other conditions, and gains one `InTable` constraint per removed condition. */
  lemma ConvertTemplateMeaning(ctx: Context, t: Chronicle<Holed>, sym: Sym, tableId: Uint32)
    requires ConvertTemplate(ctx, t, sym, tableId).Ok?
    ensures var u := ConvertTemplate(ctx, t, sym, tableId).value;
      var moved := SfConds(ctx, t.conditions, TemplateHead, sym);
      && u.effects == t.effects
      && u.conditions == OtherConds(ctx, t.conditions, TemplateHead, sym)
      && |u.constraints| == |t.constraints| + |moved|
      && u.constraints[..|t.constraints|] == t.constraints
      && (forall k :: 0 <= k < |moved| ==> u.constraints[|t.constraints| + k] == TableConstraint(moved[k], tableId))
  {
    ReplaceCondsMeaning(ctx, t.conditions, TemplateHead, sym, tableId);
  }

  /**
   * One state function: left alone unless static; once converted, no instance effect and no
   * condition on it is left and one table is appended. A panic is a condition's `assert!`, or,
   * with the test as written only, the `unwrap` of an instance effect's unbound value.
   */
  lemma StepSfMeaning(ctx: Context, test: StaticTest, sf: StateFun, p: Progress)
    ensures var r := StepSf(ctx, test, sf, p);
      && (!IsStatic(ctx, test, p.templates, p.chronicles, sf.sym) ==> r == Ok(p))
      && (r.Err? ==> r.error == NotUnified || (test.AsWritten? && r.error == NotSingleton))
      && (r == Err(NotSingleton) ==> SomeValueUnbound(ctx, p.chronicles, sf.sym))
      && (IsStatic(ctx, test, p.templates, p.chronicles, sf.sym) && r.Ok? ==>
           && |r.value.chronicles| == |p.chronicles| && |r.value.templates| == |p.templates|
           && r.value.additional[..|p.additional|] == p.additional
           && |r.value.additional| == |p.additional| + 1
           && r.value.additional[|p.additional|].tpe == sf.tpe
           && (forall i, e :: 0 <= i < |p.chronicles| && e in r.value.chronicles[i].effects ==>
                !OnSf(ctx, InstanceHead(e.stateVar), sf.sym))
           && (forall i, c :: 0 <= i < |p.chronicles| && c in r.value.chronicles[i].conditions ==>
                !OnSf(ctx, InstanceHead(c.stateVar), sf.sym))
           && (forall i, c :: 0 <= i < |p.templates| && c in r.value.templates[i].conditions ==>
                !OnSf(ctx, TemplateHead(c.stateVar), sf.sym)))
  {
    if IsStatic(ctx, test, p.templates, p.chronicles, sf.sym) {
      var id := NextTableId(ctx, p);
      StepSfPanics(ctx, test, sf, p);
      ConvertTemplatesMeaning(ctx, p.templates, sf.sym, id);
      var a := ConvertInstances(ctx, p.chronicles, sf.sym, id);
      var ts := ConvertTemplates(ctx, p.templates, sf.sym, id);
      if a.Ok? && ts.Ok? {
        ConvertInstancesEach(ctx, p.chronicles, sf.sym, id);
        forall i | 0 <= i < |p.chronicles|
          ensures forall e :: e in a.value.chronicles[i].effects ==> !OnSf(ctx, InstanceHead(e.stateVar), sf.sym)
          ensures forall c :: c in a.value.chronicles[i].conditions ==> !OnSf(ctx, InstanceHead(c.stateVar), sf.sym)
        {
          ConvertInstanceMeaning(ctx, p.chronicles[i], sf.sym, id);
          EffectsPartition(ctx, p.chronicles[i].effects, sf.sym);
          ConditionsPartition(ctx, p.chronicles[i].conditions, InstanceHead, sf.sym);
        }
        forall i | 0 <= i < |p.templates|
          ensures forall c :: c in ts.value[i].conditions ==> !OnSf(ctx, TemplateHead(c.stateVar), sf.sym)
        {
          ConvertTemplateMeaning(ctx, p.templates[i], sf.sym, id);
          ConditionsPartition(ctx, p.templates[i].conditions, TemplateHead, sf.sym);
        }
      }
    }
  }

  /** The panics of a static state function's conversion, for `StepSfMeaning`. */
  lemma StepSfPanics(ctx: Context, test: StaticTest, sf: StateFun, p: Progress)
    requires IsStatic(ctx, test, p.templates, p.chronicles, sf.sym)
    ensures var r := StepSf(ctx, test, sf, p);
      && (r.Err? ==> r.error == NotUnified || (test.AsWritten? && r.error == NotSingleton))
      && (r == Err(NotSingleton) ==> SomeValueUnbound(ctx, p.chronicles, sf.sym))
  {
    var id := NextTableId(ctx, p);
    ConvertTemplatesMeaning(ctx, p.templates, sf.sym, id);
    var a := ConvertInstances(ctx, p.chronicles, sf.sym, id);
    if test.Documented? {
      ConvertInstancesPanics(ctx, p.chronicles, sf.sym, id);
    } else if a == Err(NotSingleton) {
      ConvertInstancesNotSingleton(ctx, p.chronicles, sf.sym, id);
      var ch, e :| ch in p.chronicles && e in ch.effects && OnSf(ctx, InstanceHead(e.stateVar), sf.sym) && LineOf(ctx, e).None?;
      UnboundValueOfStaticEffect(ctx, e);
    }
    if test.Documented? && a == Err(NotSingleton) {
      assert false;
    }
  }

  /** The table of a converted state function is found under its id once the tables are appended, while the id does not wrap. */
  lemma TableIdLocatesTable(ctx: Context, test: StaticTest, sf: StateFun, p: Progress)
    requires IsStatic(ctx, test, p.templates, p.chronicles, sf.sym) && StepSf(ctx, test, sf, p).Ok?
    requires |ctx.tables| + |p.additional| < U32_MODULUS
    ensures var q := StepSf(ctx, test, sf, p).value;
      (ctx.tables + q.additional)[NextTableId(ctx, p)] == q.additional[|p.additional|]
  {
  }

  /** Later state functions only append tables. */
  lemma {:induction false} StepSfsAppends(ctx: Context, test: StaticTest, sfs: seq<StateFun>, p: Progress)
    requires StepSfs(ctx, test, sfs, p).Ok?
    ensures var q := StepSfs(ctx, test, sfs, p).value;
      |p.additional| <= |q.additional| <= |p.additional| + |sfs| && q.additional[..|p.additional|] == p.additional
  {
    if sfs != [] {
      var pre := sfs[..|sfs| - 1];
      assert StepSfs(ctx, test, pre, p).Ok?;
      StepSfsAppends(ctx, test, pre, p);
      var q := StepSfs(ctx, test, pre, p).value;
      StepSfMeaning(ctx, test, sfs[|sfs| - 1], q);
      var r := StepSf(ctx, test, sfs[|sfs| - 1], q).value;
      if IsStatic(ctx, test, q.templates, q.chronicles, sfs[|sfs| - 1].sym) {
        assert r.additional[..|p.additional|] == r.additional[..|q.additional|][..|p.additional|];
      }
    }
  }

  /** The rewrite panics on a condition's `assert!`, or, with the test as written only, on an `unwrap`. */
  lemma {:induction false} StepSfsPanics(ctx: Context, test: StaticTest, sfs: seq<StateFun>, p: Progress)
    ensures var r := StepSfs(ctx, test, sfs, p);
      r.Err? ==> r.error == NotUnified || (test.AsWritten? && r.error == NotSingleton)
  {
    if sfs != [] {
      StepSfsPanics(ctx, test, sfs[..|sfs| - 1], p);
      var r := StepSfs(ctx, test, sfs[..|sfs| - 1], p);
      if r.Ok? {
        StepSfMeaning(ctx, test, sfs[|sfs| - 1], r.value);
      }
    }
  }

  /**
   * The rewrite appends at most one table per state function and leaves the existing tables and
   * the rest of the context unchanged. With the documented test it only panics on a condition's
   * `assert!`; as written it may also panic on an `unwrap`.
   */
  lemma PreprocessMeaning(pb: Problem, test: StaticTest)
    ensures var r := Preprocess(pb, test);
      && (r.Err? ==> r.error == NotUnified || (test.AsWritten? && r.error == NotSingleton))
      && (r.Ok? ==>
           && r.value.context.tables[..|pb.context.tables|] == pb.context.tables
           && |pb.context.tables| <= |r.value.context.tables| <= |pb.context.tables| + |pb.context.stateFunctions|
           && r.value.context.(tables := pb.context.tables) == pb.context)
  {
    var p0 := Progress(pb.templates, pb.chronicles, []);
    StepSfsPanics(pb.context, test, pb.context.stateFunctions, p0);
    if StepSfs(pb.context, test, pb.context.stateFunctions, p0).Ok? {
      StepSfsAppends(pb.context, test, pb.context.stateFunctions, p0);
    }
  }

  /** The whole rewrite as written panics on the problem of `UnboundValuePanicsAsWritten`; corrected, it leaves it unchanged. */
  lemma PreprocessUnboundValue()
    ensures var pb := Problem(UnboundValueContext(), [], [UnboundValueChronicle()]);
      && Preprocess(pb, AsWritten) == Err(NotSingleton)
      && Preprocess(pb, Documented) == Ok(pb)
  {
    UnboundValuePanicsAsWritten();
    var ctx := UnboundValueContext();
    assert ctx.stateFunctions[..0] == [];
    assert ctx.(tables := ctx.tables + []) == ctx;
  }
}
