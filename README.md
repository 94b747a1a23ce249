# aries core, modelled in Dafny

This project models the core of the aries constraint-based planner and scheduler. It covers seven parts:

- **Bound identifiers** (`VarBounds`). A variable's lower bound has id `2v` and its upper bound `2v + 1`, both 32-bit, and the shift by one wraps round.
- **Literals** (`Lits`). A literal is a bound id plus a raw value. It supports negation, entailment and the derived order.
- **Discrete atoms** (`Discrete`). A single type holds both integer and symbolic atoms, with checked conversions back to each kind.
- **The observable trail** (`Queues`). `ObsTrail` is an append-only event list with save points. Read cursors (`ObsTrailCursor`) follow it and are rewound when it backtracks. `last_event_matching` looks up an event together with its decision level.
- **The integer domain store** (`IntModel`). `DiscreteModel` holds one interval per variable. Each tightening is recorded as a `(prev, new)` event, so a save point can be restored. It also memoises expression literals.
- **The incremental simple temporal network** (STN, stn.rs), split over four modules:
  - `StnEdges`: edge ids, edges and their negation, directional views, cause encoding;
  - `StnDb`: the constraint database;
  - `StnState`: the propagation invariant, the set of pending bounds, and the abstract state the undo trail restores;
  - `Stn`: the `IncStn` class itself, with edge activation, the propagation loop, backtrack points and undo.
- **Chronicle preprocessing** (`Preprocessing`). `statics_as_tables` finds the state functions that are static, moves their effects into a table and replaces their conditions by table constraints. The static test is a parameter (`StaticTest`): `AsWritten` is the test the code applies, and `Documented` also requires the value to be bound, as the documentation of the pass states.

Code that changes state in place is modelled as classes with `modifies` frames:

- `ObsTrail`, `ObsTrailCursor`, `DiscreteModel`, `ConstraintDb`, `IncStn` and `PropagationQueue`;
- the preprocessing loops: `while` loops that remove processed entries in place, with invariants.

Each such method is stated against a specification function, either the value-level undo (`UndoAll`, `UndoNetAll`) or the preprocessing step functions (`MoveEffects`, `ReplaceConds`, `StepSf`, `Preprocess`). The properties the source promises are then proved about those functions as lemmas.

Modelling choices:

- Rust `u32`/`usize` values are bounded subtypes of `int`, and every truncating cast or shift on them is written out. `IntCst` is a 32-bit signed integer; its one truncating cast in the modelled files, `usize as IntCst` (discrete.rs:67), is written out too (`Discrete.AsIntCst`), and elsewhere `IntCst` values are unbounded (see "## Left out").
- A panic inside the core (`assert!`, `unwrap`, `assert_eq!`) becomes an `Err` value that names the failed check. A panic that only guards a caller's obligation (`expect` on a missing save point, `sync_backtrack` on the wrong trail) becomes a `requires`.
- `BoundValue` (`ub(v) = v`, `lb(v) = -v`, `neg(x) = -x - 1`, `stronger` is `<=`) and `VarBound::symmetric_bound` (flip the lowest bit) are not in the modelled files. They are given the meaning that their uses in `lit.rs` require.
- Where the documentation and the code disagree, the model follows the code:
  - lit.rs:33-42 says literals sort like their `unpack()` tuples. In the code, lower-bound literals of a variable sort by decreasing value (`Lits.OrderReversesLowerBoundValues`).
  - queues.rs:105-111 says the search stops when `keep_going` returns true. The code stops when it returns false.
  - stn.rs:534-536 says a new network already holds an origin timepoint with domain `[0, 0]`. The constructor creates no timepoint (`Stn.IncStn.constructor`).

## Model

| member | source | states |
|---|---|---|
| VarBounds.Shl1 | model/src/bounds/var_bound.rs:14-21 | `u32 << 1` gives an even value: twice the input below 2^31, twice the input minus 2^32 above |
| VarBounds.Ub | model/src/bounds/var_bound.rs:14-17 | the upper-bound id of a variable is odd, and is `2v + 1` for an encodable variable |
| VarBounds.Lb | model/src/bounds/var_bound.rs:19-22 | the lower-bound id of a variable is even, and is `2v` for an encodable variable |
| VarBounds.Variable | model/src/bounds/var_bound.rs:34-37 | the variable read back from a bound id is below 2^31, and the id is the lower or the upper bound of that variable |
| VarBounds.SymmetricBound | cp/core/src/lit.rs:164-170 | the symmetric bound is on the same variable and on the other side |
| VarBounds.BoundIds | model/src/bounds/var_bound.rs:14-22 | for an encodable variable, lb has id 2v and ub has id 2v+1 |
| VarBounds.ExactlyOneSide | model/src/bounds/var_bound.rs:24-32 | every bound id is exactly one of a lower and an upper bound |
| VarBounds.SideOfConstructors | model/src/bounds/var_bound.rs:14-32 | `lb(v)` tests as a lower bound and `ub(v)` as an upper bound |
| VarBounds.VariableOfBound | model/src/bounds/var_bound.rs:14-37 | `variable` inverts `lb`/`ub` for encodable variables; above 2^31 the shift loses the top bit |
| VarBounds.BoundOfDecoded | model/src/bounds/var_bound.rs:14-37 | every bound id is `lb` or `ub` of its own variable |
| VarBounds.EncodingInjective | model/src/bounds/var_bound.rs:14-22 | distinct encodable variables get distinct bound ids, and no lb equals a ub |
| VarBounds.SymmetricBoundOfConstructors | cp/core/src/lit.rs:164-170 | the symmetric bound swaps `lb(v)` and `ub(v)` |
| VarBounds.SymmetricBoundInvolutive | cp/core/src/lit.rs:164-170 | the symmetric bound is an involution without fixed points |
| VarBounds.ConversionsRoundTrip | model/src/bounds/var_bound.rs:39-61 | u32 conversion round-trips both ways; a usize round-trips only below 2^32 (the `as u32` cast truncates) |
| Lits.Not | cp/core/src/lit.rs:164-170 | the negation is on the same variable with the opposite relation |
| Lits.New | cp/core/src/lit.rs:99-111 | the literal built by `new(v, r, c)` reads back relation r and value c, and variable v when v is encodable |
| Lits.Unpack | cp/core/src/lit.rs:176-178 | `new` applied to the unpacked triple gives the literal back |
| Lits.Entails | cp/core/src/lit.rs:172-174 | if `a` entails `b`, every value satisfying `a` satisfies `b` |
| Lits.FromBool | cp/core/src/lit.rs:198-206 | `From<bool>` gives a literal on `ZERO` that the value 0 satisfies exactly when the boolean is true |
| Lits.LitLess | cp/core/src/lit.rs:52-66 | a literal is never below itself, and the derived order never puts a larger bound id first |
| Lits.NewTargets | cp/core/src/lit.rs:99-111 | `v <= c` is the upper bound with raw value c; `v > c` is the lower bound with raw value -(c+1) |
| Lits.UnpackNew | cp/core/src/lit.rs:99-178 | `unpack(new(v, r, c)) == (v, r, c)` for every encodable variable |
| Lits.StrictForms | cp/core/src/lit.rs:145-162 | `lt(v, c)` is `leq(v, c-1)`, `geq(v, c)` is `gt(v, c-1)`, the lower bound with raw value -c |
| Lits.GeqExample | cp/core/src/lit.rs:16-30 | the documented example: `y >= 5` unpacks to `(y, Gt, 4)` |
| Lits.NotInvolutive | cp/core/src/lit.rs:164-170 | negation is an involution without fixed points |
| Lits.NotOfLeq | cp/core/src/lit.rs:145-170 | the negation of `v <= c` is `v > c` and the other way round |
| Lits.FalseIsNotTrue | cp/core/src/lit.rs:84-88 | TRUE is `ZERO <= 0`, i.e. bound id 1 with raw 0; FALSE is its negation `ZERO > 0` |
| Lits.NotIsComplement | cp/core/src/lit.rs:164-170 | a value satisfies `!l` exactly when it does not satisfy `l` |
| Lits.TrueAndFalseMeaning | cp/core/src/lit.rs:84-206 | `ZERO = 0` satisfies TRUE and not FALSE; `From<bool>` maps to them |
| Lits.EntailsSound | cp/core/src/lit.rs:172-174 | if `a` entails `b`, every value satisfying `a` satisfies `b` |
| Lits.EntailsComplete | cp/core/src/lit.rs:172-174 | on the same bound, if every value satisfying `a` satisfies `b`, then `a` entails `b` |
| Lits.EntailmentExamples | cp/core/src/lit.rs:238-257 | the entailments and non-entailments of `test_entailments`, for every pair of distinct variables |
| Lits.LitLessIsTotalOrder | cp/core/src/lit.rs:52-66 | the derived order on literals is a strict total order |
| Lits.EntailedAreContiguous | cp/core/src/lit.rs:41-42 | if `a` entails `b`, `a` also entails every literal sorted between them |
| Lits.OrderGroupsBySide | cp/core/src/lit.rs:33-41 | all `>` literals of a variable sort before all its `<=` literals |
| Lits.OrderReversesLowerBoundValues | cp/core/src/lit.rs:33-39 | `x >= 2` sorts before `x >= 1` although its unpacked value is larger |
| Lits.SortedHeadIsLeast | cp/core/src/lit.rs:44-50 | the head of a sorted list is its least element |
| Lits.SortedPermutationUnique | cp/core/src/lit.rs:44-50 | two sorted lists with the same elements are equal, so `sort` has one result |
| Lits.DocumentedSort | cp/core/src/lit.rs:44-51 | the documented list sorts to exactly the documented order |
| Discrete.FromIAtom | model/src/lang/discrete.rs:18-26 | an integer atom becomes an untyped atom with the same variable and shift |
| Discrete.ToIAtom | model/src/lang/discrete.rs:46-55 | conversion fails with TypeError exactly for typed atoms, otherwise keeps variable and shift |
| Discrete.FromSAtom | model/src/lang/discrete.rs:57-72 | a symbolic variable gets shift 0; a symbol is stored as its index truncated to 32 bits by `as IntCst`; the type is kept |
| Discrete.ToSAtom | model/src/lang/discrete.rs:74-91 | fails exactly for untyped atoms (TypeError) and for variables with a non-zero shift (the `assert_eq!` panic); otherwise rebuilds the variable or symbol |
| Discrete.IAtomRoundTrip | model/src/lang/discrete.rs:18-55 | converting an integer atom and back gives it again |
| Discrete.IntegerDAtomRoundTrip | model/src/lang/discrete.rs:18-55 | every untyped atom converts to an integer atom that converts back to it |
| Discrete.AsIntCst | model/src/lang/discrete.rs:67 | `as IntCst` gives a 32-bit signed value congruent to its input modulo 2^32, and keeps every value below 2^31 |
| Discrete.SAtomRoundTrip | model/src/lang/discrete.rs:57-91 | converting a symbolic atom and back gives it again exactly for variables and for symbol indices below 2^31 or in the top 2^31 of `usize`, where the 32-bit cast and the sign-extending cast back cancel |
| Discrete.SAtomRoundTripLosesSymbol | model/src/lang/discrete.rs:57-91 | symbol 2^31 becomes shift -2^31 and comes back as symbol 2^64 - 2^31 |
| Discrete.SymbolicDAtomRoundTrip | model/src/lang/discrete.rs:57-91 | every convertible typed atom whose shift is an `IntCst` converts back to itself, negative symbol shifts included |
| Discrete.ExactlyOneKind | model/src/lang/discrete.rs:46-91 | no atom converts to both kinds; every atom converts to one of them or hits the shift panic |
| Queues.ObsTrail.constructor | backtrack/src/queues.rs:34-40 | a new trail is empty, with no save point and no backtrack |
| Queues.ObsTrail.Push | backtrack/src/queues.rs:53-55 | appends one event and keeps the save points |
| Queues.ObsTrail.Pop | backtrack/src/queues.rs:56-58 | removes and returns the last event, or returns None on an empty trail |
| Queues.ObsTrail.Append | backtrack/src/queues.rs:62-65 | appends the events in order |
| Queues.ObsTrail.Reader | backtrack/src/queues.rs:67-74 | a new cursor bound to this trail, at position 0 |
| Queues.ObsTrail.SaveState | backtrack/src/queues.rs:177-180 | records the current length as a save point and returns its index |
| Queues.ObsTrail.BacktrackWithCallback | backtrack/src/queues.rs:76-87 | truncates to the last save point, hands back the removed events newest first, and records the backtrack with the next id |
| Queues.ObsTrail.RestoreLast | backtrack/src/queues.rs:186-197 | truncates to the last save point and drops it |
| Queues.ObsTrail.LastEventMatching | backtrack/src/queues.rs:129-156 | as written: a found event is the latest match, `keep_going` holds at it and at every event after it, and the reported level is the one the scan computes; None means every match has a stop at or after it |
| Queues.ObsTrail.LastEventMatchingCorrected | backtrack/src/queues.rs:129-156 | the same search, reporting the true decision level of the event |
| Queues.ObsTrailCursor.constructor | backtrack/src/queues.rs:250-257 | a cursor not yet bound to a trail, at position 0 |
| Queues.ObsTrailCursor.SyncedRead | backtrack/src/queues.rs:269-283 | after a backtrack the cursor has not seen, its position is clamped to where the trail was cut |
| Queues.ObsTrailCursor.SyncBacktrack | backtrack/src/queues.rs:269-283 | binds the cursor to the trail, moves to the synced position, and remembers the backtrack id |
| Queues.ObsTrailCursor.NumPending | backtrack/src/queues.rs:285-289 | the number of events after the synced position |
| Queues.ObsTrailCursor.Pop | backtrack/src/queues.rs:291-305 | returns the event at the synced position and advances, or None at the end |
| Queues.NextSlotLevel | backtrack/src/queues.rs:46-51 | the next slot's level is the true decision level of the trail's end |
| Queues.TrueLevel | backtrack/src/queues.rs:96-110 | the decision level of an index is at most the number of save points; `AllPointsAtOrBelow`, `LevelCharacterised`, `TrueLevelMonotone` and `BoundaryOfLevel` state what it is |
| Queues.ScanLevel | backtrack/src/queues.rs:129-156 | the level the backward scan tracks is at most the number of save points; `ScanLevelExactWithoutEmptyLevels` and `ScanMisreportsEmptyLevel` relate it to the true level |
| Queues.AllPointsAtOrBelow | backtrack/src/queues.rs:96-98 | past every save point, the decision level is the current one |
| Queues.LevelCharacterised | backtrack/src/queues.rs:105-110 | level d is the only level whose save-point interval contains the index |
| Queues.TrueLevelMonotone | backtrack/src/queues.rs:105-110 | decision levels never decrease along the trail |
| Queues.BoundaryOfLevel | backtrack/src/queues.rs:105-110 | an event's level lies between the save points around it |
| Queues.CompareLocByIndex | backtrack/src/queues.rs:206-221 | locations are equal and ordered by event index alone, and the order is antisymmetric |
| Queues.ScanLevelExactWithoutEmptyLevels | backtrack/src/queues.rs:129-156 | when no decision level is empty, the scan reports the true level of every event |
| Queues.ScanMisreportsEmptyLevel | backtrack/src/queues.rs:146-148 | with an empty decision level, the scan reports level 1 for an event at level 0 |
| Queues.ReadersAtEnd | backtrack/src/queues.rs:308-326 | the trail 0, 1, 5 read to its end by two independent cursors (`test_queues`) |
| Queues.ReadZeroOneFive | backtrack/src/queues.rs:316-320 | a cursor reads 0, 1, 5 and then None |
| Queues.TestQueues | backtrack/src/queues.rs:327-331 | after one more push, each of the two readers reads the new event once and then None |
| Queues.BacktrackTrail | backtrack/src/queues.rs:335-342 | the trail of `test_backtracks`: 1, 2, a save point, 3 |
| Queues.NestedSaveRestore | backtrack/src/queues.rs:367-373 | a save, a push, a restore, a push, then a save, a push and a restore leave the trail 1, 2, 5 with no save point and two more backtracks recorded |
| Queues.LookupTrail | backtrack/src/queues.rs:380-390 | the trail of `event_lookups`: three levels of two events each |
| Queues.LookupTrailLevels | backtrack/src/queues.rs:392-407 | the levels the scan reports on that trail are the ones the test expects |
| IntModel.Intern | model/src/int_model.rs:277-286 | a bound handle keeps its literal; a new one is bound to the literal made for it |
| IntModel.UndoEvent | model/src/int_model.rs:255-271 | undoing one event keeps the number of domains; `UndoInvertsSetLb` and `UndoInvertsSetUb` state that it inverts the tightening |
| IntModel.UndoAll | model/src/int_model.rs:302-313 | undoing a run of events keeps the number of domains; `UndoAllKeepsUntouched`, `UndoAllPush` and `UndoAllConcat` state what it does |
| IntModel.DiscreteModel.constructor | model/src/int_model.rs:74-81 | a new model has no variables, no bindings and an empty trail |
| IntModel.DiscreteModel.NewDiscreteVar | model/src/int_model.rs:83-88 | adds one variable with domain `[lb, ub]` and its label, with the next index as id |
| IntModel.DiscreteModel.SetLb | model/src/int_model.rs:107-119 | a stronger lower bound is set and recorded as one `NewLB(prev, new)` event with its cause; a weaker one changes nothing |
| IntModel.DiscreteModel.SetUb | model/src/int_model.rs:121-133 | the same for upper bounds |
| IntModel.DiscreteModel.Entails | model/src/int_model.rs:233-238 | an entailed literal holds for every value of the domain; a literal not entailed fails at the bound it constrains |
| IntModel.DiscreteModel.RecordChange | model/src/int_model.rs:116-118 | pushing the event of a change keeps every save point restorable |
| IntModel.DiscreteModel.UndoIntEvent | model/src/int_model.rs:255-271 | puts back the previous bound that the event records |
| IntModel.DiscreteModel.SaveState | model/src/int_model.rs:294-296 | adds a save point at the current trail length and returns its index |
| IntModel.DiscreteModel.RestoreLast | model/src/int_model.rs:302-306 | restores every domain saved at the last save point and truncates the trail to it |
| IntModel.DiscreteModel.UndoEntries | model/src/int_model.rs:302-306 | undoing the events handed back newest first gives `UndoAll` of the old domains |
| IntModel.DiscreteModel.Restore | model/src/int_model.rs:308-313 | restores the domains saved at save point `id` and keeps the save points below it |
| IntModel.DiscreteModel.InternExprWith | model/src/int_model.rs:277-286 | binds and returns as `Intern` says, calls `make_lit` (`called`) exactly when the handle was unbound, and changes nothing else |
| IntModel.SavedAfterRestore | model/src/int_model.rs:302-306 | after restoring the last save point, every earlier save point is still restorable |
| IntModel.SavedBelowRestorePoint | model/src/int_model.rs:302-306 | undoing past a later point and then back to an earlier one gives the earlier saved domains |
| IntModel.UndoAllPush | model/src/int_model.rs:255-271 | undoing a trail with one more event undoes that event first |
| IntModel.UndoAllConcat | model/src/int_model.rs:255-271 | undoing older plus newer events is undoing the newer and then the older |
| IntModel.UndoAllExtend | model/src/int_model.rs:83-88 | a variable created after the events is untouched by undoing them |
| IntModel.UndoAllKeepsUntouched | model/src/int_model.rs:255-271 | a variable no event refers to keeps its domain through the undo |
| IntModel.UndoInvertsSetLb | model/src/int_model.rs:107-119 | undoing the event `set_lb` records gives back the domains before it |
| IntModel.UndoInvertsSetUb | model/src/int_model.rs:121-133 | undoing the event `set_ub` records gives back the domains before it |
| IntModel.EntailsMeansEveryValue | model/src/int_model.rs:233-238 | a non-empty domain entails a literal exactly when every value in it satisfies the literal |
| IntModel.EntailmentPersists | model/src/int_model.rs:233-238 | once entailed, a literal stays entailed after any tightening |
| IntModel.InternIsMemoised | model/src/int_model.rs:277-286 | interning the same handle twice returns the first literal and leaves the binding unchanged |
| IntModel.SaveAndTighten | model/src/int_model.rs:107-133 | a save point then three tightenings, one of them not stronger: only the stronger ones change a domain |
| IntModel.SaveTightenRestore | model/src/int_model.rs:233-306 | after the tightenings `x` entails `x <= 7` and `x > 2` but not `x > 3`, and restoring gives back the saved domains `[0, 10]` and `[-5, 5]` |
| StnEdges.BaseId | tnet/src/stn.rs:37-40 | a base id is below 2^31 |
| StnEdges.NewEdgeId | tnet/src/stn.rs:28-45 | `EdgeId::new(b, n)` reads back the negation flag n, and base b below 2^31 |
| StnEdges.NotId | tnet/src/stn.rs:57-64 | `!id` has the same base id and the other negation flag |
| StnEdges.Canonical | tnet/src/stn.rs:104-135 | the canonical form is canonical and is the edge or its negation |
| StnEdges.Negated | tnet/src/stn.rs:112-135 | under any assignment of times, the negated edge holds exactly when the edge does not |
| StnEdges.EdgeIdFields | tnet/src/stn.rs:28-45 | `base_id` and `is_negated` read back what `EdgeId::new` stored |
| StnEdges.EdgeIdDecomposes | tnet/src/stn.rs:28-45 | every edge id is `new(base_id, is_negated)` |
| StnEdges.NotIdFlips | tnet/src/stn.rs:57-64 | `!id` keeps the base id, flips the negation flag, and is an involution |
| StnEdges.NotIdOfNew | tnet/src/stn.rs:28-64 | `!new(b, n) == new(b, !n)` |
| StnEdges.EdgeIdConversionsRoundTrip | tnet/src/stn.rs:66-90 | u32 conversions round-trip both ways; a usize round-trips only below 2^32 |
| StnEdges.NegationIsComplement | tnet/src/stn.rs:112-135 | under any assignment of times, the negated edge holds exactly when the edge does not |
| StnEdges.NegatedInvolutive | tnet/src/stn.rs:121-135 | negating twice gives the edge back |
| StnEdges.ExactlyOneCanonical | tnet/src/stn.rs:104-135 | exactly one of an edge and its negation is canonical |
| StnEdges.NegationExample | tnet/src/stn.rs:112-120 | `not(b - a <= 3)` is `a - b <= -4` |
| StnEdges.CanonicalOfNegation | tnet/src/stn.rs:104-135 | an edge and its negation have the same canonical form |
| StnEdges.Forward | tnet/src/stn.rs:153-163 | the forward view is inactive, joins two upper bounds, and reads back as the edge when it is encodable |
| StnEdges.Backward | tnet/src/stn.rs:165-175 | the backward view is inactive, joins two lower bounds, and reads back as the edge when it is encodable |
| StnEdges.AsEdgeMeaning | tnet/src/stn.rs:137-194 | a view joining two bounds of one side holds exactly when the edge it reads back as holds |
| StnEdges.ViewsAsEdge | tnet/src/stn.rs:153-194 | both directional views of an edge convert back to that edge |
| StnEdges.ViewsMeanTheEdge | tnet/src/stn.rs:137-176 | each directional view, read on bounds, states exactly the edge's constraint |
| StnEdges.NewInactives | tnet/src/stn.rs:206-219 | all four views of a new pair are inactive |
| StnEdges.PairViews | tnet/src/stn.rs:196-219 | a new pair holds both views of the canonical edge, then both views of its negation, all inactive |
| StnEdges.PairBoundsBelow | tnet/src/stn.rs:196-219 | the pair's bounds are those of the edge's timepoints |
| StnEdges.DirForward | tnet/src/stn.rs:225-228 | the forward directed id is forward and is `2e` |
| StnEdges.DirBackward | tnet/src/stn.rs:230-233 | the backward directed id is not forward and is `2e + 1` |
| StnEdges.EdgeOf | tnet/src/stn.rs:239-242 | every directed id is the forward or the backward id of its edge |
| StnEdges.DirEdgeViews | tnet/src/stn.rs:221-243 | forward and backward directed ids name the same edge and are told apart by `is_forward` |
| StnEdges.DirEdgeIndices | tnet/src/stn.rs:221-243 | the four directed ids of base b are 4b to 4b+3, in the order the database lays them out |
| StnEdges.EncodeCause | tnet/src/stn.rs:513-520 | the lowest bit of an encoded cause tells an edge propagation (0) from a theory propagation (1) |
| StnEdges.DecodeCause | tnet/src/stn.rs:502-511 | every u32 decodes to a cause whose encoding is that u32 |
| StnEdges.CauseRoundTrip | tnet/src/stn.rs:502-520 | decoding an encoded cause gives it back |
| StnEdges.CauseEncodingComplete | tnet/src/stn.rs:502-520 | every u32 decodes to a cause that encodes back to it |
| StnDb.ConstraintDb.constructor | tnet/src/stn.rs:292-299 | a new database has no constraints and an empty lookup |
| StnDb.ConstraintDb.FindExisting | tnet/src/stn.rs:333-342 | an edge is found exactly when its canonical form is stored, and the id found has the negation bit exactly when the edge is not canonical |
| StnDb.ConstraintDb.PushEdge | tnet/src/stn.rs:344-369 | a known edge or negation is unified under its id without change; a new one is appended as `AppendEdge` says, with `created` set; either way the id denotes the edge and `!id` its negation |
| StnDb.ConstraintDb.AppendEdge | tnet/src/stn.rs:356-368 | a new canonical edge gets the next base id, four inactive constraints and a lookup entry, and the id has the negation bit of the edge |
| StnDb.ConstraintDb.PopLast | tnet/src/stn.rs:371-381 | removes the four constraints of the last edge and its lookup entry |
| StnDb.ConstraintDb.PopConstraint | tnet/src/stn.rs:373-376 | removes and returns the last constraint |
| StnDb.ConstraintDb.SetActive | tnet/src/stn.rs:395-399 | changes the activity flag of one constraint and nothing else |
| StnDb.ConstraintDb.HasEdge | tnet/src/stn.rs:383-385 | as written, on an organized database: accepts exactly the base ids up to four times the number of edges |
| StnDb.ConstraintDb.HasEdgeCorrected | tnet/src/stn.rs:383-385 | on an organized database: accepts exactly the base ids of stored edges |
| StnDb.OrganizedPush | tnet/src/stn.rs:358-366 | appending a new edge's pair keeps the database layout and the lookup exact |
| StnDb.OrganizedPop | tnet/src/stn.rs:371-381 | the last four constraints belong to the last edge, and removing them keeps the layout |
| StnDb.OrganizedSetFlag | tnet/src/stn.rs:395-399 | changing a flag keeps the layout |
| StnDb.FindExistingMeaning | tnet/src/stn.rs:333-342 | an edge is found exactly when its canonical form is stored; the id has that base and has the negation bit exactly when the edge is not canonical |
| StnDb.KnownIdDenotesEdge | tnet/src/stn.rs:349-354 | the views of a found id are in range, are the forward and backward views of the edge up to their flags, and the forward one converts back to the edge (the debug assertion); the edge is encodable |
| StnDb.FoundIdStored | tnet/src/stn.rs:333-342 | an id found by lookup passes the corrected `has_edge` |
| StnDb.HasEdgeCorrectedMeaning | tnet/src/stn.rs:383-385 | the corrected check holds exactly for the base ids of stored edges, whose views are in range |
| StnDb.HasEdgeAcceptsMissingEdge | tnet/src/stn.rs:383-385 | as written, `has_edge` accepts edge 0 of an empty database |
| StnDb.TestUnification | tnet/src/stn.rs:1583-1603 | adding the same edge twice gives one id; an edge and its negation get ids with the same base and different negation flags |
| StnState.RawBoundAfterSet | tnet/src/stn.rs:899-906 | setting a raw bound changes that bound and no other |
| StnState.WidthDecreases | tnet/src/stn.rs:899-906 | a strict tightening that does not empty the domain reduces the total width (the loop's termination measure) |
| StnState.PropagatedAfterTighten | tnet/src/stn.rs:893-913 | after lowering a bound, only propagators out of that bound can be violated |
| StnState.PendingExternalAppend | tnet/src/stn.rs:705-717 | an event from another writer adds its bound to the pending set; the network's own events add nothing |
| StnState.PendingExternalOwnAppend | tnet/src/stn.rs:713-716 | an event the network caused itself adds nothing to propagate |
| StnState.PendingExternalOwnSuffix | tnet/src/stn.rs:713-716 | a run of the network's own events adds nothing to propagate |
| StnState.PendingExternalPop | tnet/src/stn.rs:705-717 | reading one event removes its bound from the pending set, or nothing for the network's own event |
| StnState.PropagatedPush | tnet/src/stn.rs:743-749 | adding a propagator that is satisfied, or whose source is pending, keeps the invariant |
| StnState.UndoNetEventReserve | tnet/src/stn.rs:775-792 | undoing an event commutes with reserving timepoints |
| StnState.UndoNetAllReserve | tnet/src/stn.rs:794-817 | undoing a run of events commutes with reserving timepoints |
| StnState.RestoresToReserve | tnet/src/stn.rs:556-560 | reserving timepoints after a save point does not stop it from being restored |
| StnState.UndoNetAllPush | tnet/src/stn.rs:794-817 | undoing a trail with one more event undoes that event first |
| StnState.UndoNetAllConcat | tnet/src/stn.rs:794-817 | undoing older plus newer events is undoing the newer and then the older |
| StnState.SavedStatesPush | tnet/src/stn.rs:794-817 | recording an event whose undo restores the previous state keeps every save point restorable |
| StnState.SavedStatesReserve | tnet/src/stn.rs:556-560 | reserving timepoints keeps every save point restorable |
| StnState.SavedStatesSave | tnet/src/stn.rs:765-773 | a new backtrack point records the current state |
| StnState.SavedStatesUndo | tnet/src/stn.rs:794-817 | undoing to the last backtrack point restores its state and leaves the earlier points restorable |
| StnState.PropagatedRestored | tnet/src/stn.rs:794-817 | the propagation invariant at a save point still holds after restoring it, whatever the new empty slots and variables |
| StnState.PropagatedEdgeHolds | tnet/src/stn.rs:137-150 | once both views of an edge are propagated, the edge holds for the latest and for the earliest times |
| StnState.ChangedBoundOfEntry | tnet/src/stn.rs:705-717 | the bound of a trail entry is the lb or ub id of its variable, by the kind of event |
| StnState.NormUndoEvent | tnet/src/stn.rs:775-792 | undoing an event commutes with ignoring the flags of positive self loops |
| StnState.NormUndoEdgeAdded | tnet/src/stn.rs:808 | undoing `EdgeAdded` commutes with that normalisation |
| StnState.NormUndoActivated | tnet/src/stn.rs:809-813 | undoing `EdgeActivated` commutes with that normalisation |
| StnState.NormUndoAll | tnet/src/stn.rs:794-817 | undoing a run of events never touches those flags either |
| StnState.UndoEdgeAddedRestores | tnet/src/stn.rs:821-830 | undoing `EdgeAdded` removes exactly the pair that was added |
| StnState.UndoActivationRestores | tnet/src/stn.rs:743-749 | undoing `EdgeActivated` removes exactly the propagator and the flag that activation added |
| StnState.PositiveSelfLoopInvisible | tnet/src/stn.rs:738-740 | activating a positive self loop changes nothing the undo trail tracks |
| StnState.FlagSurvivesUndo | tnet/src/stn.rs:719-737 | a flag that no undone event refers to stays set through undo |
| StnState.UnrecordedFlagNotRestored | tnet/src/stn.rs:719-737 | so a flag set without a trail entry prevents the saved state from being restored |
| StnState.ActiveLinkedNorm | tnet/src/stn.rs:738-740 | every active constraint has its propagator exactly when it does with positive self loops ignored |
| StnState.ActiveLinkedRestores | tnet/src/stn.rs:794-817 | a restored state whose save point had every active constraint linked to its propagator has this too |
| StnState.ActiveLinkedReserve | tnet/src/stn.rs:556-560 | reserving timepoints keeps every active constraint linked |
| StnState.ActiveLinkedAppendInactive | tnet/src/stn.rs:358-366 | appending inactive constraints keeps every active constraint linked |
| StnState.ActiveLinkedActivate | tnet/src/stn.rs:743-749 | setting a flag and adding its propagator to the source keeps every active constraint linked |
| StnState.ActiveLinkedSelfLoop | tnet/src/stn.rs:738-740 | flagging a self loop without a propagator keeps every active constraint linked |
| StnState.FlagsOnlyRiseTrans | tnet/src/stn.rs:718-758 | two runs of activation, each of which only raises flags, only raise flags |
| StnState.AllActiveStep | tnet/src/stn.rs:718-758 | raising flags keeps the activated edges active, and a newly active edge joins them |
| StnState.AllActiveRise | tnet/src/stn.rs:718-758 | raising flags keeps the activated edges active |
| StnState.ActivationFailureAmong | tnet/src/stn.rs:718-758 | a failure activating some of the pending edges is a failure activating them all |
| StnState.ActiveEdgeHolds | tnet/src/stn.rs:137-150 | when both views of an edge are active, linked and propagated, the edge holds for the latest and for the earliest times |
| Stn.OwnGrowthTrans | tnet/src/stn.rs:877-917 | the propagation loop's measure (own events only, bounded by lost width) composes |
| Stn.OwnGrowthKeepsPending | tnet/src/stn.rs:713-716 | events the network adds itself leave the pending external bounds unchanged |
| Stn.PopUndoesEdgeAdded | tnet/src/stn.rs:371-381 | popping the last edge, four views at a time, is the undo of its `EdgeAdded` event and keeps the other constraints |
| Stn.KnownEdgeHolds | tnet/src/stn.rs:614-620 | once both directed ids of a stored edge are active in a linked, propagated network, the edge holds for the latest and for the earliest times |
| Stn.SetBound | tnet/src/stn.rs:899-906 | a bound that is not stronger gives `Ok(false)`; one that would empty the domain gives EmptyDomain and changes nothing; otherwise it is set with one recorded event and gives `Ok(true)` |
| Stn.PropagationQueue.constructor | tnet/src/stn.rs:537-551 | an empty queue and pending set |
| Stn.PropagationQueue.CleanUp | tnet/src/stn.rs:843-849 | empties both the queue and the pending set |
| Stn.IncStn.constructor | tnet/src/stn.rs:537-551 | a new network has no timepoints, constraints, events or pending activations, and satisfies its invariant |
| Stn.IncStn.ReserveTimepoint | tnet/src/stn.rs:556-560 | adds two empty propagator lists |
| Stn.IncStn.NumNodes | tnet/src/stn.rs:552-554 | with two slots per timepoint, the number of timepoints is half the number of slots |
| Stn.IncStn.HasEdges | tnet/src/stn.rs:836-838 | a timepoint has slots exactly when both its bound ids are below the number of slots |
| Stn.IncStn.ReserveUpTo | tnet/src/stn.rs:822-824 | reserves until both timepoints exist, adding only empty lists |
| Stn.IncStn.RecordEvent | tnet/src/stn.rs:826-828 | pushing an event whose undo gives the saved state keeps every backtrack point restorable |
| Stn.IncStn.PushConstraints | tnet/src/stn.rs:825-829 | as `push_edge`, plus one `EdgeAdded` trail event exactly when the edge was created |
| Stn.IncStn.RecordEdgeAdded | tnet/src/stn.rs:826-828 | recording `EdgeAdded` for a fresh pair keeps every backtrack point restorable |
| Stn.IncStn.AddInactiveConstraint | tnet/src/stn.rs:821-830 | reserves the timepoints, then adds or unifies the edge as `push_edge` does, with `EdgeAdded` only when created |
| Stn.IncStn.MarkActive | tnet/src/stn.rs:614-620 | queues the forward and then the backward view for activation |
| Stn.IncStn.Relax | tnet/src/stn.rs:893-913 | one propagator: on success its target satisfies it, no bound grows, and only the network's own events are added; an error is EmptyDomain or the cycle on the original bound |
| Stn.IncStn.RelaxAll | tnet/src/stn.rs:893-914 | every propagator out of the source: on success they are all satisfied |
| Stn.IncStn.ProcessQueueFront | tnet/src/stn.rs:886-915 | one iteration of the loop keeps the invariant outside the pending set, and shrinks the width or the queue |
| Stn.IncStn.RunPropagationLoop | tnet/src/stn.rs:877-917 | on success every active propagator out of a bound not changed by others is satisfied; errors are EmptyDomain or, with cycle detection on, a cycle on the original bound |
| Stn.IncStn.PropagateNewEdge | tnet/src/stn.rs:860-875 | on success the new propagator and all others are satisfied again |
| Stn.IncStn.PropagateBoundChange | tnet/src/stn.rs:851-856 | on success the changed bound's propagators are satisfied again |
| Stn.IncStn.ActivatePropagator | tnet/src/stn.rs:743-751 | sets the flag, adds the propagator and the `EdgeActivated` event, and propagates it |
| Stn.IncStn.AddPropagator | tnet/src/stn.rs:743-749 | sets the flag and adds the propagator and its trail event |
| Stn.IncStn.ActivateEdge | tnet/src/stn.rs:719-757 | corrected activation: an active edge changes nothing; a negative self loop gives NegativeSelfLoop and stays inactive; a positive one is flagged only; any other edge is activated, recorded and propagated; flags only rise, success leaves the edge active, a failure is an `ActivationFailure`, and the invariant holds throughout |
| Stn.IncStn.FlagSelfLoop | tnet/src/stn.rs:738-740 | flagging a positive self loop leaves the tracked state unchanged |
| Stn.IncStn.ActivateEdgeAsWritten | tnet/src/stn.rs:719-737 | as written: a negative self loop is flagged active with no trail event, so the tracked state changes without being recorded and the invariant may be lost; any other edge is activated as `ActivateEdge` does, with the same frame, `FlagsOnlyRise`, and a failure that is an `ActivationFailure(AsWritten, …)` |
| Stn.IncStn.ReadNext | tnet/src/stn.rs:705-717 | reads one model event and propagates it unless the network caused it; the width or the unread count decreases |
| Stn.IncStn.ReadModelEvents | tnet/src/stn.rs:705-717 | on success every model event has been read and every active propagator is satisfied |
| Stn.IncStn.ActivateFirstPending | tnet/src/stn.rs:718-758 | takes the first pending edge and activates it as `mode` says (`AsWritten` is the program): flags only rise, success leaves it active, a failure is an `ActivationFailure(mode, …)` of it, and the invariant holds unless a negative self loop was flagged as written (`Restorable`) |
| Stn.IncStn.ActivatePending | tnet/src/stn.rs:718-758 | with the activation as written or corrected (`mode`): flags only rise, and nothing changes with no pending edge; on success the activation queue is empty, every edge that was pending is active and the invariant holds; a failure is an `ActivationFailure(mode, …)` of one of the pending edges, which as written leaves a negative self loop flagged and may lose the invariant, and corrected keeps it |
| Stn.IncStn.PropagateAll | tnet/src/stn.rs:700-761 | `PropagateAll(AsWritten, …)` is `propagate_all`, and `Corrected` the corrected activation: on success nothing is pending, every edge that was pending is active, every model event has been read, every active propagator is satisfied and the invariant holds; a failure is an `ActivationFailure(mode, …)` of one of the pending edges, and the invariant survives it unless a negative self loop was flagged as written |
| Stn.IncStn.PropagationRound | tnet/src/stn.rs:701-758 | one round of the outer loop, in either mode: flags only rise, and nothing changes with no pending edge; on success the edges that were pending are active and, if no domain changed, every event has been read; a failure is an `ActivationFailure(mode, …)` of a pending edge, and the invariant holds unless a negative self loop was flagged as written |
| Stn.IncStn.PropagationStep | tnet/src/stn.rs:701-758 | one round, in either mode, that also returns how many model events are still unread; on success the edges that were pending are active, and nothing is unread if no domain changed; a failure is an `ActivationFailure(mode, …)`, and the invariant holds unless a negative self loop was flagged as written |
| Stn.IncStn.PropagateMarked | tnet/src/stn.rs:700-761 | `propagate_all` (as written or corrected) once `mark_active` has queued both views of a stored edge between distinct timepoints: on success the edge holds for the latest and for the earliest times and the invariant holds; a failure is an `ActivationFailure(mode, …)` |
| Stn.IncStn.SetBacktrackPoint | tnet/src/stn.rs:765-773 | requires no pending activation; adds a backtrack point that records the current state |
| Stn.IncStn.UndoEdgeAdded | tnet/src/stn.rs:808 | undoes `EdgeAdded` as `UndoNetEvent` says |
| Stn.IncStn.UndoActivation | tnet/src/stn.rs:809-813 | undoes `EdgeActivated` as `UndoNetEvent` says |
| Stn.IncStn.UndoEvent | tnet/src/stn.rs:805-816 | undoes one event as `UndoNetEvent` says |
| Stn.IncStn.UndoEvents | tnet/src/stn.rs:805-816 | undoing the handed-back events newest first is `UndoNetAll` |
| Stn.IncStn.UndoToLastBacktrackPoint | tnet/src/stn.rs:794-817 | clears pending activations, truncates the trail to the last backtrack point, and restores the state saved there |
| Preprocessing.AsSingleton | planning/src/chronicles/preprocessing.rs:80-82 | gives a value exactly for a one-element domain, and that value is the domain's element |
| Preprocessing.BuildLine | planning/src/chronicles/preprocessing.rs:78-82 | the table line of an effect: the singleton values of its arguments, then of its value |
| Preprocessing.ReplaceConds | planning/src/chronicles/preprocessing.rs:93-116 | on success every condition is either kept or replaced by one added constraint |
| Preprocessing.StepSf | planning/src/chronicles/preprocessing.rs:29-147 | on success the new tables extend the old ones by at most one; a panic happens only for a state function that passed the static test |
| Preprocessing.Preprocess | planning/src/chronicles/preprocessing.rs:9-150 | on success the old tables are a prefix of the new ones and the rest of the context is unchanged |
| Preprocessing.MoveStaticEffects | planning/src/chronicles/preprocessing.rs:69-91 | the in-place removal loop computes `MoveEffects` |
| Preprocessing.ReplaceConditions | planning/src/chronicles/preprocessing.rs:93-116 | the in-place condition loop computes `ReplaceConds` (the same loop serves templates, lines 121-143) |
| Preprocessing.ConvertChronicles | planning/src/chronicles/preprocessing.rs:69-117 | converting every instance computes `ConvertInstances` |
| Preprocessing.ConvertTemplateChronicles | planning/src/chronicles/preprocessing.rs:119-144 | converting every template computes `ConvertTemplates` |
| Preprocessing.ConvertStateFunction | planning/src/chronicles/preprocessing.rs:29-147 | one state function's iteration computes `StepSf` under the given static test |
| Preprocessing.StaticsAsTables | planning/src/chronicles/preprocessing.rs:9-150 | the whole pass, as written, computes `Preprocess` with the static test as written |
| Preprocessing.StaticsAsTablesCorrected | planning/src/chronicles/preprocessing.rs:3-22 | the whole pass with the documented static test computes `Preprocess` with that test |
| Preprocessing.RewriteStatics | planning/src/chronicles/preprocessing.rs:29-150 | the loop over state functions followed by appending the tables computes `Preprocess` under the given test |
| Preprocessing.SingletonsNoneExtends | planning/src/chronicles/preprocessing.rs:79-82 | once an unbound argument is met, the line cannot be built |
| Preprocessing.MoveEffectsErrExtends | planning/src/chronicles/preprocessing.rs:69-91 | a panic on some effect is the result of the whole loop |
| Preprocessing.ReplaceCondsErrExtends | planning/src/chronicles/preprocessing.rs:93-116 | a panic on some condition is the result of the whole loop |
| Preprocessing.ConvertInstancesErrExtends | planning/src/chronicles/preprocessing.rs:69-117 | a panic on some instance is the result of the pass |
| Preprocessing.ConvertTemplatesErrExtends | planning/src/chronicles/preprocessing.rs:119-144 | a panic on some template is the result of the pass |
| Preprocessing.StepSfsErrExtends | planning/src/chronicles/preprocessing.rs:29-147 | a panic on some state function is the result of the pass |
| Preprocessing.EffectsPartition | planning/src/chronicles/preprocessing.rs:69-91 | kept and moved effects are exactly the effects off and on the state function, and they sum to the input |
| Preprocessing.ConditionsPartition | planning/src/chronicles/preprocessing.rs:93-116 | kept and replaced conditions are exactly the conditions off and on the state function, and they sum to the input |
| Preprocessing.MoveEffectsMeaning | planning/src/chronicles/preprocessing.rs:69-91 | on success, the kept effects are those off the state function, in order, and there is one table line per moved effect, in order |
| Preprocessing.ReplaceCondsMeaning | planning/src/chronicles/preprocessing.rs:93-116 | on success, the kept conditions are those off the state function, and each replaced condition gives the `InTable` constraint on its arguments and value, in order |
| Preprocessing.ReplaceCondsPanics | planning/src/chronicles/preprocessing.rs:97-98 | the loop fails exactly when some condition is unifiable with but not unified to the state function, and the failure is that assertion |
| Preprocessing.BoundAtomsHaveValues | planning/src/chronicles/preprocessing.rs:79-81 | atoms with singleton domains always give a line of the same length |
| Preprocessing.StaticEffectsMove | planning/src/chronicles/preprocessing.rs:3-8 | when every effect on the state function passes the documented static test, moving them cannot panic |
| Preprocessing.UnboundAtomOfNone | planning/src/chronicles/preprocessing.rs:79-82 | when no line can be built, one of the atoms is not bound |
| Preprocessing.UnboundValueOfStaticEffect | planning/src/chronicles/preprocessing.rs:16-22 | an effect that passes the test as written but gives no line has an unbound value |
| Preprocessing.MoveEffectsNotSingleton | planning/src/chronicles/preprocessing.rs:75-82 | the `unwrap` panic of the effect loop comes from an effect on the state function with no line |
| Preprocessing.ConvertInstancesNotSingleton | planning/src/chronicles/preprocessing.rs:69-117 | the `unwrap` panic of the pass over instances comes from such an effect in one of them |
| Preprocessing.UnboundValueDomains | planning/src/chronicles/preprocessing.rs:16-22 | in the example context the value atom has two values and the head atom only the state function |
| Preprocessing.UnboundValueLine | planning/src/chronicles/preprocessing.rs:16-22 | the example effect passes the test as written and fails the documented one, and gives no line |
| Preprocessing.UnboundValueTests | planning/src/chronicles/preprocessing.rs:43-54 | the example instance passes the pass's check as written and fails the documented check |
| Preprocessing.UnboundValueConvertPanics | planning/src/chronicles/preprocessing.rs:69-82 | converting the example instance panics at the `unwrap` of line 82 |
| Preprocessing.PreprocessUnboundValue | planning/src/chronicles/preprocessing.rs:9-150 | the whole pass as written panics on the example problem, and with the documented test leaves it unchanged |
| Preprocessing.UnboundValuePanicsAsWritten | planning/src/chronicles/preprocessing.rs:16-22 | an effect with an unbound value passes the test as written, so the loop panics at the value's `unwrap` (line 82), and the corrected test leaves the state function alone |
| Preprocessing.ConvertInstanceMeaning | planning/src/chronicles/preprocessing.rs:69-116 | a converted instance keeps its other effects and conditions, keeps its old constraints and adds one table constraint per moved condition, and yields one line per moved effect |
| Preprocessing.ConvertInstancesEach | planning/src/chronicles/preprocessing.rs:69-117 | the pass converts each instance independently and keeps their number and order |
| Preprocessing.ConvertInstancesLines | planning/src/chronicles/preprocessing.rs:69-117 | the table gets one line per moved effect, across all instances in order |
| Preprocessing.ConvertInstancesPanics | planning/src/chronicles/preprocessing.rs:75-82 | when the static test passed, the only possible panic is an assertion that a head is unified |
| Preprocessing.ConvertTemplatesMeaning | planning/src/chronicles/preprocessing.rs:119-144 | templates are converted one by one, and the only possible panic is that assertion |
| Preprocessing.ConvertTemplateMeaning | planning/src/chronicles/preprocessing.rs:121-143 | a converted template keeps its effects and other conditions, and gains one table constraint per condition on the state function |
| Preprocessing.StepSfMeaning | planning/src/chronicles/preprocessing.rs:29-147 | a non-static state function changes nothing; a static one adds one table of its type and leaves no effect or condition on it in any instance, nor any condition on it in any template; a panic is the assertion that a head is unified or, with the test as written only, the `unwrap` of an unbound value, which then exists |
| Preprocessing.StepSfPanics | planning/src/chronicles/preprocessing.rs:69-144 | for a static state function, a panic is the unified-head assertion or, with the test as written only, the `unwrap` of an existing unbound value |
| Preprocessing.TableIdLocatesTable | planning/src/chronicles/preprocessing.rs:66 | the table id computed before the loops is the index of the new table in the final list |
| Preprocessing.StepSfsAppends | planning/src/chronicles/preprocessing.rs:29-147 | tables are only appended, at most one per state function |
| Preprocessing.StepSfsPanics | planning/src/chronicles/preprocessing.rs:29-147 | over all state functions, a panic is the unified-head assertion or, with the test as written only, the `unwrap` |
| Preprocessing.PreprocessMeaning | planning/src/chronicles/preprocessing.rs:9-150 | the pass keeps the old tables as a prefix, adds at most one per state function, and leaves the rest of the context unchanged; a panic is the unified-head assertion or, with the test as written only, the `unwrap` |

## Left out

- Theory propagation (`theory_propagation`, stn.rs:961-1004), shortest paths and distances (`forward_dist`, `backward_dist`, `distances_from`, `shortest_path`), and explanations (`build_contradiction`, `extract_cycle`, the `explain_*` functions). They are searches over the graph and are outside this model. The `AddedTheoryPropagationCause` trail event is kept, and it changes nothing on undo. The causes list it pops is not modelled.
- Reified and optional edges (`add_reified_edge`, `add_optional_true_edge`) are not modelled, nor are watches, enablers, `always_active`, `potential_out_edges` and `enabling_literal`. Activation starts from `mark_active`, and activation through watched literals (stn.rs:707-711) is left out: every model event is read and propagated, but none queues an activation.
- The `debug_assert!` calls in `propagate_all` are not modelled. Their only effect is a panic in debug builds.
- The `Stn` convenience wrapper (stn.rs:1354-1446), the `Theory`/`Backtrack` impls that forward to it (stn.rs:1269-1351), and its tests are not modelled.
- `undo_last_event` (stn.rs:775-792) is modelled only through the per-event undo it shares with `undo_to_last_backtrack_point` (`Stn.IncStn.UndoEvent`). Its `pop_within_level` and its `Level` panic are left out. The trail never holds `Level` events, which is part of the invariant.
- The statistics counters and `print_stats`, `ObsTrail::print`, and `Debug`/`Display` formatting are not modelled, since they are output only.
- `Domains::get_bound`/`set_bound` of the integer model is not part of the modelled files. `Stn.SetBound` gives it the meaning its uses in stn.rs require: raw bounds over `DiscreteModel`, with an empty domain reported as a contradiction.
- `get_rand` (queues.rs:12-18) draws trail ids from a heap address. The id is a constructor parameter, and cursors compare it.
- The trail types `Q` (int_model.rs:9, 69) and `Trail` (stn.rs:472) are not part of the modelled files. Both are modelled as `ObsTrail` (`IntModel.DiscreteModel.trail`, `Stn.IncStn.trail`), with its push, pop, save and restore-last; `Trail::pop_within_level` is left out with `undo_last_event`.
- `DiscreteModel::explain_empty_domain` (int_model.rs:137-231) and the explanation test are not modelled, since they depend on the explainer interface. `implying_event`/`falsifying_event` are thin uses of `last_event_matching`, which is modelled.
- Lits.New, Lits.StrictForms: `IntCst` is a 32-bit signed integer, but apart from the cast of discrete.rs:67 the model keeps its values unbounded, so the overflow of `value + 1` (lit.rs:107) and `val - 1` (lit.rs:149, 154) at the ends of the range is not modelled, nor is a shift of an integer atom outside the 32-bit range.
- Weights are unbounded integers. The source's overflow note (stn.rs:460-464) leaves `i32` overflow of bound plus weight to the caller, and the model does not model wrap-around there.
- In preprocessing, time expressions, variables and constants are all atoms with a domain, `DiscreteValue` is a symbol number, and `Table::push` is taken to append one line. Chronicle origins, names and the remaining chronicle fields are not modelled, since the pass does not read them.
- `Table::new` and `Table::push` are not part of the modelled files. A table is a type and a list of lines, and a push appends the line without checking its length against the table's type, so a line of the wrong length is not an error in the model.
- IntModel.DiscreteModel.Restore: `ObsTrail::restore_with` (int_model.rs:311) is not part of the modelled files. The model takes it to be `restore_last_with` applied while more than `id` save points remain, so an `id` at or above the number of save points restores nothing.
- Queues.ObsTrailCursor.NumPending: the source computes `q.len() - next_read` in `usize`, which panics on underflow in debug builds and wraps in release builds. The model requires the synced position to be at most the trail length instead of modelling either outcome.
- StnDb.ConstraintDb.PushEdge: requires both endpoints below 2^31 (`Encodable`) and fewer than 2^30 edges. Above these bounds the source's `u32` shift by one (`VarBound::ub`/`lb`, `EdgeId::new`) wraps round, and the model does not cover the ids that wrapping produces.
- The reference to the stored event that `last_event_matching` returns is modelled as a copy of the value.
- The `debug_assert_eq!` in `undo_int_event` (int_model.rs:258-264) is not modelled, so undo does not check that the current bound equals the recorded new value.

## Findings

| source | as written | input that shows it | evidently intended | confidence | as-written member | corrected member |
|---|---|---|---|---|---|---|
| backtrack/src/queues.rs:146-148 | the backward scan drops one decision level per backtrack point equal to the index just looked at, so an empty decision level is skipped one event too late | push 0, save, then look up 0: the event at index 0 is at level 0 but is reported at level 1 | report the level of the event: drop every backtrack point above the index | not executed | Queues.ObsTrail.LastEventMatching, Queues.ScanMisreportsEmptyLevel | Queues.ObsTrail.LastEventMatchingCorrected, Queues.ScanLevelExactWithoutEmptyLevels |
| tnet/src/stn.rs:719-737 | `propagate_all` sets `active = true` before testing for a self loop, so a negative self loop returns an error but stays active with no `EdgeActivated` on the trail, and backtracking does not clear it | activate `a - a <= -1` after a backtrack point, then undo to it: the constraint is still marked active, and re-activating it later is silently skipped | report the inconsistency without marking the edge active, so that undo restores the saved state | not executed | Stn.IncStn.ActivateEdgeAsWritten, StnState.UnrecordedFlagNotRestored | Stn.IncStn.ActivateEdge |
| planning/src/chronicles/preprocessing.rs:16-22 | `effect_is_static` checks that the state-variable atoms are bound and that the effect starts at the origin, but not that the value is bound, although the doc at lines 3-7 requires it; line 82 then panics on `unwrap` | one instance effect `sf(a) := v` at the origin, where `a` is bound and `v` has domain `{3, 4}` | treat the state function as not static when the value is unbound | not executed | Preprocessing.StaticsAsTables, Preprocessing.PreprocessUnboundValue | Preprocessing.StaticsAsTablesCorrected, Preprocessing.StaticEffectsMove |
| tnet/src/stn.rs:383-385 | `has_edge` compares a base id with the number of directional constraints, which is four per edge, using `<=`, so it accepts ids of edges that do not exist | an empty database accepts edge 0; one with a single edge accepts base ids up to 4 | accept a base id exactly when it is below the number of stored edges | not executed | StnDb.ConstraintDb.HasEdge, StnDb.HasEdgeAcceptsMissingEdge | StnDb.ConstraintDb.HasEdgeCorrected, StnDb.HasEdgeCorrectedMeaning |
