/**
 * Discrete atoms: an integer atom (`IAtom`, an optional variable plus a shift) or a symbolic
 * atom (`SAtom`, a typed variable or symbol) viewed under one type, `DAtom`, whose `tpe`
 * field tells the two apart (`None`: integer, `Some(t)`: symbol of type `t`).
 */
module Discrete {
  import opened Wrappers
  import opened VarBounds

  /** Identifiers of discrete variables, types and symbols. */
  type DVar = nat
  type TypeId = nat
  /** Symbols are indexed by `usize`. */
  type SymId = Usize

  datatype IAtom = IAtom(ivar: Option<DVar>, shift: int)

  datatype VarOrSym = Var(v: DVar) | Sym(s: SymId)

  datatype SAtom = SAtom(atom: VarOrSym, tpe: TypeId)

  datatype DAtom = DAtom(dvar: Option<DVar>, shift: int, tpe: Option<TypeId>)

  /** Why a conversion out of `DAtom` does not produce a value. */
  datatype ConversionError =
    | TypeError
      /** the `assert_eq!(value.shift, 0)` of the conversion to `SAtom` fails (a panic) */
    | NonZeroShiftPanic

  /** `From<IAtom> for DAtom`. */
  function FromIAtom(i: IAtom): (d: DAtom)
    ensures d.tpe.None? && d.dvar == i.ivar && d.shift == i.shift
  {
    DAtom(i.ivar, i.shift, None)
  }

  /** `TryFrom<DAtom> for IAtom`. */
  function ToIAtom(d: DAtom): (r: Result<IAtom, ConversionError>)
    ensures r.Err? <==> d.tpe.Some?
    ensures r.Err? ==> r.error == TypeError
    ensures r.Ok? ==> r.value.ivar == d.dvar && r.value.shift == d.shift
  {
    match d.tpe
    case Some(_) => Err(TypeError)
    case None => Ok(IAtom(d.dvar, d.shift))
  }

  /** `IntCst` is a 32-bit signed integer, as the `i32` of stn.rs's weights. */
  const INT_CST_MODULUS: int := 0x1_0000_0000
  const INT_CST_MAX: int := 0x7fff_ffff

  /** `x as IntCst` for an unsigned `x`: keeps the low 32 bits, read in two's complement. */
  function AsIntCst(x: nat): (c: int)
    ensures -INT_CST_MAX - 1 <= c <= INT_CST_MAX
    ensures (x - c) % INT_CST_MODULUS == 0
    ensures x <= INT_CST_MAX ==> c == x
  {
    var low := x % INT_CST_MODULUS;
    if low <= INT_CST_MAX then low else low - INT_CST_MODULUS
  }

  /** `usize::from(sym) as IntCst`: the cast truncates symbol indices of 2^31 and above. */
  function ShiftOfSym(s: SymId): int { AsIntCst(s) }

  /** `SymId::from(shift as usize)`: the cast to `usize` wraps on negative shifts. */
  function SymOfShift(shift: int): SymId { shift % USIZE_MODULUS }

  /** `From<SAtom> for DAtom`. */
  function FromSAtom(s: SAtom): (d: DAtom)
    ensures d.tpe == Some(s.tpe)
    ensures s.atom.Var? ==> d.dvar == Some(s.atom.v) && d.shift == 0
    ensures s.atom.Sym? ==> d.dvar.None? && d.shift == AsIntCst(s.atom.s)
  {
    match s.atom
    case Var(v) => DAtom(Some(v), 0, Some(s.tpe))
    case Sym(sym) => DAtom(None, ShiftOfSym(sym), Some(s.tpe))
  }

  /** `TryFrom<DAtom> for SAtom`. */
  function ToSAtom(d: DAtom): (r: Result<SAtom, ConversionError>)
    ensures r.Err? <==> d.tpe.None? || (d.dvar.Some? && d.shift != 0)
    ensures r.Err? ==> (r.error == TypeError <==> d.tpe.None?)
    ensures r.Ok? ==> r.value.tpe == d.tpe.value
    ensures r.Ok? && d.dvar.Some? ==> r.value.atom == Var(d.dvar.value)
    ensures r.Ok? && d.dvar.None? ==> r.value.atom == Sym(SymOfShift(d.shift))
  {
    match d.tpe
    case Some(tpe) =>
      (match d.dvar
       case None => Ok(SAtom(Sym(SymOfShift(d.shift)), tpe))
       case Some(v) => if d.shift != 0 then Err(NonZeroShiftPanic) else Ok(SAtom(Var(v), tpe)))
    case None => Err(TypeError)
  }

  /** `IAtom -> DAtom -> IAtom` is the identity. */
  lemma IAtomRoundTrip(i: IAtom)
    ensures ToIAtom(FromIAtom(i)) == Ok(i)
  {
  }

  /** `DAtom -> IAtom -> DAtom` is the identity on integer atoms. */
  lemma IntegerDAtomRoundTrip(d: DAtom)
    requires d.tpe.None?
    ensures ToIAtom(d).Ok? && FromIAtom(ToIAtom(d).value) == d
  {
  }

  /**
   * `SAtom -> DAtom -> SAtom` is the identity exactly on variables and on the symbols that
   * survive the 32-bit cast: those below 2^31 and, since the cast back to `usize` sign-extends,
   * the top 2^31 indices of `usize`.
   */
  lemma SAtomRoundTrip(s: SAtom)
    ensures ToSAtom(FromSAtom(s)) == Ok(s) <==>
      s.atom.Var? || s.atom.s <= INT_CST_MAX || s.atom.s >= USIZE_MODULUS - INT_CST_MODULUS / 2
  {
    if s.atom.Sym? {
      var sym := s.atom.s;
      var c := AsIntCst(sym);
      if sym >= USIZE_MODULUS - INT_CST_MODULUS / 2 {
        var k := USIZE_MODULUS - sym;
        assert sym == (USIZE_MODULUS / INT_CST_MODULUS - 1) * INT_CST_MODULUS + (INT_CST_MODULUS - k);
        assert sym % INT_CST_MODULUS == INT_CST_MODULUS - k;
        assert c == -k;
      } else if sym > INT_CST_MAX {
        assert SymOfShift(c) != sym;
      }
    }
  }

  /** The first symbol the round trip loses: index 2^31 comes back as 2^64 - 2^31. */
  lemma SAtomRoundTripLosesSymbol(tpe: TypeId)
    ensures FromSAtom(SAtom(Sym(INT_CST_MAX + 1), tpe)).shift == -INT_CST_MAX - 1
    ensures ToSAtom(FromSAtom(SAtom(Sym(INT_CST_MAX + 1), tpe))) == Ok(SAtom(Sym(USIZE_MODULUS - INT_CST_MAX - 1), tpe))
  {
    assert (INT_CST_MAX + 1) % INT_CST_MODULUS == INT_CST_MAX + 1;
  }

  /** `DAtom -> SAtom -> DAtom` is the identity on the symbolic atoms that convert and whose shift is an `IntCst`. */
  lemma SymbolicDAtomRoundTrip(d: DAtom)
    requires ToSAtom(d).Ok?
    requires -INT_CST_MAX - 1 <= d.shift <= INT_CST_MAX
    ensures FromSAtom(ToSAtom(d).value) == d
  {
    if d.dvar.None? && d.shift < 0 {
      var sym := d.shift + USIZE_MODULUS;
      assert sym == (USIZE_MODULUS / INT_CST_MODULUS - 1) * INT_CST_MODULUS + (INT_CST_MODULUS + d.shift);
      assert sym % INT_CST_MODULUS == INT_CST_MODULUS + d.shift;
    }
  }

  /** The two views are disjoint: no atom converts to both an `IAtom` and an `SAtom`. */
  lemma ExactlyOneKind(d: DAtom)
    ensures !(ToIAtom(d).Ok? && ToSAtom(d).Ok?)
    ensures ToIAtom(d).Ok? || ToSAtom(d).Ok? || ToSAtom(d) == Err(NonZeroShiftPanic)
  {
  }
}
