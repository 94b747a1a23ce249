/**
 * The lower or upper bound of a variable, packed into one unsigned 32-bit id:
 * the variable in the 31 high bits, the side in the lowest bit (0: lower, 1: upper).
 * Shifts and masks are written as arithmetic: `x << 1` is `(2 * x) % 2^32`,
 * `x >> 1` is `x / 2` and `x & 1` is `x % 2`.
 */
module VarBounds {

  const U32_MODULUS: int := 0x1_0000_0000
  /** Number of variables whose bounds can be encoded without losing the high bit. */
  const ENCODABLE_VARS: int := 0x8000_0000
  const USIZE_MODULUS: int := 0x1_0000_0000_0000_0000

  type Uint32 = x: int | 0 <= x < U32_MODULUS
  type Usize = x: int | 0 <= x < USIZE_MODULUS

  /** Identifier of a variable (`VarRef`), an unsigned 32-bit integer. */
  type VarRef = Uint32

  datatype VarBound = VarBound(id: Uint32)

  /** `u32 << 1`, whose top bit is discarded. */
  function Shl1(x: Uint32): (r: Uint32)
    ensures r % 2 == 0
    ensures x < ENCODABLE_VARS ==> r == 2 * x
    ensures ENCODABLE_VARS <= x ==> r == 2 * x - U32_MODULUS
  {
    (2 * x) % U32_MODULUS
  }

  /** Upper bound of `v`: id `(v << 1) + 1`. */
  function Ub(v: VarRef): (b: VarBound)
    ensures b.id % 2 == 1
    ensures v < ENCODABLE_VARS ==> b.id == 2 * v + 1
  {
    VarBound(Shl1(v) + 1)
  }

  /** Lower bound of `v`: id `v << 1`. */
  function Lb(v: VarRef): (b: VarBound)
    ensures b.id % 2 == 0
    ensures v < ENCODABLE_VARS ==> b.id == 2 * v
  {
    VarBound(Shl1(v))
  }

  predicate IsLb(b: VarBound) { b.id % 2 == 0 }

  predicate IsUb(b: VarBound) { b.id % 2 == 1 }

  /** The variable a bound belongs to: `b` is its lower or its upper bound. */
  function Variable(b: VarBound): (v: VarRef)
    ensures v < ENCODABLE_VARS
    ensures b == Lb(v) || b == Ub(v)
  {
    b.id / 2
  }

  /**
   * The other bound of the same variable (flips the lowest bit). `VarBound::symmetric_bound`
   * is used by literals and the STN but is not part of var_bound.rs; this is its assumed meaning.
   */
  function SymmetricBound(b: VarBound): (s: VarBound)
    ensures Variable(s) == Variable(b)
    ensures IsLb(s) <==> IsUb(b)
  {
    if b.id % 2 == 0 then VarBound(b.id + 1) else VarBound(b.id - 1)
  }

  /** `u32::from(VarBound)`. */
  function ToU32(b: VarBound): Uint32 { b.id }

  /** `VarBound::from(u32)`. */
  function FromU32(u: Uint32): VarBound { VarBound(u) }

  /** `usize::from(VarBound)`. */
  function ToUsize(b: VarBound): Usize { b.id }

  /** `VarBound::from(usize)`: the `as u32` cast keeps the low 32 bits. */
  function FromUsize(u: Usize): VarBound { VarBound(u % U32_MODULUS) }

  /** `lb(v)` is the even id `2v` and `ub(v)` the odd id `2v + 1` (for encodable variables). */
  lemma BoundIds(v: VarRef)
    requires v < ENCODABLE_VARS
    ensures Lb(v).id == 2 * v && Ub(v).id == 2 * v + 1
  {
  }

  /** Every bound is exactly one of a lower and an upper bound. */
  lemma ExactlyOneSide(b: VarBound)
    ensures IsLb(b) != IsUb(b)
  {
  }

  lemma SideOfConstructors(v: VarRef)
    ensures IsLb(Lb(v)) && !IsUb(Lb(v))
    ensures IsUb(Ub(v)) && !IsLb(Ub(v))
  {
  }

  /** Decoding the variable inverts the constructors below 2^31; above, the top bit is lost. */
  lemma VariableOfBound(v: VarRef)
    ensures v < ENCODABLE_VARS ==> Variable(Lb(v)) == v && Variable(Ub(v)) == v
    ensures ENCODABLE_VARS <= v ==> Variable(Lb(v)) == v - ENCODABLE_VARS && Variable(Ub(v)) == v - ENCODABLE_VARS
  {
  }

  /** Every id is the bound of exactly the variable and side it decodes to: ids are dense. */
  lemma BoundOfDecoded(b: VarBound)
    ensures b == if IsLb(b) then Lb(Variable(b)) else Ub(Variable(b))
  {
  }

  /** The encoding is injective on `(variable, side)` for encodable variables. */
  lemma EncodingInjective(v: VarRef, w: VarRef)
    requires v < ENCODABLE_VARS && w < ENCODABLE_VARS
    ensures Lb(v) == Lb(w) ==> v == w
    ensures Ub(v) == Ub(w) ==> v == w
    ensures Lb(v) != Ub(w)
  {
  }

  lemma SymmetricBoundOfConstructors(v: VarRef)
    ensures SymmetricBound(Lb(v)) == Ub(v) && SymmetricBound(Ub(v)) == Lb(v)
  {
  }

  lemma SymmetricBoundInvolutive(b: VarBound)
    ensures SymmetricBound(SymmetricBound(b)) == b && SymmetricBound(b) != b
  {
  }

  /** Conversions to `u32` and back are inverse; so are those to `usize` for ids below 2^32. */
  lemma ConversionsRoundTrip(b: VarBound, u: Uint32, w: Usize)
    ensures FromU32(ToU32(b)) == b && ToU32(FromU32(u)) == u
    ensures FromUsize(ToUsize(b)) == b
    ensures ToUsize(FromUsize(w)) == w <==> w < U32_MODULUS
  {
  }
}
