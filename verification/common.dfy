/** Machine integer ranges, the Option wrapper, and the two ways the binding decodes raw
    driver numbers: `FromPrimitive` for enumerations and `FromBitsTruncate` for flag sets.
    The numeric values of the enumerations and flags come from a generated binding that is
    not part of this model, so they are passed in as tables instead of being fixed here. */
module Common {

  type I32 = x: int | -0x8000_0000 <= x < 0x8000_0000
  type U32 = x: int | 0 <= x < 0x1_0000_0000
  type I64 = x: int | -0x8000_0000_0000_0000 <= x < 0x8000_0000_0000_0000
  type U64 = x: int | 0 <= x < 0x1_0000_0000_0000_0000
  type Byte = x: int | 0 <= x < 0x100

  /** A raw pointer into driver or process memory; 0 is the null pointer. */
  type Ptr = nat
  const Null: Ptr := 0

  datatype Option<T> = None | Some(value: T) {
    function UnwrapOr(default: T): (r: T)
      ensures Some? ==> r == value
      ensures None? ==> r == default
    {
      match this
      case Some(v) => v
      case None => default
    }
  }

  /** `Some(p)` for a non-null pointer, `None` for null: how every callback bridge turns a
      nullable driver pointer into an optional Rust value. */
  function NonNull(p: Ptr): (r: Option<Ptr>)
    ensures r.None? <==> p == Null
    ensures r.Some? ==> r.value == p
  {
    if p == Null then None else Some(p)
  }

  /** `T::from_i64(v)`: the variant whose numeric value is `v`, if there is one.
      `table` maps each known numeric value to its variant. */
  function FromPrimitive<T>(table: map<int, T>, v: int): (r: Option<T>)
    ensures r.Some? <==> v in table
    ensures r.Some? ==> r.value == table[v]
  {
    if v in table then Some(table[v]) else None
  }

  /** `x as u32` in Rust: keep the low 32 bits. */
  function WrapU32(x: int): (r: U32)
    ensures (r - x) % 0x1_0000_0000 == 0
  {
    x % 0x1_0000_0000
  }

  /** `x as i32` in Rust: keep the low 32 bits and read them as two's complement. */
  function WrapI32(x: int): (r: I32)
    ensures (r - x) % 0x1_0000_0000 == 0
  {
    var m := x % 0x1_0000_0000;
    if m < 0x8000_0000 then m else m - 0x1_0000_0000
  }

  /** `x as i64` in Rust: keep the low 64 bits and read them as two's complement. */
  function WrapI64(x: int): (r: I64)
    ensures (r - x) % 0x1_0000_0000_0000_0000 == 0
  {
    var m := x % 0x1_0000_0000_0000_0000;
    if m < 0x8000_0000_0000_0000 then m else m - 0x1_0000_0000_0000_0000
  }

  /** Whether bit number `pos` is set in the non-negative word `bits`. */
  function BitSet(bits: nat, pos: nat): bool
    decreases pos
  {
    if pos == 0 then bits % 2 == 1 else BitSet(bits / 2, pos - 1)
  }

  /** `F::from_bits_truncate(bits)`: the known flags whose bit is set in `bits`; every bit
      that names no known flag is dropped. `positions` gives each known flag's bit number. */
  function FromBitsTruncate<F>(bits: nat, positions: map<F, nat>): (r: set<F>)
    ensures r <= positions.Keys
    ensures forall f :: f in positions ==> (f in r <==> BitSet(bits, positions[f]))
  {
    set f | f in positions && BitSet(bits, positions[f])
  }

  /** Rust's `/` on signed integers: the quotient rounded toward zero. */
  function TruncDiv(a: int, b: int): (q: int)
    requires b != 0
    ensures a >= 0 && b > 0 ==> q == a / b && q >= 0
  {
    if a >= 0 then a / b else -((-a) / b)
  }

  /** Rust's `%` on signed integers: the remainder of `TruncDiv`, which takes the sign of
      the dividend. */
  function TruncRem(a: int, b: int): (r: int)
    requires b != 0
    ensures a == b * TruncDiv(a, b) + r
    ensures a >= 0 ==> 0 <= r < (if b > 0 then b else -b)
    ensures a < 0 ==> -(if b > 0 then b else -b) < r <= 0
    ensures a >= 0 && b > 0 ==> r == a % b
  {
    a - b * TruncDiv(a, b)
  }

  /** How a Rust function that may panic ends: with its value, or with a panic from
      `unwrap` or `expect`. */
  datatype Outcome<T> = Returned(value: T) | Panicked
}
