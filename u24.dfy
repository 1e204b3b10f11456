/** `U24`, the crate's unsigned 24-bit number (crates/benda/src/types/u24.rs):
    a `u32` kept below 2^24 by masking on construction. Arithmetic on the
    `u32` follows a debug build: `+` and `-` that leave the `u32` range
    panic; `*` wraps modulo 2^32 and is not masked. */
module UInt24 {
  import opened Support
  import opened Bits
  import Bend

  const MAX: nat := 0xFF_FFFF
  const U32_RANGE: nat := 0x1_0000_0000

  type u32 = x: int | 0 <= x < 0x1_0000_0000

  datatype U24 = U24(get: u32)

  /** `U24::new`: `value & 0xffffff`, which keeps the value modulo 2^24. */
  function New(value: u32): (r: U24)
    ensures r.get == value % 0x100_0000
    ensures r.get <= MAX
    ensures value <= MAX ==> r.get == value
  {
    Mask24(value);
    U24(BitAnd(value, MAX))
  }

  /** Masking with 0xffffff keeps the value modulo 2^24. */
  lemma Mask24(value: nat)
    ensures BitAnd(value, MAX) == value % 0x100_0000
  {
    AndLowMask(value, 24);
    Pow2Of24();
  }

  /** `a + b`: the `u32` sum is masked; a sum beyond `u32` panics. */
  function Add(a: U24, b: U24): (r: Result<U24>)
    ensures r.Ok? <==> a.get + b.get < U32_RANGE
    ensures r.Ok? ==> r.value.get == (a.get + b.get) % 0x100_0000
  {
    if a.get + b.get < U32_RANGE then Ok(New(a.get + b.get))
    else Err(Panic("attempt to add with overflow"))
  }

  /** `a - b`: the `u32` difference is masked; `b > a` panics. */
  function Sub(a: U24, b: U24): (r: Result<U24>)
    ensures r.Ok? <==> b.get <= a.get
    ensures r.Ok? ==> r.value.get == (a.get - b.get) % 0x100_0000
  {
    if b.get <= a.get then Ok(New(a.get - b.get))
    else Err(Panic("attempt to subtract with overflow"))
  }

  /** `__mul__`: `wrapping_mul` on the `u32`, without the mask. */
  function Mul(a: U24, b: U24): (r: U24)
    ensures r.get == (a.get * b.get) % U32_RANGE
  {
    U24((a.get * b.get) % U32_RANGE)
  }

  /** `u32::checked_div`. */
  function CheckedDiv(a: u32, b: u32): Option<u32>
  {
    if b == 0 then None else Some(a / b)
  }

  /** `__truediv__`: the truncated quotient, or `ZeroDivisionError`. */
  function TrueDiv(a: U24, b: U24): (r: Result<U24>)
    ensures r.Err? <==> b.get == 0
    ensures r.Err? ==> r.error == Raise("division by zero")
    ensures r.Ok? ==> r.value.get * b.get <= a.get < (r.value.get + 1) * b.get
  {
    match CheckedDiv(a.get, b.get)
    case Some(q) => Ok(U24(q))
    case None => Err(Raise("division by zero"))
  }

  /** `__floordiv__`: the same computation as `__truediv__`. */
  function FloorDiv(a: U24, b: U24): (r: Result<U24>)
    ensures r.Err? <==> b.get == 0
    ensures r.Err? ==> r.error == Raise("division by zero")
    ensures r.Ok? ==> r.value.get * b.get <= a.get < (r.value.get + 1) * b.get
  {
    match CheckedDiv(a.get, b.get)
    case Some(q) => Ok(U24(q))
    case None => Err(Raise("division by zero"))
  }

  /** `__int__`: `to_i32().unwrap()`, which panics from 2^31 on. */
  function Int(a: U24): (r: Result<int>)
    ensures r.Ok? <==> a.get < 0x8000_0000
    ensures r.Ok? ==> r.value == a.get
  {
    if a.get < 0x8000_0000 then Ok(a.get as int) else Err(Panic("called `Option::unwrap()` on a `None` value"))
  }

  datatype CompareOp = Lt | Le | Eq | Ne | Gt | Ge

  /** `__richcmp__` through the derived `PartialEq` and `PartialOrd`, which
      compare the stored `u32`s: equality of two `U24`s is equality of their
      numbers, and the four orderings are one total order seen four ways. */
  function RichCmp(a: U24, b: U24, op: CompareOp): (r: bool)
    ensures op == Lt ==> (r <==> a.get < b.get)
    ensures op == Eq ==> (r <==> a.get == b.get)
    ensures op == Ne ==> (r <==> a.get != b.get)
    ensures op == Ge ==> (r <==> !(a.get < b.get))
    ensures op == Gt ==> (r <==> b.get < a.get)
    ensures op == Le ==> (r <==> !(b.get < a.get))
  {
    match op
    case Lt => a.get < b.get
    case Le => a.get <= b.get
    case Eq => a == b
    case Ne => a != b
    case Gt => a.get > b.get
    case Ge => a.get >= b.get
  }

  /** `to_bend`: a `U24` number literal with the stored value. */
  function ToBend(a: U24): Bend.Expr
  {
    Bend.Num(Bend.U24(a.get))
  }

  /** What a `U24` denotes in Bend: the number inside a `U24` literal. */
  function FromBend(e: Bend.Expr): Option<U24>
  {
    if e.Num? && e.val.U24? && 0 <= e.val.u < U32_RANGE then Some(U24(e.val.u)) else None
  }

  lemma ToBendRoundTrip(a: U24)
    ensures FromBend(ToBend(a)) == Some(a)
    ensures a.get <= MAX ==> New(a.get) == a
  {
  }

  /** Sums below 2^24 are exact; larger sums wrap as Bend's 24-bit `+`. */
  lemma AddAgreesWithBend(a: U24, b: U24)
    requires a.get <= MAX && b.get <= MAX
    ensures Add(a, b).Ok?
    ensures a.get + b.get <= MAX ==> Add(a, b).value.get == a.get + b.get
    ensures a.get + b.get > MAX ==> Add(a, b).value.get == a.get + b.get - 0x100_0000
  {
  }

  /** Python's comparison of two `int`s. */
  function PyCompare(x: int, y: int, op: CompareOp): bool
  {
    match op
    case Lt => x < y
    case Le => x <= y
    case Eq => x == y
    case Ne => x != y
    case Gt => x > y
    case Ge => x >= y
  }

  /** Wherever `__int__` succeeds on both sides, comparing two `U24`s gives
      the same answer as comparing the Python `int`s they convert to. */
  lemma RichCmpAgreesWithInt(a: U24, b: U24, op: CompareOp)
    requires Int(a).Ok? && Int(b).Ok?
    ensures RichCmp(a, b, op) == PyCompare(Int(a).value, Int(b).value, op)
  {
  }

  /** Comparisons see the masked values: `U24::new(2^24 + 1)` compares below
      `U24::new(2)`, although the numbers passed to `new` are the other way
      round. */
  lemma RichCmpAfterMask()
    ensures RichCmp(New(0x100_0001), New(2), Lt)
    ensures !PyCompare(0x100_0001, 2, Lt)
  {
    ModAddMultiple(1, 0x100_0000, 1);
  }

  /** `__mul__` can leave the 24-bit range, unlike `+` and `-`. */
  lemma MulLeavesRange()
    ensures Mul(U24(0x1000), U24(0x1000)).get == 0x100_0000 > MAX
    ensures Mul(U24(0x1_0000), U24(0x1_0000)).get == 0
  {
  }

  /** Masking a product with `new` gives the 24-bit product, as Bend's
      `*` on `U24` does: the 2^32 wrap of `__mul__` loses nothing below
      bit 24. */
  lemma MulThenNew(a: U24, b: U24)
    ensures New(Mul(a, b).get).get == (a.get * b.get) % 0x100_0000
  {
    var x := a.get * b.get;
    var q := x / U32_RANGE;
    assert Mul(a, b).get == x - U32_RANGE * q;
    assert x - U32_RANGE * q == x + 0x100_0000 * (-0x100 * q);
    ModAddMultiple(x, 0x100_0000, -0x100 * q);
  }

  /** `U24::new(1 << 25)` is 0, as Bend's `(<< 1 25)` on 24 bits. */
  lemma OverflowExample()
    ensures New(0x200_0000).get == 0
  {
    ModAddMultiple(0, 0x100_0000, 2);
  }

  /** `U24::new(25 + 10)` is 35, as Bend's `(+ 25 10)`. */
  lemma SumExample()
    ensures New(25 + 10).get == 35
  {
  }
}
