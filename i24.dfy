/** `i24`, the crate's signed 24-bit number (crates/benda/src/types/i24.rs):
    an `i32` masked with `0xffffff` on construction. The mask acts on the
    two's complement bits, so the stored value is never negative. */
module Int24 {
  import opened Support
  import opened Bits
  import Bend

  const MAX: int := 0xFF_FFFF

  type i32 = x: int | -0x8000_0000 <= x < 0x8000_0000

  /** What `new` can leave in the private `i32` field. */
  type Masked = x: int | 0 <= x <= 0xFF_FFFF

  datatype I24 = I24(get: Masked)

  /** The 32 bits of an `i32`, read as an unsigned number. */
  function Bits32(v: i32): (b: nat)
    ensures b < 0x1_0000_0000
    ensures b % 0x100_0000 == v % 0x100_0000
  {
    if v >= 0 then v
    else
      ModAddMultiple(v, 0x100_0000, 0x100);
      v + 0x1_0000_0000
  }

  /** `i24::new`: `value & 0xffffff`, which keeps the value modulo 2^24. */
  function New(value: i32): (r: I24)
    ensures r.get == value % 0x100_0000
    ensures 0 <= value <= MAX ==> r.get == value
  {
    AndLowMask(Bits32(value), 24);
    Pow2Of24();
    I24(BitAnd(Bits32(value), MAX))
  }

  /** `a + b`: the masked `i32` sum. */
  function Add(a: I24, b: I24): (r: I24)
    ensures r.get == (a.get + b.get) % 0x100_0000
  {
    New(a.get + b.get)
  }

  /** `a - b`: the masked `i32` difference. */
  function Sub(a: I24, b: I24): (r: I24)
    ensures r.get == (a.get - b.get) % 0x100_0000
    ensures a.get < b.get ==> r.get == a.get - b.get + 0x100_0000
  {
    New(a.get - b.get)
  }

  /** `to_bend`: an `I24` number literal with the stored value. */
  function ToBend(a: I24): (e: Bend.Expr)
    ensures e.Num? && e.val.I24?
  {
    Bend.Num(Bend.I24(a.get))
  }

  /** What an `I24` denotes in Bend: the number inside an `I24` literal. */
  function FromBend(e: Bend.Expr): Option<I24>
  {
    if e.Num? && e.val.I24? && 0 <= e.val.i <= MAX then Some(I24(e.val.i)) else None
  }

  /** `to_bend` emits a literal from which the stored value reads back, and
      `new` of a stored value keeps it. */
  lemma ToBendRoundTrip(a: I24)
    ensures FromBend(ToBend(a)) == Some(a)
    ensures New(a.get) == a
  {
  }

  /** A negative number comes out as its 24-bit two's complement: -1 is
      stored as 16777215. */
  lemma NegativeOneExample()
    ensures New(-1).get == 16777215
  {
  }
}
