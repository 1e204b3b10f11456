/** Type-name dispatch of crates/benda/src/types/mod.rs: which Bend literal a
    Python number becomes, and the downcasts the crate relies on. */
module Builtins {
  import opened Support
  import opened Host
  import UInt24
  import CtrObjects
  import Bend

  datatype BuiltinType = U24 | F32 | I32 | Tree | Leaf | Node | UserAdt

  /** `BuiltinType::from`: six known type names, everything else a user
      ADT. */
  function BuiltinTypeFrom(name: string): (r: BuiltinType)
    ensures r == F32 <==> name == "float"
    ensures r == I32 <==> name == "int"
    ensures r == U24 <==> name == "benda.u24"
    ensures r == Node <==> name == "benda.Node"
    ensures r == Leaf <==> name == "benda.Leaf"
    ensures r == Tree <==> name == "benda.Tree"
    ensures r == UserAdt <==> name !in {"float", "int", "benda.u24", "benda.Node", "benda.Leaf", "benda.Tree"}
  {
    match name
    case "float" => F32
    case "int" => I32
    case "benda.u24" => U24
    case "benda.Node" => Node
    case "benda.Leaf" => Leaf
    case "benda.Tree" => Tree
    case _ => UserAdt
  }

  /** Whether `arg.downcast::<T>()` succeeds for the class behind `t`. */
  predicate Downcasts(arg: PyValue, t: BuiltinType)
  {
    match t
    case U24 => arg.PyU24?
    case Leaf => arg.PyLeaf?
    case Node => arg.PyNode?
    case Tree => arg.PyTree?
    case _ => false
  }

  /** `extract_inner::<T>`: the value itself when the downcast succeeds. */
  function ExtractInner(arg: PyValue, t: BuiltinType): (r: Option<PyValue>)
    ensures r.Some? <==> Downcasts(arg, t)
    ensures r.Some? ==> r.value == arg
  {
    if Downcasts(arg, t) then Some(arg) else None
  }

  /** Every value the host builds passes the downcast its type name
      selects. */
  lemma ExtractInnerByName(arg: PyValue)
    requires arg.PyU24? || arg.PyLeaf? || arg.PyNode? || arg.PyTree?
    ensures ExtractInner(arg, BuiltinTypeFrom(TypeName(arg))) == Some(arg)
  {
  }

  // ---------------------------------------------------------------------
  // `str(arg).parse::<i32>()`

  const I32_MIN: int := -0x8000_0000
  const I32_MAX: int := 0x7FFF_FFFF

  /** `i32::from_str`: an optional sign, at least one decimal digit, the
      value within the `i32` range. */
  function ParseI32(s: string): (r: Option<int>)
    ensures r.Some? ==> I32_MIN <= r.value <= I32_MAX
  {
    var neg := |s| > 0 && s[0] == '-';
    var ds := if |s| > 0 && (s[0] == '-' || s[0] == '+') then s[1..] else s;
    if !Decimal(ds) then None
    else
      var n: int := if neg then 0 - (CtrObjects.DigitsValue(ds) as int) else CtrObjects.DigitsValue(ds);
      if I32_MIN <= n <= I32_MAX then Some(n) else None
  }

  /** At least one character, all of them decimal digits. */
  predicate Decimal(ds: string)
  {
    ds != [] && forall i :: 0 <= i < |ds| ==> CtrObjects.IsDigit(ds[i])
  }

  /** Printing a Python `int` and parsing it as `i32` gives the number back
      exactly when it fits. */
  lemma ParseI32OfStr(i: int)
    ensures ParseI32(Str(PyInt(i))) == if I32_MIN <= i <= I32_MAX then Some(i) else None
  {
    var s := Str(PyInt(i));
    if i >= 0 {
      CtrObjects.DigitsOfNatToString(i);
      assert s == NatToString(i);
      ParseUnsigned(s);
    } else {
      var ds := NatToString(-i);
      CtrObjects.DigitsOfNatToString(-i);
      assert s == "-" + ds;
      assert s[1..] == ds;
      ParseNegative(s);
    }
  }

  /** A digit string without a sign parses to its value when it fits. */
  lemma ParseUnsigned(s: string)
    requires |s| > 0 && forall k :: 0 <= k < |s| ==> '0' <= s[k] <= '9'
    ensures var n := CtrObjects.DigitsValue(s);
      ParseI32(s) == if n <= I32_MAX then Some(n) else None
  {
    assert s[0] != '-' && s[0] != '+';
    assert Decimal(s);
  }

  /** A minus sign and a digit string parse to the negated value when that
      fits. */
  lemma ParseNegative(s: string)
    requires |s| > 1 && s[0] == '-' && forall k :: 1 <= k < |s| ==> '0' <= s[k] <= '9'
    ensures var n := 0 - CtrObjects.DigitsValue(s[1..]);
      ParseI32(s) == if I32_MIN <= n then Some(n) else None
  {
    assert Decimal(s[1..]);
  }

  /** A number extracted without being lowered yet (`Box<dyn BendType>`). */
  datatype RawValue = RawU24(u: UInt24.U24) | RawI32(i: int) | RawF32(x: real)

  /** The `to_bend` of `U24`, `i32`, `u32` and `f32`: a `U24` value and a
      `u32` give a `U24` literal, an `i32` an `I24` literal, unmasked. */
  function RawToBend(v: RawValue): (e: Bend.Expr)
    ensures v.RawU24? ==> e == UInt24.ToBend(v.u)
    ensures v.RawI32? ==> e == Bend.Num(Bend.I24(v.i))
    ensures v.RawF32? ==> e == Bend.Num(Bend.F24(v.x))
  {
    match v
    case RawU24(u) => UInt24.ToBend(u)
    case RawI32(i) => Bend.Num(Bend.I24(i))
    case RawF32(x) => Bend.Num(Bend.F24(x))
  }

  /** `extract_num_raw`: `int` parsed as `i32`, `float` as `f32` (values
      that do not parse panic at the `unwrap`); any other type is
      unreachable. */
  function ExtractNumRaw(arg: PyValue, t: BuiltinType): (r: Result<RawValue>)
    ensures r.Ok? ==> (t == I32 && r.value.RawI32?) || (t == F32 && r.value.RawF32?)
    ensures r.Err? ==> r.error.Panic?
  {
    match t
    case I32 =>
      (match ParseI32(Str(arg))
       case Some(i) => Ok(RawI32(i))
       case None => Err(Panic("called `Result::unwrap()` on an `Err` value")))
    case F32 =>
      (match arg
       case PyFloat(x) => Ok(RawF32(x))
       case _ => Err(Panic("called `Result::unwrap()` on an `Err` value")))
    case _ => Err(Panic("internal error: entered unreachable code"))
  }

  /** `extract_num`: the same parse, lowered at once. */
  function ExtractNum(arg: PyValue, t: BuiltinType): (r: Result<Bend.Expr>)
    ensures r.Ok? <==> ExtractNumRaw(arg, t).Ok?
    ensures r.Ok? ==> r.value == RawToBend(ExtractNumRaw(arg, t).value)
  {
    var v :- ExtractNumRaw(arg, t);
    Ok(RawToBend(v))
  }

  /** `extract_type_raw`: a value for the three numeric types only. */
  function ExtractTypeRaw(arg: PyValue): (r: Result<Option<RawValue>>)
    ensures BuiltinTypeFrom(TypeName(arg)) !in {U24, I32, F32} ==> r == Ok(None)
    ensures r.Ok? && r.value.Some? ==> BuiltinTypeFrom(TypeName(arg)) in {U24, I32, F32}
    ensures r.Err? ==> r.error.Panic?
  {
    match BuiltinTypeFrom(TypeName(arg))
    case U24 =>
      var inner :- Unwrap(ExtractInner(arg, U24), "called `Option::unwrap()` on a `None` value");
      Ok(Some(RawU24(inner.u)))
    case I32 =>
      var v :- ExtractNumRaw(arg, I32);
      Ok(Some(v))
    case F32 =>
      var v :- ExtractNumRaw(arg, F32);
      Ok(Some(v))
    case _ => Ok(None)
  }

  /** What the numeric host values become: an `int` in the `i32` range an
      unmasked `I24` literal, an `int` outside it a panic, a `u24` a `U24`
      literal of its stored value. */
  lemma ExtractTypeRawNumbers(arg: PyValue)
    ensures arg.PyInt? && I32_MIN <= arg.i <= I32_MAX ==>
              && ExtractTypeRaw(arg) == Ok(Some(RawI32(arg.i)))
              && RawToBend(RawI32(arg.i)) == Bend.Num(Bend.I24(arg.i))
    ensures arg.PyInt? && !(I32_MIN <= arg.i <= I32_MAX) ==> ExtractTypeRaw(arg).Err?
    ensures arg.PyU24? ==>
              && ExtractTypeRaw(arg) == Ok(Some(RawU24(arg.u)))
              && RawToBend(RawU24(arg.u)) == Bend.Num(Bend.U24(arg.u.get))
  {
    if arg.PyInt? {
      ParseI32OfStr(arg.i);
    }
  }
}
