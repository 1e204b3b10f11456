/** The constructor objects of crates/benda/src/types/book.rs: the generated
    classes `Ctr1`..`Ctr8` (a qualified name and an ordered field table),
    the `Ctrs` object that holds one ADT's constructors, and Python's
    `getattr` on the values the crate reads fields from. */
module CtrObjects {
  import opened Support
  import opened IndexMaps
  import opened Host

  /** `arity`: the number of fields. */
  function Arity(c: CtrValue): nat
  {
    |c.fields|
  }

  // ---------------------------------------------------------------------
  // `usize::from_str`, used by `__getattr__` on numeric names

  predicate IsDigit(ch: char)
  {
    '0' <= ch <= '9'
  }

  function DigitsValue(ds: string): nat
  {
    if ds == [] then 0
    else
      var d := ds[|ds| - 1] as int - '0' as int;
      DigitsValue(ds[..|ds| - 1]) * 10 + (if 0 <= d then d else 0)
  }

  const USIZE_RANGE: nat := 0x1_0000_0000_0000_0000

  /** An optional `+`, then at least one decimal digit, the value below 2^64. */
  function ParseUsize(s: string): (r: Option<nat>)
    ensures r.Some? ==> r.value < USIZE_RANGE
    ensures r.Some? ==> |s| >= 1 && forall i :: 0 <= i < |s| ==> IsDigit(s[i]) || (i == 0 && s[i] == '+')
  {
    var ds := if |s| > 0 && s[0] == '+' then s[1..] else s;
    if ds == [] then None
    else if exists i :: 0 <= i < |ds| && !IsDigit(ds[i]) then None
    else
      var n := DigitsValue(ds);
      if n < USIZE_RANGE then Some(n) else None
  }

  lemma {:induction false} DigitsOfNatToString(n: nat)
    ensures DigitsValue(NatToString(n)) == n
    decreases n
  {
    var s := NatToString(n);
    if n < 10 {
      assert s == [DigitChar(n)];
      assert DigitChar(n) as int - '0' as int == n;
      assert s[..0] == [];
    } else {
      DigitsOfNatToString(n / 10);
      assert s[..|s| - 1] == NatToString(n / 10);
      assert DigitChar(n % 10) as int - '0' as int == n % 10;
    }
  }

  /** Rendering a number and parsing it back gives the number. */
  lemma ParseUsizeNatToString(n: nat)
    requires n < USIZE_RANGE
    ensures ParseUsize(NatToString(n)) == Some(n)
  {
    DigitsOfNatToString(n);
    var s := NatToString(n);
    assert s[0] != '+';
    assert !exists i :: 0 <= i < |s| && !IsDigit(s[i]);
  }

  // ---------------------------------------------------------------------
  // `CtrN` as a value

  /** `__call__`: field i gets argument i, in declaration order; extra
      arguments are ignored, and too few make `get_item(i).unwrap()` panic. */
  function CallValue(c: CtrValue, args: seq<PyValue>): (r: Result<CtrValue>)
    ensures r.Ok? <==> Arity(c) <= |args|
    ensures r.Ok? ==> r.value.kind == c.kind && r.value.fullName == c.fullName
    ensures r.Ok? ==> Keys(r.value.fields) == Keys(c.fields)
    ensures r.Ok? ==> forall i :: 0 <= i < Arity(c) ==> r.value.fields[i].1 == Some(args[i])
  {
    if |args| < |c.fields| then Err(Panic("called `Result::unwrap()` on an `Err` value"))
    else Ok(c.(fields := seq(|c.fields|, i requires 0 <= i < |c.fields| => (c.fields[i].0, Some(args[i])))))
  }

  /** `__setattr__`: only an existing field changes. */
  function SetAttrValue(c: CtrValue, name: string, v: PyValue): (r: CtrValue)
    ensures r.kind == c.kind && r.fullName == c.fullName && Keys(r.fields) == Keys(c.fields)
    ensures name !in Keys(c.fields) ==> r == c
    ensures DistinctKeys(c.fields) ==> Get(r.fields, name) == (if name in Keys(c.fields) then Some(Some(v)) else None)
    ensures forall i :: 0 <= i < |c.fields| && c.fields[i].0 != name ==> r.fields[i] == c.fields[i]
  {
    if name in Keys(c.fields) then c.(fields := Insert(c.fields, name, Some(v))) else c
  }

  /** `__getattr__`: the qualified name for `__variant` and `__ctr_type__`;
      for a numeric name n the n-th field, 1-based (n = 0 underflows
      `n - 1` and panics); else the field of that name; else an error. */
  function GetAttrValue(c: CtrValue, name: string): Result<PyValue>
  {
    if name == "__variant" || name == "__ctr_type__" then Ok(PyStr(c.fullName))
    else
      var n := ParseUsize(name);
      if n == Some(0) then Err(Panic("attempt to subtract with overflow"))
      else if n.Some? && n.value - 1 < |c.fields| then Ok(FromOption(c.fields[n.value - 1].1))
      else
        match Get(c.fields, name)
        case Some(o) => Ok(FromOption(o))
        case None => Err(Raise("Could not find attr " + name))
  }

  /** The outcome of `__getattr__`, case by case in order of precedence. */
  lemma GetAttrPrecedence(c: CtrValue, name: string)
    ensures name == "__variant" || name == "__ctr_type__" ==> GetAttrValue(c, name) == Ok(PyStr(c.fullName))
    ensures (name != "__variant" && name != "__ctr_type__" && ParseUsize(name) == Some(0))
            ==> GetAttrValue(c, name).Err? && GetAttrValue(c, name).error.Panic?
    ensures (name != "__variant" && name != "__ctr_type__" && ParseUsize(name).Some?
             && 1 <= ParseUsize(name).value <= Arity(c))
            ==> GetAttrValue(c, name) == Ok(FromOption(c.fields[ParseUsize(name).value - 1].1))
    ensures (name != "__variant" && name != "__ctr_type__"
             && (ParseUsize(name).None? || ParseUsize(name).value > Arity(c)))
            ==> (GetAttrValue(c, name).Ok? <==> name in Keys(c.fields))
    ensures (GetAttrValue(c, name).Err? && GetAttrValue(c, name).error.Raise?)
            ==> name !in Keys(c.fields) && name != "__variant" && name != "__ctr_type__"
  {
  }

  /** After a call, the numeric attributes 1..arity read the arguments
      back in order. */
  lemma CallThenGetAttr(c: CtrValue, args: seq<PyValue>, n: nat)
    requires CallValue(c, args).Ok? && 1 <= n <= Arity(c) && n < USIZE_RANGE
    ensures GetAttrValue(CallValue(c, args).value, NatToString(n)) == Ok(args[n - 1])
  {
    ParseUsizeNatToString(n);
    var s := NatToString(n);
    assert s != "__variant" && s != "__ctr_type__" by {
      assert '0' <= s[0] <= '9';
    }
  }

  /** After `__setattr__` of an existing plain field name, reading it gives
      the new value. */
  lemma SetThenGetAttr(c: CtrValue, name: string, v: PyValue)
    requires DistinctKeys(c.fields) && name in Keys(c.fields)
    requires name != "__variant" && name != "__ctr_type__" && ParseUsize(name).None?
    ensures GetAttrValue(SetAttrValue(c, name, v), name) == Ok(v)
  {
  }

  // ---------------------------------------------------------------------
  // `CtrN` as a Python object updated in place

  /** One constructor object. Its field names never change after
      `Book::new`; `__call__` and `__setattr__` overwrite field values. */
  class Ctr {
    const kind: CtrKind
    const fullName: string
    const names: seq<string>
    const values: array<Option<PyValue>>

    ghost predicate Valid()
      reads this
    {
      values.Length == |names|
    }

    /** The object as a value. */
    function State(): (c: CtrValue)
      reads this, values
      requires Valid()
    {
      CtrValue(kind, fullName, seq(|names|, i requires 0 <= i < |names| reads values => (names[i], values[i])))
    }

    constructor (c: CtrValue)
      ensures Valid() && State() == c && fresh(values)
    {
      kind := c.kind;
      fullName := c.fullName;
      names := Keys(c.fields);
      var a := new Option<PyValue>[|c.fields|](i requires 0 <= i < |c.fields| => c.fields[i].1);
      values := a;
    }

    /** `__call__`: fields are set one by one, so a call with too few
        arguments panics after setting the fields it had arguments for. */
    method Call(args: seq<PyValue>) returns (r: Result<CtrValue>)
      requires Valid()
      modifies values
      ensures Valid()
      ensures r == CallValue(old(State()), args)
      ensures r.Ok? ==> State() == r.value
      ensures forall i :: 0 <= i < values.Length ==>
                values[i] == if i < |args| then Some(args[i]) else old(values[i])
    {
      var i := 0;
      while i < values.Length
        invariant 0 <= i <= values.Length && i <= |args|
        invariant forall j :: 0 <= j < i ==> values[j] == Some(args[j])
        invariant forall j :: i <= j < values.Length ==> values[j] == old(values[j])
      {
        if i >= |args| {
          return Err(Panic("called `Result::unwrap()` on an `Err` value"));
        }
        values[i] := Some(args[i]);
        i := i + 1;
      }
      r := Ok(State());
      assert State().fields == CallValue(old(State()), args).value.fields;
    }

    /** `__setattr__`: an existing field takes the value, anything else is
        ignored. */
    method SetAttr(name: string, v: PyValue)
      requires Valid()
      modifies values
      ensures Valid()
      ensures State() == SetAttrValue(old(State()), name, v)
    {
      assert Keys(State().fields) == names;
      var i := 0;
      while i < |names|
        invariant 0 <= i <= |names|
        invariant forall j :: 0 <= j < i ==> names[j] != name
      {
        if names[i] == name {
          ghost var before := State();
          assert IndexOf(before.fields, name) == i;
          values[i] := Some(v);
          assert State().fields == before.fields[i := (name, Some(v))];
          return;
        }
        i := i + 1;
      }
    }
  }

  // ---------------------------------------------------------------------
  // `Ctrs`

  type Slots = s: seq<Option<CtrValue>> | |s| == 8 witness [None, None, None, None, None, None, None, None]

  /** `Ctrs`: the constructor objects by short name, and the eight slots
      `first`..`eighth` in declaration order. */
  datatype Ctrs = Ctrs(fields: Entries<string, CtrValue>, slots: Slots)

  const EmptyCtrs := Ctrs([], [None, None, None, None, None, None, None, None])

  /** `get_base_case` from slot i on. */
  function BaseCaseFrom(slots: Slots, i: nat): (r: Result<Option<CtrValue>>)
    requires i <= 8
    ensures r == Ok(None) <==> forall k :: i <= k < 8 ==> slots[k].Some? && Arity(slots[k].value) != 0
    ensures r.Ok? && r.value.Some? ==>
              exists j :: i <= j < 8 && slots[j] == r.value && Arity(slots[j].value) == 0
                && forall k :: i <= k < j ==> slots[k].Some? && Arity(slots[k].value) != 0
    ensures r.Err? ==>
              exists j :: i <= j < 8 && slots[j].None?
                && forall k :: i <= k < j ==> slots[k].Some? && Arity(slots[k].value) != 0
    decreases 8 - i
  {
    if i == 8 then Ok(None)
    else if slots[i].None? then Err(Panic("called `Option::unwrap()` on a `None` value"))
    else if Arity(slots[i].value) == 0 then Ok(slots[i])
    else BaseCaseFrom(slots, i + 1)
  }

  /** `get_base_case`: the first slot with arity 0, checked from `first`
      to `eighth`; an empty slot reached first panics. */
  function GetBaseCase(c: Ctrs): Result<Option<CtrValue>>
  {
    BaseCaseFrom(c.slots, 0)
  }

  /** `Ctrs.__getattr__`: a constructor object by its short name. */
  function CtrsGetAttr(c: Ctrs, name: string): (r: Result<CtrValue>)
    ensures r.Ok? <==> name in Keys(c.fields)
    ensures DistinctKeys(c.fields) ==> forall i :: 0 <= i < |c.fields| && c.fields[i].0 == name ==> r == Ok(c.fields[i].1)
  {
    match Get(c.fields, name)
    case Some(v) => Ok(v)
    case None => Err(Raise("Could not find attr " + name))
  }

  // ---------------------------------------------------------------------
  // Python's getattr on the values the crate reads

  /** `obj.getattr(name)`: a constructor object answers through its
      `__getattr__`, another object through its attributes; the rest have
      none. */
  function PyGetAttr(v: PyValue, name: string): (r: Result<PyValue>)
    ensures r.Ok? && (r.value.PyCtr? || r.value.PyObj?) ==> Size(r.value) < Size(v)
  {
    match v
    case PyCtr(c) =>
      var r := GetAttrValue(c, name);
      if r.Ok? && (r.value.PyCtr? || r.value.PyObj?) then
        var j :| 0 <= j < |c.fields| && c.fields[j].1 == Some(r.value);
        FieldBelow(v, 0, j);
        r
      else r
    case PyObj(_, attrs) =>
      if exists j :: 0 <= j < |attrs| && attrs[j].0 == name then
        var j := FirstAttr(attrs, name);
        AttrBelow(v, 0, j);
        Ok(attrs[j].1)
      else Err(Raise("AttributeError: " + name))
    case _ => Err(Raise("AttributeError: " + name))
  }

  function FirstAttr(attrs: seq<(string, PyValue)>, name: string): (j: nat)
    requires exists j :: 0 <= j < |attrs| && attrs[j].0 == name
    ensures j < |attrs| && attrs[j].0 == name
    ensures forall k :: 0 <= k < j ==> attrs[k].0 != name
  {
    if attrs[0].0 == name then 0 else 1 + FirstAttr(attrs[1..], name)
  }
}
