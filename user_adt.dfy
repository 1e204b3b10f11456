/** User-defined datatypes across the boundary (crates/benda/src/types/user_adt.rs):
    reading the lambda-encoded result term the evaluator returns back into
    constructor objects, and lowering a constructor object of a user ADT to
    a Bend constructor expression. */
module UserAdts {
  import opened Support
  import opened IndexMaps
  import opened Host
  import CtrObjects
  import Builtins
  import Bend

  const UNWRAP_ERR := "called `Result::unwrap()` on an `Err` value"
  const UNWRAP_NONE := "called `Option::unwrap()` on a `None` value"
  const TODO := "not yet implemented"

  // ---------------------------------------------------------------------
  // num_to_i32

  /** Rounding toward zero, as a float-to-integer cast does. */
  function Truncate(x: real): int
  {
    if x >= 0.0 then x.Floor else 0 - (-x).Floor
  }

  /** `num_to_i32`: the number as an `i32` when it is one. */
  function NumToI32(n: Bend.Num): (r: Option<int>)
    ensures n.U24? ==> (r.Some? <==> Builtins.I32_MIN <= n.u <= Builtins.I32_MAX)
    ensures n.U24? && r.Some? ==> r.value == n.u
    ensures n.I24? ==> r == Some(n.i)
    ensures n.F24? && r.Some? ==> r.value == Truncate(n.f)
  {
    match n
    case U24(u) => if Builtins.I32_MIN <= u <= Builtins.I32_MAX then Some(u) else None
    case I24(i) => Some(i)
    case F24(x) => if Builtins.I32_MIN <= Truncate(x) <= Builtins.I32_MAX then Some(Truncate(x)) else None
  }

  // ---------------------------------------------------------------------
  // from_term_into_adt

  /** `TermParse`: what a sub-term decodes to. A constructor not yet applied,
      a finished Python value, a constructor with the arguments collected so
      far, or bare arguments. */
  datatype TermParse =
    | I32(i: int)
    | Ctr(c: CtrValue)
    | Any(v: PyValue)
    | Vec(c: CtrValue, args: seq<PyValue>)
    | Args(args: seq<PyValue>)

  /** The constructor in slot `val` (0 to 7) of the ADT's constructor
      object; another number panics, and so does an empty slot. */
  function SlotCtr(d: CtrObjects.Ctrs, val: Bend.Num): (r: Result<TermParse>)
    ensures r.Ok? <==> exists k :: 0 <= k < 8 && NumToI32(val) == Some(k) && d.slots[k].Some?
    ensures r.Ok? ==> r.value.Ctr? && r.value == Ctr(d.slots[NumToI32(val).value].value)
  {
    match NumToI32(val)
    case Some(k) =>
      if 0 <= k < 8 then
        var c :- Unwrap(d.slots[k], UNWRAP_NONE);
        Ok(Ctr(c))
      else Err(Panic("ADT has more than 5 Ctrs"))
    case None => Err(Panic("ADT has more than 5 Ctrs"))
  }

  /** The values the argument side of an application contributes. */
  function ArgValues(p: Option<TermParse>): Result<seq<PyValue>>
  {
    match p
    case None => Ok([])
    case Some(I32(v)) => Ok([PyInt(v)])
    case Some(Ctr(_)) => Err(Panic(TODO))
    case Some(Any(a)) => Ok([a])
    case Some(Vec(_, _)) => Err(Panic(TODO))
    case Some(Args(a)) => Ok(a)
  }

  /** How the function side of an application combines with the argument
      values: a constructor starts collecting them, a collecting
      constructor extends its list, anything else leaves bare arguments. */
  function Combine(f: Option<TermParse>, args: seq<PyValue>): TermParse
  {
    match f
    case Some(Ctr(c)) => Vec(c, args)
    case Some(Any(a)) => Args(args + [a])
    case Some(Vec(ct, xs)) => Vec(ct, xs + args)
    case Some(Args(inner)) => Args(args + inner)
    case _ => Args(args)
  }

  /** `from_term_into_adt`. A number is an `I32`; the application of a
      variable to a number n selects constructor slot n; another
      application decodes its argument, then its function, and combines
      them; a lambda finishes what its body collected by calling the
      constructor (with the ADT's base case appended when there is one);
      any other term is `None`. */
  function FromTermIntoAdt(t: Bend.Term, d: CtrObjects.Ctrs): Result<Option<TermParse>>
    decreases t
  {
    match t
    case Lam(bod) =>
      var body :- FromTermIntoAdt(bod, d);
      (match body
       case None => Err(Panic(TODO))
       case Some(I32(v)) => Ok(Some(I32(v)))
       case Some(Ctr(ct)) =>
         if CtrObjects.Arity(ct) == 0 then
           var c :- CtrObjects.CallValue(ct, []);
           Ok(Some(Any(PyCtr(c))))
         else Err(Panic(TODO))
       case Some(Any(_)) => Err(Panic(TODO))
       case Some(Vec(ct, args)) =>
         var base :- CtrObjects.GetBaseCase(d);
         var all := args + (if base.Some? then [PyCtr(base.value)] else []);
         var c :- CtrObjects.CallValue(ct, all);
         Ok(Some(Any(PyCtr(c))))
       case Some(Args(a)) => Ok(Some(Args(a))))
    case App(fun, arg) =>
      if fun.VarT? && arg.NumT? then
        var c :- SlotCtr(d, arg.val);
        Ok(Some(c))
      else
        var appArg :- FromTermIntoAdt(arg, d);
        var appFun :- FromTermIntoAdt(fun, d);
        var args :- ArgValues(appArg);
        Ok(Some(Combine(appFun, args)))
    case NumT(val) =>
      (match NumToI32(val)
       case Some(i) => Ok(Some(I32(i)))
       case None => Ok(None))
    case _ => Ok(None)
  }

  /** The shapes the decoder gives for the leaves of a term. */
  lemma DecodeLeaves(t: Bend.Term, d: CtrObjects.Ctrs)
    ensures t.NumT? && NumToI32(t.val).Some? ==> FromTermIntoAdt(t, d) == Ok(Some(I32(NumToI32(t.val).value)))
    ensures t.NumT? && t.val.I24? ==> FromTermIntoAdt(t, d) == Ok(Some(I32(t.val.i)))
    ensures (t.VarT? || t.Other?) ==> FromTermIntoAdt(t, d) == Ok(None)
    ensures t.App? && t.fun.VarT? && t.arg.NumT? ==>
              (FromTermIntoAdt(t, d).Ok? <==> exists k :: 0 <= k < 8 && NumToI32(t.arg.val) == Some(k) && d.slots[k].Some?)
  {
  }

  /** A lambda whose body is a constructor that still expects fields, or a
      finished value, is not decoded. */
  lemma UnappliedCtrPanics(x: string, val: Bend.Num, d: CtrObjects.Ctrs)
    requires SlotCtr(d, val).Ok? && CtrObjects.Arity(SlotCtr(d, val).value.c) != 0
    ensures FromTermIntoAdt(Bend.Lam(Bend.App(Bend.VarT(x), Bend.NumT(val))), d) == Err(Panic(TODO))
  {
  }

  // ---------------------------------------------------------------------
  // The encoding the decoder reads

  /** A value of a user ADT as the evaluator sees it: an integer, or the
      constructor in slot `tag` applied to its fields. */
  datatype AdtValue = IntV(i: int) | Con(tag: nat, fields: seq<AdtValue>)

  /** Scott encoding with numeric tags: an integer is an `I24` literal; a
      constructor is `λx (x tag f1 … fn)`. */
  function Encode(v: AdtValue): Bend.Term
    decreases v, 1
  {
    match v
    case IntV(i) => Bend.NumT(Bend.I24(i))
    case Con(_, fs) => Bend.Lam(Spine(v, |fs|))
  }

  /** `x tag f1 … fk`, the first k fields applied. */
  function Spine(v: AdtValue, k: nat): Bend.Term
    requires v.Con? && k <= |v.fields|
    decreases v, 0, k
  {
    if k == 0 then Bend.App(Bend.VarT("x"), Bend.NumT(Bend.U24(v.tag)))
    else Bend.App(Spine(v, k - 1), Encode(v.fields[k - 1]))
  }

  /** Every constructor of the value sits in a slot with as many fields as
      it has arguments, and an ADT with a constructor that has fields has
      a reachable base-case lookup. */
  predicate WellTyped(v: AdtValue, d: CtrObjects.Ctrs)
    decreases v
  {
    match v
    case IntV(_) => true
    case Con(tag, fs) =>
      && tag < 8
      && d.slots[tag].Some?
      && CtrObjects.Arity(d.slots[tag].value) == |fs|
      && (|fs| > 0 ==> CtrObjects.GetBaseCase(d).Ok?)
      && forall i :: 0 <= i < |fs| ==> WellTyped(fs[i], d)
  }

  /** The Python value a well-typed value should come back as: the slot's
      constructor object with its fields filled in order. */
  function Decoded(v: AdtValue, d: CtrObjects.Ctrs): PyValue
    requires WellTyped(v, d)
    decreases v, 1
  {
    match v
    case IntV(i) => PyInt(i)
    case Con(tag, fs) =>
      var c := d.slots[tag].value;
      PyCtr(CtrObjects.CallValue(c, DecodedFields(v, d, |fs|)).value)
  }

  /** The first k fields, decoded. */
  function DecodedFields(v: AdtValue, d: CtrObjects.Ctrs, k: nat): (r: seq<PyValue>)
    requires v.Con? && WellTyped(v, d) && k <= |v.fields|
    ensures |r| == k
    decreases v, 0, k
  {
    if k == 0 then [] else DecodedFields(v, d, k - 1) + [Decoded(v.fields[k - 1], d)]
  }

  /** What the decoder is expected to give for the whole term. */
  function Expected(v: AdtValue, d: CtrObjects.Ctrs): TermParse
    requires WellTyped(v, d)
  {
    if v.IntV? then I32(v.i) else Any(Decoded(v, d))
  }

  /** Arguments beyond the arity do not change what a call builds. */
  lemma CallIgnoresExtra(c: CtrValue, xs: seq<PyValue>, extra: seq<PyValue>)
    requires CtrObjects.Arity(c) <= |xs|
    ensures CtrObjects.CallValue(c, xs + extra) == CtrObjects.CallValue(c, xs)
  {
    var r1 := CtrObjects.CallValue(c, xs + extra);
    var r2 := CtrObjects.CallValue(c, xs);
    var a := r1.value.fields;
    var b := r2.value.fields;
    assert |a| == |b| == |c.fields|;
    forall i | 0 <= i < |a|
      ensures a[i] == b[i]
    {
      assert (xs + extra)[i] == xs[i];
      assert a[i] == (c.fields[i].0, Some((xs + extra)[i]));
      assert b[i] == (c.fields[i].0, Some(xs[i]));
    }
    assert a == b;
    assert r1.value == r2.value;
  }

  /** Decoding an encoded well-typed value gives the value back: an
      integer as `I32`, a constructor as the filled constructor object. */
  lemma {:induction false} DecodeEncode(v: AdtValue, d: CtrObjects.Ctrs)
    requires WellTyped(v, d)
    ensures FromTermIntoAdt(Encode(v), d) == Ok(Some(Expected(v, d)))
    decreases v, 1
  {
    match v
    case IntV(i) =>
    case Con(tag, fs) =>
      var c := d.slots[tag].value;
      DecodeSpine(v, d, |fs|);
      if |fs| == 0 {
        assert DecodedFields(v, d, 0) == [];
      } else {
        var base := CtrObjects.GetBaseCase(d).value;
        CallIgnoresExtra(c, DecodedFields(v, d, |fs|), if base.Some? then [PyCtr(base.value)] else []);
      }
  }

  /** The spine `x tag f1 … fk` decodes to slot `tag`'s constructor, with
      the first k decoded fields collected once k > 0. */
  lemma {:induction false} DecodeSpine(v: AdtValue, d: CtrObjects.Ctrs, k: nat)
    requires v.Con? && WellTyped(v, d) && k <= |v.fields|
    ensures FromTermIntoAdt(Spine(v, k), d) ==
              Ok(Some(if k == 0 then Ctr(d.slots[v.tag].value) else Vec(d.slots[v.tag].value, DecodedFields(v, d, k))))
    decreases v, 0, k
  {
    if k == 0 {
      SpineHead(v, d);
    } else {
      var slot := d.slots[v.tag].value;
      var f := v.fields[k - 1];
      assert WellTyped(f, d);
      DecodeEncode(f, d);
      DecodeSpine(v, d, k - 1);
      var prev := if k == 1 then Ctr(slot) else Vec(slot, DecodedFields(v, d, k - 1));
      SpineStep(v, d, k, prev);
      SpineCollects(v, d, k, prev);
    }
  }

  /** The head `x tag` of the spine decodes to the slot's constructor. */
  lemma SpineHead(v: AdtValue, d: CtrObjects.Ctrs)
    requires v.Con? && WellTyped(v, d)
    ensures FromTermIntoAdt(Spine(v, 0), d) == Ok(Some(Ctr(d.slots[v.tag].value)))
  {
    assert NumToI32(Bend.U24(v.tag)) == Some(v.tag);
  }

  /** Combining the k-th decoded field with what the first k - 1 gave
      collects the first k. */
  lemma SpineCollects(v: AdtValue, d: CtrObjects.Ctrs, k: nat, prev: TermParse)
    requires v.Con? && WellTyped(v, d) && 0 < k <= |v.fields|
    requires prev == if k == 1 then Ctr(d.slots[v.tag].value) else Vec(d.slots[v.tag].value, DecodedFields(v, d, k - 1))
    ensures Combine(Some(prev), [Decoded(v.fields[k - 1], d)]) == Vec(d.slots[v.tag].value, DecodedFields(v, d, k))
  {
    if k == 1 {
      assert DecodedFields(v, d, 1) == [Decoded(v.fields[0], d)];
    }
  }

  /** One more field on the spine: the field's value joins what the
      shorter spine decoded to. */
  lemma SpineStep(v: AdtValue, d: CtrObjects.Ctrs, k: nat, prev: TermParse)
    requires v.Con? && WellTyped(v, d) && 0 < k <= |v.fields| && WellTyped(v.fields[k - 1], d)
    requires FromTermIntoAdt(Spine(v, k - 1), d) == Ok(Some(prev))
    requires FromTermIntoAdt(Encode(v.fields[k - 1]), d) == Ok(Some(Expected(v.fields[k - 1], d)))
    ensures FromTermIntoAdt(Spine(v, k), d) == Ok(Some(Combine(Some(prev), [Decoded(v.fields[k - 1], d)])))
  {
    var f := v.fields[k - 1];
    assert Spine(v, k) == Bend.App(Spine(v, k - 1), Encode(f));
    assert Spine(v, k - 1).App?;
    assert ArgValues(Some(Expected(f, d))) == Ok([Decoded(f, d)]);
  }

  // ---------------------------------------------------------------------
  // UserAdt::new

  /** A Python value recognised as an instance of a user ADT, with the
      book it was looked up in. */
  datatype UserAdt = UserAdt(adt: Bend.Adt, fullName: string, data: PyValue, book: Bend.Book)

  /** The book's constructors are all qualified (`Type/Ctr`) and each
      qualifier names a datatype of the book. */
  predicate Qualified(book: Bend.Book)
  {
    forall j :: 0 <= j < |book.ctrs| ==>
      SplitOnce(book.ctrs[j].0, '/').Some? && SplitOnce(book.ctrs[j].0, '/').value.0 in Keys(book.adts)
  }

  /** The search of `UserAdt::new` from entry i of the book's constructor
      table: every name on the way is split at its first `/` (a name
      without one panics) and the first name equal to `name` is taken,
      with the datatype its qualifier names. */
  function FindCtrFrom(book: Bend.Book, data: PyValue, name: string, i: nat): (r: Result<Option<UserAdt>>)
    requires i <= |book.ctrs|
    ensures r.Ok? && r.value.Some? ==>
              (&& r.value.value.data == data && r.value.value.book == book
               && r.value.value.fullName == name
               && (exists j :: i <= j < |book.ctrs| && book.ctrs[j].0 == name)
               && SplitOnce(name, '/').Some?
               && Get(book.adts, SplitOnce(name, '/').value.0) == Some(r.value.value.adt))
    ensures r == Ok(None) ==> forall j :: i <= j < |book.ctrs| ==> book.ctrs[j].0 != name
    ensures Qualified(book) ==> r.Ok?
    ensures r.Err? ==> r.error.Panic?
    decreases |book.ctrs| - i
  {
    if i == |book.ctrs| then Ok(None)
    else
      var nam := book.ctrs[i].0;
      var two :- Unwrap(SplitOnce(nam, '/'), UNWRAP_NONE);
      if nam == name then
        var adt :- Unwrap(Get(book.adts, two.0), UNWRAP_NONE);
        Ok(Some(UserAdt(adt, nam, data, book)))
      else FindCtrFrom(book, data, name, i + 1)
  }

  /** `UserAdt::new`: `None` for Python's `None` and for a value without a
      `__ctr_type__` attribute; otherwise the search above for the text of
      that attribute. Only constructor objects and other objects carry
      attributes, so a recognised value is one of those. */
  function UserAdtNew(data: PyValue, book: Bend.Book): (r: Result<Option<UserAdt>>)
    ensures data.PyNone? ==> r == Ok(None)
    ensures r.Ok? && r.value.Some? ==>
              (&& r.value.value.data == data && r.value.value.book == book
               && (data.PyCtr? || data.PyObj?)
               && r.value.value.fullName in Keys(book.ctrs))
    ensures Qualified(book) ==> r.Ok?
    ensures r.Err? ==> r.error.Panic?
  {
    if data.PyNone? then Ok(None)
    else
      match CtrObjects.PyGetAttr(data, "__ctr_type__")
      case Ok(binding) => FindCtrFrom(book, data, Str(binding), 0)
      case Err(_) => Ok(None)
  }

  /** A constructor object is recognised exactly when its qualified name is
      a constructor of the book, together with its datatype. */
  lemma UserAdtNewCtr(c: CtrValue, book: Bend.Book)
    requires Qualified(book)
    ensures var r := UserAdtNew(PyCtr(c), book);
            && r.Ok?
            && (r.value.Some? <==> c.fullName in Keys(book.ctrs))
            && (r.value.Some? ==>
                  (r.value.value.fullName == c.fullName
                   && Get(book.adts, SplitOnce(c.fullName, '/').value.0) == Some(r.value.value.adt)))
  {
    CtrBinding(c, book);
    FindCtrFound(book, PyCtr(c), c.fullName);
  }

  /** A constructor object's `__ctr_type__` is its qualified name. */
  lemma CtrBinding(c: CtrValue, book: Bend.Book)
    ensures UserAdtNew(PyCtr(c), book) == FindCtrFrom(book, PyCtr(c), c.fullName, 0)
  {
    var attr := CtrObjects.GetAttrValue(c, "__ctr_type__");
    assert attr == Ok(PyStr(c.fullName));
    assert CtrObjects.PyGetAttr(PyCtr(c), "__ctr_type__") == attr;
    assert Str(attr.value) == c.fullName;
  }

  /** On a qualified book the search finds exactly the names of the table. */
  lemma FindCtrFound(book: Bend.Book, data: PyValue, name: string)
    requires Qualified(book)
    ensures var r := FindCtrFrom(book, data, name, 0);
            && r.Ok?
            && (r.value.Some? <==> name in Keys(book.ctrs))
  {
    if name in Keys(book.ctrs) {
      var j :| 0 <= j < |book.ctrs| && Keys(book.ctrs)[j] == name;
      assert book.ctrs[j].0 == name;
    }
  }

  /** The search as the source writes it, a loop over the constructor
      table. */
  method FindUserAdt(data: PyValue, book: Bend.Book) returns (r: Result<Option<UserAdt>>)
    ensures r == UserAdtNew(data, book)
  {
    if data.PyNone? {
      return Ok(None);
    }
    var binding := CtrObjects.PyGetAttr(data, "__ctr_type__");
    if binding.Err? {
      return Ok(None);
    }
    var name := Str(binding.value);
    var i := 0;
    while i < |book.ctrs|
      invariant i <= |book.ctrs|
      invariant FindCtrFrom(book, data, name, i) == UserAdtNew(data, book)
    {
      var nam := book.ctrs[i].0;
      var two := SplitOnce(nam, '/');
      if two.None? {
        return Err(Panic(UNWRAP_NONE));
      }
      if nam == name {
        var adt := Get(book.adts, two.value.0);
        if adt.None? {
          return Err(Panic(UNWRAP_NONE));
        }
        return Ok(Some(UserAdt(adt.value, nam, data, book)));
      }
      i := i + 1;
    }
    return Ok(None);
  }

  // ---------------------------------------------------------------------
  // UserAdt::to_bend

  /** The constructors without fields, as constructor expressions, in
      declaration order. */
  function NullaryCtrs(cs: Entries<string, seq<Bend.CtrField>>): (r: seq<Bend.Expr>)
    ensures forall e :: e in r ==>
              (e.Ctr? && e.args == [] && exists j :: 0 <= j < |cs| && cs[j].0 == e.name && cs[j].1 == [])
    ensures forall j :: 0 <= j < |cs| && cs[j].1 == [] ==> Bend.Ctr(cs[j].0, []) in r
    ensures |r| <= |cs|
  {
    if cs == [] then []
    else
      var last := cs[|cs| - 1];
      var prev := NullaryCtrs(cs[..|cs| - 1]);
      assert forall j :: 0 <= j < |cs| - 1 ==> cs[..|cs| - 1][j] == cs[j];
      prev + (if last.1 == [] then [Bend.Ctr(last.0, [])] else [])
  }

  /** The field-less constructors of two runs of declarations are those of
      the first run followed by those of the second: together with the
      one-declaration case, this fixes the result to declaration order. */
  lemma {:induction false} NullaryCtrsAppend(a: Entries<string, seq<Bend.CtrField>>, b: Entries<string, seq<Bend.CtrField>>)
    ensures NullaryCtrs(a + b) == NullaryCtrs(a) + NullaryCtrs(b)
    decreases |b|
  {
    if b == [] {
      assert a + b == a;
    } else {
      var b', last := b[..|b| - 1], b[|b| - 1];
      assert b == b' + [last];
      assert a + b == (a + b') + [last];
      NullaryCtrsSnoc(a + b', last);
      NullaryCtrsSnoc(b', last);
      NullaryCtrsAppend(a, b');
    }
  }

  /** One more declaration at the end adds its constructor at the end,
      exactly when it has no fields. */
  lemma NullaryCtrsSnoc(cs: Entries<string, seq<Bend.CtrField>>, c: (string, seq<Bend.CtrField>))
    ensures NullaryCtrs(cs + [c]) == NullaryCtrs(cs) + if c.1 == [] then [Bend.Ctr(c.0, [])] else []
  {
    assert (cs + [c])[..|cs|] == cs;
  }

  /** One declaration contributes its constructor exactly when it has no
      fields. */
  lemma NullaryCtrsOne(c: (string, seq<Bend.CtrField>))
    ensures NullaryCtrs([c]) == if c.1 == [] then [Bend.Ctr(c.0, [])] else []
  {
    assert [c][..0] == [];
  }

  /** What one declared field contributes. The field is read from the
      object (a missing one panics). A number lowers to its literal; an
      instance of a user ADT lowers recursively (the `unwrap` turns its
      raised error into a panic, and a panic inside it propagates as is);
      anything else is replaced by every field-less constructor of the
      datatype named by the object's own qualifier. */
  function FieldSpec(u: UserAdt, f: Bend.CtrField): (r: Result<seq<Bend.Expr>>)
    ensures r.Err? ==> r.error.Panic?
    decreases Size(u.data), 0
  {
    var attrR := CtrObjects.PyGetAttr(u.data, f.nam);
    if attrR.Err? then Err(Panic(UNWRAP_ERR))
    else
      var attr := attrR.value;
      var raw :- Builtins.ExtractTypeRaw(attr);
      if raw.Some? then Ok([Builtins.RawToBend(raw.value)])
      else
        var sub :- UserAdtNew(attr, u.book);
        if sub.Some? then
          match ToBendSpec(sub.value)
          case Ok(e) => Ok([e])
          case Err(e) => if e.Raise? then Err(Panic(UNWRAP_ERR)) else Err(e)
        else
          var owner :- Unwrap(Get(u.book.adts, FirstSegment(u.fullName, '/')), UNWRAP_NONE);
          Ok(NullaryCtrs(owner.ctrs))
  }

  /** A field holding an instance of a user ADT: its lowering's raised
      error becomes the `unwrap` panic, and a panic inside the nested
      lowering (a failed `unwrap` of the nested search, say) comes out
      with its own message. */
  lemma FieldSpecNested(u: UserAdt, f: Bend.CtrField, attr: PyValue, sub: UserAdt)
    requires CtrObjects.PyGetAttr(u.data, f.nam) == Ok(attr)
    requires Builtins.ExtractTypeRaw(attr) == Ok(None) && UserAdtNew(attr, u.book) == Ok(Some(sub))
    ensures var t := ToBendSpec(sub);
      && (t.Ok? ==> FieldSpec(u, f) == Ok([t.value]))
      && (t.Err? && t.error.Raise? ==> FieldSpec(u, f) == Err(Panic(UNWRAP_ERR)))
      && (t.Err? && t.error.Panic? ==> FieldSpec(u, f) == Err(t.error))
  {
  }

  /** The fields from index i on, appended to `acc`. */
  function FieldsFrom(u: UserAdt, fs: seq<Bend.CtrField>, i: nat, acc: seq<Bend.Expr>): (r: Result<seq<Bend.Expr>>)
    requires i <= |fs|
    ensures r.Err? ==> r.error.Panic?
    decreases Size(u.data), 1, |fs| - i
  {
    if i == |fs| then Ok(acc)
    else
      var e :- FieldSpec(u, fs[i]);
      FieldsFrom(u, fs, i + 1, acc + e)
  }

  /** The search of `to_bend` from constructor i of the datatype. */
  function MatchFrom(u: UserAdt, i: nat): (r: Result<Bend.Expr>)
    requires i <= |u.adt.ctrs|
    ensures r.Ok? ==> r.value.Ctr? && r.value.name == u.fullName
    ensures (r.Err? && r.error.Raise?) <==> forall j :: i <= j < |u.adt.ctrs| ==> u.adt.ctrs[j].0 != u.fullName
    decreases Size(u.data), 2, |u.adt.ctrs| - i
  {
    if i == |u.adt.ctrs| then Err(Raise("attempted to fetch exception but none was set"))
    else
      var (nam, fields) := u.adt.ctrs[i];
      if nam == u.fullName then
        var args :- FieldsFrom(u, fields, 0, []);
        Ok(Bend.Ctr(nam, args))
      else MatchFrom(u, i + 1)
  }

  /** `UserAdt::to_bend`: the first constructor of the datatype named like
      the value, applied to the lowered fields in declaration order. A
      value whose name is not a constructor of its datatype is the only
      case reported to Python; every other failure is a panic. */
  function ToBendSpec(u: UserAdt): (r: Result<Bend.Expr>)
    ensures r.Ok? ==> r.value.Ctr? && r.value.name == u.fullName
    ensures (r.Err? && r.error.Raise?) <==> u.fullName !in Keys(u.adt.ctrs)
    decreases Size(u.data), 3
  {
    MatchFrom(u, 0)
  }

  /** The lowering as the source writes it: a loop over the constructors
      of the datatype, and for the matching one a loop over its fields. */
  method LowerUserAdt(u: UserAdt) returns (r: Result<Bend.Expr>)
    ensures r == ToBendSpec(u)
    decreases Size(u.data), 1, 0
  {
    var i := 0;
    while i < |u.adt.ctrs|
      invariant i <= |u.adt.ctrs|
      invariant MatchFrom(u, i) == ToBendSpec(u)
    {
      var (nam, fields) := u.adt.ctrs[i];
      if nam == u.fullName {
        var adtFields := LowerFields(u, fields);
        if adtFields.Err? {
          return Err(adtFields.error);
        }
        return Ok(Bend.Ctr(nam, adtFields.value));
      }
      i := i + 1;
    }
    return Err(Raise("attempted to fetch exception but none was set"));
  }

  /** The inner loop of `to_bend`: the fields of the matching constructor,
      lowered in declaration order. */
  method LowerFields(u: UserAdt, fields: seq<Bend.CtrField>) returns (r: Result<seq<Bend.Expr>>)
    ensures r == FieldsFrom(u, fields, 0, [])
    decreases Size(u.data), 0, 1
  {
    ghost var goal := FieldsFrom(u, fields, 0, []);
    var adtFields: seq<Bend.Expr> := [];
    var j := 0;
    while j < |fields|
      invariant j <= |fields|
      invariant FieldsFrom(u, fields, j, adtFields) == goal
    {
      var e := LowerField(u, fields[j]);
      if e.Err? {
        return Err(e.error);
      }
      adtFields := adtFields + e.value;
      j := j + 1;
    }
    return Ok(adtFields);
  }

  /** One field of `to_bend`. */
  method LowerField(u: UserAdt, f: Bend.CtrField) returns (r: Result<seq<Bend.Expr>>)
    ensures r == FieldSpec(u, f)
    decreases Size(u.data), 0, 0
  {
    var attrR := CtrObjects.PyGetAttr(u.data, f.nam);
    if attrR.Err? {
      return Err(Panic(UNWRAP_ERR));
    }
    var attr := attrR.value;
    var raw := Builtins.ExtractTypeRaw(attr);
    if raw.Err? {
      return Err(raw.error);
    }
    if raw.value.Some? {
      return Ok([Builtins.RawToBend(raw.value.value)]);
    }
    var sub := FindUserAdt(attr, u.book);
    if sub.Err? {
      return Err(sub.error);
    }
    if sub.value.Some? {
      var e := LowerUserAdt(sub.value.value);
      if e.Err? {
        return if e.error.Raise? then Err(Panic(UNWRAP_ERR)) else Err(e.error);
      }
      return Ok([e.value]);
    }
    var owner := Get(u.book.adts, FirstSegment(u.fullName, '/'));
    if owner.None? {
      return Err(Panic(UNWRAP_NONE));
    }
    r := CollectNullary(owner.value.ctrs);
    r := Ok(r.value);
  }

  /** The fallback loop: every constructor without fields, in order. */
  method CollectNullary(cs: Entries<string, seq<Bend.CtrField>>) returns (r: Result<seq<Bend.Expr>>)
    ensures r == Ok(NullaryCtrs(cs))
  {
    var acc: seq<Bend.Expr> := [];
    var k := 0;
    while k < |cs|
      invariant k <= |cs|
      invariant acc == NullaryCtrs(cs[..k])
    {
      assert cs[..k + 1][..k] == cs[..k];
      if cs[k].1 == [] {
        acc := acc + [Bend.Ctr(cs[k].0, [])];
      }
      k := k + 1;
    }
    assert cs[..k] == cs;
    return Ok(acc);
  }

  /** A field name that `__getattr__` looks up by name. */
  predicate PlainName(name: string)
  {
    name != "__variant" && name != "__ctr_type__" && CtrObjects.ParseUsize(name).None?
  }

  /** `I24` literals of the given integers, in order. */
  function I24Literals(ints: seq<int>): (r: seq<Bend.Expr>)
    ensures |r| == |ints|
    ensures forall k :: 0 <= k < |ints| ==> r[k] == Bend.Num(Bend.I24(ints[k]))
  {
    if ints == [] then [] else [Bend.Num(Bend.I24(ints[0]))] + I24Literals(ints[1..])
  }

  /** The object's fields hold the given `i32` integers under the given
      plain names. */
  predicate HoldsInts(c: CtrValue, fs: seq<Bend.CtrField>, ints: seq<int>)
  {
    && |ints| == |fs|
    && forall m :: 0 <= m < |ints| ==>
         && Builtins.I32_MIN <= ints[m] <= Builtins.I32_MAX
         && PlainName(fs[m].nam)
         && Get(c.fields, fs[m].nam) == Some(Some(PyInt(ints[m])))
  }

  /** A constructor object whose declared fields all hold `i32` integers
      lowers to its constructor applied to those integers as `I24`
      literals, one argument per field, in declaration order. */
  lemma LowerIntFields(u: UserAdt, c: CtrValue, i: nat, ints: seq<int>)
    requires u.data == PyCtr(c) && i < |u.adt.ctrs| && u.adt.ctrs[i].0 == u.fullName
    requires forall j :: 0 <= j < i ==> u.adt.ctrs[j].0 != u.fullName
    requires HoldsInts(c, u.adt.ctrs[i].1, ints)
    ensures ToBendSpec(u) == Ok(Bend.Ctr(u.fullName, I24Literals(ints)))
  {
    var fs := u.adt.ctrs[i].1;
    EachFieldOfInt(u, c, fs, ints);
    FieldsOfLiterals(u, fs, ints);
    MatchSkips(u, 0, i);
    assert MatchFrom(u, i) == Ok(Bend.Ctr(u.fullName, I24Literals(ints)));
  }

  lemma FieldsOfLiterals(u: UserAdt, fs: seq<Bend.CtrField>, ints: seq<int>)
    requires LiteralFields(u, fs, ints)
    ensures FieldsFrom(u, fs, 0, []) == Ok(I24Literals(ints))
  {
    FieldsOfInts(u, fs, ints, 0, []);
    assert ints[0..] == ints;
    assert [] + I24Literals(ints) == I24Literals(ints);
  }

  /** Each field lowers to one `I24` literal. */
  predicate LiteralFields(u: UserAdt, fs: seq<Bend.CtrField>, ints: seq<int>)
  {
    |ints| == |fs| && forall m :: 0 <= m < |fs| ==> FieldSpec(u, fs[m]) == Ok([Bend.Num(Bend.I24(ints[m]))])
  }

  lemma EachFieldOfInt(u: UserAdt, c: CtrValue, fs: seq<Bend.CtrField>, ints: seq<int>)
    requires u.data == PyCtr(c) && HoldsInts(c, fs, ints)
    ensures LiteralFields(u, fs, ints)
  {
    forall m | 0 <= m < |fs|
      ensures FieldSpec(u, fs[m]) == Ok([Bend.Num(Bend.I24(ints[m]))])
    {
      FieldOfInt(u, c, fs[m], ints[m]);
    }
  }

  lemma FieldOfInt(u: UserAdt, c: CtrValue, f: Bend.CtrField, n: int)
    requires u.data == PyCtr(c) && Builtins.I32_MIN <= n <= Builtins.I32_MAX && PlainName(f.nam)
    requires Get(c.fields, f.nam) == Some(Some(PyInt(n)))
    ensures FieldSpec(u, f) == Ok([Bend.Num(Bend.I24(n))])
  {
    assert CtrObjects.GetAttrValue(c, f.nam) == Ok(PyInt(n));
    assert CtrObjects.PyGetAttr(u.data, f.nam) == Ok(PyInt(n));
    Builtins.ExtractTypeRawNumbers(PyInt(n));
  }

  lemma {:induction false} FieldsOfInts(u: UserAdt, fs: seq<Bend.CtrField>, ints: seq<int>, k: nat, acc: seq<Bend.Expr>)
    requires LiteralFields(u, fs, ints) && k <= |fs|
    ensures FieldsFrom(u, fs, k, acc) == Ok(acc + I24Literals(ints[k..]))
    decreases |fs| - k
  {
    if k < |fs| {
      var lit := Bend.Num(Bend.I24(ints[k]));
      assert FieldSpec(u, fs[k]) == Ok([lit]);
      FieldsStep(u, fs, k, acc, [lit]);
      FieldsOfInts(u, fs, ints, k + 1, acc + [lit]);
      LiteralsStep(ints, k, acc);
    } else {
      assert ints[k..] == [];
      assert acc + I24Literals([]) == acc;
    }
  }

  lemma LiteralsStep(ints: seq<int>, k: nat, acc: seq<Bend.Expr>)
    requires k < |ints|
    ensures acc + I24Literals(ints[k..]) == acc + [Bend.Num(Bend.I24(ints[k]))] + I24Literals(ints[k + 1..])
  {
    assert ints[k..][1..] == ints[k + 1..];
    assert I24Literals(ints[k..]) == [Bend.Num(Bend.I24(ints[k]))] + I24Literals(ints[k + 1..]);
  }

  lemma FieldsStep(u: UserAdt, fs: seq<Bend.CtrField>, k: nat, acc: seq<Bend.Expr>, e: seq<Bend.Expr>)
    requires k < |fs| && FieldSpec(u, fs[k]) == Ok(e)
    ensures FieldsFrom(u, fs, k, acc) == FieldsFrom(u, fs, k + 1, acc + e)
  {
  }

  lemma {:induction false} MatchSkips(u: UserAdt, j: nat, i: nat)
    requires j <= i < |u.adt.ctrs|
    requires forall m :: j <= m < i ==> u.adt.ctrs[m].0 != u.fullName
    ensures MatchFrom(u, j) == MatchFrom(u, i)
    decreases i - j
  {
    if j < i {
      MatchSkips(u, j + 1, i);
    }
  }
}
