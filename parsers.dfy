/** The top level of crates/benda/src/parser/mod.rs: `Parser`, which turns
    the statements of the traced Python module into a Bend book. Its
    `parse` walks the module's statements once, registering a datatype for
    every `@dataclass` class and every `Name = A | B` union, and collecting
    a definition for every function; then it adds the definitions and a
    `main` built from the assignment that calls the traced function.

    Every loop of the parser is a method of `Parser` (or a module-level
    method where it only reads its arguments), proved against a function
    that states, step by step, what the loop computes. */
module Parsers {
  import opened Support
  import opened IndexMaps
  import Py = PyAst
  import Bend
  import opened Lowering

  const MAIN_ARGS_MSG := "The function must have arguments for Bend can run it."

  function BuiltinAdtMsg(nam: string): string
  {
    nam + " is a built-in datatype and should not be overridden."
  }

  function RepeatedAdtMsg(nam: string): string
  {
    "Repeated datatype '" + nam + "'"
  }

  function BuiltinCtrMsg(ctr: string): string
  {
    ctr + " is a built-in constructor and should not be overridden."
  }

  function RepeatedCtrMsg(ctr: string): string
  {
    "Repeated constructor '" + ctr + "'"
  }

  // ---------------------------------------------------------------------
  // add_adt

  /** Every key of `keys` owned by `nam`, in order. */
  function Owned(keys: seq<string>, nam: string): (r: Entries<string, string>)
    ensures |r| == |keys| && forall j :: 0 <= j < |keys| ==> r[j] == (keys[j], nam)
  {
    seq(|keys|, j requires 0 <= j < |keys| => (keys[j], nam))
  }

  ghost predicate Distinct(keys: seq<string>)
  {
    forall a, b :: 0 <= a < b < |keys| ==> keys[a] != keys[b]
  }

  /** The constructor loop of `add_adt` from key i on: a vacant constructor
      is given to `nam`, an occupied one is a panic whose message says
      whether its owner is built in. */
  function RegisterCtrs(adts: Entries<string, Bend.Adt>, ctrs: Entries<string, string>, nam: string,
                        keys: seq<string>, i: nat): Result<Entries<string, string>>
    requires i <= |keys|
    decreases |keys| - i
  {
    if i == |keys| then Ok(ctrs)
    else
      match Get(ctrs, keys[i])
      case None => RegisterCtrs(adts, Insert(ctrs, keys[i], nam), nam, keys, i + 1)
      case Some(owner) =>
        var o := Get(adts, owner);
        Err(Panic(if o.Some? && o.value.builtin then BuiltinCtrMsg(keys[i]) else RepeatedCtrMsg(keys[i])))
  }

  /** `add_adt(nam, adt)`: the book with the datatype registered. */
  function Registered(book: Bend.Book, nam: string, adt: Bend.Adt): Result<Bend.Book>
  {
    match Get(book.adts, nam)
    case Some(a) => Err(Panic(if a.builtin then BuiltinAdtMsg(nam) else RepeatedAdtMsg(nam)))
    case None =>
      var ctrs :- RegisterCtrs(book.adts, book.ctrs, nam, Keys(adt.ctrs), 0);
      Ok(book.(ctrs := ctrs, adts := Insert(book.adts, nam, adt)))
  }

  /** A book whose datatype and constructor tables agree: every constructor
      belongs to a registered datatype that declares it, and every declared
      constructor is owned by its datatype. */
  ghost predicate Consistent(b: Bend.Book)
  {
    && DistinctKeys(b.adts) && DistinctKeys(b.ctrs)
    && (forall i :: 0 <= i < |b.adts| ==> DistinctKeys(b.adts[i].1.ctrs))
    && (forall i :: 0 <= i < |b.ctrs| ==>
          Get(b.adts, b.ctrs[i].1).Some? && b.ctrs[i].0 in Keys(Get(b.adts, b.ctrs[i].1).value.ctrs))
    && (forall i, j :: 0 <= i < |b.adts| && 0 <= j < |b.adts[i].1.ctrs| ==>
          Get(b.ctrs, b.adts[i].1.ctrs[j].0) == Some(b.adts[i].0))
  }

  /** The constructor loop succeeds exactly when no constructor is taken
      yet, and then appends every constructor, owned by `nam`, in order. */
  lemma RegisterCtrsSpec(adts: Entries<string, Bend.Adt>, ctrs: Entries<string, string>,
                         nam: string, keys: seq<string>, i: nat)
    requires i <= |keys| && Distinct(keys) && DistinctKeys(ctrs)
    ensures (forall k :: i <= k < |keys| ==> keys[k] !in Keys(ctrs)) ==>
      RegisterCtrs(adts, ctrs, nam, keys, i) == Ok(ctrs + Owned(keys[i..], nam))
    ensures (exists k :: i <= k < |keys| && keys[k] in Keys(ctrs)) ==>
      RegisterCtrs(adts, ctrs, nam, keys, i).Err?
  {
    if forall k :: i <= k < |keys| ==> keys[k] !in Keys(ctrs) {
      RegisterFresh(adts, ctrs, nam, keys, i);
    } else {
      var k :| i <= k < |keys| && keys[k] in Keys(ctrs);
      RegisterTaken(adts, ctrs, nam, keys, i, k);
    }
  }

  lemma {:induction false} RegisterFresh(adts: Entries<string, Bend.Adt>, ctrs: Entries<string, string>,
                                         nam: string, keys: seq<string>, i: nat)
    requires i <= |keys| && Distinct(keys) && DistinctKeys(ctrs)
    requires forall k :: i <= k < |keys| ==> keys[k] !in Keys(ctrs)
    ensures RegisterCtrs(adts, ctrs, nam, keys, i) == Ok(ctrs + Owned(keys[i..], nam))
    decreases |keys| - i
  {
    if i < |keys| {
      var ctrs' := ctrs + [(keys[i], nam)];
      RegisterStep(adts, ctrs, nam, keys, i);
      AppendFresh(ctrs, keys[i], nam);
      assert forall x :: i + 1 <= x < |keys| ==> keys[x] !in Keys(ctrs') by {
        assert forall x :: i + 1 <= x < |keys| ==> keys[x] != keys[i];
      }
      RegisterFresh(adts, ctrs', nam, keys, i + 1);
      OwnedStep(ctrs, nam, keys, i);
    } else {
      assert ctrs + Owned(keys[i..], nam) == ctrs;
    }
  }

  /** One vacant constructor: it is appended, owned by `nam`. */
  lemma RegisterStep(adts: Entries<string, Bend.Adt>, ctrs: Entries<string, string>,
                     nam: string, keys: seq<string>, i: nat)
    requires i < |keys| && keys[i] !in Keys(ctrs)
    ensures RegisterCtrs(adts, ctrs, nam, keys, i) == RegisterCtrs(adts, ctrs + [(keys[i], nam)], nam, keys, i + 1)
  {
    assert Get(ctrs, keys[i]).None?;
    assert Insert(ctrs, keys[i], nam) == ctrs + [(keys[i], nam)];
  }

  lemma OwnedStep(ctrs: Entries<string, string>, nam: string, keys: seq<string>, i: nat)
    requires i < |keys|
    ensures ctrs + Owned(keys[i..], nam) == (ctrs + [(keys[i], nam)]) + Owned(keys[i + 1..], nam)
  {
    OwnedCons(keys[i..], nam);
    assert keys[i..][1..] == keys[i + 1..];
  }

  lemma OwnedCons(keys: seq<string>, nam: string)
    requires |keys| > 0
    ensures Owned(keys, nam) == [(keys[0], nam)] + Owned(keys[1..], nam)
  {
  }

  lemma AppendFresh(ctrs: Entries<string, string>, k: string, v: string)
    requires DistinctKeys(ctrs) && k !in Keys(ctrs)
    ensures DistinctKeys(ctrs + [(k, v)]) && Keys(ctrs + [(k, v)]) == Keys(ctrs) + [k]
  {
    var c := ctrs + [(k, v)];
    forall a, b | 0 <= a < b < |c|
      ensures c[a].0 != c[b].0
    {
      if b == |ctrs| {
        assert c[a].0 == Keys(ctrs)[a];
      }
    }
  }

  lemma {:induction false} RegisterTaken(adts: Entries<string, Bend.Adt>, ctrs: Entries<string, string>,
                                         nam: string, keys: seq<string>, i: nat, k: nat)
    requires i <= k < |keys| && keys[k] in Keys(ctrs) && DistinctKeys(ctrs)
    ensures RegisterCtrs(adts, ctrs, nam, keys, i).Err?
    decreases k - i
  {
    if keys[i] !in Keys(ctrs) {
      var ctrs' := Insert(ctrs, keys[i], nam);
      InsertSpec(ctrs, keys[i], nam);
      assert keys[k] in Keys(ctrs');
      RegisterTaken(adts, ctrs', nam, keys, i + 1, k);
    }
  }

  /** `add_adt`: it panics on a name already registered (saying whether the
      datatype there is built in) and on a constructor some datatype already
      owns; otherwise the datatype is registered under its name, owns each
      of its constructors, and nothing else changes. */
  lemma RegisteredSpec(book: Bend.Book, nam: string, adt: Bend.Adt)
    requires DistinctKeys(book.ctrs) && DistinctKeys(adt.ctrs)
    ensures var r := Registered(book, nam, adt);
      && (r.Ok? <==> nam !in Keys(book.adts) && forall k :: 0 <= k < |adt.ctrs| ==> adt.ctrs[k].0 !in Keys(book.ctrs))
      && (nam in Keys(book.adts) ==>
            r == Err(Panic(if Get(book.adts, nam).value.builtin then BuiltinAdtMsg(nam) else RepeatedAdtMsg(nam))))
      && (r.Ok? ==>
            && Get(r.value.adts, nam) == Some(adt)
            && (forall n :: n != nam ==> Get(r.value.adts, n) == Get(book.adts, n))
            && (forall k :: 0 <= k < |adt.ctrs| ==> Get(r.value.ctrs, adt.ctrs[k].0) == Some(nam))
            && (forall c :: c !in Keys(adt.ctrs) ==> Get(r.value.ctrs, c) == Get(book.ctrs, c))
            && r.value.defs == book.defs)
  {
    var keys := Keys(adt.ctrs);
    if nam !in Keys(book.adts) {
      RegisterCtrsSpec(book.adts, book.ctrs, nam, keys, 0);
      assert keys[0..] == keys;
      if forall k :: 0 <= k < |adt.ctrs| ==> adt.ctrs[k].0 !in Keys(book.ctrs) {
        RegisteredLookups(book, nam, adt);
      } else {
        var k :| 0 <= k < |adt.ctrs| && adt.ctrs[k].0 in Keys(book.ctrs);
        assert keys[k] in Keys(book.ctrs);
      }
    }
  }

  lemma RegisteredLookups(book: Bend.Book, nam: string, adt: Bend.Adt)
    requires DistinctKeys(book.ctrs) && DistinctKeys(adt.ctrs) && nam !in Keys(book.adts)
    requires forall k :: 0 <= k < |adt.ctrs| ==> adt.ctrs[k].0 !in Keys(book.ctrs)
    ensures var r := Registered(book, nam, adt);
      && r == Ok(book.(ctrs := book.ctrs + Owned(Keys(adt.ctrs), nam), adts := Insert(book.adts, nam, adt)))
      && Get(r.value.adts, nam) == Some(adt)
      && (forall n :: n != nam ==> Get(r.value.adts, n) == Get(book.adts, n))
      && (forall k :: 0 <= k < |adt.ctrs| ==> Get(r.value.ctrs, adt.ctrs[k].0) == Some(nam))
      && (forall c :: c !in Keys(adt.ctrs) ==> Get(r.value.ctrs, c) == Get(book.ctrs, c))
  {
    RegisteredIs(book, nam, adt);
    InsertGetSame(book.adts, nam, adt);
    forall n | n != nam
      ensures Get(Insert(book.adts, nam, adt), n) == Get(book.adts, n)
    {
      InsertGetOther(book.adts, nam, adt, n);
    }
    OwnedLookups(book.ctrs, Keys(adt.ctrs), nam);
  }

  /** The book `add_adt` builds when nothing is taken. */
  lemma RegisteredIs(book: Bend.Book, nam: string, adt: Bend.Adt)
    requires DistinctKeys(book.ctrs) && DistinctKeys(adt.ctrs) && nam !in Keys(book.adts)
    requires forall k :: 0 <= k < |adt.ctrs| ==> adt.ctrs[k].0 !in Keys(book.ctrs)
    ensures Registered(book, nam, adt)
      == Ok(book.(ctrs := book.ctrs + Owned(Keys(adt.ctrs), nam), adts := Insert(book.adts, nam, adt)))
  {
    var keys := Keys(adt.ctrs);
    RegisterFresh(book.adts, book.ctrs, nam, keys, 0);
    assert keys[0..] == keys;
  }

  /** Appended fresh constructors are owned by `nam`; the others keep
      their owners. */
  lemma OwnedLookups(ctrs: Entries<string, string>, keys: seq<string>, nam: string)
    requires forall k :: 0 <= k < |keys| ==> keys[k] !in Keys(ctrs)
    ensures forall k :: 0 <= k < |keys| ==> Get(ctrs + Owned(keys, nam), keys[k]) == Some(nam)
    ensures forall c :: c !in keys ==> Get(ctrs + Owned(keys, nam), c) == Get(ctrs, c)
  {
    var owned := Owned(keys, nam);
    forall k | 0 <= k < |keys|
      ensures Get(ctrs + owned, keys[k]) == Some(nam)
    {
      GetAppend(ctrs, owned, keys[k]);
      assert Keys(owned)[k] == keys[k];
      assert owned[IndexOf(owned, keys[k])].1 == nam;
    }
    forall c | c !in keys
      ensures Get(ctrs + owned, c) == Get(ctrs, c)
    {
      GetAppend(ctrs, owned, c);
      assert Keys(owned) == keys;
    }
  }

  /** Registering a datatype keeps the datatype and constructor tables in
      agreement. */
  lemma RegisteredConsistent(book: Bend.Book, nam: string, adt: Bend.Adt)
    requires Consistent(book) && DistinctKeys(adt.ctrs) && Registered(book, nam, adt).Ok?
    ensures Consistent(Registered(book, nam, adt).value)
  {
    RegisteredSpec(book, nam, adt);
    var r := Registered(book, nam, adt).value;
    var keys := Keys(adt.ctrs);
    RegisterCtrsSpec(book.adts, book.ctrs, nam, keys, 0);
    assert keys[0..] == keys;
    assert r.ctrs == book.ctrs + Owned(keys, nam);
    assert r.adts == book.adts + [(nam, adt)];
    InsertSpec(book.adts, nam, adt);
    AppendedCtrsDistinct(book.ctrs, keys, nam);
    AppendedOwners(book, nam, adt);
    AppendedDeclared(book, nam, adt);
  }

  lemma AppendedCtrsDistinct(ctrs: Entries<string, string>, keys: seq<string>, nam: string)
    requires DistinctKeys(ctrs) && Distinct(keys) && forall k :: 0 <= k < |keys| ==> keys[k] !in Keys(ctrs)
    ensures DistinctKeys(ctrs + Owned(keys, nam))
  {
    var r := ctrs + Owned(keys, nam);
    forall a, b | 0 <= a < b < |r|
      ensures r[a].0 != r[b].0
    {
      if b >= |ctrs| && a < |ctrs| {
        assert r[b].0 == keys[b - |ctrs|];
        assert r[a].0 in Keys(ctrs);
      } else if a >= |ctrs| {
        assert r[b].0 == keys[b - |ctrs|];
      }
    }
  }

  /** In the book after registering, every constructor's owner is a
      datatype declaring it. */
  lemma AppendedOwners(book: Bend.Book, nam: string, adt: Bend.Adt)
    requires Consistent(book) && nam !in Keys(book.adts)
    ensures var adts := book.adts + [(nam, adt)];
      var ctrs := book.ctrs + Owned(Keys(adt.ctrs), nam);
      forall i :: 0 <= i < |ctrs| ==>
        Get(adts, ctrs[i].1).Some? && ctrs[i].0 in Keys(Get(adts, ctrs[i].1).value.ctrs)
  {
    var keys := Keys(adt.ctrs);
    var adts := book.adts + [(nam, adt)];
    var ctrs := book.ctrs + Owned(keys, nam);
    forall i | 0 <= i < |ctrs|
      ensures Get(adts, ctrs[i].1).Some? && ctrs[i].0 in Keys(Get(adts, ctrs[i].1).value.ctrs)
    {
      if i < |book.ctrs| {
        var owner := book.ctrs[i].1;
        assert ctrs[i] == book.ctrs[i];
        assert owner in Keys(book.adts);
        GetAppend(book.adts, [(nam, adt)], owner);
      } else {
        assert ctrs[i] == (keys[i - |book.ctrs|], nam);
        GetAppend(book.adts, [(nam, adt)], nam);
        assert Keys([(nam, adt)]) == [nam];
      }
    }
  }

  /** In the book after registering, every declared constructor is owned
      by the datatype declaring it. */
  lemma AppendedDeclared(book: Bend.Book, nam: string, adt: Bend.Adt)
    requires Consistent(book) && nam !in Keys(book.adts) && DistinctKeys(adt.ctrs)
    requires forall k :: 0 <= k < |adt.ctrs| ==> adt.ctrs[k].0 !in Keys(book.ctrs)
    ensures var adts := book.adts + [(nam, adt)];
      var ctrs := book.ctrs + Owned(Keys(adt.ctrs), nam);
      forall i, j :: 0 <= i < |adts| && 0 <= j < |adts[i].1.ctrs| ==> Get(ctrs, adts[i].1.ctrs[j].0) == Some(adts[i].0)
  {
    var keys := Keys(adt.ctrs);
    var adts := book.adts + [(nam, adt)];
    var ctrs := book.ctrs + Owned(keys, nam);
    forall i, j | 0 <= i < |adts| && 0 <= j < |adts[i].1.ctrs|
      ensures Get(ctrs, adts[i].1.ctrs[j].0) == Some(adts[i].0)
    {
      if i < |book.adts| {
        var c := book.adts[i].1.ctrs[j].0;
        assert adts[i] == book.adts[i];
        assert Get(book.ctrs, c) == Some(book.adts[i].0);
        GetAppend(book.ctrs, Owned(keys, nam), c);
      } else {
        assert adts[i] == (nam, adt);
        var c := keys[j];
        GetAppend(book.ctrs, Owned(keys, nam), c);
        assert Owned(keys, nam)[j] == (c, nam);
        assert DistinctKeys(Owned(keys, nam));
      }
    }
  }

  // ---------------------------------------------------------------------
  // Unions: `Name = A | B | ..`

  /** All the fields of a datatype's constructors, constructor by
      constructor. */
  function AllFields(ctrs: Entries<string, seq<Bend.CtrField>>): (fs: seq<Bend.CtrField>)
    ensures |ctrs| == 1 ==> fs == ctrs[0].1
  {
    if |ctrs| == 0 then [] else AllFields(ctrs[..|ctrs| - 1]) + ctrs[|ctrs| - 1].1
  }

  /** The nested loop that gathers a removed datatype's fields. */
  method CollectFields(ctrs: Entries<string, seq<Bend.CtrField>>) returns (fs: seq<Bend.CtrField>)
    ensures fs == AllFields(ctrs)
  {
    fs := [];
    var i := 0;
    while i < |ctrs|
      invariant 0 <= i <= |ctrs| && fs == AllFields(ctrs[..i])
    {
      var ca := ctrs[i].1;
      var j := 0;
      while j < |ca|
        invariant 0 <= j <= |ca| && fs == AllFields(ctrs[..i]) + ca[..j]
      {
        fs := fs + [ca[j]];
        j := j + 1;
      }
      assert ca[..j] == ca;
      assert ctrs[..i + 1][..i] == ctrs[..i];
      i := i + 1;
    }
    assert ctrs[..i] == ctrs;
  }

  /** The union loop from part j on: each part's constructor and then its
      owner are removed from the book (`swap_remove`, whose `None` is
      unwrapped), and the union gets a constructor `name/part` with all of
      the owner's fields. */
  function UnionCtrs(book: Bend.Book, name: string, parts: seq<Bend.CtrField>, j: nat,
                     acc: Entries<string, seq<Bend.CtrField>>): Result<(Bend.Book, Entries<string, seq<Bend.CtrField>>)>
    requires j <= |parts|
    decreases |parts| - j
  {
    if j == |parts| then Ok((book, acc))
    else
      var ct := parts[j];
      var (c, ctrs) := SwapRemove(book.ctrs, ct.nam);
      var owner :- Unwrap(c, UNWRAP_NONE);
      var (a, adts) := SwapRemove(book.adts, owner);
      var adt :- Unwrap(a, UNWRAP_NONE);
      UnionCtrs(book.(ctrs := ctrs, adts := adts), name, parts, j + 1,
                Insert(acc, name + "/" + ct.nam, AllFields(adt.ctrs)))
  }

  /** One part of a union whose constructor and datatype are registered. */
  lemma UnionStep(book: Bend.Book, name: string, parts: seq<Bend.CtrField>, j: nat,
                  acc: Entries<string, seq<Bend.CtrField>>, owner: string, adt: Bend.Adt)
    requires j < |parts| && DistinctKeys(book.ctrs) && DistinctKeys(book.adts)
    requires Get(book.ctrs, parts[j].nam) == Some(owner) && Get(book.adts, owner) == Some(adt)
    ensures UnionCtrs(book, name, parts, j, acc)
      == UnionCtrs(book.(ctrs := SwapRemove(book.ctrs, parts[j].nam).1, adts := SwapRemove(book.adts, owner).1),
                   name, parts, j + 1, Insert(acc, name + "/" + parts[j].nam, AllFields(adt.ctrs)))
  {
    SwapRemoveSpec(book.ctrs, parts[j].nam);
    SwapRemoveSpec(book.adts, owner);
  }

  /** A part that is not a registered constructor is an unwrap panic. */
  lemma UnionOfUnknown(book: Bend.Book, name: string, parts: seq<Bend.CtrField>, j: nat,
                       acc: Entries<string, seq<Bend.CtrField>>)
    requires j < |parts| && parts[j].nam !in Keys(book.ctrs)
    ensures UnionCtrs(book, name, parts, j, acc) == Err(Panic(UNWRAP_NONE))
  {
  }

  /** `Name = A | B`, the shape the examples use: both constructors and both
      of their datatypes leave the book, and the union has the constructors
      `Name/A` and `Name/B`, carrying all the fields of A's and of B's
      datatype; every other entry of the book stays. */
  lemma UnionOfTwo(book: Bend.Book, name: string, a: string, b: string, oa: string, ob: string,
                   adtA: Bend.Adt, adtB: Bend.Adt)
    requires DistinctKeys(book.ctrs) && DistinctKeys(book.adts)
    requires a != b && oa != ob
    requires Get(book.ctrs, a) == Some(oa) && Get(book.ctrs, b) == Some(ob)
    requires Get(book.adts, oa) == Some(adtA) && Get(book.adts, ob) == Some(adtB)
    ensures var r := UnionCtrs(book, name, [Bend.CtrField(a, false), Bend.CtrField(b, false)], 0, []);
      && r.Ok?
      && r.value.0 == WithoutBoth(book, a, b, oa, ob)
      && r.value.1 == [(name + "/" + a, AllFields(adtA.ctrs)), (name + "/" + b, AllFields(adtB.ctrs))]
      && a !in Keys(r.value.0.ctrs) && b !in Keys(r.value.0.ctrs)
      && oa !in Keys(r.value.0.adts) && ob !in Keys(r.value.0.adts)
      && (forall c :: c != a && c != b ==> Get(r.value.0.ctrs, c) == Get(book.ctrs, c))
      && (forall d :: d != oa && d != ob ==> Get(r.value.0.adts, d) == Get(book.adts, d))
      && r.value.0.defs == book.defs
  {
    var parts := [Bend.CtrField(a, false), Bend.CtrField(b, false)];
    var b1 := book.(ctrs := SwapRemove(book.ctrs, a).1, adts := SwapRemove(book.adts, oa).1);
    var b2 := b1.(ctrs := SwapRemove(b1.ctrs, b).1, adts := SwapRemove(b1.adts, ob).1);
    var acc1 := [(name + "/" + a, AllFields(adtA.ctrs))];
    var acc2 := acc1 + [(name + "/" + b, AllFields(adtB.ctrs))];
    UnionFirst(book, name, parts, oa, adtA);
    SwapRemoveKeeps(book.ctrs, a, b);
    SwapRemoveKeeps(book.adts, oa, ob);
    UnionSecond(b1, name, a, b, ob, adtB, acc1);
    assert UnionCtrs(book, name, parts, 0, []) == Ok((b2, acc2));
    RemovedBoth(book, a, b, oa, ob);
  }

  /** The book after `swap_remove` of constructors a and b and of
      datatypes oa and ob. */
  function WithoutBoth(book: Bend.Book, a: string, b: string, oa: string, ob: string): Bend.Book
  {
    book.(ctrs := SwapRemove(SwapRemove(book.ctrs, a).1, b).1,
          adts := SwapRemove(SwapRemove(book.adts, oa).1, ob).1)
  }

  /** The book left after removing two constructors and their datatypes. */
  lemma RemovedBoth(book: Bend.Book, a: string, b: string, oa: string, ob: string)
    requires DistinctKeys(book.ctrs) && DistinctKeys(book.adts)
    ensures var b2 := WithoutBoth(book, a, b, oa, ob);
      && a !in Keys(b2.ctrs) && b !in Keys(b2.ctrs)
      && oa !in Keys(b2.adts) && ob !in Keys(b2.adts)
      && (forall c :: c != a && c != b ==> Get(b2.ctrs, c) == Get(book.ctrs, c))
      && (forall d :: d != oa && d != ob ==> Get(b2.adts, d) == Get(book.adts, d))
      && b2.defs == book.defs
  {
    SwapRemoveTwice(book.ctrs, a, b);
    SwapRemoveTwice(book.adts, oa, ob);
  }

  lemma UnionFirst(book: Bend.Book, name: string, parts: seq<Bend.CtrField>, oa: string, adtA: Bend.Adt)
    requires 0 < |parts| && DistinctKeys(book.ctrs) && DistinctKeys(book.adts)
    requires Get(book.ctrs, parts[0].nam) == Some(oa) && Get(book.adts, oa) == Some(adtA)
    ensures UnionCtrs(book, name, parts, 0, [])
      == UnionCtrs(book.(ctrs := SwapRemove(book.ctrs, parts[0].nam).1, adts := SwapRemove(book.adts, oa).1),
                   name, parts, 1, [(name + "/" + parts[0].nam, AllFields(adtA.ctrs))])
  {
    UnionStep(book, name, parts, 0, [], oa, adtA);
    assert Insert([], name + "/" + parts[0].nam, AllFields(adtA.ctrs)) == [(name + "/" + parts[0].nam, AllFields(adtA.ctrs))];
  }

  lemma UnionSecond(b1: Bend.Book, name: string, a: string, b: string, ob: string, adtB: Bend.Adt,
                    acc1: Entries<string, seq<Bend.CtrField>>)
    requires DistinctKeys(b1.ctrs) && DistinctKeys(b1.adts) && a != b
    requires Get(b1.ctrs, b) == Some(ob) && Get(b1.adts, ob) == Some(adtB)
    requires |acc1| == 1 && acc1[0].0 == name + "/" + a
    ensures UnionCtrs(b1, name, [Bend.CtrField(a, false), Bend.CtrField(b, false)], 1, acc1)
      == Ok((b1.(ctrs := SwapRemove(b1.ctrs, b).1, adts := SwapRemove(b1.adts, ob).1),
             acc1 + [(name + "/" + b, AllFields(adtB.ctrs))]))
  {
    var parts := [Bend.CtrField(a, false), Bend.CtrField(b, false)];
    UnionStep(b1, name, parts, 1, acc1, ob, adtB);
    var key2 := name + "/" + b;
    assert key2 != name + "/" + a by {
      assert key2[|name| + 1..] == b;
    }
    assert Keys(acc1) == [name + "/" + a];
  }

  // ---------------------------------------------------------------------
  // Dataclasses

  /** `@dataclass` among the decorators (a bare name). */
  predicate IsDataclass(decorators: seq<Py.Expr>)
  {
    Py.Name("dataclass") in decorators
  }

  /** The field an annotated class attribute declares: it is recursive, and
      its name is the target's (empty when the target is not a plain name). */
  function FieldOf(s: Py.Stmt): (f: Bend.CtrField)
    requires s.AnnAssign?
    ensures f.rec
  {
    Bend.CtrField(if s.target.Name? then s.target.id else "", true)
  }

  /** The loop over a dataclass's body from statement i on: each annotated
      attribute adds a field to the one constructor, named after the class;
      any other statement hits `todo!()`. */
  function DataclassCtrs(name: string, body: seq<Py.Stmt>, i: nat,
                         ctrs: Entries<string, seq<Bend.CtrField>>): Result<Entries<string, seq<Bend.CtrField>>>
    requires i <= |body|
    decreases |body| - i
  {
    if i == |body| then Ok(ctrs)
    else match body[i]
      case AnnAssign(_) =>
        var f := FieldOf(body[i]);
        DataclassCtrs(name, body, i + 1,
          match Get(ctrs, name)
          case Some(fs) => Insert(ctrs, name, fs + [f])
          case None => Insert(ctrs, name, [f]))
      case _ => Err(Panic(TODO))
  }

  /** The constructors after the first i attributes. */
  function DataclassPrefix(name: string, body: seq<Py.Stmt>, i: nat): Entries<string, seq<Bend.CtrField>>
    requires i <= |body| && forall k :: 0 <= k < |body| ==> body[k].AnnAssign?
  {
    if i == 0 then [] else [(name, seq(i, k requires 0 <= k < i => FieldOf(body[k])))]
  }

  lemma {:induction false} DataclassFrom(name: string, body: seq<Py.Stmt>, i: nat)
    requires i <= |body| && forall k :: 0 <= k < |body| ==> body[k].AnnAssign?
    ensures DataclassCtrs(name, body, i, DataclassPrefix(name, body, i)) == Ok(DataclassPrefix(name, body, |body|))
    decreases |body| - i
  {
    if i < |body| {
      var acc := DataclassPrefix(name, body, i);
      var f := FieldOf(body[i]);
      var next := match Get(acc, name)
        case Some(fs) => Insert(acc, name, fs + [f])
        case None => Insert(acc, name, [f]);
      var fields := seq(i + 1, k requires 0 <= k < i + 1 => FieldOf(body[k]));
      assert next == DataclassPrefix(name, body, i + 1) by {
        if i == 0 {
          assert Keys(acc) == [];
          assert fields == [f];
        } else {
          assert Keys(acc) == [name];
          assert Get(acc, name) == Some(acc[0].1);
          assert acc[0].1 + [f] == fields;
        }
      }
      DataclassFrom(name, body, i + 1);
    }
  }

  /** A dataclass whose body is only annotated attributes has one
      constructor, named after the class, with one recursive field per
      attribute in order (none at all for an empty body); any other
      statement in the body is a `todo!()` panic. */
  lemma DataclassShape(name: string, body: seq<Py.Stmt>)
    ensures (forall k :: 0 <= k < |body| ==> body[k].AnnAssign?) ==>
      DataclassCtrs(name, body, 0, []) ==
        Ok(if |body| == 0 then [] else [(name, seq(|body|, k requires 0 <= k < |body| => FieldOf(body[k])))])
    ensures (exists k :: 0 <= k < |body| && !body[k].AnnAssign?) ==>
      DataclassCtrs(name, body, 0, []) == Err(Panic(TODO))
  {
    if forall k :: 0 <= k < |body| ==> body[k].AnnAssign? {
      DataclassFrom(name, body, 0);
    } else {
      var k :| 0 <= k < |body| && !body[k].AnnAssign?;
      DataclassTodo(name, body, 0, [], k);
    }
  }

  lemma {:induction false} DataclassTodo(name: string, body: seq<Py.Stmt>, i: nat,
                                         ctrs: Entries<string, seq<Bend.CtrField>>, k: nat)
    requires i <= k < |body| && !body[k].AnnAssign?
    ensures DataclassCtrs(name, body, i, ctrs) == Err(Panic(TODO))
    decreases k - i
  {
    if i < k && body[i].AnnAssign? {
      var f := FieldOf(body[i]);
      DataclassTodo(name, body, i + 1,
        match Get(ctrs, name)
        case Some(fs) => Insert(ctrs, name, fs + [f])
        case None => Insert(ctrs, name, [f]), k);
    }
  }

  /** The loop over a dataclass's body. */
  method Dataclass(name: string, body: seq<Py.Stmt>) returns (r: Result<Entries<string, seq<Bend.CtrField>>>)
    ensures r == DataclassCtrs(name, body, 0, [])
  {
    ghost var goal := DataclassCtrs(name, body, 0, []);
    var ctrs: Entries<string, seq<Bend.CtrField>> := [];
    var i := 0;
    while i < |body|
      invariant 0 <= i <= |body|
      invariant DataclassCtrs(name, body, i, ctrs) == goal
    {
      if !body[i].AnnAssign? {
        return Err(Panic(TODO));
      }
      var f := FieldOf(body[i]);
      match Get(ctrs, name) {
        case Some(fs) => ctrs := Insert(ctrs, name, fs + [f]);
        case None => ctrs := Insert(ctrs, name, [f]);
      }
      i := i + 1;
    }
    return Ok(ctrs);
  }

  // ---------------------------------------------------------------------
  // The walk over the module

  /** What `parse` has gathered so far. */
  datatype ParserState = ParserState(book: Bend.Book, definitions: seq<Bend.Definition>, ctx: Option<Context>)

  /** A top-level `name = value`: a union of constructors, or else a
      datatype without constructors. */
  function AssignAdt(s: ParserState, name: string, value: Py.Expr): Result<ParserState>
  {
    var body :- ParseExprType(s.book, s.ctx, value);
    AdtFromBody(s, name, body)
  }

  /** The datatype a top-level assignment registers, from its lowered
      right-hand side. */
  function AdtFromBody(s: ParserState, name: string, body: Option<FromExpr>): Result<ParserState>
  {
    var u :- if body.Some? && body.value.CtrFields? then UnionCtrs(s.book, name, body.value.fields, 0, [])
             else Ok((s.book, []));
    var b :- Registered(u.0, name, Bend.Adt(u.1, false));
    Ok(s.(book := b))
  }

  /** One top-level statement of the module. */
  function Step(s: ParserState, stmt: Py.Stmt): Result<ParserState>
  {
    match stmt
    case FunctionDef(name, params, body) =>
      var e :- ParseVec(s.book, s.ctx, body, 0);
      var st := StmtOf(e.out);
      Ok(s.(ctx := e.ctx,
            definitions := if st.Some? then s.definitions + [Bend.Definition(name, params, st.value)] else s.definitions))
    case Assign(targets, value) =>
      if |targets| == 0 then Err(Panic(UNWRAP_NONE))
      else if targets[0].Name? then AssignAdt(s, targets[0].id, value)
      else Ok(s)
    case ClassDef(name, decorators, body) =>
      if IsDataclass(decorators) then
        var ctrs :- DataclassCtrs(name, body, 0, []);
        var b :- Registered(s.book, name, Bend.Adt(ctrs, false));
        Ok(s.(book := b))
      else Ok(s)
    case _ => Ok(s)
  }

  /** The statement loop of `parse` from statement i on. */
  function ParseAll(s: ParserState, stmts: seq<Py.Stmt>, i: nat): Result<ParserState>
    requires i <= |stmts|
    decreases |stmts| - i
  {
    if i == |stmts| then Ok(s)
    else
      var s' :- Step(s, stmts[i]);
      ParseAll(s', stmts, i + 1)
  }

  function ToFun(d: Bend.Definition): Bend.FunDef
  {
    Bend.FunDef(d.name, Bend.FromImp(d))
  }

  /** The loop adding the collected definitions to the book from
      definition i on. */
  function DefsFrom(defs: Entries<string, Bend.FunDef>, ds: seq<Bend.Definition>, i: nat): Entries<string, Bend.FunDef>
    requires i <= |ds|
    decreases |ds| - i
  {
    if i == |ds| then defs else DefsFrom(Insert(defs, ds[i].name, ToFun(ds[i])), ds, i + 1)
  }

  /** The loop of `parse_main` from statement i on: an assignment to one of
      the traced function's parameters starts `main` there; an assignment of
      a call of the traced function is a panic (it has nothing to run the
      function on, or it is not supported). */
  function ParseMainFrom(book: Bend.Book, stmts: seq<Py.Stmt>, fun: string, args: seq<string>, i: nat,
                         ctx: Option<Context>): Result<(Option<Bend.Definition>, Option<Context>)>
    requires i <= |stmts|
    decreases |stmts| - i
  {
    if i == |stmts| then Ok((None, ctx))
    else if !stmts[i].Assign? then ParseMainFrom(book, stmts, fun, args, i + 1, ctx)
    else
      var a := stmts[i];
      if |a.targets| == 0 then Err(Panic(UNWRAP_NONE))
      else
        var low :- if a.targets[0].Name? && a.targets[0].id in args then ParseVec(book, ctx, stmts, i)
                   else Ok(Lowered(None, ctx));
        if StmtOf(low.out).Some? then Ok((Some(Bend.Definition("main", [], StmtOf(low.out).value)), low.ctx))
        else if a.value.Call? && a.value.func.Name? && a.value.func.id == fun then
          Err(Panic(if |a.value.args| == 0 then MAIN_ARGS_MSG else TODO))
        else ParseMainFrom(book, stmts, fun, args, i + 1, low.ctx)
  }

  function MainCtxOf(fun: string, args: seq<string>): Option<Context>
  {
    Some(Context(MainCtx, args, fun))
  }

  /** The whole of `parse` up to running the book: the book it builds. */
  function ParseFrom(s: ParserState, stmts: seq<Py.Stmt>, fun: string, args: seq<string>): Result<Bend.Book>
  {
    var s1 :- ParseAll(s, stmts, 0);
    var book1 := s1.book.(defs := DefsFrom(s1.book.defs, s1.definitions, 0));
    var m :- ParseMainFrom(book1, stmts, fun, args, 0, MainCtxOf(fun, args));
    var md :- Unwrap(m.0, UNWRAP_NONE);
    Ok(book1.(defs := Insert(book1.defs, "main", ToFun(md))))
  }

  // ---------------------------------------------------------------------
  // Properties of the walk

  /** A step never touches the book's definitions and only appends to the
      collected ones; started without a context, it ends without one. */
  lemma StepFacts(s: ParserState, stmt: Py.Stmt)
    ensures var r := Step(s, stmt);
      r.Ok? ==>
        && r.value.book.defs == s.book.defs
        && s.definitions <= r.value.definitions
        && (s.ctx.None? ==> r.value.ctx.None?)
  {
    match stmt
    case FunctionDef(_, _, body) =>
      if s.ctx.None? {
        VecCtx(s.book, None, body, 0);
      }
    case Assign(targets, value) =>
      if |targets| > 0 && targets[0].Name? {
        var body := ParseExprType(s.book, s.ctx, value);
        if body.Ok? {
          AdtFromBodyFacts(s, targets[0].id, body.value);
        }
      }
    case ClassDef(name, decorators, body) =>
      if IsDataclass(decorators) {
        var ctrs := DataclassCtrs(name, body, 0, []);
        if ctrs.Ok? {
          RegisteredDefs(s.book, name, Bend.Adt(ctrs.value, false));
        }
      }
    case _ =>
  }

  lemma RegisteredDefs(book: Bend.Book, nam: string, adt: Bend.Adt)
    ensures Registered(book, nam, adt).Ok? ==> Registered(book, nam, adt).value.defs == book.defs
  {
  }

  lemma {:induction false} UnionDefs(book: Bend.Book, name: string, parts: seq<Bend.CtrField>, j: nat,
                                     acc: Entries<string, seq<Bend.CtrField>>)
    requires j <= |parts|
    ensures var u := UnionCtrs(book, name, parts, j, acc); u.Ok? ==> u.value.0.defs == book.defs
    decreases |parts| - j
  {
    if j < |parts| {
      var c := SwapRemove(book.ctrs, parts[j].nam);
      if c.0.Some? {
        var a := SwapRemove(book.adts, c.0.value);
        if a.0.Some? {
          var book' := book.(ctrs := c.1, adts := a.1);
          var acc' := Insert(acc, name + "/" + parts[j].nam, AllFields(a.0.value.ctrs));
          assert UnionCtrs(book, name, parts, j, acc) == UnionCtrs(book', name, parts, j + 1, acc');
          UnionDefs(book', name, parts, j + 1, acc');
          assert book'.defs == book.defs;
        }
      }
    }
  }

  /** Registering the datatype of a top-level assignment changes only the
      datatypes and constructors. */
  lemma AdtFromBodyFacts(s: ParserState, name: string, body: Option<FromExpr>)
    ensures var r := AdtFromBody(s, name, body);
      r.Ok? ==> r.value.book.defs == s.book.defs && r.value.definitions == s.definitions && r.value.ctx == s.ctx
  {
    if body.Some? && body.value.CtrFields? {
      UnionDefs(s.book, name, body.value.fields, 0, []);
      var u := UnionCtrs(s.book, name, body.value.fields, 0, []);
      if u.Ok? {
        RegisteredDefs(u.value.0, name, Bend.Adt(u.value.1, false));
      }
    } else {
      RegisteredDefs(s.book, name, Bend.Adt([], false));
    }
  }

  /** The walk over the module: the book's definitions stay as they were,
      the collected definitions only grow, and a walk started without a
      context ends without one. */
  lemma {:induction false} ParseAllFacts(s: ParserState, stmts: seq<Py.Stmt>, i: nat)
    requires i <= |stmts|
    ensures var r := ParseAll(s, stmts, i);
      r.Ok? ==>
        && r.value.book.defs == s.book.defs
        && s.definitions <= r.value.definitions
        && (s.ctx.None? ==> r.value.ctx.None?)
    decreases |stmts| - i
  {
    if i < |stmts| {
      StepFacts(s, stmts[i]);
      var r := Step(s, stmts[i]);
      if r.Ok? {
        ParseAllFacts(r.value, stmts, i + 1);
      }
    }
  }

  /** A dataclass of annotated attributes, on a book where neither the
      class nor (when it has attributes) its constructor is taken, is
      registered with its one constructor, owned by the class. */
  lemma StepDataclass(s: ParserState, name: string, decorators: seq<Py.Expr>, body: seq<Py.Stmt>)
    requires IsDataclass(decorators) && DistinctKeys(s.book.ctrs)
    requires forall k :: 0 <= k < |body| ==> body[k].AnnAssign?
    requires name !in Keys(s.book.adts) && (|body| > 0 ==> name !in Keys(s.book.ctrs))
    ensures var r := Step(s, Py.ClassDef(name, decorators, body));
      var ctrs := if |body| == 0 then [] else [(name, seq(|body|, k requires 0 <= k < |body| => FieldOf(body[k])))];
      && r.Ok?
      && Get(r.value.book.adts, name) == Some(Bend.Adt(ctrs, false))
      && (|body| > 0 ==> Get(r.value.book.ctrs, name) == Some(name))
      && r.value.definitions == s.definitions && r.value.ctx == s.ctx
  {
    DataclassShape(name, body);
    var ctrs: Entries<string, seq<Bend.CtrField>> :=
      if |body| == 0 then [] else [(name, seq(|body|, k requires 0 <= k < |body| => FieldOf(body[k])))];
    assert DistinctKeys(ctrs);
    RegisteredSpec(s.book, name, Bend.Adt(ctrs, false));
  }

  /** A decorator list without `@dataclass` leaves the class alone, whatever
      its body. */
  lemma StepPlainClass(s: ParserState, name: string, decorators: seq<Py.Expr>, body: seq<Py.Stmt>)
    requires Py.Name("dataclass") !in decorators
    ensures Step(s, Py.ClassDef(name, decorators, body)) == Ok(s)
  {
  }

  /** `Name = A | B` at the top level, with A and B constructors of two
      different datatypes one of which is named A or B: both constructors
      and both datatypes are removed, and `Name` is registered with the
      constructors `Name/A` and `Name/B` carrying all of their fields. */
  lemma StepUnion(s: ParserState, name: string, a: string, b: string, oa: string, ob: string,
                  adtA: Bend.Adt, adtB: Bend.Adt)
    requires s.ctx.None? && DistinctKeys(s.book.ctrs) && DistinctKeys(s.book.adts)
    requires a != b && oa != ob && (a in Keys(s.book.adts) || b in Keys(s.book.adts))
    requires Get(s.book.ctrs, a) == Some(oa) && Get(s.book.ctrs, b) == Some(ob)
    requires Get(s.book.adts, oa) == Some(adtA) && Get(s.book.adts, ob) == Some(adtB)
    ensures var stmt := Py.Assign([Py.Name(name)], Py.BinOp(Py.Name(a), Py.BitOr, Py.Name(b)));
      var book2 := WithoutBoth(s.book, a, b, oa, ob);
      var adt := Bend.Adt([(name + "/" + a, AllFields(adtA.ctrs)), (name + "/" + b, AllFields(adtB.ctrs))], false);
      var reg := Registered(book2, name, adt);
      && (Step(s, stmt).Ok? <==> reg.Ok?)
      && (reg.Ok? ==> Step(s, stmt) == Ok(s.(book := reg.value)))
  {
    var e := Py.BinOp(Py.Name(a), Py.BitOr, Py.Name(b));
    var parts := [Bend.CtrField(a, false), Bend.CtrField(b, false)];
    UnionLowering(s.book, a, b);
    assert Step(s, Py.Assign([Py.Name(name)], e)) == AssignAdt(s, name, e);
    assert AssignAdt(s, name, e) == AdtFromBody(s, name, Some(CtrFields(parts)));
    UnionOfTwo(s.book, name, a, b, oa, ob, adtA, adtB);
  }

  /** `A | B` on two names one of which is a datatype lowers to the field
      list of both. */
  lemma UnionLowering(book: Bend.Book, a: string, b: string)
    requires a in Keys(book.adts) || b in Keys(book.adts)
    ensures ParseExprType(book, None, Py.BinOp(Py.Name(a), Py.BitOr, Py.Name(b)))
      == Ok(Some(CtrFields([Bend.CtrField(a, false), Bend.CtrField(b, false)])))
  {
    NameLowering(book, None, a);
    NameLowering(book, None, b);
    BinOpOfNames(book, None, Py.BinOp(Py.Name(a), Py.BitOr, Py.Name(b)), a, b);
  }

  /** Any other top-level assignment to a name whose value lowers (to
      something that is not a field list) registers a datatype of that name
      with no constructors. */
  lemma StepEmptyAdt(s: ParserState, name: string, value: Py.Expr)
    requires var v := ParseExprType(s.book, s.ctx, value); v.Ok? && !(v.value.Some? && v.value.value.CtrFields?)
    ensures Step(s, Py.Assign([Py.Name(name)], value)) ==
      (var reg := Registered(s.book, name, Bend.Adt([], false));
       if reg.Ok? then Ok(s.(book := reg.value)) else Err(reg.error))
    ensures name !in Keys(s.book.adts) ==> Step(s, Py.Assign([Py.Name(name)], value)).Ok?
  {
    assert Keys<string, seq<Bend.CtrField>>([]) == [];
  }

  /** Whether definition k is the last one with its name. */
  ghost predicate LastOfName(ds: seq<Bend.Definition>, k: nat)
    requires k < |ds|
  {
    forall k2 :: k < k2 < |ds| ==> ds[k2].name != ds[k].name
  }

  /** Adding the collected definitions: a later definition of a name
      replaces an earlier one. */
  lemma {:induction false} DefsFromLast(defs: Entries<string, Bend.FunDef>, ds: seq<Bend.Definition>, i: nat)
    requires i <= |ds|
    ensures forall k :: i <= k < |ds| && LastOfName(ds, k) ==> Get(DefsFrom(defs, ds, i), ds[k].name) == Some(ToFun(ds[k]))
    decreases |ds| - i
  {
    if i < |ds| {
      var defs' := Insert(defs, ds[i].name, ToFun(ds[i]));
      assert DefsFrom(defs, ds, i) == DefsFrom(defs', ds, i + 1);
      DefsFromLast(defs', ds, i + 1);
      forall k | i <= k < |ds| && LastOfName(ds, k)
        ensures Get(DefsFrom(defs, ds, i), ds[k].name) == Some(ToFun(ds[k]))
      {
        if k == i {
          DefsFromUntouched(defs', ds, i + 1, ds[i].name);
          InsertGetSame(defs, ds[i].name, ToFun(ds[i]));
        }
      }
    }
  }

  /** A name none of the collected definitions has keeps what it had. */
  lemma {:induction false} DefsFromUntouched(defs: Entries<string, Bend.FunDef>, ds: seq<Bend.Definition>, i: nat, n: string)
    requires i <= |ds| && forall k :: i <= k < |ds| ==> ds[k].name != n
    ensures Get(DefsFrom(defs, ds, i), n) == Get(defs, n)
    decreases |ds| - i
  {
    if i < |ds| {
      var defs' := Insert(defs, ds[i].name, ToFun(ds[i]));
      DefsFromUntouched(defs', ds, i + 1, n);
      InsertGetOther(defs, ds[i].name, ToFun(ds[i]), n);
    }
  }

  // ---------------------------------------------------------------------
  // Properties of parse_main

  /** What `parse_main` finds is always called `main` and has no
      parameters. */
  lemma {:induction false} MainDefinitionShape(book: Bend.Book, stmts: seq<Py.Stmt>, fun: string, args: seq<string>,
                                               i: nat, ctx: Option<Context>)
    requires i <= |stmts|
    ensures var m := ParseMainFrom(book, stmts, fun, args, i, ctx);
      m.Ok? && m.value.0.Some? ==> m.value.0.value.name == "main" && m.value.0.value.params == []
    decreases |stmts| - i
  {
    if i < |stmts| {
      if !stmts[i].Assign? {
        MainDefinitionShape(book, stmts, fun, args, i + 1, ctx);
      } else if |stmts[i].targets| > 0 {
        var a := stmts[i];
        var low := if a.targets[0].Name? && a.targets[0].id in args then ParseVec(book, ctx, stmts, i)
                   else Ok(Lowered(None, ctx));
        if low.Ok? {
          MainDefinitionShape(book, stmts, fun, args, i + 1, low.value.ctx);
        }
      }
    }
  }

  /** Calling the traced function from an assignment to a name that is not
      one of its parameters: with no arguments a panic saying so, with
      arguments a `todo!()`. */
  lemma MainCallPanics(book: Bend.Book, stmts: seq<Py.Stmt>, fun: string, args: seq<string>, i: nat,
                       ctx: Option<Context>, x: string, xs: seq<Py.Expr>)
    requires i < |stmts| && stmts[i] == Py.Assign([Py.Name(x)], Py.Call(Py.Name(fun), xs)) && x !in args
    ensures ParseMainFrom(book, stmts, fun, args, i, ctx) == Err(Panic(if |xs| == 0 then MAIN_ARGS_MSG else TODO))
  {
  }

  /** The script shape the examples use, `x = <literal>` followed by
      `y = f(x)` with x the parameter of the traced function f: `main` is
      `x = <literal>; return f(x)`, and the context is left as `parse_main`
      set it. */
  lemma MainOfScript(book: Bend.Book, fun: string, x: string, y: string, v: int)
    requires x != y && 0 <= v < 0x1_0000_0000 && FindInCtrs(book.ctrs, fun).None?
    ensures var stmts := [Py.Assign([Py.Name(x)], Py.Constant(Py.IntConst(v))),
                          Py.Assign([Py.Name(y)], Py.Call(Py.Name(fun), [Py.Name(x)]))];
      ParseMainFrom(book, stmts, fun, [x], 0, MainCtxOf(fun, [x])) ==
        Ok((Some(Bend.Definition("main", [],
              Bend.Assign(x, Bend.Num(Bend.U24(v)), Some(Bend.Return(Bend.Call(Bend.Var(fun), [Bend.Var(x)])))))),
            MainCtxOf(fun, [x])))
  {
    var ctx := MainCtxOf(fun, [x]);
    var stmts := [Py.Assign([Py.Name(x)], Py.Constant(Py.IntConst(v))),
                  Py.Assign([Py.Name(y)], Py.Call(Py.Name(fun), [Py.Name(x)]))];
    var call := Py.Call(Py.Name(fun), [Py.Name(x)]);
    ScriptBody(book, fun, x, y, v);
  }

  lemma ScriptBody(book: Bend.Book, fun: string, x: string, y: string, v: int)
    requires x != y && 0 <= v < 0x1_0000_0000 && FindInCtrs(book.ctrs, fun).None?
    ensures var stmts := [Py.Assign([Py.Name(x)], Py.Constant(Py.IntConst(v))),
                          Py.Assign([Py.Name(y)], Py.Call(Py.Name(fun), [Py.Name(x)]))];
      ParseVec(book, MainCtxOf(fun, [x]), stmts, 0) ==
        Ok(Lowered(Some(Statement(Bend.Assign(x, Bend.Num(Bend.U24(v)),
                                              Some(Bend.Return(Bend.Call(Bend.Var(fun), [Bend.Var(x)])))))),
                   MainCtxOf(fun, [x])))
  {
    var ctx := MainCtxOf(fun, [x]);
    var stmts := [Py.Assign([Py.Name(x)], Py.Constant(Py.IntConst(v))),
                  Py.Assign([Py.Name(y)], Py.Call(Py.Name(fun), [Py.Name(x)]))];
    ScriptReturn(book, fun, x, stmts);
    assert ParseExprType(book, ctx, stmts[0].value) == Ok(Some(FExpr(Bend.Num(Bend.U24(v)))));
  }

  lemma ScriptReturn(book: Bend.Book, fun: string, x: string, stmts: seq<Py.Stmt>)
    requires |stmts| == 2 && FindInCtrs(book.ctrs, fun).None?
    requires stmts[1].Assign? && stmts[1].value == Py.Call(Py.Name(fun), [Py.Name(x)]) && TargetName(stmts[1].targets).Ok?
    ensures ParseVec(book, MainCtxOf(fun, [x]), stmts, 1) ==
      Ok(Lowered(Some(Statement(Bend.Return(Bend.Call(Bend.Var(fun), [Bend.Var(x)])))), MainCtxOf(fun, [x])))
  {
    MainCallLowering(book, fun, x);
  }

  /** `f(x)` in the main context of f, when f is no constructor. */
  lemma MainCallLowering(book: Bend.Book, fun: string, x: string)
    requires FindInCtrs(book.ctrs, fun).None?
    ensures ParseExprType(book, MainCtxOf(fun, [x]), Py.Call(Py.Name(fun), [Py.Name(x)]))
      == Ok(Some(FExpr(Bend.Call(Bend.Var(fun), [Bend.Var(x)]))))
  {
    var ctx := MainCtxOf(fun, [x]);
    var call := Py.Call(Py.Name(fun), [Py.Name(x)]);
    CallOfName(book, ctx, fun, [Py.Name(x)]);
    ArgsOfNames(book, ctx, call, 0);
    assert NameIn(ctx, x) == x;
    assert ParseArgs(book, ctx, call, 0).value == [Bend.Var(x)];
  }

  /** A book `parse` builds always has a `main` with no parameters, next to
      the datatypes the walk registered; when `parse_main` finds nothing,
      `parse` panics on the unwrap. */
  lemma ParsedBook(s: ParserState, stmts: seq<Py.Stmt>, fun: string, args: seq<string>)
    ensures var r := ParseFrom(s, stmts, fun, args);
      r.Ok? ==>
        && ParseAll(s, stmts, 0).Ok?
        && r.value.adts == ParseAll(s, stmts, 0).value.book.adts
        && r.value.ctrs == ParseAll(s, stmts, 0).value.book.ctrs
        && Get(r.value.defs, "main").Some?
        && Get(r.value.defs, "main").value.name == "main"
        && Get(r.value.defs, "main").value.body.FromImp?
        && Get(r.value.defs, "main").value.body.def.params == []
    ensures var s1 := ParseAll(s, stmts, 0);
      s1.Ok? ==>
        var book1 := s1.value.book.(defs := DefsFrom(s1.value.book.defs, s1.value.definitions, 0));
        var m := ParseMainFrom(book1, stmts, fun, args, 0, MainCtxOf(fun, args));
        m.Ok? && m.value.0.None? ==> ParseFrom(s, stmts, fun, args) == Err(Panic(UNWRAP_NONE))
  {
    var s1 := ParseAll(s, stmts, 0);
    if s1.Ok? {
      var book1 := s1.value.book.(defs := DefsFrom(s1.value.book.defs, s1.value.definitions, 0));
      MainDefinitionShape(book1, stmts, fun, args, 0, MainCtxOf(fun, args));
      var m := ParseMainFrom(book1, stmts, fun, args, 0, MainCtxOf(fun, args));
      if m.Ok? && m.value.0.Some? {
        InsertGetSame(book1.defs, "main", ToFun(m.value.0.value));
      }
    }
  }

  // ---------------------------------------------------------------------
  // The parser object

  class Parser {
    var statements: seq<Py.Stmt>
    var book: Bend.Book
    var definitions: seq<Bend.Definition>
    var ctx: Option<Context>

    function State(): ParserState
      reads this
    {
      ParserState(book, definitions, ctx)
    }

    /** `Parser::new`: an empty book, no definitions and no context. */
    constructor (statements: seq<Py.Stmt>, index: nat)
      ensures this.statements == statements
      ensures State() == ParserState(Bend.EmptyBook, [], None)
    {
      this.statements := statements;
      book := Bend.EmptyBook;
      definitions := [];
      ctx := None;
    }

    /** `add_adt`. */
    method AddAdt(nam: string, adt: Bend.Adt) returns (r: Result<()>)
      modifies this
      ensures var reg := Registered(old(book), nam, adt);
        && (r.Ok? <==> reg.Ok?)
        && (reg.Ok? ==> book == reg.value)
        && (reg.Err? ==> r.error == reg.error)
      ensures statements == old(statements) && definitions == old(definitions) && ctx == old(ctx)
    {
      var found := Get(book.adts, nam);
      if found.Some? {
        return Err(Panic(if found.value.builtin then BuiltinAdtMsg(nam) else RepeatedAdtMsg(nam)));
      }
      var keys := Keys(adt.ctrs);
      var ctrs := book.ctrs;
      ghost var goal := RegisterCtrs(book.adts, book.ctrs, nam, keys, 0);
      var i := 0;
      while i < |keys|
        invariant 0 <= i <= |keys|
        invariant RegisterCtrs(book.adts, ctrs, nam, keys, i) == goal
      {
        var owner := Get(ctrs, keys[i]);
        if owner.Some? {
          var o := Get(book.adts, owner.value);
          return Err(Panic(if o.Some? && o.value.builtin then BuiltinCtrMsg(keys[i]) else RepeatedCtrMsg(keys[i])));
        }
        ctrs := Insert(ctrs, keys[i], nam);
        i := i + 1;
      }
      book := book.(ctrs := ctrs, adts := Insert(book.adts, nam, adt));
      return Ok(());
    }

    /** The union loop of `parse`: the constructors of `Name = A | B | ..`,
        removing each part and its datatype from the book. */
    method Union(name: string, parts: seq<Bend.CtrField>) returns (r: Result<Entries<string, seq<Bend.CtrField>>>)
      modifies this
      ensures var u := UnionCtrs(old(book), name, parts, 0, []);
        && (r.Ok? <==> u.Ok?)
        && (u.Ok? ==> r.value == u.value.1 && book == u.value.0)
        && (u.Err? ==> r.error == u.error)
      ensures statements == old(statements) && definitions == old(definitions) && ctx == old(ctx)
    {
      ghost var goal := UnionCtrs(book, name, parts, 0, []);
      var acc: Entries<string, seq<Bend.CtrField>> := [];
      var j := 0;
      while j < |parts|
        invariant 0 <= j <= |parts|
        invariant UnionCtrs(book, name, parts, j, acc) == goal
        invariant statements == old(statements) && definitions == old(definitions) && ctx == old(ctx)
      {
        var ct := parts[j];
        var (c, ctrs) := SwapRemove(book.ctrs, ct.nam);
        if c.None? {
          return Err(Panic(UNWRAP_NONE));
        }
        var (a, adts) := SwapRemove(book.adts, c.value);
        if a.None? {
          return Err(Panic(UNWRAP_NONE));
        }
        var fields := CollectFields(a.value.ctrs);
        book := book.(ctrs := ctrs, adts := adts);
        acc := Insert(acc, name + "/" + ct.nam, fields);
        j := j + 1;
      }
      return Ok(acc);
    }

    /** `parse_main`. */
    method ParseMain(fun: string, args: seq<string>) returns (r: Result<Option<Bend.Definition>>)
      modifies this
      ensures var m := ParseMainFrom(old(book), old(statements), fun, args, 0, MainCtxOf(fun, args));
        && (r.Ok? <==> m.Ok?)
        && (m.Ok? ==> r.value == m.value.0 && ctx == m.value.1)
        && (m.Err? ==> r.error == m.error)
      ensures statements == old(statements) && book == old(book) && definitions == old(definitions)
    {
      ctx := MainCtxOf(fun, args);
      var i := 0;
      while i < |statements|
        invariant 0 <= i <= |statements|
        invariant statements == old(statements) && book == old(book) && definitions == old(definitions)
        invariant ParseMainFrom(book, statements, fun, args, i, ctx)
               == ParseMainFrom(book, statements, fun, args, 0, MainCtxOf(fun, args))
      {
        var stmt := statements[i];
        if stmt.Assign? {
          if |stmt.targets| == 0 {
            return Err(Panic(UNWRAP_NONE));
          }
          if stmt.targets[0].Name? && stmt.targets[0].id in args {
            var nb := ParseVec(book, ctx, statements, i);
            if nb.Err? {
              return Err(nb.error);
            }
            ctx := nb.value.ctx;
            var st := StmtOf(nb.value.out);
            if st.Some? {
              return Ok(Some(Bend.Definition("main", [], st.value)));
            }
          }
          var v := stmt.value;
          if v.Call? && v.func.Name? && v.func.id == fun {
            if |v.args| == 0 {
              return Err(Panic(MAIN_ARGS_MSG));
            } else {
              return Err(Panic(TODO));
            }
          }
        }
        i := i + 1;
      }
      return Ok(None);
    }

    /** One top-level statement of `parse`'s loop. */
    method ParseStatement(stmt: Py.Stmt) returns (r: Result<()>)
      modifies this
      ensures var s := Step(old(State()), stmt);
        && (r.Ok? <==> s.Ok?)
        && (s.Ok? ==> State() == s.value)
        && (s.Err? ==> r.error == s.error)
      ensures statements == old(statements)
    {
      match stmt {
        case FunctionDef(_, _, _) =>
          r := ParseFunctionDef(stmt);
        case Assign(_, _) =>
          r := ParseAssignment(stmt);
        case ClassDef(_, _, _) =>
          r := ParseClassDef(stmt);
        case _ =>
          r := Ok(());
      }
    }

    /** A function definition: its body lowered in the current context. */
    method ParseFunctionDef(stmt: Py.Stmt) returns (r: Result<()>)
      requires stmt.FunctionDef?
      modifies this
      ensures var s := Step(old(State()), stmt);
        && (r.Ok? <==> s.Ok?)
        && (s.Ok? ==> State() == s.value)
        && (s.Err? ==> r.error == s.error)
      ensures statements == old(statements)
    {
      var e := ParseVec(book, ctx, stmt.body, 0);
      if e.Err? {
        return Err(e.error);
      }
      ctx := e.value.ctx;
      var st := StmtOf(e.value.out);
      if st.Some? {
        definitions := definitions + [Bend.Definition(stmt.name, stmt.params, st.value)];
      }
      return Ok(());
    }

    /** A top-level assignment to a name: a union or an empty datatype. */
    method ParseAssignment(stmt: Py.Stmt) returns (r: Result<()>)
      requires stmt.Assign?
      modifies this
      ensures var s := Step(old(State()), stmt);
        && (r.Ok? <==> s.Ok?)
        && (s.Ok? ==> State() == s.value)
        && (s.Err? ==> r.error == s.error)
      ensures statements == old(statements)
    {
      if |stmt.targets| == 0 {
        return Err(Panic(UNWRAP_NONE));
      }
      if !stmt.targets[0].Name? {
        return Ok(());
      }
      r := AssignDatatype(stmt.targets[0].id, stmt.value);
    }

    /** `name = value` at the top level. */
    method AssignDatatype(name: string, value: Py.Expr) returns (r: Result<()>)
      modifies this
      ensures var s := AssignAdt(old(State()), name, value);
        && (r.Ok? <==> s.Ok?)
        && (s.Ok? ==> State() == s.value)
        && (s.Err? ==> r.error == s.error)
      ensures statements == old(statements)
    {
      var body := ParseExprType(book, ctx, value);
      if body.Err? {
        return Err(body.error);
      }
      r := RegisterBody(name, body.value);
    }

    method RegisterBody(name: string, body: Option<FromExpr>) returns (r: Result<()>)
      modifies this
      ensures var s := AdtFromBody(old(State()), name, body);
        && (r.Ok? <==> s.Ok?)
        && (s.Ok? ==> State() == s.value)
        && (s.Err? ==> r.error == s.error)
      ensures statements == old(statements)
    {
      var ctrs: Entries<string, seq<Bend.CtrField>> := [];
      if body.Some? && body.value.CtrFields? {
        var u := Union(name, body.value.fields);
        if u.Err? {
          return Err(u.error);
        }
        ctrs := u.value;
      }
      r := AddAdt(name, Bend.Adt(ctrs, false));
    }

    /** A class: a dataclass becomes a datatype, any other class is
        ignored. */
    method ParseClassDef(stmt: Py.Stmt) returns (r: Result<()>)
      requires stmt.ClassDef?
      modifies this
      ensures var s := Step(old(State()), stmt);
        && (r.Ok? <==> s.Ok?)
        && (s.Ok? ==> State() == s.value)
        && (s.Err? ==> r.error == s.error)
      ensures statements == old(statements)
    {
      if !IsDataclass(stmt.decorators) {
        return Ok(());
      }
      var ctrs := Dataclass(stmt.name, stmt.body);
      if ctrs.Err? {
        return Err(ctrs.error);
      }
      r := AddAdt(stmt.name, Bend.Adt(ctrs.value, false));
    }

    /** `parse`, up to handing the book to the evaluator: the book with every
        collected definition and `main`. */
    method Parse(fun: string, args: seq<string>) returns (r: Result<Bend.Book>)
      modifies this
      ensures r == ParseFrom(old(State()), old(statements), fun, args)
      ensures r.Ok? ==> book == r.value
    {
      ghost var goal := ParseAll(State(), statements, 0);
      var i := 0;
      while i < |statements|
        invariant 0 <= i <= |statements| && statements == old(statements)
        invariant ParseAll(State(), statements, i) == goal
      {
        var s := ParseStatement(statements[i]);
        if s.Err? {
          return Err(s.error);
        }
        i := i + 1;
      }
      ghost var s1 := State();
      ghost var defsGoal := DefsFrom(s1.book.defs, definitions, 0);
      var j := 0;
      while j < |definitions|
        invariant 0 <= j <= |definitions| && statements == old(statements) && definitions == s1.definitions
        invariant book == s1.book.(defs := book.defs)
        invariant DefsFrom(book.defs, definitions, j) == defsGoal
      {
        book := book.(defs := Insert(book.defs, definitions[j].name, ToFun(definitions[j])));
        j := j + 1;
      }
      var m := ParseMain(fun, args);
      if m.Err? {
        return Err(m.error);
      }
      if m.value.None? {
        return Err(Panic(UNWRAP_NONE));
      }
      book := book.(defs := Insert(book.defs, "main", ToFun(m.value.value)));
      return Ok(book);
    }
  }
}
