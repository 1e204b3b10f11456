/** The objects of crates/benda/src/types/book.rs that sit between Python
    and a Bend book: the runtime choice, the `Definition`/`Definitions`
    handles, the `Adts` table of constructor objects, `Book::new` which
    builds them from a Bend book, and `Definition.__call__` which prepares
    the book a call runs. The two thread-local slots `GLOBAL_BOOK` and
    `GLOBAL_BENDA_BOOK` are the fields of `Runtime`. */
module Books {
  import opened Support
  import opened IndexMaps
  import opened Host
  import opened CtrObjects
  import Bend
  import Builtins
  import UserAdts

  // ---------------------------------------------------------------------
  // BendRuntime

  datatype BendRuntime = Rust | C | Cuda

  /** `Display`: the `bend` sub-command that runs a book on the runtime. */
  function Command(rt: BendRuntime): string
  {
    match rt
    case Rust => "run"
    case C => "run-c"
    case Cuda => "run-cu"
  }

  /** `cmd.unwrap_or_default().to_string()`: Rust, the default, when no
      runtime was chosen. */
  function CommandOf(cmd: Option<BendRuntime>): string
  {
    match cmd
    case Some(rt) => Command(rt)
    case None => Command(Rust)
  }

  /** Each runtime has its own command, every command starts with `run`,
      and an unset choice runs on Rust. */
  lemma CommandSpec(a: BendRuntime, b: BendRuntime)
    ensures Command(a) == Command(b) <==> a == b
    ensures |Command(a)| >= 3 && Command(a)[..3] == "run"
    ensures CommandOf(None) == "run" && CommandOf(Some(a)) == Command(a)
  {
    if a != b {
      assert |Command(a)| != |Command(b)|;
    }
  }

  // ---------------------------------------------------------------------
  // Definition, Definitions, Adts, Book

  /** A handle on one function of the book: its arity, its name and the
      runtime it runs on. */
  datatype Definition = Definition(arity: nat, name: string, cmd: Option<BendRuntime>)

  datatype Definitions = Definitions(defs: Entries<string, Definition>, cmd: Option<BendRuntime>)

  /** `Definitions.__getattr__`: the definition of that name, with the
      collection's runtime stamped on it. */
  function DefinitionsGetAttr(ds: Definitions, name: string): (r: Result<Definition>)
    ensures r.Ok? <==> name in Keys(ds.defs)
    ensures r.Ok? ==> r.value.cmd == ds.cmd
    ensures r.Err? ==> r.error.Raise?
  {
    match Get(ds.defs, name)
    case Some(d) => Ok(d.(cmd := ds.cmd))
    case None => Err(Raise("Could not find attr " + name))
  }

  datatype Adts = Adts(adts: Entries<string, Ctrs>)

  /** `Adts.__getattr__`: the constructor objects of the datatype of that
      name. */
  function AdtsGetAttr(a: Adts, name: string): (r: Result<Ctrs>)
    ensures r.Ok? <==> name in Keys(a.adts)
    ensures r.Ok? ==> Get(a.adts, name) == Some(r.value)
    ensures r.Err? ==> r.error.Raise?
  {
    match Get(a.adts, name)
    case Some(c) => Ok(c)
    case None => Err(Raise("Could not find attr " + name))
  }

  /** The `Book` handed to Python. */
  datatype BendaBook = BendaBook(adts: Adts, defs: Definitions, cmd: Option<BendRuntime>)

  /** `Book.set_cmd`. */
  function SetCmd(b: BendaBook, rt: BendRuntime): (r: BendaBook)
    ensures r.cmd == Some(rt) && r.adts == b.adts && r.defs == b.defs
  {
    b.(cmd := Some(rt))
  }

  /** The `defs` getter: the definitions with the book's runtime. */
  function DefsOf(b: BendaBook): (r: Definitions)
    ensures r.defs == b.defs.defs && r.cmd == b.cmd
  {
    b.defs.(cmd := b.cmd)
  }

  /** `Book.__getattr__`, reached only for names that are not `adts` or
      `defs`: always an error. */
  function BookGetAttr(b: BendaBook, name: string): (r: Result<PyValue>)
    ensures r.Err? && r.error.Raise?
  {
    Err(Raise("Could not find attribute " + name))
  }

  /** A definition looked up through the book after `set_cmd(rt)` runs on
      `rt`, whatever runtime the collection itself carried. */
  lemma SetCmdThenLookup(b: BendaBook, rt: BendRuntime, name: string)
    requires name in Keys(b.defs.defs)
    ensures DefinitionsGetAttr(DefsOf(SetCmd(b, rt)), name).Ok?
    ensures CommandOf(DefinitionsGetAttr(DefsOf(SetCmd(b, rt)), name).value.cmd) == Command(rt)
    ensures DefinitionsGetAttr(DefsOf(SetCmd(b, rt)), name).value.arity == Get(b.defs.defs, name).value.arity
  {
  }

  // ---------------------------------------------------------------------
  // Book::new, as tables built by folding inserts over the Bend book

  const CTRS_MSG := "Type must have up to 5 Ctrs"

  /** The field table of a fresh constructor object: the declared fields
      in order, every one unset. */
  function FieldTable(fs: seq<Bend.CtrField>): Entries<string, Option<PyValue>>
  {
    if fs == [] then [] else Insert(FieldTable(fs[..|fs| - 1]), fs[|fs| - 1].nam, None)
  }

  function FieldNames(fs: seq<Bend.CtrField>): (ns: seq<string>)
    ensures |ns| == |fs| && forall i :: 0 <= i < |fs| ==> ns[i] == fs[i].nam
  {
    seq(|fs|, i requires 0 <= i < |fs| => fs[i].nam)
  }

  ghost predicate Distinct(ns: seq<string>)
  {
    forall i, j :: 0 <= i < j < |ns| ==> ns[i] != ns[j]
  }

  /** Every field is unset and listed once; with distinct field names the
      table lists them in declaration order. */
  lemma FieldTableSpec(fs: seq<Bend.CtrField>)
    ensures DistinctKeys(FieldTable(fs))
    ensures forall j :: 0 <= j < |FieldTable(fs)| ==> FieldTable(fs)[j].1 == None
    ensures forall j :: 0 <= j < |fs| ==> fs[j].nam in Keys(FieldTable(fs))
    ensures Distinct(FieldNames(fs)) ==> Keys(FieldTable(fs)) == FieldNames(fs)
  {
    FieldTableUnset(fs);
    FieldTableHas(fs);
    if Distinct(FieldNames(fs)) {
      FieldTableInOrder(fs);
      assert Keys(Unset(fs)) == FieldNames(fs);
    }
  }

  /** The table of unset fields, one per declared field. */
  function Unset(fs: seq<Bend.CtrField>): (t: Entries<string, Option<PyValue>>)
    ensures |t| == |fs| && forall i :: 0 <= i < |fs| ==> t[i] == (fs[i].nam, None)
  {
    seq(|fs|, i requires 0 <= i < |fs| => (fs[i].nam, None))
  }

  lemma {:induction false} FieldTableUnset(fs: seq<Bend.CtrField>)
    ensures DistinctKeys(FieldTable(fs))
    ensures forall j :: 0 <= j < |FieldTable(fs)| ==> FieldTable(fs)[j].1 == None
  {
    if fs != [] {
      var n := |fs| - 1;
      FieldTableUnset(fs[..n]);
      InsertSpec(FieldTable(fs[..n]), fs[n].nam, None);
    }
  }

  lemma {:induction false} FieldTableHas(fs: seq<Bend.CtrField>)
    ensures forall j :: 0 <= j < |fs| ==> fs[j].nam in Keys(FieldTable(fs))
  {
    if fs != [] {
      var n := |fs| - 1;
      var prev := FieldTable(fs[..n]);
      FieldTableHas(fs[..n]);
      var t := FieldTable(fs);
      assert t == Insert(prev, fs[n].nam, None);
      assert fs[n].nam in Keys(t) by {
        if fs[n].nam in Keys(prev) {
          assert t[IndexOf(prev, fs[n].nam)].0 == fs[n].nam;
        } else {
          assert t[|prev|].0 == fs[n].nam;
        }
      }
      forall j | 0 <= j < n && fs[j].nam != fs[n].nam
        ensures fs[j].nam in Keys(t)
      {
        assert fs[..n][j].nam in Keys(prev);
        InsertGetOther(prev, fs[n].nam, None, fs[j].nam);
      }
    }
  }

  lemma {:induction false} FieldTableInOrder(fs: seq<Bend.CtrField>)
    requires Distinct(FieldNames(fs))
    ensures FieldTable(fs) == Unset(fs)
  {
    if fs != [] {
      var n := |fs| - 1;
      assert Distinct(FieldNames(fs[..n]));
      FieldTableInOrder(fs[..n]);
      assert fs[n].nam !in Keys(Unset(fs[..n])) by {
        forall j | 0 <= j < n
          ensures Unset(fs[..n])[j].0 != fs[n].nam
        {
          assert FieldNames(fs)[j] != FieldNames(fs)[n];
        }
      }
      assert Unset(fs) == Unset(fs[..n]) + [(fs[n].nam, None)];
    }
  }

  /** The constructor object `Book::new` makes for constructor `index` of
      a datatype: class `Ctr<index + 1>`, all fields unset. */
  function CtrObject(index: nat, name: string, fs: seq<Bend.CtrField>): CtrValue
    requires index < 8
  {
    CtrValue(index + 1, name, FieldTable(fs))
  }

  /** The constructor objects of one datatype, by the last `/`-segment of
      their names and in the slots `first`..`eighth`; a ninth constructor
      panics. */
  function CtrsOf(ctrs: Entries<string, seq<Bend.CtrField>>): Result<Ctrs>
  {
    if ctrs == [] then Ok(EmptyCtrs)
    else
      var i := |ctrs| - 1;
      var prev :- CtrsOf(ctrs[..i]);
      if i >= 8 then Err(Panic(CTRS_MSG))
      else
        var obj := CtrObject(i, ctrs[i].0, ctrs[i].1);
        Ok(Ctrs(Insert(prev.fields, LastSegment(ctrs[i].0, '/'), obj), prev.slots[i := Some(obj)]))
  }

  /** The short names of the constructors. */
  function ShortNames(ctrs: Entries<string, seq<Bend.CtrField>>): (ns: seq<string>)
    ensures |ns| == |ctrs| && forall i :: 0 <= i < |ctrs| ==> ns[i] == LastSegment(ctrs[i].0, '/')
  {
    seq(|ctrs|, i requires 0 <= i < |ctrs| => LastSegment(ctrs[i].0, '/'))
  }

  /** Up to eight constructors fill the first slots in order and leave the
      rest empty; more panic. */
  lemma {:induction false} CtrsOfSlots(ctrs: Entries<string, seq<Bend.CtrField>>)
    ensures CtrsOf(ctrs).Ok? <==> |ctrs| <= 8
    ensures CtrsOf(ctrs).Err? ==> CtrsOf(ctrs).error == Panic(CTRS_MSG)
    ensures CtrsOf(ctrs).Ok? ==>
              && (forall j :: 0 <= j < |ctrs| ==> CtrsOf(ctrs).value.slots[j] == Some(CtrObject(j, ctrs[j].0, ctrs[j].1)))
              && (forall j :: |ctrs| <= j < 8 ==> CtrsOf(ctrs).value.slots[j].None?)
  {
    if ctrs != [] {
      var i := |ctrs| - 1;
      CtrsOfSlots(ctrs[..i]);
      if i < 8 {
        assert forall j :: 0 <= j < i ==> ctrs[..i][j] == ctrs[j];
      }
    }
  }

  /** Every constructor can be fetched by its short name; with distinct
      short names each one gives its own object. */
  lemma CtrsOfNames(ctrs: Entries<string, seq<Bend.CtrField>>)
    requires |ctrs| <= 8
    ensures CtrsOf(ctrs).Ok? && DistinctKeys(CtrsOf(ctrs).value.fields)
    ensures forall j :: 0 <= j < |ctrs| ==> LastSegment(ctrs[j].0, '/') in Keys(CtrsOf(ctrs).value.fields)
    ensures Distinct(ShortNames(ctrs)) ==>
              forall j :: 0 <= j < |ctrs| ==>
                CtrsGetAttr(CtrsOf(ctrs).value, LastSegment(ctrs[j].0, '/')) == Ok(CtrObject(j, ctrs[j].0, ctrs[j].1))
  {
    CtrsOfKeys(ctrs);
    if Distinct(ShortNames(ctrs)) {
      CtrsOfLookups(ctrs);
    }
  }

  lemma {:induction false} CtrsOfKeys(ctrs: Entries<string, seq<Bend.CtrField>>)
    requires |ctrs| <= 8
    ensures CtrsOf(ctrs).Ok? && DistinctKeys(CtrsOf(ctrs).value.fields)
    ensures forall j :: 0 <= j < |ctrs| ==> LastSegment(ctrs[j].0, '/') in Keys(CtrsOf(ctrs).value.fields)
  {
    CtrsOfSlots(ctrs);
    if ctrs != [] {
      var i := |ctrs| - 1;
      CtrsOfKeys(ctrs[..i]);
      var prev := CtrsOf(ctrs[..i]).value;
      var obj := CtrObject(i, ctrs[i].0, ctrs[i].1);
      var short := LastSegment(ctrs[i].0, '/');
      InsertSpec(prev.fields, short, obj);
      var t := CtrsOf(ctrs).value.fields;
      assert t == Insert(prev.fields, short, obj);
      forall j | 0 <= j < |ctrs|
        ensures LastSegment(ctrs[j].0, '/') in Keys(t)
      {
        if j < i {
          assert ctrs[..i][j] == ctrs[j];
          assert Get(t, LastSegment(ctrs[j].0, '/')).Some?;
        } else {
          assert Get(t, short).Some?;
        }
      }
    }
  }

  lemma {:induction false} CtrsOfLookups(ctrs: Entries<string, seq<Bend.CtrField>>)
    requires |ctrs| <= 8 && Distinct(ShortNames(ctrs))
    ensures CtrsOf(ctrs).Ok?
    ensures forall j :: 0 <= j < |ctrs| ==>
              CtrsGetAttr(CtrsOf(ctrs).value, LastSegment(ctrs[j].0, '/')) == Ok(CtrObject(j, ctrs[j].0, ctrs[j].1))
  {
    CtrsOfSlots(ctrs);
    if ctrs != [] {
      var i := |ctrs| - 1;
      assert Distinct(ShortNames(ctrs[..i])) by {
        assert forall j :: 0 <= j < i ==> ShortNames(ctrs[..i])[j] == ShortNames(ctrs)[j];
      }
      CtrsOfLookups(ctrs[..i]);
      CtrsOfKeys(ctrs[..i]);
      var prev := CtrsOf(ctrs[..i]).value;
      var obj := CtrObject(i, ctrs[i].0, ctrs[i].1);
      var short := LastSegment(ctrs[i].0, '/');
      InsertSpec(prev.fields, short, obj);
      assert CtrsOf(ctrs).value.fields == Insert(prev.fields, short, obj);
      forall j | 0 <= j < |ctrs|
        ensures CtrsGetAttr(CtrsOf(ctrs).value, LastSegment(ctrs[j].0, '/')) == Ok(CtrObject(j, ctrs[j].0, ctrs[j].1))
      {
        if j < i {
          assert ctrs[..i][j] == ctrs[j];
          assert ShortNames(ctrs)[j] != ShortNames(ctrs)[i];
        }
      }
    }
  }

  /** The datatypes of the book, each with its constructor objects. */
  function AdtTable(adts: Entries<string, Bend.Adt>): Result<Entries<string, Ctrs>>
  {
    if adts == [] then Ok([])
    else
      var i := |adts| - 1;
      var prev :- AdtTable(adts[..i]);
      var c :- CtrsOf(adts[i].1.ctrs);
      Ok(Insert(prev, adts[i].0, c))
  }

  /** A datatype with more than eight constructors makes the whole table
      panic; otherwise every datatype is listed, in order, with its
      constructor objects. */
  lemma AdtTableSpec(adts: Entries<string, Bend.Adt>)
    requires DistinctKeys(adts)
    ensures AdtTable(adts).Ok? <==> forall j :: 0 <= j < |adts| ==> |adts[j].1.ctrs| <= 8
    ensures AdtTable(adts).Err? ==> AdtTable(adts).error == Panic(CTRS_MSG)
    ensures AdtTable(adts).Ok? ==>
              && |AdtTable(adts).value| == |adts|
              && forall j :: 0 <= j < |adts| ==>
                   AdtTable(adts).value[j].0 == adts[j].0 && Ok(AdtTable(adts).value[j].1) == CtrsOf(adts[j].1.ctrs)
  {
    AdtTableOk(adts);
    if AdtTable(adts).Ok? {
      AdtTableContents(adts);
    }
  }

  lemma {:induction false} AdtTableOk(adts: Entries<string, Bend.Adt>)
    ensures AdtTable(adts).Ok? <==> forall j :: 0 <= j < |adts| ==> |adts[j].1.ctrs| <= 8
    ensures AdtTable(adts).Err? ==> AdtTable(adts).error == Panic(CTRS_MSG)
  {
    if adts != [] {
      var i := |adts| - 1;
      var init := adts[..i];
      AdtTableOk(init);
      CtrsOfSlots(adts[i].1.ctrs);
      assert forall j :: 0 <= j < i ==> init[j] == adts[j];
      if AdtTable(init).Ok? && CtrsOf(adts[i].1.ctrs).Ok? {
        assert AdtTable(adts).Ok?;
      } else if AdtTable(init).Ok? {
        assert AdtTable(adts) == Err(Panic(CTRS_MSG));
      } else {
        assert AdtTable(adts) == AdtTable(init);
      }
    }
  }

  lemma {:induction false} AdtTableContents(adts: Entries<string, Bend.Adt>)
    requires DistinctKeys(adts) && AdtTable(adts).Ok?
    ensures |AdtTable(adts).value| == |adts|
    ensures forall j :: 0 <= j < |adts| ==>
              AdtTable(adts).value[j].0 == adts[j].0 && Ok(AdtTable(adts).value[j].1) == CtrsOf(adts[j].1.ctrs)
  {
    if adts != [] {
      var i := |adts| - 1;
      var init := adts[..i];
      assert forall j :: 0 <= j < i ==> init[j] == adts[j];
      assert AdtTable(init).Ok?;
      AdtTableContents(init);
      var prev := AdtTable(init).value;
      var c := CtrsOf(adts[i].1.ctrs).value;
      assert AdtTable(adts) == Ok(Insert(prev, adts[i].0, c));
      assert adts[i].0 !in Keys(prev) by {
        assert forall j :: 0 <= j < i ==> prev[j].0 != adts[i].0;
      }
      assert Insert(prev, adts[i].0, c) == prev + [(adts[i].0, c)];
    }
  }

  /** The handle `Book::new` records for a definition of the Bend book. */
  function Handle(d: Bend.FunDef): Definition
  {
    Definition(Bend.Arity(d), d.name, None)
  }

  /** The definitions of the book, each as a handle. */
  function DefTable(defs: Entries<string, Bend.FunDef>): Entries<string, Definition>
  {
    if defs == [] then []
    else
      var i := |defs| - 1;
      Insert(DefTable(defs[..i]), defs[i].0, Handle(defs[i].1))
  }

  /** Every definition, `main` and `Main` included, is recorded in order
      with its arity. */
  lemma {:induction false} DefTableSpec(defs: Entries<string, Bend.FunDef>)
    requires DistinctKeys(defs)
    ensures |DefTable(defs)| == |defs|
    ensures forall j :: 0 <= j < |defs| ==>
              DefTable(defs)[j] == (defs[j].0, Definition(Bend.Arity(defs[j].1), defs[j].1.name, None))
  {
    if defs != [] {
      var i := |defs| - 1;
      assert forall j :: 0 <= j < i ==> defs[..i][j] == defs[j];
      DefTableSpec(defs[..i]);
      var prev := DefTable(defs[..i]);
      assert defs[i].0 !in Keys(prev) by {
        assert forall j :: 0 <= j < i ==> prev[j].0 != defs[i].0;
      }
    }
  }

  /** `Book::new`: the `Book` object, and the Bend book with `Main` and
      `main` removed, which becomes the global book. */
  function BookNew(bb: Bend.Book): Result<(BendaBook, Bend.Book)>
  {
    var adts :- AdtTable(bb.adts);
    var defs := DefTable(bb.defs);
    var rest := ShiftRemove(ShiftRemove(bb.defs, "Main"), "main");
    Ok((BendaBook(Adts(adts), Definitions(defs, None), None), bb.(defs := rest)))
  }

  /** The definitions exposed to Python are all the book's definitions;
      the global book keeps all but `Main` and `main`, in order, and its
      datatypes and constructors. */
  lemma BookNewSpec(bb: Bend.Book)
    requires DistinctKeys(bb.adts) && DistinctKeys(bb.defs)
    ensures BookNew(bb).Ok? <==> forall j :: 0 <= j < |bb.adts| ==> |bb.adts[j].1.ctrs| <= 8
    ensures BookNew(bb).Ok? ==>
              && Keys(BookNew(bb).value.0.defs.defs) == Keys(bb.defs)
              && BookNew(bb).value.0.cmd.None? && BookNew(bb).value.0.defs.cmd.None?
    ensures BookNew(bb).Ok? ==>
              && BookNew(bb).value.1.adts == bb.adts && BookNew(bb).value.1.ctrs == bb.ctrs
              && "Main" !in Keys(BookNew(bb).value.1.defs) && "main" !in Keys(BookNew(bb).value.1.defs)
              && forall k :: k != "Main" && k != "main" ==> Get(BookNew(bb).value.1.defs, k) == Get(bb.defs, k)
  {
    AdtTableOk(bb.adts);
    BookNewHandles(bb);
    BookNewGlobal(bb);
  }

  lemma BookNewHandles(bb: Bend.Book)
    requires DistinctKeys(bb.defs)
    ensures BookNew(bb).Ok? ==> Keys(BookNew(bb).value.0.defs.defs) == Keys(bb.defs)
  {
    if BookNew(bb).Ok? {
      var t := BookNew(bb).value.0.defs.defs;
      assert t == DefTable(bb.defs);
      DefTableSpec(bb.defs);
      assert forall j :: 0 <= j < |t| ==> Keys(t)[j] == Keys(bb.defs)[j];
    }
  }

  lemma BookNewGlobal(bb: Bend.Book)
    requires DistinctKeys(bb.defs)
    ensures BookNew(bb).Ok? ==>
              && "Main" !in Keys(BookNew(bb).value.1.defs) && "main" !in Keys(BookNew(bb).value.1.defs)
              && forall k :: k != "Main" && k != "main" ==> Get(BookNew(bb).value.1.defs, k) == Get(bb.defs, k)
  {
    if BookNew(bb).Ok? {
      var d1 := ShiftRemove(bb.defs, "Main");
      var d2 := ShiftRemove(d1, "main");
      assert BookNew(bb).value.1.defs == d2;
      ShiftRemoveSpec(bb.defs, "Main");
      ShiftRemoveSpec(d1, "main");
    }
  }

  // ---------------------------------------------------------------------
  // Definition.__call__: the book a call runs

  /** `format!("arg{}", i)`. */
  function ArgName(i: nat): string
  {
    "arg" + NatToString(i)
  }

  /** Argument names are distinct and never `main`. */
  lemma ArgNameSpec(i: nat, j: nat)
    ensures ArgName(i) == ArgName(j) <==> i == j
    ensures ArgName(i) != "main"
  {
    assert ArgName(i)[0] == 'a';
    if ArgName(i) == ArgName(j) {
      assert ArgName(i)[3..] == NatToString(i);
      assert ArgName(j)[3..] == NatToString(j);
      NatToStringInjective(i, j);
    }
  }

  function ArityMsg(arity: nat, n: nat): string
  {
    "Function has arity " + NatToString(arity) + " and received " + NatToString(n) + " arguments"
  }

  const UNWRAP_ERR := "called `Result::unwrap()` on an `Err` value"
  const UNWRAP_NONE := "called `Option::unwrap()` on a `None` value"

  /** The body of the nullary definition `arg<i>` for one argument: a
      `Term` or `Fan` as it is; an instance of a user ADT lowered with
      `to_bend`; anything else through `extract_type_raw`, which must give
      a number. `UserAdt::new` reads only the datatypes and constructors
      of the book, which the argument loop does not change. */
  function ArgBody(arg: PyValue, b: Bend.Book): (r: Result<Bend.DefBody>)
    ensures (arg.PyTerm? || arg.PyFan?) ==> r.Ok? && r.value.TermRule?
    ensures r.Err? ==> r.error.Panic?
  {
    match arg
    case PyTerm(t) => Ok(Bend.TermRule(t))
    case PyFan(t) => Ok(Bend.TermRule(t))
    case _ =>
      var found :- UserAdts.UserAdtNew(arg, b);
      if found.Some? then AdtBody(found.value) else NumberBody(arg)
  }

  /** An ADT instance lowered by `to_bend`, whose result is unwrapped: a
      raised error becomes the `unwrap` panic, and a panic inside the
      lowering propagates with its own message. */
  function AdtBody(adt: UserAdts.UserAdt): (r: Result<Bend.DefBody>)
    ensures r.Ok? <==> UserAdts.ToBendSpec(adt).Ok?
    ensures r.Ok? ==> r.value == Bend.ExprRule(UserAdts.ToBendSpec(adt).value)
    ensures r.Err? ==> r.error.Panic?
    ensures r.Err? && UserAdts.ToBendSpec(adt).error.Raise? ==> r.error == Panic(UNWRAP_ERR)
    ensures r.Err? && UserAdts.ToBendSpec(adt).error.Panic? ==> r.error == UserAdts.ToBendSpec(adt).error
  {
    var t := UserAdts.ToBendSpec(adt);
    if t.Ok? then Ok(Bend.ExprRule(t.value))
    else if t.error.Raise? then Err(Panic(UNWRAP_ERR))
    else Err(t.error)
  }

  /** Any other argument through `extract_type_raw`, whose `None` is
      unwrapped. */
  function NumberBody(arg: PyValue): (r: Result<Bend.DefBody>)
    ensures r.Err? ==> r.error.Panic?
  {
    var raw :- Builtins.ExtractTypeRaw(arg);
    var v :- Unwrap(raw, UNWRAP_NONE);
    Ok(Bend.ExprRule(Builtins.RawToBend(v)))
  }

  /** An `int` in the `i32` range is passed as an `I24` literal; a tree
      value, which is neither an ADT instance nor a number, panics. */
  lemma ArgBodyValues(arg: PyValue, b: Bend.Book)
    ensures arg.PyInt? && Builtins.I32_MIN <= arg.i <= Builtins.I32_MAX ==>
              ArgBody(arg, b) == Ok(Bend.ExprRule(Bend.Num(Bend.I24(arg.i))))
    ensures arg.PyLeaf? || arg.PyNode? || arg.PyTree? ==> ArgBody(arg, b) == Err(Panic(UNWRAP_NONE))
  {
    Builtins.ExtractTypeRawNumbers(arg);
  }

  /** The conversion of each argument, in order. */
  function ArgBodies(args: seq<PyValue>, b: Bend.Book): (rs: seq<Result<Bend.DefBody>>)
    ensures |rs| == |args| && forall j :: 0 <= j < |args| ==> rs[j] == ArgBody(args[j], b)
  {
    seq(|args|, j requires 0 <= j < |args| => ArgBody(args[j], b))
  }

  /** The loop over the arguments from i on, given their conversions: each
      gets its definition `arg<i>` and its variable in the call; the first
      failed conversion stops the loop. */
  function ArgDefsFrom(bodies: seq<Result<Bend.DefBody>>, i: nat, defs: Entries<string, Bend.FunDef>, vars: seq<Bend.Expr>)
    : Result<(Entries<string, Bend.FunDef>, seq<Bend.Expr>)>
    requires i <= |bodies|
    decreases |bodies| - i
  {
    if i == |bodies| then Ok((defs, vars))
    else
      var body :- bodies[i];
      ArgDefsFrom(bodies, i + 1, Insert(defs, ArgName(i), Bend.FunDef(ArgName(i), body)), vars + [Bend.Var(ArgName(i))])
  }

  /** The variables `arg<i>` .. `arg<n - 1>`, in order. */
  function ArgVars(i: nat, n: nat): (vs: seq<Bend.Expr>)
    requires i <= n
    ensures |vs| == n - i && forall j :: 0 <= j < n - i ==> vs[j] == Bend.Var(ArgName(i + j))
  {
    seq(n - i, j requires 0 <= j < n - i => Bend.Var(ArgName(i + j)))
  }

  /** The definition `main` that calls the function on the arguments. */
  function MainDef(name: string, vars: seq<Bend.Expr>): Bend.FunDef
  {
    Bend.FunDef("main", Bend.FromImp(Bend.Definition("main", [], Bend.Return(Bend.Call(Bend.Var(name), vars)))))
  }

  /** The book handed to the evaluator: the global book with the argument
      definitions and `main` inserted. */
  function CallBook(b: Bend.Book, d: Definition, args: seq<PyValue>): Result<Bend.Book>
  {
    var p :- ArgDefsFrom(ArgBodies(args, b), 0, b.defs, []);
    Ok(b.(defs := Insert(p.0, "main", MainDef(d.name, p.1))))
  }

  /** The argument loop fails exactly when one argument cannot be turned
      into a definition; otherwise argument i is bound to `arg<i>`, the
      call's variables are `arg<i>`.. in order, and no other definition
      changes. */
  lemma ArgDefsSpec(bodies: seq<Result<Bend.DefBody>>, i: nat, defs: Entries<string, Bend.FunDef>, vars: seq<Bend.Expr>)
    requires i <= |bodies|
    ensures ArgDefsFrom(bodies, i, defs, vars).Ok? <==> forall j :: i <= j < |bodies| ==> bodies[j].Ok?
    ensures ArgDefsFrom(bodies, i, defs, vars).Ok? ==>
              && ArgDefsFrom(bodies, i, defs, vars).value.1 == vars + ArgVars(i, |bodies|)
              && (forall j :: i <= j < |bodies| ==>
                    Get(ArgDefsFrom(bodies, i, defs, vars).value.0, ArgName(j)) == Some(Bend.FunDef(ArgName(j), bodies[j].value)))
              && (forall k :: (forall j :: i <= j < |bodies| ==> k != ArgName(j)) ==>
                    Get(ArgDefsFrom(bodies, i, defs, vars).value.0, k) == Get(defs, k))
  {
    ArgDefsOk(bodies, i, defs, vars);
    if ArgDefsFrom(bodies, i, defs, vars).Ok? {
      ArgDefsVars(bodies, i, defs, vars);
      ArgDefsBinds(bodies, i, defs, vars);
    }
  }

  lemma {:induction false} ArgDefsOk(bodies: seq<Result<Bend.DefBody>>, i: nat, defs: Entries<string, Bend.FunDef>, vars: seq<Bend.Expr>)
    requires i <= |bodies|
    ensures ArgDefsFrom(bodies, i, defs, vars).Ok? <==> forall j :: i <= j < |bodies| ==> bodies[j].Ok?
    decreases |bodies| - i
  {
    if i < |bodies| && bodies[i].Ok? {
      ArgDefsOk(bodies, i + 1, Insert(defs, ArgName(i), Bend.FunDef(ArgName(i), bodies[i].value)), vars + [Bend.Var(ArgName(i))]);
    }
  }

  lemma {:induction false} ArgDefsVars(bodies: seq<Result<Bend.DefBody>>, i: nat, defs: Entries<string, Bend.FunDef>, vars: seq<Bend.Expr>)
    requires i <= |bodies| && ArgDefsFrom(bodies, i, defs, vars).Ok?
    ensures ArgDefsFrom(bodies, i, defs, vars).value.1 == vars + ArgVars(i, |bodies|)
    decreases |bodies| - i
  {
    if i < |bodies| {
      var name := ArgName(i);
      var vars' := vars + [Bend.Var(name)];
      ArgDefsVars(bodies, i + 1, Insert(defs, name, Bend.FunDef(name, bodies[i].value)), vars');
      assert ArgVars(i, |bodies|) == [Bend.Var(name)] + ArgVars(i + 1, |bodies|);
      assert vars' + ArgVars(i + 1, |bodies|) == vars + ([Bend.Var(name)] + ArgVars(i + 1, |bodies|));
    } else {
      assert vars + ArgVars(i, |bodies|) == vars;
    }
  }

  lemma {:induction false} ArgDefsBinds(bodies: seq<Result<Bend.DefBody>>, i: nat, defs: Entries<string, Bend.FunDef>, vars: seq<Bend.Expr>)
    requires i <= |bodies| && ArgDefsFrom(bodies, i, defs, vars).Ok?
    ensures forall j :: i <= j < |bodies| ==> bodies[j].Ok?
    ensures forall j :: i <= j < |bodies| ==>
              Get(ArgDefsFrom(bodies, i, defs, vars).value.0, ArgName(j)) == Some(Bend.FunDef(ArgName(j), bodies[j].value))
    ensures forall k :: (forall j :: i <= j < |bodies| ==> k != ArgName(j)) ==>
              Get(ArgDefsFrom(bodies, i, defs, vars).value.0, k) == Get(defs, k)
    decreases |bodies| - i
  {
    ArgDefsOk(bodies, i, defs, vars);
    if i < |bodies| {
      var name := ArgName(i);
      var def := Bend.FunDef(name, bodies[i].value);
      var defs' := Insert(defs, name, def);
      ArgDefsBinds(bodies, i + 1, defs', vars + [Bend.Var(name)]);
      var r := ArgDefsFrom(bodies, i, defs, vars).value.0;
      forall j | i < j < |bodies|
        ensures name != ArgName(j)
      {
        ArgNameSpec(i, j);
      }
      InsertGetSame(defs, name, def);
      forall k | forall j :: i <= j < |bodies| ==> k != ArgName(j)
        ensures Get(r, k) == Get(defs, k)
      {
        InsertGetOther(defs, name, def, k);
      }
    }
  }

  /** A call with arguments that all convert hands the evaluator the
      global book plus `arg<i>` for each argument and a `main` that calls
      the function on `arg0`, `arg1`, .. in order; nothing else changes. */
  lemma CallBookSpec(b: Bend.Book, d: Definition, args: seq<PyValue>)
    requires forall j :: 0 <= j < |args| ==> ArgBody(args[j], b).Ok?
    ensures CallBook(b, d, args).Ok?
    ensures CallBook(b, d, args).value.adts == b.adts && CallBook(b, d, args).value.ctrs == b.ctrs
    ensures Get(CallBook(b, d, args).value.defs, "main") == Some(MainDef(d.name, ArgVars(0, |args|)))
    ensures forall j :: 0 <= j < |args| ==>
              Get(CallBook(b, d, args).value.defs, ArgName(j)) == Some(Bend.FunDef(ArgName(j), ArgBody(args[j], b).value))
    ensures forall k :: k != "main" && (forall j :: 0 <= j < |args| ==> k != ArgName(j)) ==>
              Get(CallBook(b, d, args).value.defs, k) == Get(b.defs, k)
  {
    var bodies := ArgBodies(args, b);
    ArgDefsSpec(bodies, 0, b.defs, []);
    var p := ArgDefsFrom(bodies, 0, b.defs, []).value;
    assert [] + ArgVars(0, |args|) == ArgVars(0, |args|);
    InsertGetSame(p.0, "main", MainDef(d.name, p.1));
    forall j | 0 <= j < |args|
      ensures Get(CallBook(b, d, args).value.defs, ArgName(j)) == Get(p.0, ArgName(j))
    {
      ArgNameSpec(j, j);
      InsertGetOther(p.0, "main", MainDef(d.name, p.1), ArgName(j));
    }
    forall k | k != "main"
      ensures Get(CallBook(b, d, args).value.defs, k) == Get(p.0, k)
    {
      InsertGetOther(p.0, "main", MainDef(d.name, p.1), k);
    }
  }

  /** `Definition.__call__` as written, up to the evaluator: the result
      (the book that would run) and what `GLOBAL_BOOK` holds afterwards.
      The global book is taken out first and put back only after a
      successful preparation: the arity error returns before that, and a
      panic unwinds past it. */
  function CallOutcome(g: Option<Bend.Book>, d: Definition, args: seq<PyValue>): (Result<Bend.Book>, Option<Bend.Book>)
  {
    if d.arity != |args| && d.arity != 0 then (Err(Raise(ArityMsg(d.arity, |args|))), None)
    else if g.None? then (Err(Raise("Could not execute function " + d.name)), None)
    else
      var r := CallBook(g.value, d, args);
      (r, if r.Ok? then g else None)
  }

  /** The call's outcome case by case: a count that differs from a nonzero
      arity is an error; arity 0 takes any number of arguments; without a
      global book nothing runs. */
  lemma CallOutcomeSpec(g: Option<Bend.Book>, d: Definition, args: seq<PyValue>)
    ensures d.arity != |args| && d.arity != 0 ==>
              CallOutcome(g, d, args).0 == Err(Raise(ArityMsg(d.arity, |args|)))
    ensures (d.arity == |args| || d.arity == 0) && g.None? ==>
              CallOutcome(g, d, args).0 == Err(Raise("Could not execute function " + d.name))
    ensures (d.arity == |args| || d.arity == 0) && g.Some? && (forall j :: 0 <= j < |args| ==> ArgBody(args[j], g.value).Ok?) ==>
              CallOutcome(g, d, args) == (CallBook(g.value, d, args), g) && CallBook(g.value, d, args).Ok?
  {
    if g.Some? {
      ArgDefsSpec(ArgBodies(args, g.value), 0, g.value.defs, []);
    }
  }

  /** As written, a call with the wrong number of arguments leaves no
      global book behind, so every later call, however well formed, fails
      with "Could not execute function". */
  lemma ArityErrorLosesBook(b: Bend.Book, d: Definition, args: seq<PyValue>, d2: Definition, args2: seq<PyValue>)
    requires d.arity != |args| && d.arity != 0
    requires d2.arity == |args2| || d2.arity == 0
    ensures CallOutcome(Some(b), d, args).1 == None
    ensures CallOutcome(CallOutcome(Some(b), d, args).1, d2, args2).0 == Err(Raise("Could not execute function " + d2.name))
  {
  }

  /** The evidently intended call: the same result, and the global book
      put back on every path. */
  function CallOutcomeRestoring(g: Option<Bend.Book>, d: Definition, args: seq<PyValue>): (r: (Result<Bend.Book>, Option<Bend.Book>))
    ensures r.1 == g
  {
    (CallOutcome(g, d, args).0, g)
  }

  /** With the book restored, a failed call does not affect the next one:
      a well-formed call after any other call prepares the same book as
      it would have on its own. */
  lemma RestoringRecovers(b: Bend.Book, d: Definition, args: seq<PyValue>, d2: Definition, args2: seq<PyValue>)
    requires d2.arity == |args2| || d2.arity == 0
    requires forall j :: 0 <= j < |args2| ==> ArgBody(args2[j], b).Ok?
    ensures CallOutcomeRestoring(CallOutcomeRestoring(Some(b), d, args).1, d2, args2).0 == CallBook(b, d2, args2)
    ensures CallBook(b, d2, args2).Ok?
  {
    CallOutcomeSpec(Some(b), d2, args2);
  }

  // ---------------------------------------------------------------------
  // The loops of Book::new and Definition.__call__

  /** The field-table loop of `Book::new`. */
  method BuildFields(fs: seq<Bend.CtrField>) returns (t: Entries<string, Option<PyValue>>)
    ensures t == FieldTable(fs)
  {
    t := [];
    for i := 0 to |fs|
      invariant t == FieldTable(fs[..i])
    {
      assert fs[..i + 1][..i] == fs[..i];
      t := Insert(t, fs[i].nam, None);
    }
    assert fs[..|fs|] == fs;
  }

  /** The constructor loop of `Book::new` for one datatype. */
  method BuildCtrs(ctrs: Entries<string, seq<Bend.CtrField>>) returns (r: Result<Ctrs>)
    ensures r == CtrsOf(ctrs)
  {
    var all := EmptyCtrs;
    for i := 0 to |ctrs|
      invariant CtrsOf(ctrs[..i]) == Ok(all)
    {
      if i >= 8 {
        CtrsOfSlots(ctrs);
        return Err(Panic(CTRS_MSG));
      }
      var fields := BuildFields(ctrs[i].1);
      var obj := CtrValue(i + 1, ctrs[i].0, fields);
      assert ctrs[..i + 1][..i] == ctrs[..i];
      all := Ctrs(Insert(all.fields, LastSegment(ctrs[i].0, '/'), obj), all.slots[i := Some(obj)]);
    }
    assert ctrs[..|ctrs|] == ctrs;
    return Ok(all);
  }

  /** The thread-local state of the crate: the Bend book functions run
      against and the `Book` object built from it. */
  class Runtime {
    var globalBook: Option<Bend.Book>
    var globalBendaBook: Option<BendaBook>

    constructor ()
      ensures globalBook == None && globalBendaBook == None
    {
      globalBook := None;
      globalBendaBook := None;
    }

    /** `Book::new`: builds the tables and installs both globals. A panic
        leaves the globals as they were. */
    method NewBook(bb: Bend.Book) returns (r: Result<(BendaBook, Bend.Book)>)
      modifies this
      ensures r == BookNew(bb)
      ensures r.Ok? ==> globalBook == Some(r.value.1) && globalBendaBook == Some(r.value.0)
      ensures r.Err? ==> globalBook == old(globalBook) && globalBendaBook == old(globalBendaBook)
    {
      var adts: Entries<string, Ctrs> := [];
      for i := 0 to |bb.adts|
        invariant AdtTable(bb.adts[..i]) == Ok(adts)
        invariant globalBook == old(globalBook) && globalBendaBook == old(globalBendaBook)
      {
        assert bb.adts[..i + 1][..i] == bb.adts[..i];
        var c := BuildCtrs(bb.adts[i].1.ctrs);
        if c.Err? {
          AdtTableFails(bb.adts, i);
          return Err(c.error);
        }
        adts := Insert(adts, bb.adts[i].0, c.value);
      }
      assert bb.adts[..|bb.adts|] == bb.adts;
      var defs: Entries<string, Definition> := [];
      for i := 0 to |bb.defs|
        invariant defs == DefTable(bb.defs[..i])
        invariant globalBook == old(globalBook) && globalBendaBook == old(globalBendaBook)
      {
        assert bb.defs[..i + 1][..i] == bb.defs[..i];
        defs := Insert(defs, bb.defs[i].0, Handle(bb.defs[i].1));
      }
      assert bb.defs[..|bb.defs|] == bb.defs;
      var rest := ShiftRemove(ShiftRemove(bb.defs, "Main"), "main");
      var bendBook := bb.(defs := rest);
      globalBook := Some(bendBook);
      var book := BendaBook(Adts(adts), Definitions(defs, None), None);
      globalBendaBook := Some(book);
      return Ok((book, bendBook));
    }

    /** `Definition.__call__` up to the evaluator, as written: the global
        book is taken, and put back only once the call's book is ready. */
    method Call(d: Definition, args: seq<PyValue>) returns (r: Result<Bend.Book>)
      modifies this
      ensures (r, globalBook) == CallOutcome(old(globalBook), d, args)
      ensures globalBendaBook == old(globalBendaBook)
    {
      var bendBook := globalBook;
      globalBook := None;
      if d.arity != |args| && d.arity != 0 {
        return Err(Raise(ArityMsg(d.arity, |args|)));
      }
      if bendBook.None? {
        return Err(Raise("Could not execute function " + d.name));
      }
      var b := bendBook.value;
      var defs := b.defs;
      var vars: seq<Bend.Expr> := [];
      ghost var goal := ArgDefsFrom(ArgBodies(args, b), 0, b.defs, []);
      for i := 0 to |args|
        invariant ArgDefsFrom(ArgBodies(args, b), i, defs, vars) == goal
      {
        var body := ArgBody(args[i], b);
        if body.Err? {
          return Err(body.error);
        }
        defs := Insert(defs, ArgName(i), Bend.FunDef(ArgName(i), body.value));
        vars := vars + [Bend.Var(ArgName(i))];
      }
      defs := Insert(defs, "main", MainDef(d.name, vars));
      globalBook := bendBook;
      return Ok(b.(defs := defs));
    }
  }

  /** A datatype that does not fit stops the table with its panic. */
  lemma {:induction false} AdtTableFails(adts: Entries<string, Bend.Adt>, i: nat)
    requires i < |adts| && AdtTable(adts[..i]).Ok? && CtrsOf(adts[i].1.ctrs).Err?
    ensures AdtTable(adts) == Err(CtrsOf(adts[i].1.ctrs).error)
  {
    AdtTableStopsAt(adts, i);
    assert AdtTable(adts[..i + 1]).Err?;
    AdtTableKeepsErr(adts, i + 1);
    assert AdtTable(adts) == AdtTable(adts[..i + 1]);
  }

  lemma {:induction false} AdtTableStopsAt(adts: Entries<string, Bend.Adt>, i: nat)
    requires i < |adts| && AdtTable(adts[..i]).Ok? && CtrsOf(adts[i].1.ctrs).Err?
    ensures AdtTable(adts[..i + 1]) == Err(CtrsOf(adts[i].1.ctrs).error)
  {
    var p := adts[..i + 1];
    assert p[..i] == adts[..i] && p[i] == adts[i] && |p| - 1 == i;
  }

  lemma {:induction false} AdtTableKeepsErr(adts: Entries<string, Bend.Adt>, k: nat)
    requires k <= |adts| && AdtTable(adts[..k]).Err?
    ensures AdtTable(adts) == AdtTable(adts[..k])
    decreases |adts| - k
  {
    if k < |adts| {
      assert adts[..k + 1][..k] == adts[..k];
      AdtTableKeepsErr(adts, k + 1);
    } else {
      assert adts[..k] == adts;
    }
  }
}
