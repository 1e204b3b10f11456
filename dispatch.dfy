/** `extract_type` (crates/benda/src/types/mod.rs): lowering any argument
    to a Bend expression, by the class its type name selects. */
module Dispatch {
  import opened Support
  import opened Host
  import opened Builtins
  import UInt24
  import Trees
  import UserAdts
  import Bend

  const UNWRAP_NONE := "called `Option::unwrap()` on a `None` value"

  /** Numbers through their parse, the three tree classes through their
      downcast and lowering, and every other value as an instance of a
      user ADT (which must be recognised: an unrecognised one panics). */
  function ExtractType(arg: PyValue, book: Bend.Book): Result<Bend.Expr>
  {
    match BuiltinTypeFrom(TypeName(arg))
    case U24 =>
      var inner :- Unwrap(ExtractInner(arg, U24), UNWRAP_NONE);
      Ok(UInt24.ToBend(inner.u))
    case I32 => ExtractNum(arg, I32)
    case F32 => ExtractNum(arg, F32)
    case Tree =>
      var inner :- Unwrap(ExtractInner(arg, Tree), UNWRAP_NONE);
      Trees.TreeToBend(inner.tree)
    case Node =>
      var inner :- Unwrap(ExtractInner(arg, Node), UNWRAP_NONE);
      Trees.NodeToBend(inner.node)
    case Leaf =>
      var inner :- Unwrap(ExtractInner(arg, Leaf), UNWRAP_NONE);
      Ok(Trees.LeafToBend(inner.leaf))
    case UserAdt =>
      var found :- UserAdts.UserAdtNew(arg, book);
      var adt :- Unwrap(found, UNWRAP_NONE);
      UserAdts.ToBendSpec(adt)
  }

  /** `extract_type` lowers numbers exactly as `extract_type_raw` followed
      by `to_bend`, lowers tree values through their own lowering, and
      lowers anything else only as a recognised user ADT. */
  lemma ExtractTypeAgrees(arg: PyValue, book: Bend.Book)
    ensures BuiltinTypeFrom(TypeName(arg)) in {U24, I32, F32} ==>
              (ExtractType(arg, book).Ok? <==> ExtractTypeRaw(arg).Ok?)
              && (ExtractTypeRaw(arg).Ok? ==>
                    ExtractTypeRaw(arg).value.Some?
                    && ExtractType(arg, book).value == RawToBend(ExtractTypeRaw(arg).value.value))
    ensures arg.PyLeaf? ==> ExtractType(arg, book) == Ok(Trees.LeafToBend(arg.leaf))
    ensures arg.PyNode? ==> ExtractType(arg, book) == Trees.NodeToBend(arg.node)
    ensures arg.PyTree? ==> ExtractType(arg, book) == Trees.TreeToBend(arg.tree)
    ensures BuiltinTypeFrom(TypeName(arg)) == UserAdt ==>
              (match UserAdts.UserAdtNew(arg, book)
               case Ok(Some(a)) => ExtractType(arg, book) == UserAdts.ToBendSpec(a)
               case Ok(None) => ExtractType(arg, book) == Err(Panic(UNWRAP_NONE))
               case Err(e) => ExtractType(arg, book) == Err(e))
  {
  }

  /** Python's `None` is not a value that can be passed. */
  lemma ExtractTypeNone(book: Bend.Book)
    ensures ExtractType(PyNone, book) == Err(Panic(UNWRAP_NONE))
  {
    assert BuiltinTypeFrom("NoneType") == UserAdt;
  }
}
