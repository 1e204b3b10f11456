/** The Python values the crate receives and hands back. Python objects are
    otherwise opaque: a value of an unknown class is its type name and the
    attributes `getattr` can find on it. */
module Host {
  import opened Support
  import opened IndexMaps
  import UInt24
  import Trees
  import Bend

  /** Which of the eight generated constructor classes `Ctr1`..`Ctr8`. */
  type CtrKind = k: int | 1 <= k <= 8 witness 1

  /** A constructor object (`Ctr1`..`Ctr8` in crates/benda/src/types/book.rs):
      the qualified constructor name and its fields in declaration order,
      each unset (`None`) or holding a Python value. */
  datatype CtrValue = CtrValue(
    kind: CtrKind,
    fullName: string,
    fields: Entries<string, Option<PyValue>>)

  datatype PyValue =
    | PyNone
    | PyInt(i: int)
    | PyFloat(x: real)
    | PyStr(s: string)
    | PyU24(u: UInt24.U24)
    | PyLeaf(leaf: Trees.Leaf)
    | PyNode(node: Trees.Node)
    | PyTree(tree: Trees.Tree)
    | PyTerm(term: Bend.Term)
    | PyFan(fan: Bend.Term)
    | PyCtr(ctr: CtrValue)
    | PyObj(typeName: string, attrs: seq<(string, PyValue)>)

  /** The names of the eight generated constructor classes. */
  const CTR_CLASSES: seq<string> := ["Ctr1", "Ctr2", "Ctr3", "Ctr4", "Ctr5", "Ctr6", "Ctr7", "Ctr8"]

  /** The type name the crate dispatches on (`arg.get_type().name()`). */
  function TypeName(v: PyValue): string
  {
    match v
    case PyNone => "NoneType"
    case PyInt(_) => "int"
    case PyFloat(_) => "float"
    case PyStr(_) => "str"
    case PyU24(_) => "benda.u24"
    case PyLeaf(_) => "benda.Leaf"
    case PyNode(_) => "benda.Node"
    case PyTree(_) => "benda.Tree"
    case PyTerm(_) => "Term"
    case PyFan(_) => "Fan"
    case PyCtr(c) => CTR_CLASSES[c.kind - 1]
    case PyObj(name, _) => name
  }

  /** `str(v)` for the values whose text the crate compares: a string is
      itself; any other value renders as a tag that contains no `/`. */
  function Str(v: PyValue): string
  {
    match v
    case PyStr(s) => s
    case PyInt(i) => if i >= 0 then NatToString(i) else "-" + NatToString(-i)
    case _ => "<" + TypeName(v) + " object>"
  }

  /** `Option<PyObject>` handed to Python: an unset field reads as `None`. */
  function FromOption(o: Option<PyValue>): PyValue
  {
    match o
    case Some(v) => v
    case None => PyNone
  }

  /** A measure that every component of a value is below. */
  function Size(v: PyValue): nat
    decreases v, 1
  {
    match v
    case PyCtr(c) => 1 + ValuesSize(v, 0)
    case PyObj(_, attrs) => 1 + AttrsSize(v, 0)
    case _ => 1
  }

  function ValuesSize(v: PyValue, i: nat): nat
    requires v.PyCtr? && i <= |v.ctr.fields|
    decreases v, 0, |v.ctr.fields| - i
  {
    if i == |v.ctr.fields| then 0
    else
      var o := v.ctr.fields[i].1;
      (if o.Some? then Size(o.value) else 0) + ValuesSize(v, i + 1)
  }

  function AttrsSize(v: PyValue, i: nat): nat
    requires v.PyObj? && i <= |v.attrs|
    decreases v, 0, |v.attrs| - i
  {
    if i == |v.attrs| then 0 else Size(v.attrs[i].1) + AttrsSize(v, i + 1)
  }

  /** Every set field of a constructor object is smaller than the object. */
  lemma {:induction false} FieldBelow(v: PyValue, i: nat, j: nat)
    requires v.PyCtr? && i <= j < |v.ctr.fields| && v.ctr.fields[j].1.Some?
    ensures Size(v.ctr.fields[j].1.value) <= ValuesSize(v, i)
    decreases j - i
  {
    if i < j {
      FieldBelow(v, i + 1, j);
    }
  }

  /** Every attribute of an object is smaller than the object. */
  lemma {:induction false} AttrBelow(v: PyValue, i: nat, j: nat)
    requires v.PyObj? && i <= j < |v.attrs|
    ensures Size(v.attrs[j].1) <= AttrsSize(v, i)
    decreases j - i
  {
    if i < j {
      AttrBelow(v, i + 1, j);
    }
  }
}
