/** The part of the Bend library's data model the crate builds and reads:
    numbers, imperative-syntax expressions and statements (`bend::imp`),
    algebraic datatypes, the functional book (`bend::fun::Book`) and the
    result terms the evaluator hands back. Only the shapes are modelled;
    Bend's own compiler and evaluator are not part of this model. */
module Bend {
  import opened Support
  import opened IndexMaps

  /** `fun::Num`: the payload is what the crate passes, unchecked. */
  datatype Num = U24(u: int) | I24(i: int) | F24(f: real)

  /** `fun::Op`, the operators the lowering produces. */
  datatype Op = ADD | SUB | MUL | DIV | POW | SHL | SHR | OR | XOR | AND | EQ | NEQ | LT | GT

  /** `imp::Expr`. Keyword arguments are always empty in the crate and are
      left out. `Constructor` is the application of a constructor the
      lowering emits, `Ctr` the constructor value the marshalling emits. */
  datatype Expr =
    | Var(nam: string)
    | Num(val: Num)
    | Str(s: string)
    | Bin(op: Op, lhs: Expr, rhs: Expr)
    | Call(fun: Expr, args: seq<Expr>)
    | Constructor(name: string, args: seq<Expr>)
    | Ctr(name: string, args: seq<Expr>)

  /** `imp::Stmt`, the forms the lowering produces. */
  datatype Stmt =
    | Assign(pat: string, val: Expr, nxt: Option<Stmt>)
    | If(cond: Expr, thenBody: Stmt, otherwise: Stmt, nxt: Option<Stmt>)
    | Return(term: Expr)
    | Match(arg: Expr, bind: Option<string>, arms: seq<MatchArm>, nxt: Option<Stmt>)
    | Switch(arg: Expr, bind: Option<string>, cases: seq<Stmt>, nxt: Option<Stmt>)

  datatype MatchArm = MatchArm(lft: Option<string>, rgt: Stmt)

  /** `imp::Definition`. */
  datatype Definition = Definition(name: string, params: seq<string>, body: Stmt)

  /** `fun::CtrField`: a constructor field and whether it is recursive. */
  datatype CtrField = CtrField(nam: string, rec: bool)

  /** `fun::Adt`: constructors (full name to fields) in declaration order. */
  datatype Adt = Adt(ctrs: Entries<string, seq<CtrField>>, builtin: bool)

  /** `fun::Term`, only the shapes the result decoder distinguishes. */
  datatype Term =
    | Lam(bod: Term)
    | App(fun: Term, arg: Term)
    | VarT(nam: string)
    | NumT(val: Num)
    | Other

  /** Where a definition of the functional book came from: an imperative
      definition converted with `to_fun`, or a nullary definition whose only
      rule returns a value. Rules and patterns are not modelled. */
  datatype DefBody = FromImp(def: Definition) | ExprRule(e: Expr) | TermRule(t: Term)

  datatype FunDef = FunDef(name: string, body: DefBody)

  /** The number of patterns of the definition's rules. */
  function Arity(d: FunDef): nat
  {
    match d.body
    case FromImp(def) => |def.params|
    case _ => 0
  }

  /** `fun::Book`: datatypes, the owner of every constructor, definitions. */
  datatype Book = Book(
    adts: Entries<string, Adt>,
    ctrs: Entries<string, string>,
    defs: Entries<string, FunDef>)

  const EmptyBook := Book([], [], [])
}
