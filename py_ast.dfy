/** The part of the Python syntax tree (as `rustpython_parser` hands it
    over) that the lowering of crates/benda/src/parser/mod.rs looks at.
    Every variant the lowering distinguishes is here; the expression and
    statement kinds it lumps together under a catch-all are one variant
    each. Source positions are not modelled. */
module PyAst {
  import opened Support

  /** `ast::CmpOp`. */
  datatype CmpOp = Eq | NotEq | Lt | LtE | Gt | GtE | Is | IsNot | In | NotIn

  /** `ast::Operator`. */
  datatype Operator =
    | Add | Sub | Mult | MatMult | Div | Mod | Pow
    | LShift | RShift | BitOr | BitXor | BitAnd | FloorDiv

  /** `ast::Constant`; an integer literal keeps its (unbounded) value. */
  datatype Constant =
    | NoneConst | BoolConst(b: bool) | StrConst(s: string) | BytesConst
    | IntConst(i: int) | TupleConst | FloatConst | ComplexConst | EllipsisConst

  /** `ast::Expr`: the six kinds the lowering translates, and every other
      kind (lists, lambdas, unary operators, subscripts, ..) as `OtherExpr`. */
  datatype Expr =
    | Attribute(value: Expr, attr: string)
    | Compare(left: Expr, ops: seq<CmpOp>, comparators: seq<Expr>)
    | BinOp(left: Expr, op: Operator, right: Expr)
    | Constant(c: Constant)
    | Name(id: string)
    | Call(func: Expr, args: seq<Expr>)
    | OtherExpr

  /** `ast::Pattern`; of a `MatchAs` only the bound name matters. */
  datatype Pattern =
    | MatchValue(value: Expr)
    | MatchSingleton
    | MatchSequence
    | MatchMapping
    | MatchClass(cls: Expr, patterns: seq<Pattern>)
    | MatchStar
    | MatchAs(name: Option<string>)
    | MatchOr

  datatype MatchCase = MatchCase(pattern: Pattern, body: seq<Stmt>)

  /** `ast::Stmt`: a function definition keeps its positional parameter
      names, a class its decorators and body, an annotated assignment its
      target; every other statement kind is `OtherStmt`. */
  datatype Stmt =
    | FunctionDef(name: string, params: seq<string>, body: seq<Stmt>)
    | ClassDef(name: string, decorators: seq<Expr>, body: seq<Stmt>)
    | Assign(targets: seq<Expr>, value: Expr)
    | AnnAssign(target: Expr)
    | If(test: Expr, body: seq<Stmt>, orelse: seq<Stmt>)
    | Return(result: Option<Expr>)
    | ExprStmt(expr: Expr)
    | Match(subject: Expr, cases: seq<MatchCase>)
    | OtherStmt
}
