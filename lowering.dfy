/** The lowering of a Python function body to Bend's imperative syntax
    (`Parser::parse_expr_type`, `parse_bin_op`, `find_in_ctrs`,
    `parse_vec`, `parse_match`, `parse_switch` of
    crates/benda/src/parser/mod.rs).

    These read the parser's book and its context `ctx`; `parse_match` also
    sets and clears `ctx` while it walks the arms, so every lowering
    function here takes the context in and hands the context it leaves back
    (`Lowered.ctx`). A panic aborts the whole lowering, so the state it
    leaves is not recorded. */
module Lowering {
  import opened Support
  import opened IndexMaps
  import Py = PyAst
  import Bend

  const TODO := "not yet implemented"
  const UNWRAP_NONE := "called `Option::unwrap()` on a `None` value"
  const IF_MSG := "If Statement must have an else."

  /** `FromExpr`: what lowering one expression or statement gives. */
  datatype FromExpr =
    | CtrFields(fields: seq<Bend.CtrField>)
    | FExpr(e: Bend.Expr)
    | Statement(s: Bend.Stmt)

  /** `FromExpr::get_var_name`. */
  function GetVarName(f: FromExpr): (r: Option<string>)
    ensures r.Some? <==> f.FExpr? && f.e.Var?
    ensures r.Some? ==> f == FExpr(Bend.Var(r.value))
  {
    if f.FExpr? && f.e.Var? then Some(f.e.nam) else None
  }

  datatype CurContext = MatchCtx | MainCtx

  /** `Context`. The crate always builds `subs` with exactly one name (the
      match subject, or the traced function), kept here as `sub`. */
  datatype Context = Context(now: CurContext, vars: seq<string>, sub: string)

  /** The result of lowering a statement list: the lowered piece, if any,
      and the context left behind. */
  datatype Lowered = Lowered(out: Option<FromExpr>, ctx: Option<Context>)

  /** The expression `benda.switch` lowers to. */
  const SwitchCall := Bend.Call(Bend.Var("switch"), [])

  /** Whether a lowered piece is a call of the function named `name`. */
  predicate IsCallOf(f: FromExpr, name: string)
  {
    f.FExpr? && f.e.Call? && f.e.fun.Var? && f.e.fun.nam == name
  }

  /** The statement inside a lowered piece, if it is one. */
  function StmtOf(o: Option<FromExpr>): (r: Option<Bend.Stmt>)
    ensures r.Some? <==> o.Some? && o.value.Statement?
  {
    if o.Some? && o.value.Statement? then Some(o.value.s) else None
  }

  /** The continuation `nxt.map(..)`: a lowered piece that is not a
      statement hits the `todo!()`. */
  function NxtStmt(o: Option<FromExpr>): (r: Result<Option<Bend.Stmt>>)
    ensures r.Ok? <==> o.None? || o.value.Statement?
    ensures r.Ok? ==> r.value == StmtOf(o)
  {
    match o
    case None => Ok(None)
    case Some(Statement(s)) => Ok(Some(s))
    case Some(_) => Err(Panic(TODO))
  }

  // ---------------------------------------------------------------------
  // Expressions

  function CmpOpOf(op: Py.CmpOp): Result<Bend.Op>
  {
    match op
    case Eq => Ok(Bend.EQ)
    case NotEq => Ok(Bend.NEQ)
    case Lt => Ok(Bend.LT)
    case Gt => Ok(Bend.GT)
    case _ => Err(Panic(TODO))
  }

  function OperatorOf(op: Py.Operator): Result<Bend.Op>
  {
    match op
    case Add => Ok(Bend.ADD)
    case Sub => Ok(Bend.SUB)
    case Mult => Ok(Bend.MUL)
    case MatMult => Err(Panic(TODO))
    case Div => Ok(Bend.DIV)
    case Mod => Err(Panic(TODO))
    case Pow => Ok(Bend.POW)
    case LShift => Ok(Bend.SHL)
    case RShift => Ok(Bend.SHR)
    case BitOr => Ok(Bend.OR)
    case BitXor => Ok(Bend.XOR)
    case BitAnd => Ok(Bend.AND)
    case FloorDiv => Err(Panic(TODO))
  }

  /** A name as it is written in the lowered code: inside a match arm a
      name the arm's patterns bound is a field of the subject. */
  function NameIn(ctx: Option<Context>, id: string): string
  {
    if ctx.Some? && ctx.value.now == MatchCtx && id in ctx.value.vars then ctx.value.sub + "." + id
    else id
  }

  /** A literal: a string naming a datatype is that datatype's name, any
      other string a string; an integer goes through `to_u32().unwrap()`. */
  function ParseConstant(book: Bend.Book, c: Py.Constant): Result<Option<FromExpr>>
  {
    match c
    case StrConst(s) => Ok(Some(FExpr(if s in Keys(book.adts) then Bend.Var(s) else Bend.Str(s))))
    case IntConst(i) =>
      if 0 <= i < 0x1_0000_0000 then Ok(Some(FExpr(Bend.Num(Bend.U24(i))))) else Err(Panic(UNWRAP_NONE))
    case _ => Err(Panic(TODO))
  }

  /** `find_in_ctrs`: the first constructor, in registration order, one of
      whose `/`-segments is the name. */
  function FindInCtrs(ctrs: Entries<string, string>, nam: string): (r: Option<string>)
    ensures r.None? <==> forall j :: 0 <= j < |ctrs| ==> nam !in Split(ctrs[j].0, '/')
    ensures r.Some? ==> r.value in Keys(ctrs) && nam in Split(r.value, '/')
  {
    if |ctrs| == 0 then None
    else if nam in Split(ctrs[0].0, '/') then Some(ctrs[0].0)
    else
      var rest := FindInCtrs(ctrs[1..], nam);
      assert forall j :: 1 <= j < |ctrs| ==> ctrs[j] == ctrs[1..][j - 1];
      rest
  }

  /** `parse_expr_type`. `Ok(None)` is the source's `None`. */
  function ParseExprType(book: Bend.Book, ctx: Option<Context>, e: Py.Expr): Result<Option<FromExpr>>
    decreases e, 2, 0
  {
    match e
    case Attribute(value, attr) =>
      var v :- ParseExprType(book, ctx, value);
      var lib :- Unwrap(v, UNWRAP_NONE);
      if GetVarName(lib) == Some("benda") && attr == "switch" then Ok(Some(FExpr(SwitchCall)))
      else Ok(None)
    case Compare(left, ops, comparators) =>
      var l :- ParseExprType(book, ctx, left);
      var lv :- Unwrap(l, UNWRAP_NONE);
      if |comparators| == 0 then Err(Panic(UNWRAP_NONE))
      else
        var r :- ParseExprType(book, ctx, comparators[0]);
        var rv :- Unwrap(r, UNWRAP_NONE);
        if |ops| == 0 then Err(Panic(UNWRAP_NONE))
        else
          var op :- CmpOpOf(ops[0]);
          if lv.FExpr? && rv.FExpr? then Ok(Some(FExpr(Bend.Bin(op, lv.e, rv.e)))) else Ok(None)
    case BinOp(_, _, _) => ParseBinOp(book, ctx, e)
    case Constant(c) => ParseConstant(book, c)
    case Name(id) => Ok(Some(FExpr(Bend.Var(NameIn(ctx, id)))))
    case Call(func, _) =>
      var f :- ParseExprType(book, ctx, func);
      if f.Some? && f.value.FExpr? && f.value.e.Var? then
        var nam := f.value.e.nam;
        var xs :- ParseArgs(book, ctx, e, 0);
        match FindInCtrs(book.ctrs, nam)
        case Some(full) => Ok(Some(FExpr(Bend.Constructor(full, xs))))
        case None => Ok(Some(FExpr(Bend.Call(Bend.Var(nam), xs))))
      else Ok(f)
    case OtherExpr => Err(Panic(TODO))
  }

  /** The arguments of a call from argument i on; those that do not lower
      to an expression are dropped. */
  function ParseArgs(book: Bend.Book, ctx: Option<Context>, c: Py.Expr, i: nat): Result<seq<Bend.Expr>>
    requires c.Call? && i <= |c.args|
    decreases c, 0, |c.args| - i
  {
    if i == |c.args| then Ok([])
    else
      var a :- ParseExprType(book, ctx, c.args[i]);
      var rest :- ParseArgs(book, ctx, c, i + 1);
      Ok(if a.Some? && a.value.FExpr? then [a.value.e] + rest else rest)
  }

  /** `parse_bin_op`. */
  function ParseBinOp(book: Bend.Book, ctx: Option<Context>, e: Py.Expr): Result<Option<FromExpr>>
    requires e.BinOp?
    decreases e, 1, 0
  {
    var l :- ParseExprType(book, ctx, e.left);
    var left :- Unwrap(l, UNWRAP_NONE);
    var r :- ParseExprType(book, ctx, e.right);
    var right :- Unwrap(r, UNWRAP_NONE);
    var op :- OperatorOf(e.op);
    match (GetVarName(left), GetVarName(right))
    case (Some(nl), Some(nr)) =>
      Ok(Some(CtrFields(
        if nl in Keys(book.adts) || nr in Keys(book.adts)
        then [Bend.CtrField(nl, false), Bend.CtrField(nr, false)]
        else [])))
    case _ =>
      if left.FExpr? && right.FExpr? then Ok(Some(FExpr(Bend.Bin(op, left.e, right.e))))
      else Err(Panic(TODO))
  }

  // ---------------------------------------------------------------------
  // Statements

  /** The name an assignment binds: `targets.first().unwrap()` must be a
      plain name. */
  function TargetName(targets: seq<Py.Expr>): (r: Result<string>)
    ensures r.Ok? <==> |targets| > 0 && targets[0].Name?
    ensures r.Ok? ==> r.value == targets[0].id
  {
    if |targets| == 0 || !targets[0].Name? then Err(Panic(UNWRAP_NONE)) else Ok(targets[0].id)
  }

  /** `parse_vec(stmts, index)`: the statement at `index`, with the
      lowering of the statements after it as its continuation. */
  function ParseVec(book: Bend.Book, ctx: Option<Context>, stmts: seq<Py.Stmt>, index: nat): Result<Lowered>
    decreases stmts, |stmts| - index, 4, 0
  {
    if index >= |stmts| then Ok(Lowered(None, ctx))
    else
      match stmts[index]
      case Assign(_, _) => ParseAssign(book, ctx, stmts, index)
      case If(_, _, _) => ParseIf(book, ctx, stmts, index)
      case Return(value) => ParseReturn(book, ctx, value)
      case ExprStmt(e) => ParseExprStmt(book, ctx, e)
      case Match(_, _) => ParseMatch(book, ctx, stmts, index)
      case _ => Ok(Lowered(None, ctx))
  }

  /** An assignment `x = e`. In the `main` context a call of the traced
      function is the final `return`, and an assignment to a name that is
      not one of its parameters is skipped; `x = benda.switch()` starts a
      switch; otherwise it is `x = e'` followed by the rest. */
  function ParseAssign(book: Bend.Book, ctx: Option<Context>, stmts: seq<Py.Stmt>, index: nat): Result<Lowered>
    requires index < |stmts| && stmts[index].Assign?
    decreases stmts, |stmts| - index, 3, 0
  {
    var a := stmts[index];
    var v :- ParseExprType(book, ctx, a.value);
    var value :- Unwrap(v, UNWRAP_NONE);
    var name :- TargetName(a.targets);
    if ctx.Some? && ctx.value.now == MainCtx && IsCallOf(value, ctx.value.sub) then
      Ok(Lowered(Some(Statement(Bend.Return(value.e))), ctx))
    else if ctx.Some? && ctx.value.now == MainCtx && name !in ctx.value.vars then
      ParseVec(book, ctx, stmts, index + 1)
    else
      var nxt :- ParseVec(book, ctx, stmts, index + 1);
      if IsCallOf(value, "switch") then ParseSwitch(book, nxt.ctx, name, nxt.out, stmts, index)
      else if value.FExpr? then
        var n :- NxtStmt(nxt.out);
        Ok(Lowered(Some(Statement(Bend.Assign(name, value.e, n))), nxt.ctx))
      else Ok(Lowered(Some(value), nxt.ctx))
  }

  /** An `if`: both branches must lower to statements. */
  function ParseIf(book: Bend.Book, ctx: Option<Context>, stmts: seq<Py.Stmt>, index: nat): Result<Lowered>
    requires index < |stmts| && stmts[index].If?
    decreases stmts, |stmts| - index, 3, 0
  {
    var s := stmts[index];
    var cond :- ParseExprType(book, ctx, s.test);
    var th :- ParseVec(book, ctx, s.body, 0);
    var ot :- ParseVec(book, th.ctx, s.orelse, 0);
    var nxt :- ParseVec(book, ot.ctx, stmts, index + 1);
    if cond.Some? && cond.value.FExpr? && StmtOf(th.out).Some? && StmtOf(ot.out).Some? then
      Ok(Lowered(Some(Statement(Bend.If(cond.value.e, StmtOf(th.out).value, StmtOf(ot.out).value, StmtOf(nxt.out)))), nxt.ctx))
    else Err(Panic(IF_MSG))
  }

  /** A `return`; a bare `return` lowers to nothing. */
  function ParseReturn(book: Bend.Book, ctx: Option<Context>, value: Option<Py.Expr>): Result<Lowered>
  {
    match value
    case None => Ok(Lowered(None, ctx))
    case Some(v) =>
      var t :- ParseExprType(book, ctx, v);
      var term :- Unwrap(t, UNWRAP_NONE);
      if term.FExpr? then Ok(Lowered(Some(Statement(Bend.Return(term.e))), ctx)) else Err(Panic(TODO))
  }

  /** An expression statement: only a call of the traced function in the
      `main` context means something (the final `return`). */
  function ParseExprStmt(book: Bend.Book, ctx: Option<Context>, e: Py.Expr): Result<Lowered>
  {
    if ctx.Some? && ctx.value.now == MainCtx then
      var v :- ParseExprType(book, ctx, e);
      if v.Some? && IsCallOf(v.value, ctx.value.sub) then Ok(Lowered(Some(Statement(Bend.Return(v.value.e))), ctx))
      else Ok(Lowered(None, ctx))
    else Ok(Lowered(None, ctx))
  }

  /** What the pattern of one case contributes: the constructor it names,
      if it names one, and the bound names (of a class pattern) added to
      those of the earlier cases. */
  function PatternName(book: Bend.Book, ctx: Option<Context>, p: Py.Pattern, patt: seq<string>): (r: Result<(Option<string>, seq<string>)>)
    ensures r.Ok? ==> |patt| <= |r.value.1| && r.value.1[..|patt|] == patt
    ensures r.Ok? ==> (p.MatchValue? || p.MatchClass?)
                      && r.value.1 == (if p.MatchClass? then patt + BoundNames(p.patterns) else patt)
    ensures r.Ok? ==> (p.MatchValue? || p.MatchClass?)
                      && var h := ParseExprType(book, ctx, PatternHead(p));
                         h.Ok? && h.value.Some?
                         && (r.value.0.Some? <==> h.value.value.FExpr? && h.value.value.e.Var?)
                         && (r.value.0.Some? ==> h.value.value == FExpr(Bend.Var(r.value.0.value)))
    ensures (p.MatchValue? || p.MatchClass?) && ParseExprType(book, ctx, PatternHead(p)).Err? ==>
              r == Err(ParseExprType(book, ctx, PatternHead(p)).error)
    ensures !(p.MatchValue? || p.MatchClass?) ==> r == Err(Panic(TODO))
  {
    match p
    case MatchValue(v) =>
      var e :- ParseExprType(book, ctx, v);
      var x :- Unwrap(e, UNWRAP_NONE);
      Ok((GetVarName(x), patt))
    case MatchClass(cls, pats) =>
      var e :- ParseExprType(book, ctx, cls);
      var x :- Unwrap(e, UNWRAP_NONE);
      Ok((GetVarName(x), patt + BoundNames(pats)))
    case _ => Err(Panic(TODO))
  }

  /** The expression a value or class pattern names: the value, or the class. */
  function PatternHead(p: Py.Pattern): Py.Expr
    requires p.MatchValue? || p.MatchClass?
  {
    if p.MatchValue? then p.value else p.cls
  }

  /** The names the `MatchAs` sub-patterns of a class pattern bind, in order. */
  function BoundNames(pats: seq<Py.Pattern>): (ns: seq<string>)
    ensures forall n :: n in ns <==> exists k :: 0 <= k < |pats| && pats[k] == Py.MatchAs(Some(n))
  {
    if |pats| == 0 then []
    else
      var rest := BoundNames(pats[1..]);
      assert forall k :: 1 <= k < |pats| ==> pats[k] == pats[1..][k - 1];
      if pats[0].MatchAs? && pats[0].name.Some? then [pats[0].name.value] + rest else rest
  }

  datatype Arms = Arms(arms: seq<Bend.MatchArm>, patt: seq<string>, ctx: Option<Context>)

  /** `parse_match`: the arms, then the subject (lowered with no context),
      then the rest of the list as the continuation. */
  function ParseMatch(book: Bend.Book, ctx: Option<Context>, stmts: seq<Py.Stmt>, index: nat): Result<Lowered>
    requires index < |stmts| && stmts[index].Match?
    decreases stmts, |stmts| - index, 3, 0
  {
    var acc :- MatchArms(book, ctx, stmts, index, 0, [], []);
    var s :- ParseExprType(book, None, stmts[index].subject);
    if s.Some? && s.value.FExpr? then
      var nxt :- ParseVec(book, None, stmts, index + 1);
      var bind := if s.value.e.Var? then Some(s.value.e.nam) else None;
      Ok(Lowered(Some(Statement(Bend.Match(s.value.e, bind, acc.arms, StmtOf(nxt.out)))), nxt.ctx))
    else Ok(Lowered(None, None))
  }

  /** The arms of the match at `index` from case i on. Before each arm's
      body is lowered, a subject that lowers to a name sets the match
      context: that name, with every name bound so far in this match. */
  function MatchArms(book: Bend.Book, ctx: Option<Context>, stmts: seq<Py.Stmt>, index: nat, i: nat,
                     arms: seq<Bend.MatchArm>, patt: seq<string>): Result<Arms>
    requires index < |stmts| && stmts[index].Match? && i <= |stmts[index].cases|
    decreases stmts, |stmts| - index, 2, |stmts[index].cases| - i
  {
    if i == |stmts[index].cases| then Ok(Arms(arms, patt, ctx))
    else
      var c :- MatchCase(book, ctx, stmts, index, i, patt);
      MatchArms(book, c.ctx, stmts, index, i + 1, if c.arm.Some? then arms + [c.arm.value] else arms, c.patt)
  }

  /** One case of a match: its pattern, then the subject (which sets the
      match context when it lowers to a name), then its body. */
  datatype CaseResult = CaseResult(arm: Option<Bend.MatchArm>, patt: seq<string>, ctx: Option<Context>)

  function MatchCase(book: Bend.Book, ctx: Option<Context>, stmts: seq<Py.Stmt>, index: nat, i: nat,
                     patt: seq<string>): (r: Result<CaseResult>)
    requires index < |stmts| && stmts[index].Match? && i < |stmts[index].cases|
    ensures r.Ok? ==> |patt| <= |r.value.patt| && r.value.patt[..|patt|] == patt
    decreases stmts, |stmts| - index, 2, 0
  {
    var m := stmts[index];
    var c := m.cases[i];
    var p :- PatternName(book, ctx, c.pattern, patt);
    var sub :- ParseExprType(book, ctx, m.subject);
    var armCtx := ArmCtx(book, ctx, m.subject, p.1);
    var arm :- ParseVec(book, armCtx, c.body, 0);
    var a := if p.0.Some? && StmtOf(arm.out).Some?
             then Some(Bend.MatchArm(FindInCtrs(book.ctrs, p.0.value), StmtOf(arm.out).value))
             else None;
    Ok(CaseResult(a, p.1, arm.ctx))
  }

  /** `parse_switch` for the assignment at `index`: the `match` right after
      it gives the subject and the arms. */
  function ParseSwitch(book: Bend.Book, ctx: Option<Context>, name: string, nxt: Option<FromExpr>,
                       stmts: seq<Py.Stmt>, index: nat): Result<Lowered>
    requires index < |stmts|
    decreases stmts, |stmts| - index, 2, 0
  {
    if index + 1 < |stmts| && stmts[index + 1].Match? then
      var acc :- SwitchArms(book, ctx, stmts, index, 0, []);
      var s :- ParseExprType(book, acc.1, stmts[index + 1].subject);
      if s.Some? && s.value.FExpr? then
        var n :- NxtStmt(nxt);
        Ok(Lowered(Some(Statement(Bend.Switch(s.value.e, Some(name), acc.0, n))), acc.1))
      else Ok(Lowered(None, acc.1))
    else Ok(Lowered(None, ctx))
  }

  /** The case bodies of the switch's `match` from case i on; those that
      lower to statements are the arms. */
  function SwitchArms(book: Bend.Book, ctx: Option<Context>, stmts: seq<Py.Stmt>, index: nat, i: nat,
                      arms: seq<Bend.Stmt>): Result<(seq<Bend.Stmt>, Option<Context>)>
    requires index + 1 < |stmts| && stmts[index + 1].Match? && i <= |stmts[index + 1].cases|
    decreases stmts, |stmts| - index, 1, |stmts[index + 1].cases| - i
  {
    var cases := stmts[index + 1].cases;
    if i == |cases| then Ok((arms, ctx))
    else
      var arm :- ParseVec(book, ctx, cases[i].body, 0);
      SwitchArms(book, arm.ctx, stmts, index, i + 1, if StmtOf(arm.out).Some? then arms + [StmtOf(arm.out).value] else arms)
  }

  // ---------------------------------------------------------------------
  // Properties of the expression lowering

  /** Inside a match arm a name the arm's patterns bound is read from the
      subject; every other name, and every name outside a match arm, is
      left as it is. */
  lemma NameLowering(book: Bend.Book, ctx: Option<Context>, id: string)
    ensures ctx.Some? && ctx.value.now == MatchCtx && id in ctx.value.vars ==>
              ParseExprType(book, ctx, Py.Name(id)) == Ok(Some(FExpr(Bend.Var(ctx.value.sub + "." + id))))
    ensures !(ctx.Some? && ctx.value.now == MatchCtx && id in ctx.value.vars) ==>
              ParseExprType(book, ctx, Py.Name(id)) == Ok(Some(FExpr(Bend.Var(id))))
  {
  }

  /** An expression never lowers to a statement. */
  lemma {:induction false} ExprNeverStatement(book: Bend.Book, ctx: Option<Context>, e: Py.Expr)
    ensures var r := ParseExprType(book, ctx, e);
      r.Ok? && r.value.Some? ==> !r.value.value.Statement?
  {
    if e.Call? {
      ExprNeverStatement(book, ctx, e.func);
    }
  }

  /** Two operands that lower to bare names always make a field list, for
      arithmetic too: both names (not recursive) when either names a
      datatype, none otherwise. `@`, `%` and `//` panic first. */
  lemma BinOpOfNames(book: Bend.Book, ctx: Option<Context>, e: Py.Expr, nl: string, nr: string)
    requires e.BinOp?
    requires ParseExprType(book, ctx, e.left) == Ok(Some(FExpr(Bend.Var(nl))))
    requires ParseExprType(book, ctx, e.right) == Ok(Some(FExpr(Bend.Var(nr))))
    ensures e.op.MatMult? || e.op.Mod? || e.op.FloorDiv? ==> ParseExprType(book, ctx, e) == Err(Panic(TODO))
    ensures !(e.op.MatMult? || e.op.Mod? || e.op.FloorDiv?) ==>
              ParseExprType(book, ctx, e) ==
                Ok(Some(CtrFields(
                  if nl in Keys(book.adts) || nr in Keys(book.adts)
                  then [Bend.CtrField(nl, false), Bend.CtrField(nr, false)]
                  else [])))
  {
  }

  /** Operands that lower to expressions, not both bare names, make a
      binary operation. */
  lemma BinOpOfExprs(book: Bend.Book, ctx: Option<Context>, e: Py.Expr, l: Bend.Expr, r: Bend.Expr)
    requires e.BinOp? && !(l.Var? && r.Var?)
    requires ParseExprType(book, ctx, e.left) == Ok(Some(FExpr(l)))
    requires ParseExprType(book, ctx, e.right) == Ok(Some(FExpr(r)))
    ensures OperatorOf(e.op).Err? ==> ParseExprType(book, ctx, e) == Err(Panic(TODO))
    ensures OperatorOf(e.op).Ok? ==> ParseExprType(book, ctx, e) == Ok(Some(FExpr(Bend.Bin(OperatorOf(e.op).value, l, r))))
  {
  }

  /** So `a + b` on two plain names, with neither a datatype, lowers to an
      empty field list and not to an addition; a `return a + b` therefore
      panics. */
  lemma SumOfNamesIsNoExpr(book: Bend.Book, a: string, b: string)
    requires a !in Keys(book.adts) && b !in Keys(book.adts)
    ensures ParseExprType(book, None, Py.BinOp(Py.Name(a), Py.Add, Py.Name(b))) == Ok(Some(CtrFields([])))
    ensures ParseReturn(book, None, Some(Py.BinOp(Py.Name(a), Py.Add, Py.Name(b)))) == Err(Panic(TODO))
  {
    var e := Py.BinOp(Py.Name(a), Py.Add, Py.Name(b));
    NameLowering(book, None, a);
    NameLowering(book, None, b);
    BinOpOfNames(book, None, e, a, b);
  }

  /** The constructor `find_in_ctrs` finds is the first one, in
      registration order, with the name among its segments. */
  lemma {:induction false} FindInCtrsFirst(ctrs: Entries<string, string>, nam: string, j: nat)
    requires j < |ctrs| && nam in Split(ctrs[j].0, '/')
    requires forall k :: 0 <= k < j ==> nam !in Split(ctrs[k].0, '/')
    ensures FindInCtrs(ctrs, nam) == Some(ctrs[j].0)
  {
    if j > 0 {
      assert ctrs[1..][j - 1] == ctrs[j];
      FindInCtrsFirst(ctrs[1..], nam, j - 1);
    }
  }

  /** Call arguments that are plain names are all kept, in order. */
  lemma {:induction false} ArgsOfNames(book: Bend.Book, ctx: Option<Context>, c: Py.Expr, i: nat)
    requires c.Call? && i <= |c.args|
    requires forall k :: i <= k < |c.args| ==> c.args[k].Name?
    ensures var r := ParseArgs(book, ctx, c, i);
      && r.Ok? && |r.value| == |c.args| - i
      && forall k :: 0 <= k < |c.args| - i ==> r.value[k] == Bend.Var(NameIn(ctx, c.args[i + k].id))
    decreases |c.args| - i
  {
    if i < |c.args| {
      ArgsOfNames(book, ctx, c, i + 1);
      var rest := ParseArgs(book, ctx, c, i + 1).value;
      var x := Bend.Var(NameIn(ctx, c.args[i].id));
      assert c.args[i] == Py.Name(c.args[i].id);
      NameLowering(book, ctx, c.args[i].id);
      assert ParseExprType(book, ctx, c.args[i]) == Ok(Some(FExpr(x)));
      assert ParseArgs(book, ctx, c, i) == Ok([x] + rest);
      forall k | 0 <= k < |c.args| - i
        ensures ([x] + rest)[k] == Bend.Var(NameIn(ctx, c.args[i + k].id))
      {
        if k > 0 {
          assert ([x] + rest)[k] == rest[k - 1];
          assert i + 1 + (k - 1) == i + k;
        }
      }
    }
  }

  /** A call of a name: a constructor application when the name is a
      segment of a registered constructor, a function call otherwise. */
  lemma CallOfName(book: Bend.Book, ctx: Option<Context>, f: string, args: seq<Py.Expr>)
    ensures var r := ParseExprType(book, ctx, Py.Call(Py.Name(f), args));
      var nam := NameIn(ctx, f);
      var xs := ParseArgs(book, ctx, Py.Call(Py.Name(f), args), 0);
      && (xs.Err? ==> r == Err(xs.error))
      && (xs.Ok? && FindInCtrs(book.ctrs, nam).Some? ==>
            r == Ok(Some(FExpr(Bend.Constructor(FindInCtrs(book.ctrs, nam).value, xs.value)))))
      && (xs.Ok? && FindInCtrs(book.ctrs, nam).None? ==> r == Ok(Some(FExpr(Bend.Call(Bend.Var(nam), xs.value)))))
  {
    NameLowering(book, ctx, f);
  }

  // ---------------------------------------------------------------------
  // Properties of the statement lowering

  /** Past the end of the list, at a bare `return` and at a statement kind
      the lowering does not handle, nothing is lowered and nothing after it
      is looked at. */
  lemma ParseVecNothing(book: Bend.Book, ctx: Option<Context>, stmts: seq<Py.Stmt>, index: nat)
    requires index >= |stmts| || stmts[index].FunctionDef? || stmts[index].ClassDef?
             || stmts[index].AnnAssign? || stmts[index].OtherStmt? || stmts[index] == Py.Return(None)
    ensures ParseVec(book, ctx, stmts, index) == Ok(Lowered(None, ctx))
  {
  }

  /** A bare expression statement is the final `return` only in the main
      context and only for a call of the traced function; otherwise it
      lowers to nothing and ends the chain. */
  lemma ParseVecExprStmt(book: Bend.Book, ctx: Option<Context>, stmts: seq<Py.Stmt>, index: nat)
    requires index < |stmts| && stmts[index].ExprStmt?
    ensures var r := ParseVec(book, ctx, stmts, index);
      var v := ParseExprType(book, ctx, stmts[index].expr);
      if ctx.Some? && ctx.value.now == MainCtx && v.Ok? && v.value.Some? && IsCallOf(v.value.value, ctx.value.sub)
      then r == Ok(Lowered(Some(Statement(Bend.Return(v.value.value.e))), ctx))
      else r.Ok? ==> r.value == Lowered(None, ctx)
    ensures ParseVec(book, ctx, stmts, index).Err? ==> ctx.Some? && ctx.value.now == MainCtx
  {
  }

  /** An assignment `x = e` outside the main context, with `e` not a
      switch, is `x = e'` with the lowering of the rest as its
      continuation; a continuation that is not a statement panics. */
  lemma ParseVecAssign(book: Bend.Book, ctx: Option<Context>, stmts: seq<Py.Stmt>, index: nat, x: string, v: Bend.Expr)
    requires index < |stmts| && stmts[index].Assign? && TargetName(stmts[index].targets) == Ok(x)
    requires ParseExprType(book, ctx, stmts[index].value) == Ok(Some(FExpr(v)))
    requires ctx.None? || ctx.value.now == MatchCtx
    requires !IsCallOf(FExpr(v), "switch")
    ensures var nxt := ParseVec(book, ctx, stmts, index + 1);
      ParseVec(book, ctx, stmts, index) ==
        if nxt.Err? then Err(nxt.error)
        else if nxt.value.out.Some? && !nxt.value.out.value.Statement? then Err(Panic(TODO))
        else Ok(Lowered(Some(Statement(Bend.Assign(x, v, StmtOf(nxt.value.out)))), nxt.value.ctx))
  {
  }

  /** In the main context an assignment to a name that is not a parameter
      of the traced function, and whose value is not a call of it, is
      skipped. */
  lemma MainSkipsAssign(book: Bend.Book, ctx: Option<Context>, stmts: seq<Py.Stmt>, index: nat, x: string, v: FromExpr)
    requires ctx.Some? && ctx.value.now == MainCtx
    requires index < |stmts| && stmts[index].Assign? && TargetName(stmts[index].targets) == Ok(x)
    requires ParseExprType(book, ctx, stmts[index].value) == Ok(Some(v))
    requires x !in ctx.value.vars && !IsCallOf(v, ctx.value.sub)
    ensures ParseVec(book, ctx, stmts, index) == ParseVec(book, ctx, stmts, index + 1)
  {
  }

  /** An `if` is lowered only when its test lowers to an expression and
      both branches to statements; any other outcome, a missing `else`
      included, panics. */
  lemma ParseVecIf(book: Bend.Book, ctx: Option<Context>, stmts: seq<Py.Stmt>, index: nat)
    requires index < |stmts| && stmts[index].If?
    ensures var s := stmts[index];
      var cond := ParseExprType(book, ctx, s.test);
      var th := ParseVec(book, ctx, s.body, 0);
      var ot := if th.Ok? then ParseVec(book, th.value.ctx, s.orelse, 0) else th;
      var nxt := if ot.Ok? then ParseVec(book, ot.value.ctx, stmts, index + 1) else ot;
      var r := ParseVec(book, ctx, stmts, index);
      cond.Ok? && nxt.Ok? ==>
        if cond.value.Some? && cond.value.value.FExpr? && StmtOf(th.value.out).Some? && StmtOf(ot.value.out).Some?
        then r == Ok(Lowered(Some(Statement(Bend.If(cond.value.value.e, StmtOf(th.value.out).value,
                                                     StmtOf(ot.value.out).value, StmtOf(nxt.value.out)))),
                             nxt.value.ctx))
        else r == Err(Panic(IF_MSG))
  {
  }

  /** An `if` without an `else` panics once its parts lower. */
  lemma IfWithoutElse(book: Bend.Book, ctx: Option<Context>, stmts: seq<Py.Stmt>, index: nat)
    requires index < |stmts| && stmts[index].If? && stmts[index].orelse == []
    requires ParseExprType(book, ctx, stmts[index].test).Ok? && ParseVec(book, ctx, stmts[index].body, 0).Ok?
    requires ParseVec(book, ParseVec(book, ctx, stmts[index].body, 0).value.ctx, stmts, index + 1).Ok?
    ensures ParseVec(book, ctx, stmts, index) == Err(Panic(IF_MSG))
  {
    ParseVecIf(book, ctx, stmts, index);
  }

  // ---------------------------------------------------------------------
  // The context the lowering leaves

  /** Lowering a list leaves the context it started with, or none (after a
      `match`). */
  lemma {:induction false} VecCtx(book: Bend.Book, ctx: Option<Context>, stmts: seq<Py.Stmt>, index: nat)
    ensures var r := ParseVec(book, ctx, stmts, index);
      r.Ok? ==> r.value.ctx == ctx || r.value.ctx.None?
    decreases stmts, |stmts| - index, 4, 0
  {
    if index < |stmts| {
      match stmts[index]
      case Assign(_, _) => AssignCtx(book, ctx, stmts, index);
      case If(_, _, _) => IfCtx(book, ctx, stmts, index);
      case Match(_, _) => MatchLeavesNoCtx(book, ctx, stmts, index);
      case _ =>
    }
  }

  lemma {:induction false} AssignCtx(book: Bend.Book, ctx: Option<Context>, stmts: seq<Py.Stmt>, index: nat)
    requires index < |stmts| && stmts[index].Assign?
    ensures var r := ParseAssign(book, ctx, stmts, index);
      r.Ok? ==> r.value.ctx == ctx || r.value.ctx.None?
    decreases stmts, |stmts| - index, 3, 0
  {
    VecCtx(book, ctx, stmts, index + 1);
    var nxt := ParseVec(book, ctx, stmts, index + 1);
    if nxt.Ok? {
      var v := ParseExprType(book, ctx, stmts[index].value);
      var name := TargetName(stmts[index].targets);
      if v.Ok? && v.value.Some? && name.Ok? {
        SwitchCtx(book, nxt.value.ctx, name.value, nxt.value.out, stmts, index);
      }
    }
  }

  lemma {:induction false} IfCtx(book: Bend.Book, ctx: Option<Context>, stmts: seq<Py.Stmt>, index: nat)
    requires index < |stmts| && stmts[index].If?
    ensures var r := ParseIf(book, ctx, stmts, index);
      r.Ok? ==> r.value.ctx == ctx || r.value.ctx.None?
    decreases stmts, |stmts| - index, 3, 0
  {
    var s := stmts[index];
    VecCtx(book, ctx, s.body, 0);
    var th := ParseVec(book, ctx, s.body, 0);
    if th.Ok? {
      VecCtx(book, th.value.ctx, s.orelse, 0);
      var ot := ParseVec(book, th.value.ctx, s.orelse, 0);
      if ot.Ok? {
        VecCtx(book, ot.value.ctx, stmts, index + 1);
      }
    }
  }

  /** After a `match` no context is left. */
  lemma {:induction false} MatchLeavesNoCtx(book: Bend.Book, ctx: Option<Context>, stmts: seq<Py.Stmt>, index: nat)
    requires index < |stmts| && stmts[index].Match?
    ensures var r := ParseMatch(book, ctx, stmts, index);
      r.Ok? ==> r.value.ctx.None?
    decreases stmts, |stmts| - index, 3, 0
  {
    VecCtx(book, None, stmts, index + 1);
  }

  lemma {:induction false} SwitchCtx(book: Bend.Book, ctx: Option<Context>, name: string, nxt: Option<FromExpr>,
                                     stmts: seq<Py.Stmt>, index: nat)
    requires index < |stmts|
    ensures var r := ParseSwitch(book, ctx, name, nxt, stmts, index);
      r.Ok? ==> r.value.ctx == ctx || r.value.ctx.None?
    decreases stmts, |stmts| - index, 2, 0
  {
    if index + 1 < |stmts| && stmts[index + 1].Match? {
      SwitchArmsCtx(book, ctx, stmts, index, 0, []);
    }
  }

  lemma {:induction false} SwitchArmsCtx(book: Bend.Book, ctx: Option<Context>, stmts: seq<Py.Stmt>, index: nat, i: nat,
                                         arms: seq<Bend.Stmt>)
    requires index + 1 < |stmts| && stmts[index + 1].Match? && i <= |stmts[index + 1].cases|
    ensures var r := SwitchArms(book, ctx, stmts, index, i, arms);
      r.Ok? ==> r.value.1 == ctx || r.value.1.None?
    decreases stmts, |stmts| - index, 1, |stmts[index + 1].cases| - i
  {
    var cases := stmts[index + 1].cases;
    if i < |cases| {
      VecCtx(book, ctx, cases[i].body, 0);
      var arm := ParseVec(book, ctx, cases[i].body, 0);
      if arm.Ok? {
        var arms' := if StmtOf(arm.value.out).Some? then arms + [StmtOf(arm.value.out).value] else arms;
        SwitchArmsCtx(book, arm.value.ctx, stmts, index, i + 1, arms');
      }
    }
  }

  // ---------------------------------------------------------------------
  // match and switch

  /** The names bound by the class patterns of a match accumulate: each
      arm sees those of the arms before it. */
  lemma {:induction false} MatchPattAccumulates(book: Bend.Book, ctx: Option<Context>, stmts: seq<Py.Stmt>, index: nat, i: nat,
                                                arms: seq<Bend.MatchArm>, patt: seq<string>)
    requires index < |stmts| && stmts[index].Match? && i <= |stmts[index].cases|
    ensures var r := MatchArms(book, ctx, stmts, index, i, arms, patt);
      r.Ok? ==> |patt| <= |r.value.patt| && r.value.patt[..|patt|] == patt
    decreases |stmts[index].cases| - i
  {
    if i < |stmts[index].cases| {
      var c := MatchCase(book, ctx, stmts, index, i, patt);
      if c.Ok? {
        var arms' := if c.value.arm.Some? then arms + [c.value.arm.value] else arms;
        MatchPattAccumulates(book, c.value.ctx, stmts, index, i + 1, arms', c.value.patt);
        var r := MatchArms(book, c.value.ctx, stmts, index, i + 1, arms', c.value.patt);
        if r.Ok? {
          PrefixOfPrefix(patt, c.value.patt, r.value.patt);
        }
      }
    }
  }

  /** The arms come in case order, one at most per case. */
  lemma MatchArmsInOrder(book: Bend.Book, ctx: Option<Context>, stmts: seq<Py.Stmt>, index: nat, i: nat,
                         arms: seq<Bend.MatchArm>, patt: seq<string>)
    requires index < |stmts| && stmts[index].Match? && i <= |stmts[index].cases|
    ensures var r := MatchArms(book, ctx, stmts, index, i, arms, patt);
      r.Ok? ==> |arms| <= |r.value.arms| <= |arms| + |stmts[index].cases| - i && r.value.arms[..|arms|] == arms
  {
    MatchArmsPrefix(book, ctx, stmts, index, i, arms, patt);
    MatchArmsCount(book, ctx, stmts, index, i, arms, patt);
  }

  lemma {:induction false} MatchArmsPrefix(book: Bend.Book, ctx: Option<Context>, stmts: seq<Py.Stmt>, index: nat, i: nat,
                                           arms: seq<Bend.MatchArm>, patt: seq<string>)
    requires index < |stmts| && stmts[index].Match? && i <= |stmts[index].cases|
    ensures var r := MatchArms(book, ctx, stmts, index, i, arms, patt);
      r.Ok? ==> |arms| <= |r.value.arms| && r.value.arms[..|arms|] == arms
    decreases |stmts[index].cases| - i
  {
    if i < |stmts[index].cases| {
      var c := MatchCase(book, ctx, stmts, index, i, patt);
      if c.Ok? {
        var arms' := if c.value.arm.Some? then arms + [c.value.arm.value] else arms;
        MatchArmsPrefix(book, c.value.ctx, stmts, index, i + 1, arms', c.value.patt);
        var r := MatchArms(book, c.value.ctx, stmts, index, i + 1, arms', c.value.patt);
        if r.Ok? {
          PrefixOfPrefix(arms, arms', r.value.arms);
        }
      }
    }
  }

  lemma {:induction false} MatchArmsCount(book: Bend.Book, ctx: Option<Context>, stmts: seq<Py.Stmt>, index: nat, i: nat,
                                          arms: seq<Bend.MatchArm>, patt: seq<string>)
    requires index < |stmts| && stmts[index].Match? && i <= |stmts[index].cases|
    ensures var r := MatchArms(book, ctx, stmts, index, i, arms, patt);
      r.Ok? ==> |r.value.arms| <= |arms| + |stmts[index].cases| - i
    decreases |stmts[index].cases| - i
  {
    if i < |stmts[index].cases| {
      var c := MatchCase(book, ctx, stmts, index, i, patt);
      if c.Ok? {
        var arms' := if c.value.arm.Some? then arms + [c.value.arm.value] else arms;
        MatchArmsCount(book, c.value.ctx, stmts, index, i + 1, arms', c.value.patt);
      }
    }
  }

  lemma PrefixOfPrefix<T>(a: seq<T>, b: seq<T>, c: seq<T>)
    requires |a| <= |b| <= |c| && b[..|a|] == a && c[..|b|] == b
    ensures c[..|a|] == a
  {
    assert c[..|a|] == c[..|b|][..|a|];
  }

  /** The context an arm's body is lowered in: the match context over the
      subject's name and the names bound so far, when the subject lowers to
      a name; the surrounding context otherwise. */
  function ArmCtx(book: Bend.Book, ctx: Option<Context>, subject: Py.Expr, patt: seq<string>): (c: Option<Context>)
    ensures var sub := ParseExprType(book, ctx, subject);
      sub.Ok? && sub.value.Some? && sub.value.value.FExpr? && sub.value.value.e.Var? ==>
        c == Some(Context(MatchCtx, patt, sub.value.value.e.nam))
  {
    var sub := ParseExprType(book, ctx, subject);
    if sub.Ok? && sub.value.Some? && sub.value.value.FExpr? && sub.value.value.e.Var?
    then Some(Context(MatchCtx, patt, sub.value.value.e.nam))
    else ctx
  }

  /** One case of a match that lowers: its arm is tagged with the book
      constructor found for the name the pattern gives, and holds the case
      body lowered in the arm context. When the subject lowers to a name,
      every name bound so far (this case's included) reads in that body as
      a field of the subject. A pattern naming no constructor, or a body
      that is no statement, gives no arm. */
  lemma MatchCaseArm(book: Bend.Book, ctx: Option<Context>, stmts: seq<Py.Stmt>, index: nat, i: nat, patt: seq<string>)
    requires index < |stmts| && stmts[index].Match? && i < |stmts[index].cases|
    ensures var r := MatchCase(book, ctx, stmts, index, i, patt);
      var c := stmts[index].cases[i];
      var p := PatternName(book, ctx, c.pattern, patt);
      r.Ok? ==>
        && p.Ok? && ParseExprType(book, ctx, stmts[index].subject).Ok?
        && var armCtx := ArmCtx(book, ctx, stmts[index].subject, p.value.1);
           var body := ParseVec(book, armCtx, c.body, 0);
           && body.Ok?
           && r.value.patt == p.value.1
           && r.value.ctx == body.value.ctx
           && (r.value.arm.Some? <==> p.value.0.Some? && StmtOf(body.value.out).Some?)
           && (r.value.arm.Some? ==>
                 r.value.arm.value == Bend.MatchArm(FindInCtrs(book.ctrs, p.value.0.value), StmtOf(body.value.out).value))
           && var sub := ParseExprType(book, ctx, stmts[index].subject).value;
              (sub.Some? && sub.value.FExpr? && sub.value.e.Var? ==>
                 forall id :: id in p.value.1 ==>
                   ParseExprType(book, armCtx, Py.Name(id)) == Ok(Some(FExpr(Bend.Var(sub.value.e.nam + "." + id)))))
  {
    var r := MatchCase(book, ctx, stmts, index, i, patt);
    if r.Ok? {
      var p := PatternName(book, ctx, stmts[index].cases[i].pattern, patt);
      var armCtx := ArmCtx(book, ctx, stmts[index].subject, p.value.1);
      var sub := ParseExprType(book, ctx, stmts[index].subject).value;
      if sub.Some? && sub.value.FExpr? && sub.value.e.Var? {
        forall id | id in p.value.1
          ensures ParseExprType(book, armCtx, Py.Name(id)) == Ok(Some(FExpr(Bend.Var(sub.value.e.nam + "." + id))))
        {
          NameLowering(book, armCtx, id);
        }
      }
    }
  }

  /** The arms of a match follow the cases: when case i lowers to an arm,
      that arm comes right after the ones collected before it, and the
      collection goes on from case i + 1 with the names and context case i
      leaves. */
  lemma MatchArmsNext(book: Bend.Book, ctx: Option<Context>, stmts: seq<Py.Stmt>, index: nat, i: nat,
                      arms: seq<Bend.MatchArm>, patt: seq<string>)
    requires index < |stmts| && stmts[index].Match? && i < |stmts[index].cases|
    ensures var r := MatchArms(book, ctx, stmts, index, i, arms, patt);
      var c := MatchCase(book, ctx, stmts, index, i, patt);
      r.Ok? ==>
        && c.Ok?
        && r == MatchArms(book, c.value.ctx, stmts, index, i + 1,
                          if c.value.arm.Some? then arms + [c.value.arm.value] else arms, c.value.patt)
        && (c.value.arm.Some? ==> |arms| < |r.value.arms| && r.value.arms[|arms|] == c.value.arm.value)
  {
    var r := MatchArms(book, ctx, stmts, index, i, arms, patt);
    var c := MatchCase(book, ctx, stmts, index, i, patt);
    if r.Ok? && c.value.arm.Some? {
      var arms' := arms + [c.value.arm.value];
      MatchArmsPrefix(book, c.value.ctx, stmts, index, i + 1, arms', c.value.patt);
      assert r.value.arms[..|arms'|] == arms';
      assert r.value.arms[|arms|] == r.value.arms[..|arms'|][|arms|];
    }
  }

  /** A lowered `match` statement holds exactly the arms `MatchArms`
      collects from the first case, with no names bound yet. */
  lemma ParseMatchArms(book: Bend.Book, ctx: Option<Context>, stmts: seq<Py.Stmt>, index: nat)
    requires index < |stmts| && stmts[index].Match?
    ensures var r := ParseMatch(book, ctx, stmts, index);
      var a := MatchArms(book, ctx, stmts, index, 0, [], []);
      r.Ok? ==>
        && a.Ok?
        && (r.value.out.Some? ==>
              r.value.out.value.Statement? && r.value.out.value.s.Match? && r.value.out.value.s.arms == a.value.arms)
  {
  }

  /** A lowered `match` binds its subject when the subject lowers to a
      name, keeps the continuation's statement and leaves no context. */
  lemma ParseMatchShape(book: Bend.Book, ctx: Option<Context>, stmts: seq<Py.Stmt>, index: nat)
    requires index < |stmts| && stmts[index].Match?
    ensures var r := ParseMatch(book, ctx, stmts, index);
      r.Ok? ==>
        && r.value.ctx.None?
        && (r.value.out.Some? ==>
              && r.value.out.value.Statement? && r.value.out.value.s.Match?
              && var m := r.value.out.value.s;
                 (m.bind.Some? <==> m.arg.Var?)
                 && (m.bind.Some? ==> m.bind.value == m.arg.nam)
                 && |m.arms| <= |stmts[index].cases|)
        && (r.value.out.None? <==>
              var s := ParseExprType(book, None, stmts[index].subject);
              !(s.Ok? && s.value.Some? && s.value.value.FExpr?))
  {
    MatchLeavesNoCtx(book, ctx, stmts, index);
    MatchArmsInOrder(book, ctx, stmts, index, 0, [], []);
  }

  /** The case bodies of a list of cases, each lowered on its own with no
      context; those that lower to statements, in order. */
  function CaseArms(book: Bend.Book, cases: seq<Py.MatchCase>, i: nat): Result<seq<Bend.Stmt>>
    requires i <= |cases|
    decreases |cases| - i
  {
    if i == |cases| then Ok([])
    else
      var arm :- ParseVec(book, None, cases[i].body, 0);
      var rest :- CaseArms(book, cases, i + 1);
      Ok((if StmtOf(arm.out).Some? then [StmtOf(arm.out).value] else []) + rest)
  }

  /** With no context, the switch's arms are the case bodies that lower to
      statements, in order. */
  lemma {:induction false} SwitchArmsNoCtx(book: Bend.Book, stmts: seq<Py.Stmt>, index: nat, i: nat, arms: seq<Bend.Stmt>)
    requires index + 1 < |stmts| && stmts[index + 1].Match? && i <= |stmts[index + 1].cases|
    ensures var cs := CaseArms(book, stmts[index + 1].cases, i);
      SwitchArms(book, None, stmts, index, i, arms) == if cs.Ok? then Ok((arms + cs.value, None)) else Err(cs.error)
    decreases |stmts[index + 1].cases| - i
  {
    var cases := stmts[index + 1].cases;
    if i < |cases| {
      VecCtx(book, None, cases[i].body, 0);
      var arm := ParseVec(book, None, cases[i].body, 0);
      if arm.Ok? {
        var a := if StmtOf(arm.value.out).Some? then [StmtOf(arm.value.out).value] else [];
        assert arm.value.ctx == None;
        assert arms + a == if StmtOf(arm.value.out).Some? then arms + [StmtOf(arm.value.out).value] else arms;
        assert SwitchArms(book, None, stmts, index, i, arms) == SwitchArms(book, None, stmts, index, i + 1, arms + a);
        SwitchArmsNoCtx(book, stmts, index, i + 1, arms + a);
        var cs := CaseArms(book, cases, i + 1);
        if cs.Ok? {
          assert CaseArms(book, cases, i) == Ok(a + cs.value);
          assert arms + a + cs.value == arms + (a + cs.value);
        } else {
          assert CaseArms(book, cases, i) == Err(cs.error);
        }
      }
    } else {
      assert arms + [] == arms;
    }
  }

  /** `parse_switch` gives nothing, and leaves the context as it was,
      unless a `match` follows the assignment. A `match` that follows has
      already been lowered and has cleared the context (`SwitchNxtIsMatch`),
      so the switch then runs with no context: once the subject lowers, it
      is a switch bound to the assigned name whose arms are the case bodies
      that lower to statements and whose continuation is the one given. */
  lemma ParseSwitchShape(book: Bend.Book, ctx: Option<Context>, name: string, nxt: Option<FromExpr>, stmts: seq<Py.Stmt>, index: nat)
    requires index < |stmts|
    ensures !(index + 1 < |stmts| && stmts[index + 1].Match?) ==>
              ParseSwitch(book, ctx, name, nxt, stmts, index) == Ok(Lowered(None, ctx))
    ensures index + 1 < |stmts| && stmts[index + 1].Match? ==>
              var cs := CaseArms(book, stmts[index + 1].cases, 0);
              var s := ParseExprType(book, None, stmts[index + 1].subject);
              var r := ParseSwitch(book, None, name, nxt, stmts, index);
              cs.Ok? && s.Ok? && s.value.Some? && s.value.value.FExpr? && NxtStmt(nxt).Ok? ==>
                r == Ok(Lowered(Some(Statement(Bend.Switch(s.value.value.e, Some(name), cs.value, StmtOf(nxt)))), None))
  {
    if index + 1 < |stmts| && stmts[index + 1].Match? {
      SwitchArmsNoCtx(book, stmts, index, 0, []);
      var cs := CaseArms(book, stmts[index + 1].cases, 0);
      if cs.Ok? {
        assert [] + cs.value == cs.value;
      }
    }
  }

  /** `x = benda.switch()` followed by a `match`, in any context. In the
      `main` context the assignment is either the final `return` (when the
      traced function is itself called `switch`) or skipped (when `x` is not
      one of its parameters). Otherwise the rest is lowered first; it starts
      with the `match`, which leaves no context, so `parse_switch` always
      runs with no context (the case `ParseSwitchShape` describes), and the
      switch's continuation is that same `match` again. */
  lemma SwitchNxtIsMatch(book: Bend.Book, ctx: Option<Context>, stmts: seq<Py.Stmt>, index: nat)
    requires index + 1 < |stmts| && stmts[index].Assign? && stmts[index + 1].Match?
    requires TargetName(stmts[index].targets).Ok?
    requires ParseExprType(book, ctx, stmts[index].value) == Ok(Some(FExpr(SwitchCall)))
    ensures ctx.Some? && ctx.value.now == MainCtx && ctx.value.sub == "switch" ==>
              ParseVec(book, ctx, stmts, index) == Ok(Lowered(Some(Statement(Bend.Return(SwitchCall))), ctx))
    ensures ctx.Some? && ctx.value.now == MainCtx && ctx.value.sub != "switch"
              && TargetName(stmts[index].targets).value !in ctx.value.vars ==>
              ParseVec(book, ctx, stmts, index) == ParseVec(book, ctx, stmts, index + 1)
    ensures var name := TargetName(stmts[index].targets).value;
      var r := ParseVec(book, ctx, stmts, index);
      var m := ParseMatch(book, ctx, stmts, index + 1);
      (ctx.None? || ctx.value.now == MatchCtx || (ctx.value.sub != "switch" && name in ctx.value.vars)) ==>
        && (m.Err? ==> r == Err(m.error))
        && (m.Ok? ==> r == ParseSwitch(book, None, name, m.value.out, stmts, index))
        && (r.Ok? && r.value.out.Some? ==>
              && r.value.out.value.Statement? && r.value.out.value.s.Switch?
              && r.value.out.value.s.bind == Some(name)
              && var n := r.value.out.value.s.nxt;
                 m.Ok? && n == StmtOf(m.value.out) && (n.Some? ==> n.value.Match?))
  {
    var name := TargetName(stmts[index].targets).value;
    var nxt := ParseVec(book, ctx, stmts, index + 1);
    assert nxt == ParseMatch(book, ctx, stmts, index + 1);
    assert IsCallOf(FExpr(SwitchCall), "switch");
    ParseMatchShape(book, ctx, stmts, index + 1);
    if nxt.Ok? {
      assert nxt.value.ctx.None?;
    }
  }
}
