/** A declarative statement of the typing rules the checker implements:
    `WellTyped` judges an ANNOTATED tree, asking only that every annotation
    follow from the environment and from its children's annotations. The
    lemmas show the checker computes exactly this typing: it succeeds on an
    unannotated tree precisely when a consistent annotation of that tree
    exists, returns that annotation, and changes nothing but annotations. */
module Typing {
  import opened Wrappers
  import opened Ast
  import opened TypeCheck

  /** Assignment compatibility as a relation. */
  predicate AssignOk(l: Type, r: Type, classes: map<string, Option<ClassEnv>>) {
    l == r || (l.ObjectType? && l.cls in classes && r == NoneType)
  }

  /** Each argument is annotated and assignable to its parameter. */
  predicate ArgsAssignable(params: seq<Type>, args: seq<Expr>, classes: map<string, Option<ClassEnv>>) {
    && |params| == |args|
    && forall i :: 0 <= i < |args| ==> args[i].a.Some? && AssignOk(params[i], args[i].a.value, classes)
  }

  /** Operands accepted by `is`, as the source's guard evaluates: the left
      operand decides alone when it is an object, otherwise both must be `None`. */
  predicate IsAccepted(l: Type, r: Type) {
    l.ObjectType? || (l == NoneType && r == NoneType)
  }

  /** The operator table: the result type of `l op r`, if the operands are accepted. */
  function OpResult(op: BinOp, l: Type, r: Type): Option<Type>
  {
    match op
    case Add | Sub | Mul | Div | Mod => if l == IntType && r == IntType then Some(IntType) else None
    case Lesser | LessEq | Greater | GreatEq => if l == IntType && r == IntType then Some(BoolType) else None
    case Equals | NotEquals => if l == r && l != NoneType then Some(BoolType) else None
    case Is => if IsAccepted(l, r) then Some(BoolType) else None
  }

  predicate HasClassEntry(classes: map<string, Option<ClassEnv>>, cls: string) {
    cls in classes && classes[cls].Some?
  }

  predicate BareOpt(recv: Option<Expr>) {
    recv.Some? ==> BareExpr(recv.value)
  }

  predicate WellTyped(env: TypeEnv, e: Expr)
    decreases e
  {
    match e
    case Id(x, a) => x in env.vars && a == Some(env.vars[x])
    case GetAttr(o, f, a) =>
      && WellTyped(env, o) && o.a.Some? && o.a.value.ObjectType?
      && HasClassEntry(env.classes, o.a.value.cls)
      && f in env.classes[o.a.value.cls].value.fields
      && a == Some(env.classes[o.a.value.cls].value.fields[f])
    case Builtin1(fn, x, a) =>
      && WellTyped(env, x) && x.a.Some?
      && (if fn == Print then a == Some(NoneType) else x.a == Some(IntType) && a == Some(IntType))
    case Builtin2(_, x, y, a) =>
      WellTyped(env, x) && WellTyped(env, y) && x.a == Some(IntType) && y.a == Some(IntType) && a == Some(IntType)
    case UniExpr(op, x, a) =>
      WellTyped(env, x) && x.a == Some(if op == Not then BoolType else IntType) && a == x.a
    case BinExpr(op, l, r, a) =>
      && WellTyped(env, l) && WellTyped(env, r) && l.a.Some? && r.a.Some?
      && OpResult(op, l.a.value, r.a.value).Some?
      && a == OpResult(op, l.a.value, r.a.value)
    case LiteralExpr(lit, a) => a == Some(LiteralType(lit))
    case Call(name, args, recv, a) =>
      && (forall i :: 0 <= i < |args| ==> WellTyped(env, args[i]))
      && if name in env.funcs then
           ArgsAssignable(env.funcs[name].params, args, env.classes) && a == Some(env.funcs[name].ret) && BareOpt(recv)
         else if name in env.classes then
           args == [] && a == Some(ObjectType(name)) && BareOpt(recv)
         else
           && recv.Some? && WellTyped(env, recv.value) && recv.value.a.Some? && recv.value.a.value.ObjectType?
           && HasClassEntry(env.classes, recv.value.a.value.cls)
           && name in env.classes[recv.value.a.value.cls].value.methods
           && var sig := env.classes[recv.value.a.value.cls].value.methods[name];
           && |sig.params| == |args| + 1
           && ArgsAssignable(sig.params[1..], args, env.classes)
           && a == Some(sig.ret)
  }

  predicate WellTypedStmt(env: TypeEnv, s: Stmt)
    decreases s
  {
    match s
    case Assign(NameTarget(x), v, a) =>
      x in env.vars && WellTyped(env, v) && v.a.Some? && AssignOk(env.vars[x], v.a.value, env.classes) && a == Some(NoneType)
    case Assign(AttrTarget(t), v, a) =>
      && WellTyped(env, t) && WellTyped(env, v) && t.a.Some? && v.a.Some?
      && AssignOk(t.a.value, v.a.value, env.classes) && a == Some(NoneType)
    case Return(x, a) => WellTyped(env, x) && x.a.Some? && AssignOk(env.retType, x.a.value, env.classes) && a == Some(NoneType)
    case Pass(a) => a == Some(NoneType)
    case If(c, b, eb, a) =>
      && WellTyped(env, c) && c.a == Some(BoolType)
      && (forall i :: 0 <= i < |b| ==> WellTypedStmt(env, b[i]))
      && (forall i :: 0 <= i < |eb| ==> WellTypedStmt(env, eb[i]))
      && a == Some(NoneType)
    case While(c, b, a) =>
      && WellTyped(env, c) && c.a == Some(BoolType)
      && (forall i :: 0 <= i < |b| ==> WellTypedStmt(env, b[i]))
      && a == Some(NoneType)
    case ExprStmt(x, a) => WellTyped(env, x) && x.a.Some? && a == x.a
  }

  predicate WellTypedStmts(env: TypeEnv, ss: seq<Stmt>) {
    forall i :: 0 <= i < |ss| ==> WellTypedStmt(env, ss[i])
  }

  // ---------------------------------------------------------------------------
  // Assignment compatibility and argument checks

  lemma CheckAssignIsAssignOk(l: Type, r: Type, classes: map<string, Option<ClassEnv>>)
    ensures CheckAssign(l, r, classes) == Success(true) <==> AssignOk(l, r, classes)
  {
  }

  lemma {:induction false} CheckArgTypesSound(params: seq<Type>, args: seq<Expr>, classes: map<string, Option<ClassEnv>>)
    requires |params| == |args| && Annotated(args)
    ensures CheckArgTypes(params, args, classes).Success? <==> ArgsAssignable(params, args, classes)
    decreases |args|
  {
    if |args| > 0 {
      CheckArgTypesSound(params[1..], args[1..], classes);
      if ArgsAssignable(params[1..], args[1..], classes) && AssignOk(params[0], args[0].a.value, classes) {
        forall i | 0 <= i < |args|
          ensures args[i].a.Some? && AssignOk(params[i], args[i].a.value, classes)
        {
          if i > 0 { assert args[1..][i - 1] == args[i]; }
        }
      }
      if ArgsAssignable(params, args, classes) {
        forall i | 0 <= i < |args| - 1
          ensures args[1..][i].a.Some? && AssignOk(params[1..][i], args[1..][i].a.value, classes)
        {
          assert args[1..][i] == args[i + 1];
        }
      }
    }
  }

  /** The first argument and the remaining ones of an unannotated list are unannotated. */
  lemma BareArgsParts(args: seq<Expr>)
    requires |args| > 0 && EraseArgs(args) == args
    ensures BareExpr(args[0]) && EraseArgs(args[1..]) == args[1..]
  {
    var r := EraseArgs(args);
    assert r[0] == EraseExpr(args[0]);
    assert r[1..] == EraseArgs(args[1..]);
  }

  lemma BareStmtsParts(ss: seq<Stmt>)
    requires |ss| > 0 && BareStmts(ss)
    ensures EraseStmt(ss[0]) == ss[0] && BareStmts(ss[1..])
  {
    var r := EraseStmts(ss);
    assert r[0] == EraseStmt(ss[0]);
    assert r[1..] == EraseStmts(ss[1..]);
  }

  // ---------------------------------------------------------------------------
  // Soundness: what the checker returns is a consistent typing of its input.

  lemma {:induction false} CheckExprSound(env: TypeEnv, e: Expr, te: Expr)
    requires BareExpr(e) && CheckExpr(env, e) == Success(te)
    ensures WellTyped(env, te) && EraseExpr(te) == e
    decreases e, 1
  {
    match e
    case Id(_, _) =>
    case GetAttr(o, f, _) =>
      CheckExprSound(env, o, CheckExpr(env, o).value);
    case Builtin1(_, x, _) =>
      CheckExprSound(env, x, CheckExpr(env, x).value);
    case Builtin2(_, x, y, _) =>
      CheckExprSound(env, x, CheckExpr(env, x).value);
      CheckExprSound(env, y, CheckExpr(env, y).value);
    case UniExpr(_, x, _) =>
      CheckExprSound(env, x, CheckExpr(env, x).value);
    case BinExpr(op, l, r, _) =>
      CheckBinExprSound(env, e, te);
    case LiteralExpr(_, _) =>
    case Call(name, args, recv, _) =>
      CheckCallSound(env, e, te);
  }

  /** The operator case of `CheckExprSound`. */
  lemma {:induction false} CheckBinExprSound(env: TypeEnv, e: Expr, te: Expr)
    requires e.BinExpr? && BareExpr(e) && CheckExpr(env, e) == Success(te)
    ensures WellTyped(env, te) && EraseExpr(te) == e
    decreases e, 0
  {
    var tl := CheckExpr(env, e.left).value;
    var tr := CheckExpr(env, e.right).value;
    CheckExprSound(env, e.left, tl);
    CheckExprSound(env, e.right, tr);
    CheckOperator(env, e.op, e.left, e.right, e.a);
  }

  /** The checker types an operator application by the operator table:
      it succeeds exactly when the table has an entry for the operand
      types, and annotates the application with that entry. */
  lemma CheckOperator(env: TypeEnv, op: BinOp, l: Expr, r: Expr, a: Ann)
    requires CheckExpr(env, l).Success? && CheckExpr(env, r).Success?
    ensures var tl, tr := CheckExpr(env, l).value, CheckExpr(env, r).value;
      var res := OpResult(op, tl.a.value, tr.a.value);
      && (CheckExpr(env, BinExpr(op, l, r, a)).Success? <==> res.Some?)
      && (res.Some? ==> CheckExpr(env, BinExpr(op, l, r, a)).value == BinExpr(op, tl, tr, res))
  {
  }

  /** The call case of `CheckExprSound`: resolution as a function, a constructor or a method. */
  lemma {:induction false} CheckCallSound(env: TypeEnv, e: Expr, te: Expr)
    requires e.Call? && BareExpr(e) && CheckExpr(env, e) == Success(te)
    ensures WellTyped(env, te) && EraseExpr(te) == e
    decreases e, 0
  {
    var name, args, recv := e.name, e.args, e.recv;
    if name in env.funcs {
      var targs := CheckArgs(env, args).value;
      CheckArgsSound(env, args, targs);
      CheckArgTypesSound(env.funcs[name].params, targs, env.classes);
      assert te == Call(name, targs, recv, Some(env.funcs[name].ret));
    } else if name in env.classes {
      assert te == Call(name, args, recv, Some(ObjectType(name)));
    } else {
      var tobj := CheckExpr(env, recv.value).value;
      CheckExprSound(env, recv.value, tobj);
      var targs := CheckArgs(env, args).value;
      CheckArgsSound(env, args, targs);
      var sig := env.classes[tobj.a.value.cls].value.methods[name];
      CheckArgTypesSound(sig.params[1..], targs, env.classes);
      assert te == Call(name, targs, Some(tobj), Some(sig.ret));
    }
  }

  lemma {:induction false} CheckArgsSound(env: TypeEnv, args: seq<Expr>, targs: seq<Expr>)
    requires EraseArgs(args) == args && CheckArgs(env, args) == Success(targs)
    ensures forall i :: 0 <= i < |targs| ==> WellTyped(env, targs[i])
    ensures EraseArgs(targs) == args
    decreases args
  {
    if |args| > 0 {
      BareArgsParts(args);
      var h := CheckExpr(env, args[0]).value;
      var t := CheckArgs(env, args[1..]).value;
      CheckExprSound(env, args[0], h);
      CheckArgsSound(env, args[1..], t);
      assert targs == [h] + t;
      assert targs[1..] == t;
    }
  }

  lemma {:induction false} CheckStmtSound(env: TypeEnv, s: Stmt, ts: Stmt)
    requires EraseStmt(s) == s && CheckStmt(env, s) == Success(ts)
    ensures WellTypedStmt(env, ts) && EraseStmt(ts) == s
    decreases s, 1
  {
    match s
    case Assign(NameTarget(x), v, _) =>
      CheckExprSound(env, v, CheckExpr(env, v).value);
    case Assign(AttrTarget(t), v, _) =>
      CheckExprSound(env, v, CheckExpr(env, v).value);
      CheckExprSound(env, t, CheckExpr(env, t).value);
    case Return(x, _) =>
      CheckExprSound(env, x, CheckExpr(env, x).value);
    case Pass(_) =>
    case If(_, _, _, _) =>
      CheckBranchSound(env, s, ts);
    case While(_, _, _) =>
      CheckBranchSound(env, s, ts);
    case ExprStmt(x, _) =>
      CheckExprSound(env, x, CheckExpr(env, x).value);
  }

  /** The `if` and `while` cases of `CheckStmtSound`. */
  lemma {:induction false} CheckBranchSound(env: TypeEnv, s: Stmt, ts: Stmt)
    requires (s.If? || s.While?) && EraseStmt(s) == s && CheckStmt(env, s) == Success(ts)
    ensures WellTypedStmt(env, ts) && EraseStmt(ts) == s
    decreases s, 0
  {
    CheckExprSound(env, s.cond, CheckExpr(env, s.cond).value);
    CheckStmtsSound(env, s.body, CheckStmts(env, s.body).value);
    if s.If? {
      CheckStmtsSound(env, s.elseBody, CheckStmts(env, s.elseBody).value);
    }
  }

  lemma {:induction false} CheckStmtsSound(env: TypeEnv, ss: seq<Stmt>, tss: seq<Stmt>)
    requires BareStmts(ss) && CheckStmts(env, ss) == Success(tss)
    ensures WellTypedStmts(env, tss)
    ensures EraseStmts(tss) == ss
    decreases ss
  {
    if |ss| > 0 {
      BareStmtsParts(ss);
      var h := CheckStmt(env, ss[0]).value;
      var t := CheckStmts(env, ss[1..]).value;
      CheckStmtSound(env, ss[0], h);
      CheckStmtsSound(env, ss[1..], t);
      assert tss == [h] + t;
      assert tss[1..] == t;
    }
  }

  // ---------------------------------------------------------------------------
  // Completeness: every consistent typing is found, and it is the one returned.

  lemma {:induction false} CheckExprComplete(env: TypeEnv, te: Expr)
    requires WellTyped(env, te)
    ensures CheckExpr(env, EraseExpr(te)) == Success(te)
    decreases te, 1
  {
    match te
    case Id(_, _) =>
    case GetAttr(o, f, _) =>
      CheckExprComplete(env, o);
    case Builtin1(_, x, _) =>
      CheckExprComplete(env, x);
    case Builtin2(_, _, _, _) =>
      CheckBuiltin2Complete(env, te);
    case UniExpr(_, x, _) =>
      CheckExprComplete(env, x);
    case BinExpr(_, _, _, _) =>
      CheckBinExprComplete(env, te);
    case LiteralExpr(_, _) =>
    case Call(_, _, _, _) =>
      CheckCallComplete(env, te);
  }

  lemma {:induction false} CheckBuiltin2Complete(env: TypeEnv, te: Expr)
    requires te.Builtin2? && WellTyped(env, te)
    ensures CheckExpr(env, EraseExpr(te)) == Success(te)
    decreases te, 0
  {
    CheckExprComplete(env, te.arg1);
    CheckExprComplete(env, te.arg2);
  }

  lemma {:induction false} CheckBinExprComplete(env: TypeEnv, te: Expr)
    requires te.BinExpr? && WellTyped(env, te)
    ensures CheckExpr(env, EraseExpr(te)) == Success(te)
    decreases te, 0
  {
    CheckExprComplete(env, te.left);
    CheckExprComplete(env, te.right);
    CheckOperator(env, te.op, EraseExpr(te.left), EraseExpr(te.right), None);
  }

  lemma {:induction false} CheckCallComplete(env: TypeEnv, te: Expr)
    requires te.Call? && WellTyped(env, te)
    ensures CheckExpr(env, EraseExpr(te)) == Success(te)
    decreases te, 0
  {
    var name, args, recv := te.name, te.args, te.recv;
    CheckArgsComplete(env, args);
    if name in env.funcs {
      CheckArgTypesSound(env.funcs[name].params, args, env.classes);
    } else if name in env.classes {
    } else {
      CheckExprComplete(env, recv.value);
      var sig := env.classes[recv.value.a.value.cls].value.methods[name];
      CheckArgTypesSound(sig.params[1..], args, env.classes);
    }
  }

  lemma {:induction false} CheckArgsComplete(env: TypeEnv, args: seq<Expr>)
    requires forall i :: 0 <= i < |args| ==> WellTyped(env, args[i])
    ensures CheckArgs(env, EraseArgs(args)) == Success(args)
    decreases args
  {
    if |args| > 0 {
      CheckExprComplete(env, args[0]);
      CheckArgsComplete(env, args[1..]);
      var ea := EraseArgs(args);
      assert ea[0] == EraseExpr(args[0]) && ea[1..] == EraseArgs(args[1..]);
      assert args == [args[0]] + args[1..];
    }
  }

  lemma {:induction false} CheckStmtComplete(env: TypeEnv, ts: Stmt)
    requires WellTypedStmt(env, ts)
    ensures CheckStmt(env, EraseStmt(ts)) == Success(ts)
    decreases ts
  {
    match ts
    case Assign(NameTarget(x), v, _) =>
      CheckExprComplete(env, v);
    case Assign(AttrTarget(t), v, _) =>
      CheckExprComplete(env, v);
      CheckExprComplete(env, t);
    case Return(x, _) =>
      CheckExprComplete(env, x);
    case Pass(_) =>
    case If(c, b, eb, _) =>
      CheckExprComplete(env, c);
      CheckStmtsComplete(env, b);
      CheckStmtsComplete(env, eb);
    case While(c, b, _) =>
      CheckExprComplete(env, c);
      CheckStmtsComplete(env, b);
    case ExprStmt(x, _) =>
      CheckExprComplete(env, x);
  }

  lemma {:induction false} CheckStmtsComplete(env: TypeEnv, tss: seq<Stmt>)
    requires WellTypedStmts(env, tss)
    ensures CheckStmts(env, EraseStmts(tss)) == Success(tss)
    decreases tss
  {
    if |tss| > 0 {
      CheckStmtComplete(env, tss[0]);
      CheckStmtsComplete(env, tss[1..]);
      var es := EraseStmts(tss);
      assert es[0] == EraseStmt(tss[0]) && es[1..] == EraseStmts(tss[1..]);
      assert tss == [tss[0]] + tss[1..];
    }
  }

  // ---------------------------------------------------------------------------
  // The two directions together.

  /** On an unannotated expression the checker succeeds with `te` exactly
      when `te` is a consistent typing of that expression. */
  lemma CheckExprCharacterized(env: TypeEnv, e: Expr, te: Expr)
    requires BareExpr(e)
    ensures CheckExpr(env, e) == Success(te) <==> WellTyped(env, te) && EraseExpr(te) == e
  {
    if CheckExpr(env, e) == Success(te) {
      CheckExprSound(env, e, te);
    }
    if WellTyped(env, te) && EraseExpr(te) == e {
      CheckExprComplete(env, te);
    }
  }

  /** The same for a statement list, e.g. a function body or the top level. */
  lemma CheckStmtsCharacterized(env: TypeEnv, ss: seq<Stmt>, tss: seq<Stmt>)
    requires BareStmts(ss)
    ensures CheckStmts(env, ss) == Success(tss) <==> WellTypedStmts(env, tss) && EraseStmts(tss) == ss
  {
    if CheckStmts(env, ss) == Success(tss) {
      CheckStmtsSound(env, ss, tss);
    }
    if WellTypedStmts(env, tss) && EraseStmts(tss) == ss {
      CheckStmtsComplete(env, tss);
    }
  }

  /** Every node the checker returns carries a type. */
  lemma CheckedStmtsAnnotated(env: TypeEnv, ss: seq<Stmt>, tss: seq<Stmt>)
    requires BareStmts(ss) && CheckStmts(env, ss) == Success(tss)
    ensures forall i :: 0 <= i < |tss| ==> tss[i].a.Some?
  {
    CheckStmtsSound(env, ss, tss);
  }
}
