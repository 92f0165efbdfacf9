/** Properties of the code generator: exactly which trees it lowers, the
    value each literal lowers to, how `print` is dispatched, how names are
    addressed, and the order in which code is emitted. */
module CodeGenFacts {
  import opened Wrappers
  import opened Ast
  import opened CodeGen
  import TypeCheck
  import Typing

  // ---------------------------------------------------------------------------
  // The lowered fragment

  /** Expressions the generator has a lowering for: no unary operator, no
      attribute read, and every call names a function of the program. */
  predicate LowerableExpr(funcs: set<string>, e: Expr)
    decreases e
  {
    match e
    case Id(_, _) => true
    case LiteralExpr(_, _) => true
    case Builtin1(_, x, _) => LowerableExpr(funcs, x)
    case Builtin2(_, x, y, _) => LowerableExpr(funcs, x) && LowerableExpr(funcs, y)
    case BinExpr(_, l, r, _) => LowerableExpr(funcs, l) && LowerableExpr(funcs, r)
    case Call(name, args, _, _) => name in funcs && forall i :: 0 <= i < |args| ==> LowerableExpr(funcs, args[i])
    case UniExpr(_, _, _) => false
    case GetAttr(_, _, _) => false
  }

  /** Statements the generator has a lowering for: no `while`, no attribute assignment. */
  predicate LowerableStmt(funcs: set<string>, s: Stmt)
    decreases s
  {
    match s
    case Assign(NameTarget(_), v, _) => LowerableExpr(funcs, v)
    case Assign(AttrTarget(_), _, _) => false
    case ExprStmt(x, _) => LowerableExpr(funcs, x)
    case Return(x, _) => LowerableExpr(funcs, x)
    case Pass(_) => true
    case If(c, b, eb, _) =>
      && LowerableExpr(funcs, c)
      && (forall i :: 0 <= i < |b| ==> LowerableStmt(funcs, b[i]))
      && (forall i :: 0 <= i < |eb| ==> LowerableStmt(funcs, eb[i]))
    case While(_, _, _) => false
  }

  predicate LowerableStmts(funcs: set<string>, ss: seq<Stmt>) {
    forall i :: 0 <= i < |ss| ==> LowerableStmt(funcs, ss[i])
  }

  lemma {:induction false} CodeGenExprSucceeds(scope: Scope, e: Expr)
    ensures CodeGenExpr(scope, e).Success? <==> LowerableExpr(scope.funcs, e)
    decreases e
  {
    match e
    case Id(_, _) =>
    case LiteralExpr(_, _) =>
    case Builtin1(_, x, _) => CodeGenExprSucceeds(scope, x);
    case Builtin2(_, x, y, _) => CodeGenExprSucceeds(scope, x); CodeGenExprSucceeds(scope, y);
    case BinExpr(_, l, r, _) => CodeGenExprSucceeds(scope, l); CodeGenExprSucceeds(scope, r);
    case Call(_, args, _, _) => CodeGenArgsSucceeds(scope, args);
    case UniExpr(_, _, _) =>
    case GetAttr(_, _, _) =>
  }

  lemma {:induction false} CodeGenArgsSucceeds(scope: Scope, args: seq<Expr>)
    ensures CodeGenArgs(scope, args).Success? <==> forall i :: 0 <= i < |args| ==> LowerableExpr(scope.funcs, args[i])
    decreases args
  {
    if |args| > 0 {
      CodeGenExprSucceeds(scope, args[0]);
      CodeGenArgsSucceeds(scope, args[1..]);
      if forall i :: 0 <= i < |args[1..]| ==> LowerableExpr(scope.funcs, args[1..][i]) {
        if LowerableExpr(scope.funcs, args[0]) {
          forall i | 0 <= i < |args| ensures LowerableExpr(scope.funcs, args[i]) {
            if i > 0 { assert args[i] == args[1..][i - 1]; }
          }
        }
      } else {
        var i :| 0 <= i < |args[1..]| && !LowerableExpr(scope.funcs, args[1..][i]);
        assert args[1..][i] == args[i + 1];
      }
    }
  }

  lemma {:induction false} CodeGenStmtSucceeds(scope: Scope, s: Stmt)
    ensures CodeGenStmt(scope, s).Success? <==> LowerableStmt(scope.funcs, s)
    decreases s
  {
    match s
    case Assign(NameTarget(_), v, _) => CodeGenExprSucceeds(scope, v);
    case Assign(AttrTarget(_), _, _) =>
    case ExprStmt(x, _) => CodeGenExprSucceeds(scope, x);
    case Return(x, _) => CodeGenExprSucceeds(scope, x);
    case Pass(_) =>
    case If(c, b, eb, _) =>
      CodeGenExprSucceeds(scope, c);
      CodeGenStmtsSucceeds(scope, b);
      CodeGenStmtsSucceeds(scope, eb);
    case While(_, _, _) =>
  }

  lemma {:induction false} CodeGenStmtsSucceeds(scope: Scope, ss: seq<Stmt>)
    ensures CodeGenStmts(scope, ss).Success? <==> LowerableStmts(scope.funcs, ss)
    decreases ss
  {
    if |ss| > 0 {
      CodeGenStmtSucceeds(scope, ss[0]);
      CodeGenStmtsSucceeds(scope, ss[1..]);
      if LowerableStmts(scope.funcs, ss[1..]) {
        if LowerableStmt(scope.funcs, ss[0]) {
          forall i | 0 <= i < |ss| ensures LowerableStmt(scope.funcs, ss[i]) {
            if i > 0 { assert ss[i] == ss[1..][i - 1]; }
          }
        }
      } else {
        var i :| 0 <= i < |ss[1..]| && !LowerableStmt(scope.funcs, ss[1..][i]);
        assert ss[1..][i] == ss[i + 1];
      }
    }
  }

  // ---------------------------------------------------------------------------
  // print dispatch

  /** `print` calls `print_num`, `print_bool` or `print_none` according to
      its argument's annotation, after the argument's code; `abs` keeps its
      name. */
  lemma PrintDispatch(scope: Scope, fn: Builtin1Name, x: Expr, a: Ann)
    requires CodeGenExpr(scope, x).Success?
    ensures var r := CodeGenExpr(scope, Builtin1(fn, x, a));
      var cx := CodeGenExpr(scope, x).value;
      && r.Success? && r.value[..|cx|] == cx && |r.value| == |cx| + 1
      && (fn == Print && x.a == Some(IntType) ==> r.value[|cx|] == "(call $print_num)")
      && (fn == Print && x.a == Some(BoolType) ==> r.value[|cx|] == "(call $print_bool)")
      && (fn == Print && x.a == Some(NoneType) ==> r.value[|cx|] == "(call $print_none)")
      && (fn == Abs ==> r.value[|cx|] == "(call $abs)")
  {
  }

  /** A one-argument builtin is its operand's code followed by one call. */
  lemma Builtin1Lowering(scope: Scope, fn: Builtin1Name, x: Expr, a: Ann)
    requires CodeGenExpr(scope, x).Success?
    ensures CodeGenExpr(scope, Builtin1(fn, x, a)) == Success(CodeGenExpr(scope, x).value + [CallInstr(Builtin1Callee(fn, x.a))])
  {
  }

  /** After type checking, `print` of an `int`, `bool` or `None` argument
      never falls back to the generic callee. */
  lemma CheckedPrintIsDispatched(env: TypeCheck.TypeEnv, x: Expr)
    requires Typing.WellTyped(env, Builtin1(Print, x, Some(NoneType)))
    requires !x.a.value.ObjectType?
    ensures Builtin1Callee(Print, x.a) in {"print_num", "print_bool", "print_none"}
  {
  }

  // ---------------------------------------------------------------------------
  // Names

  /** An identifier read and a bare-name store use the local slot exactly
      when the name is declared in the current function, and the global cell
      otherwise; no name is rejected. */
  lemma NameAddressing(scope: Scope, x: string, a: Ann, v: Expr, sa: Ann)
    requires CodeGenExpr(scope, v).Success?
    ensures CodeGenExpr(scope, Id(x, a)) ==
      Success([if x in scope.locals then "(local.get $" + x + ")" else "(global.get $" + x + ")"])
    ensures var cv := CodeGenExpr(scope, v).value;
      CodeGenStmt(scope, Assign(NameTarget(x), v, sa)) ==
        Success(cv + [if x in scope.locals then "(local.set $" + x + ")" else "(global.set $" + x + ")"])
  {
  }

  // ---------------------------------------------------------------------------
  // Operators and calls

  /** The operator instruction for each binary operator; `==` and `is`
      share `i32.eq`, and no other two operators share an instruction. */
  lemma BinOpInstrTable()
    ensures BinOpInstr(Div) == "(i32.div_s)" && BinOpInstr(Mod) == "(i32.rem_s)"
    ensures BinOpInstr(Equals) == BinOpInstr(Is) == "(i32.eq)"
    ensures forall o1: BinOp, o2: BinOp :: BinOpInstr(o1) == BinOpInstr(o2) ==> o1 == o2 || {o1, o2} == {Equals, Is}
  {
  }

  /** A binary expression is the left operand's code, the right operand's code, then one instruction. */
  lemma BinExprLowering(scope: Scope, op: BinOp, l: Expr, r: Expr, a: Ann)
    requires CodeGenExpr(scope, l).Success? && CodeGenExpr(scope, r).Success?
    ensures CodeGenExpr(scope, BinExpr(op, l, r, a)) ==
      Success(CodeGenExpr(scope, l).value + CodeGenExpr(scope, r).value + [BinOpInstr(op)])
  {
  }

  /** The code of an argument list is each argument's code, in order. */
  lemma {:induction false} CodeGenArgsInOrder(scope: Scope, args: seq<Expr>, k: nat)
    requires k <= |args|
    requires forall i :: 0 <= i < |args| ==> CodeGenExpr(scope, args[i]).Success?
    ensures CodeGenArgs(scope, args).Success?
    ensures CodeGenArgs(scope, args[..k]).Success? && CodeGenArgs(scope, args[k..]).Success?
    ensures CodeGenArgs(scope, args).value ==
      CodeGenArgs(scope, args[..k]).value + CodeGenArgs(scope, args[k..]).value
    decreases k
  {
    CodeGenArgsAllSucceed(scope, args);
    CodeGenArgsAllSucceed(scope, args[..k]);
    CodeGenArgsAllSucceed(scope, args[k..]);
    if k > 0 {
      CodeGenArgsInOrder(scope, args[1..], k - 1);
      assert args[..k][1..] == args[1..][..k - 1];
      assert args[1..][k - 1..] == args[k..];
      assert args[..k][0] == args[0];
    }
  }

  lemma {:induction false} CodeGenArgsAllSucceed(scope: Scope, args: seq<Expr>)
    requires forall i :: 0 <= i < |args| ==> CodeGenExpr(scope, args[i]).Success?
    ensures CodeGenArgs(scope, args).Success?
    decreases |args|
  {
    if |args| > 0 {
      forall i | 0 <= i < |args[1..]| ensures CodeGenExpr(scope, args[1..][i]).Success? {
        assert args[1..][i] == args[i + 1];
      }
      CodeGenArgsAllSucceed(scope, args[1..]);
    }
  }

  /** A function call is its arguments' code, left to right, followed by
      one call instruction. */
  lemma CallLowering(scope: Scope, name: string, args: seq<Expr>, recv: Option<Expr>, a: Ann)
    requires name in scope.funcs
    requires CodeGenArgs(scope, args).Success?
    ensures CodeGenExpr(scope, Call(name, args, recv, a)) == Success(CodeGenArgs(scope, args).value + ["(call $" + name + ")"])
  {
  }

  /** A two-argument builtin is its first operand's code, then its second
      operand's code, then one call of the builtin. */
  lemma Builtin2Lowering(scope: Scope, fn: Builtin2Name, x: Expr, y: Expr, a: Ann)
    requires CodeGenExpr(scope, x).Success? && CodeGenExpr(scope, y).Success?
    ensures CodeGenExpr(scope, Builtin2(fn, x, y, a)) ==
      Success(CodeGenExpr(scope, x).value + CodeGenExpr(scope, y).value + ["(call $" + Builtin2Text(fn) + ")"])
  {
  }

  /** A call that is not to a program function (a constructor or a method)
      and the unlowered expression and statement forms all fail. */
  lemma UnsupportedForms(scope: Scope, e: Expr, s: Stmt)
    ensures e.Call? && e.name !in scope.funcs ==> CodeGenExpr(scope, e).Failure?
    ensures e.UniExpr? || e.GetAttr? ==> CodeGenExpr(scope, e).Failure?
    ensures s.While? || (s.Assign? && s.lvalue.AttrTarget?) ==> CodeGenStmt(scope, s).Failure?
  {
  }

  // ---------------------------------------------------------------------------
  // Statements

  /** Statement lowering: an expression statement stores into the scratch
      slot, `return` returns its value, `pass` is `nop`, and `if` wraps its
      branches after the condition, with an else region only when the
      else-branch is non-empty. */
  lemma StmtLowering(scope: Scope, s: Stmt)
    requires LowerableStmt(scope.funcs, s)
    ensures CodeGenStmt(scope, s).Success?
    ensures var r := CodeGenStmt(scope, s).value;
      && (s.ExprStmt? ==> r == CodeGenExpr(scope, s.expr).value + ["(local.set $$last)"])
      && (s.Return? ==> r == CodeGenExpr(scope, s.ret).value + ["return"])
      && (s.Pass? ==> r == ["nop"])
      && (s.If? && |s.elseBody| == 0 ==>
            r == CodeGenExpr(scope, s.cond).value + ["(if\n            (then"] + CodeGenStmts(scope, s.body).value + [")", ")"])
      && (s.If? && |s.elseBody| > 0 ==>
            r == CodeGenExpr(scope, s.cond).value + ["(if", "(then"] + CodeGenStmts(scope, s.body).value
                 + [")", "(else"] + CodeGenStmts(scope, s.elseBody).value + [")", ")"])
  {
    CodeGenStmtSucceeds(scope, s);
    if s.If? {
      CodeGenExprSucceeds(scope, s.cond);
      CodeGenStmtsSucceeds(scope, s.body);
      CodeGenStmtsSucceeds(scope, s.elseBody);
    }
  }

  /** Statement order is kept: the code of a list is the code of a prefix followed by the code of the rest. */
  lemma {:induction false} CodeGenStmtsSplit(scope: Scope, ss: seq<Stmt>, k: nat)
    requires k <= |ss| && LowerableStmts(scope.funcs, ss)
    ensures LowerableStmts(scope.funcs, ss[..k]) && LowerableStmts(scope.funcs, ss[k..])
    ensures CodeGenStmts(scope, ss).Success?
    ensures CodeGenStmts(scope, ss[..k]).Success? && CodeGenStmts(scope, ss[k..]).Success?
    ensures CodeGenStmts(scope, ss).value == CodeGenStmts(scope, ss[..k]).value + CodeGenStmts(scope, ss[k..]).value
    decreases k
  {
    assert forall i :: 0 <= i < k ==> ss[..k][i] == ss[i];
    assert forall i :: 0 <= i < |ss| - k ==> ss[k..][i] == ss[k + i];
    CodeGenStmtsSucceeds(scope, ss);
    CodeGenStmtsSucceeds(scope, ss[..k]);
    CodeGenStmtsSucceeds(scope, ss[k..]);
    if k > 0 {
      assert forall i :: 0 <= i < |ss| - 1 ==> ss[1..][i] == ss[i + 1];
      CodeGenStmtsSplit(scope, ss[1..], k - 1);
      assert ss[..k][1..] == ss[1..][..k - 1];
      assert ss[1..][k - 1..] == ss[k..];
      assert ss[..k][0] == ss[0];
    }
  }

  // ---------------------------------------------------------------------------
  // Functions and the program

  /** The names a function body addresses as locals are exactly its
      parameters and its declared locals. */
  lemma FunLocalsExact(f: FunDef, x: string)
    ensures x in FunLocals(f) <==>
      (exists i :: 0 <= i < |f.params| && f.params[i].name == x) || (exists i :: 0 <= i < |f.inits| && f.inits[i].name == x)
  {
  }

  lemma {:induction false} JoinUnfold(ss: seq<string>, sep: string)
    requires |ss| >= 2
    ensures Join(ss, sep) == ss[0] + sep + Join(ss[1..], sep)
  {
  }

  /** Five lines joined by `sep`. */
  lemma JoinFive(a: string, b: string, c: string, d: string, e: string, sep: string)
    ensures Join([a, b, c, d, e], sep) == a + sep + (b + sep + (c + sep + (d + sep + e)))
  {
    var lines := [a, b, c, d, e];
    JoinUnfold(lines, sep);
    JoinUnfold(lines[1..], sep);
    JoinUnfold(lines[1..][1..], sep);
    JoinUnfold(lines[1..][1..][1..], sep);
    assert lines[1..][1..][1..][1..] == [e];
  }

  /** Three lines joined by `sep`. */
  lemma JoinThree(a: string, b: string, c: string, sep: string)
    ensures Join([a, b, c], sep) == a + sep + (b + sep + c)
  {
    var lines := [a, b, c];
    JoinUnfold(lines, sep);
    JoinUnfold(lines[1..], sep);
    assert lines[1..][1..] == [c];
  }

  /** A text `open + p + sep + (x + sep + (y + sep + (z + sep + t)))` starts with `open` and ends with `t`. */
  lemma TextEnds(open: string, p: string, sep: string, x: string, y: string, z: string, t: string)
    ensures var text := open + p + sep + (x + sep + (y + sep + (z + sep + t)));
      |text| >= |open| + |t| && text[..|open|] == open && text[|text| - |t|..] == t
  {
    var text := open + p + sep + (x + sep + (y + sep + (z + sep + t)));
    var m := p + sep + (x + sep + (y + sep + (z + sep)));
    assert text == open + m + t;
  }

  /** A lowerable function becomes one `func` whose text opens with its
      name and always ends with the default result `(i32.const 0)`, whatever
      its body returns. */
  lemma CodeGenFunShape(funcs: set<string>, f: FunDef)
    requires LowerableStmts(funcs, f.body)
    ensures CodeGenFun(funcs, f).Success?
    ensures var text := CodeGenFun(funcs, f).value;
      && |text| >= |"(func $" + f.name + " "| + |FunTrailer|
      && text[..|"(func $" + f.name + " "|] == "(func $" + f.name + " "
      && text[|text| - |FunTrailer|..] == "(i32.const 0))"
  {
    var scope := Scope(FunLocals(f), funcs);
    CodeGenStmtsSucceeds(scope, f.body);
    var body := Join(CodeGenStmts(scope, f.body).value, "\n");
    var decls := Join(seq(|f.inits|, i requires 0 <= i < |f.inits| => InitCode(f.inits[i])), "\n");
    var sep := "\n    ";
    var lines := [FunHeader(f), ScratchDecl, decls, body, FunTrailer];
    assert CodeGenFun(funcs, f).value == Join(lines, sep);
    JoinFive(FunHeader(f), ScratchDecl, decls, body, FunTrailer, sep);
    var open := "(func $" + f.name + " ";
    var ps := Join(seq(|f.params|, i requires 0 <= i < |f.params| => ParamDecl(f.params[i])), " ");
    assert FunHeader(f) == open + (ps + " (result i32)");
    TextEnds(open, ps + " (result i32)", sep, ScratchDecl, decls, body, FunTrailer);
  }

  /** The three lines a local's initialisation consists of: its
      declaration, its literal's constant, and the store into it. */
  function InitLines(v: VarDef): (lines: seq<string>)
    ensures |lines| == 3
  {
    ["(local $" + v.name + " i32)", ResolveLiteral(v.init), "(local.set $" + v.name + ")"]
  }

  lemma InitCodeLines(v: VarDef)
    ensures InitCode(v) == Join(InitLines(v), "\n")
  {
    var decl, store := "(local $" + v.name + " i32)", "(local.set $" + v.name + ")";
    JoinThree(decl, ResolveLiteral(v.init), store, "\n");
    assert decl + "\n" == "(local $" + v.name + " i32)\n";
    assert "\n" + store == "\n(local.set $" + v.name + ")";
  }

  /** A lowerable function's text is, joined by a newline and four spaces:
      the header, the `$$last` scratch local, each local's declaration,
      literal and store in declaration order, the body's lines in order,
      and the default result `(i32.const 0)`. */
  lemma CodeGenFunLayout(funcs: set<string>, f: FunDef)
    requires LowerableStmts(funcs, f.body)
    ensures CodeGenFun(funcs, f).Success?
    ensures CodeGenFun(funcs, f).value ==
      Join([FunHeader(f), "(local $$last i32)",
            Join(seq(|f.inits|, i requires 0 <= i < |f.inits| => Join(InitLines(f.inits[i]), "\n")), "\n"),
            Join(CodeGenStmts(Scope(FunLocals(f), funcs), f.body).value, "\n"),
            "(i32.const 0))"], "\n    ")
  {
    CodeGenStmtsSucceeds(Scope(FunLocals(f), funcs), f.body);
    var a := seq(|f.inits|, i requires 0 <= i < |f.inits| => InitCode(f.inits[i]));
    var b := seq(|f.inits|, i requires 0 <= i < |f.inits| => Join(InitLines(f.inits[i]), "\n"));
    forall i | 0 <= i < |f.inits| ensures a[i] == b[i] {
      InitCodeLines(f.inits[i]);
    }
    assert a == b;
  }

  /** The program's globals are one mutable cell per top-level variable, in
      order, followed by one body per function; the top-level instruction
      list is the scratch-slot declaration followed by each statement's code
      in order. */
  lemma EmitShape(tp: Program)
    requires Emit(tp).Success?
    ensures forall i :: 0 <= i < |tp.fundefs| ==> CodeGenFun(ProgramFunNames(tp), tp.fundefs[i]).Success?
    ensures var out := Emit(tp).value;
      var funcs := ProgramFunNames(tp);
      && |out.globals| == |tp.varinits| + |tp.fundefs|
      && (forall i :: 0 <= i < |tp.varinits| ==>
            out.globals[i] == "(global $" + tp.varinits[i].name + " (mut i32) " + ResolveLiteral(tp.varinits[i].init) + ")")
      && (forall i :: 0 <= i < |tp.fundefs| ==> out.globals[|tp.varinits| + i] == CodeGenFun(funcs, tp.fundefs[i]).value)
      && out.commands[0] == "(local $$last i32)"
      && out.commands[1..] == CodeGenStmts(Scope({}, funcs), tp.stmts).value
  {
    var funcs := ProgramFunNames(tp);
    CodeGenFunsEach(funcs, tp.fundefs);
  }

  lemma {:induction false} CodeGenFunsEach(funcs: set<string>, fs: seq<FunDef>)
    requires CodeGenFuns(funcs, fs).Success?
    ensures forall i :: 0 <= i < |fs| ==> CodeGenFun(funcs, fs[i]) == Success(CodeGenFuns(funcs, fs).value[i])
    decreases |fs|
  {
    if |fs| > 0 {
      CodeGenFunsEach(funcs, fs[1..]);
      forall i | 0 <= i < |fs| ensures CodeGenFun(funcs, fs[i]) == Success(CodeGenFuns(funcs, fs).value[i]) {
        if i > 0 { assert fs[1..][i - 1] == fs[i]; }
      }
    }
  }

  /** Emission succeeds exactly when every function body and the top level lie in the lowered fragment. */
  lemma {:induction false} EmitSucceeds(tp: Program)
    ensures Emit(tp).Success? <==>
      (forall i :: 0 <= i < |tp.fundefs| ==> LowerableStmts(ProgramFunNames(tp), tp.fundefs[i].body))
      && LowerableStmts(ProgramFunNames(tp), tp.stmts)
  {
    var funcs := ProgramFunNames(tp);
    CodeGenStmtsSucceeds(Scope({}, funcs), tp.stmts);
    CodeGenFunsSucceeds(funcs, tp.fundefs);
  }

  lemma {:induction false} CodeGenFunsSucceeds(funcs: set<string>, fs: seq<FunDef>)
    ensures CodeGenFuns(funcs, fs).Success? <==> forall i :: 0 <= i < |fs| ==> LowerableStmts(funcs, fs[i].body)
    decreases |fs|
  {
    if |fs| > 0 {
      CodeGenFunsSucceeds(funcs, fs[1..]);
      CodeGenStmtsSucceeds(Scope(FunLocals(fs[0]), funcs), fs[0].body);
      if forall i :: 0 <= i < |fs[1..]| ==> LowerableStmts(funcs, fs[1..][i].body) {
        forall i | 0 <= i < |fs| && i > 0 ensures LowerableStmts(funcs, fs[i].body) {
          assert fs[i] == fs[1..][i - 1];
        }
      } else {
        var i :| 0 <= i < |fs[1..]| && !LowerableStmts(funcs, fs[1..][i].body);
        assert fs[1..][i] == fs[i + 1];
      }
    }
  }
}
