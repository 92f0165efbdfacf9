/** Concrete programs from the repository's end-to-end tests, as the parser
    hands them over, and what the checker and the generator make of them. */
module Scenarios {
  import opened Wrappers
  import opened Ast
  import opened TypeCheck
  import opened CodeGen
  import opened Decimal
  import opened CodeGenFacts

  function Num(n: int): Expr { LiteralExpr(NumLit(n), None) }
  function Var(x: string): Expr { Id(x, None) }
  function TopLevel(stmts: seq<Stmt>): Program { Program([], [], [], stmts, None) }

  /** `y+2` with no `y` declared is a reference error naming `y`. */
  lemma UndeclaredVariableRejected()
    ensures var r := CheckProgram(TopLevel([ExprStmt(BinExpr(Add, Var("y"), Num(2), None), None)]), EmptyEnv);
      r == Failure(NotAVariable("y")) && Kind(r.error) == ReferenceError
  {
  }

  /** `sqrt(2)` names neither a function nor a class. */
  lemma UnknownFunctionRejected()
    ensures var r := CheckProgram(TopLevel([ExprStmt(Call("sqrt", [Num(2)], None, None), None)]), EmptyEnv);
      r == Failure(NotAFunctionOrClass("sqrt")) && Kind(r.error) == ReferenceError
  {
  }

  /** `2+3*5-2` compiles to the operands in evaluation order, each operator
      after its operands, the value landing in the scratch slot. */
  lemma ArithmeticCompiles()
    ensures Compile(TopLevel([ExprStmt(Arith(), None)]))
      == Success(CompileResult("", Join(ArithLines(), "\n")))
  {
    ArithmeticChecks();
    ArithmeticEmits();
  }

  /** The top-level lines of `2+3*5-2`. */
  function ArithLines(): seq<string> {
    ["(local $$last i32)", "(i32.const 2)", "(i32.const 3)", "(i32.const 5)", "(i32.mul)", "(i32.add)",
     "(i32.const 2)", "(i32.sub)", "(local.set $$last)"]
  }

  /** `2+3*5-2` as the parser builds it: `*` binds tighter, `+` and `-` group to the left. */
  function Arith(): Expr {
    BinExpr(Sub, BinExpr(Add, Num(2), BinExpr(Mul, Num(3), Num(5), None), None), Num(2), None)
  }

  function TypedNum(k: int): Expr { LiteralExpr(NumLit(k), Some(IntType)) }

  function TypedArith(): Expr {
    BinExpr(Sub, BinExpr(Add, TypedNum(2), BinExpr(Mul, TypedNum(3), TypedNum(5), Some(IntType)), Some(IntType)), TypedNum(2), Some(IntType))
  }

  lemma MulChecks()
    ensures CheckExpr(EmptyEnv, BinExpr(Mul, Num(3), Num(5), None)) == Success(BinExpr(Mul, TypedNum(3), TypedNum(5), Some(IntType)))
  {
  }

  lemma AddChecks()
    ensures CheckExpr(EmptyEnv, BinExpr(Add, Num(2), BinExpr(Mul, Num(3), Num(5), None), None))
      == Success(BinExpr(Add, TypedNum(2), BinExpr(Mul, TypedNum(3), TypedNum(5), Some(IntType)), Some(IntType)))
  {
    MulChecks();
  }

  lemma ArithChecks()
    ensures CheckExpr(EmptyEnv, Arith()) == Success(TypedArith())
  {
    AddChecks();
  }

  lemma ArithmeticChecks()
    ensures CheckProgram(TopLevel([ExprStmt(Arith(), None)]), EmptyEnv)
      == Success(Program([], [], [], [ExprStmt(TypedArith(), Some(IntType))], Some(NoneType)))
  {
    var p := TopLevel([ExprStmt(Arith(), None)]);
    assert CheckDeclarations(p, EmptyEnv) == Success(([], [], EmptyEnv));
    ArithChecks();
    var ts := ExprStmt(TypedArith(), Some(IntType));
    assert CheckStmt(EmptyEnv, p.stmts[0]) == Success(ts);
    assert p.stmts[1..] == [];
    assert [ts] + [] == [ts];
    assert CheckStmts(EmptyEnv, p.stmts) == Success([ts]);
  }

  lemma ConstTexts()
    ensures ResolveLiteral(NumLit(2)) == "(i32.const 2)"
    ensures ResolveLiteral(NumLit(3)) == "(i32.const 3)"
    ensures ResolveLiteral(NumLit(5)) == "(i32.const 5)"
    ensures ResolveLiteral(NumLit(4)) == "(i32.const 4)"
  {
    assert IntToString(2) == "2";
    assert IntToString(3) == "3";
    assert IntToString(5) == "5";
    assert IntToString(4) == "4";
  }

  lemma ArithLowers()
    ensures CodeGenExpr(Scope({}, {}), TypedArith())
      == Success(["(i32.const 2)", "(i32.const 3)", "(i32.const 5)", "(i32.mul)", "(i32.add)", "(i32.const 2)", "(i32.sub)"])
  {
    var scope := Scope({}, {});
    ConstTexts();
    var mul := BinExpr(Mul, TypedNum(3), TypedNum(5), Some(IntType));
    var add := BinExpr(Add, TypedNum(2), mul, Some(IntType));
    assert CodeGenExpr(scope, TypedNum(3)) == Success(["(i32.const 3)"]);
    assert CodeGenExpr(scope, TypedNum(5)) == Success(["(i32.const 5)"]);
    assert CodeGenExpr(scope, TypedNum(2)) == Success(["(i32.const 2)"]);
    var cm := ["(i32.const 3)", "(i32.const 5)", "(i32.mul)"];
    assert ["(i32.const 3)"] + ["(i32.const 5)"] + ["(i32.mul)"] == cm;
    assert CodeGenExpr(scope, mul) == Success(cm);
    var ca := ["(i32.const 2)", "(i32.const 3)", "(i32.const 5)", "(i32.mul)", "(i32.add)"];
    assert ["(i32.const 2)"] + cm + ["(i32.add)"] == ca;
    assert CodeGenExpr(scope, add) == Success(ca);
    assert ca + ["(i32.const 2)"] + ["(i32.sub)"]
        == ["(i32.const 2)", "(i32.const 3)", "(i32.const 5)", "(i32.mul)", "(i32.add)", "(i32.const 2)", "(i32.sub)"];
  }

  lemma ArithmeticEmits()
    ensures Emit(Program([], [], [], [ExprStmt(TypedArith(), Some(IntType))], Some(NoneType)))
      == Success(Emitted([], ArithLines()))
  {
    ArithLowers();
    var scope := Scope({}, {});
    var code := ["(i32.const 2)", "(i32.const 3)", "(i32.const 5)", "(i32.mul)", "(i32.add)", "(i32.const 2)", "(i32.sub)"];
    var st := ExprStmt(TypedArith(), Some(IntType));
    assert CodeGenStmt(scope, st) == Success(code + [SetScratch]);
    assert [st][1..] == [];
    assert (code + [SetScratch]) + [] == code + [SetScratch];
    assert CodeGenStmts(scope, [st]) == Success(code + [SetScratch]);
    assert [ScratchDecl] + (code + [SetScratch]) == ArithLines();
    var tp := Program([], [], [], [st], Some(NoneType));
    assert ProgramFunNames(tp) == {};
    assert CodeGenFuns({}, []) == Success([]);
    assert Emit(tp).Success?;
    assert Emit(tp).value.commands == ArithLines();
    assert |Emit(tp).value.globals| == 0;
  }

  /** A function whose body ends in a `while` fails the return check. */
  lemma LoopEndingFunctionRejected()
    ensures var demo := FunDef("demo", [TypedVar("y", BoolType, None)], IntType, [],
                               [While(Var("y"), [Return(Num(1), None)], None)]);
      CheckProgram(Program([], [demo], [], [], None), EmptyEnv) == Failure(MissingReturn("demo"))
  {
  }

  function CompareFun(): FunDef {
    FunDef("f", [TypedVar("q", BoolType, None)], IntType, [],
      [If(BinExpr(Lesser, Var("q"), Num(25), None), [Return(Num(99), None)], [Return(Num(500), None)], None)])
  }

  /** Comparing a `bool` parameter with `<` is rejected while checking the
      function, before the top level is looked at. */
  lemma OperatorMisuseRejected()
    ensures var main := [ExprStmt(Builtin1(Print, Call("f", [Var("p")], None, None), None), None)];
      var r := CheckProgram(Program([], [CompareFun()], [], main, None), EmptyEnv);
      r == Failure(BadOperands("<", BoolType, IntType)) && Kind(r.error) == TypeError
  {
    var main := [ExprStmt(Builtin1(Print, Call("f", [Var("p")], None, None), None), None)];
    var p := Program([], [CompareFun()], [], main, None);
    var benv := EmptyEnv.(funcs := map["f" := Signature([BoolType], IntType)]);
    assert ParamTypes(CompareFun().params) == [BoolType];
    assert CheckDeclarations(p, EmptyEnv) == Success(([], [], benv));
    CompareBodyRejected(benv);
  }

  lemma CompareBodyRejected(benv: TypeEnv)
    requires benv == EmptyEnv.(funcs := map["f" := Signature([BoolType], IntType)])
    ensures CheckFunDefs(benv, [CompareFun()]) == Failure(BadOperands("<", BoolType, IntType))
  {
    var f := CompareFun();
    var local := benv.(vars := map["q" := BoolType], retType := IntType);
    assert BindParams(benv.vars, f.params) == map["q" := BoolType];
    assert CheckExpr(local, f.body[0].cond) == Failure(BadOperands("<", BoolType, IntType));
    assert CheckStmt(local, f.body[0]) == Failure(BadOperands("<", BoolType, IntType));
    assert CheckFunDef(benv, f) == Failure(BadOperands("<", BoolType, IntType));
  }

  /** A function without a declared result whose body ends in a `print`
      call fails the return check too. */
  lemma PrintingProcedureRejected()
    ensures var myPrint := FunDef("my_print", [TypedVar("x", IntType, None)], NoneType, [],
                                  [ExprStmt(Builtin1(Print, Var("x"), None), None)]);
      CheckProgram(Program([], [myPrint], [], [], None), EmptyEnv) == Failure(MissingReturn("my_print"))
  {
  }

  /** `is_even` (base case `True`) or `is_odd` (base case `False`), each
      calling the other on `n - 1`; `typed` gives the tree the annotations
      the checker assigns. */
  function Parity(name: string, other: string, base: bool, typed: bool): FunDef {
    var ann := (t: Type) => if typed then Some(t) else None;
    var n := Id("n", ann(IntType));
    var lit := (k: int) => LiteralExpr(NumLit(k), ann(IntType));
    FunDef(name, [TypedVar("n", IntType, ann(IntType))], BoolType, [],
      [If(BinExpr(Equals, n, lit(0), ann(BoolType)),
          [Return(LiteralExpr(BoolLit(base), ann(BoolType)), ann(NoneType))],
          [Return(Call(other, [BinExpr(Sub, n, lit(1), ann(IntType))], None, ann(BoolType)), ann(NoneType))], ann(NoneType))])
  }

  lemma CheckStmtsOne(env: TypeEnv, st: Stmt, t: Stmt)
    requires CheckStmt(env, st) == Success(t)
    ensures CheckStmts(env, [st]) == Success([t])
  {
    assert [st][1..] == [];
    assert [t] + [] == [t];
  }

  lemma CheckArgsOne(env: TypeEnv, e: Expr, t: Expr)
    requires CheckExpr(env, e) == Success(t)
    ensures CheckArgs(env, [e]) == Success([t])
  {
    assert [e][1..] == [];
    assert [t] + [] == [t];
  }

  /** The body environment of a parity function. */
  function ParityLocal(env: TypeEnv): TypeEnv {
    env.(vars := map["n" := IntType], retType := BoolType)
  }

  lemma ParityRecursionChecks(env: TypeEnv, name: string, other: string, base: bool)
    requires env.classes == map[] && env.vars == map["n" := IntType] && env.retType == BoolType
    requires other in env.funcs && env.funcs[other] == Signature([IntType], BoolType)
    ensures CheckStmts(env, Parity(name, other, base, false).body[0].elseBody)
         == Success(Parity(name, other, base, true).body[0].elseBody)
  {
    var f, tf := Parity(name, other, base, false), Parity(name, other, base, true);
    var ret, tret := f.body[0].elseBody[0].ret, tf.body[0].elseBody[0].ret;
    assert CheckExpr(env, ret.args[0]) == Success(tret.args[0]);
    CheckArgsOne(env, ret.args[0], tret.args[0]);
    assert CheckArgTypes([IntType], tret.args, env.classes) == Success(());
    assert CheckExpr(env, ret) == Success(tret);
    assert CheckStmt(env, f.body[0].elseBody[0]) == Success(tf.body[0].elseBody[0]);
    CheckStmtsOne(env, f.body[0].elseBody[0], tf.body[0].elseBody[0]);
  }

  lemma ParityBodyChecks(env: TypeEnv, name: string, other: string, base: bool)
    requires env.classes == map[] && env.vars == map["n" := IntType] && env.retType == BoolType
    requires other in env.funcs && env.funcs[other] == Signature([IntType], BoolType)
    ensures CheckStmts(env, Parity(name, other, base, false).body) == Success(Parity(name, other, base, true).body)
  {
    var f, tf := Parity(name, other, base, false), Parity(name, other, base, true);
    ParityRecursionChecks(env, name, other, base);
    ParityBaseChecks(env, name, other, base);
    assert CheckStmt(env, f.body[0]) == Success(tf.body[0]);
    CheckStmtsOne(env, f.body[0], tf.body[0]);
  }

  /** The test `n == 0` and the base-case branch of a parity function. */
  lemma ParityBaseChecks(env: TypeEnv, name: string, other: string, base: bool)
    requires env.classes == map[] && env.vars == map["n" := IntType] && env.retType == BoolType
    ensures CheckExpr(env, Parity(name, other, base, false).body[0].cond) == Success(Parity(name, other, base, true).body[0].cond)
    ensures CheckStmts(env, Parity(name, other, base, false).body[0].body) == Success(Parity(name, other, base, true).body[0].body)
  {
    var f, tf := Parity(name, other, base, false), Parity(name, other, base, true);
    assert CheckStmt(env, f.body[0].body[0]) == Success(tf.body[0].body[0]);
    CheckStmtsOne(env, f.body[0].body[0], tf.body[0].body[0]);
    assert CheckExpr(env, f.body[0].cond) == Success(tf.body[0].cond);
  }

  lemma ParityChecks(env: TypeEnv, name: string, other: string, base: bool)
    requires env.vars == map[] && env.classes == map[]
    requires other in env.funcs && env.funcs[other] == Signature([IntType], BoolType)
    ensures CheckFunDef(env, Parity(name, other, base, false)) == Success(Parity(name, other, base, true))
  {
    var f, tf := Parity(name, other, base, false), Parity(name, other, base, true);
    assert BindParams(env.vars, f.params) == map["n" := IntType];
    ParityBodyChecks(ParityLocal(env), name, other, base);
    assert AnnotateParams(f.params) == tf.params;
  }

  lemma CheckFunDefsOne(env: TypeEnv, f: FunDef, t: FunDef)
    requires CheckFunDef(env, f) == Success(t)
    ensures CheckFunDefs(env, [f]) == Success([t])
  {
    assert [f][1..] == [];
    assert [t] + [] == [t];
  }

  lemma ParityLowers(funcs: set<string>, name: string, other: string, base: bool)
    requires other in funcs
    ensures CodeGenFun(funcs, Parity(name, other, base, true)).Success?
  {
    var f := Parity(name, other, base, true);
    var st := f.body[0];
    assert LowerableExpr(funcs, st.cond);
    assert LowerableStmt(funcs, st.body[0]);
    assert LowerableExpr(funcs, st.elseBody[0].ret.args[0]);
    assert LowerableExpr(funcs, st.elseBody[0].ret);
    assert LowerableStmt(funcs, st.elseBody[0]);
    assert forall i :: 0 <= i < |st.body| ==> LowerableStmt(funcs, st.body[i]);
    assert forall i :: 0 <= i < |st.elseBody| ==> LowerableStmt(funcs, st.elseBody[i]);
    assert LowerableStmt(funcs, st);
    CodeGenStmtsSucceeds(Scope(FunLocals(f), funcs), f.body);
  }

  function PrintParity(typed: bool): Stmt {
    if typed then ExprStmt(Builtin1(Print, Call("is_even", [TypedNum(4)], None, Some(BoolType)), Some(NoneType)), Some(NoneType))
    else ExprStmt(Builtin1(Print, Call("is_even", [Num(4)], None, None), None), None)
  }

  function ParityProgram(typed: bool): Program {
    Program([], [Parity("is_even", "is_odd", true, typed), Parity("is_odd", "is_even", false, typed)], [],
            [PrintParity(typed)], if typed then Some(NoneType) else None)
  }

  /** Mutually recursive functions check, because every signature is
      registered before any body. */
  lemma MutualRecursionChecks()
    ensures CheckProgram(ParityProgram(false), EmptyEnv) == Success(ParityProgram(true))
  {
    var p, tp := ParityProgram(false), ParityProgram(true);
    var fs := p.fundefs;
    var benv := EmptyEnv.(funcs := map["is_even" := ParitySig, "is_odd" := ParitySig]);
    assert ParamTypes(fs[0].params) == [IntType] && ParamTypes(fs[1].params) == [IntType];
    assert CheckDeclarations(p, EmptyEnv) == Success(([], [], benv));
    ParityBodiesCheck(benv);
    ParityCallChecks(benv);
  }

  const ParitySig: Signature := Signature([IntType], BoolType)

  /** Both parity functions check against the registered signatures. */
  lemma ParityBodiesCheck(benv: TypeEnv)
    requires benv == EmptyEnv.(funcs := map["is_even" := ParitySig, "is_odd" := ParitySig])
    ensures CheckFunDefs(benv, ParityProgram(false).fundefs) == Success(ParityProgram(true).fundefs)
  {
    var fs, tfs := ParityProgram(false).fundefs, ParityProgram(true).fundefs;
    ParityChecks(benv, "is_even", "is_odd", true);
    ParityChecks(benv, "is_odd", "is_even", false);
    assert fs[1..] == [fs[1]];
    CheckFunDefsOne(benv, fs[1], tfs[1]);
    assert [tfs[0]] + [tfs[1]] == tfs;
  }

  /** The top-level `print(is_even(4))` checks once both functions are registered. */
  lemma ParityCallChecks(benv: TypeEnv)
    requires benv == EmptyEnv.(funcs := map["is_even" := ParitySig, "is_odd" := ParitySig])
    ensures CheckStmts(benv, [PrintParity(false)]) == Success([PrintParity(true)])
  {
    var call := Call("is_even", [Num(4)], None, None);
    var tcall := Call("is_even", [TypedNum(4)], None, Some(BoolType));
    CheckArgsOne(benv, Num(4), TypedNum(4));
    assert CheckExpr(benv, call) == Success(tcall);
    assert CheckStmt(benv, PrintParity(false)) == Success(PrintParity(true));
    CheckStmtsOne(benv, PrintParity(false), PrintParity(true));
  }

  lemma PrintParityLowers(funcs: set<string>)
    requires "is_even" in funcs
    ensures CodeGenStmts(Scope({}, funcs), [PrintParity(true)])
         == Success(["(i32.const 4)", "(call $is_even)", "(call $print_bool)", "(local.set $$last)"])
  {
    ConstTexts();
    var scope := Scope({}, funcs);
    assert CodeGenExpr(scope, TypedNum(4)) == Success(["(i32.const 4)"]);
    assert [TypedNum(4)][1..] == [];
    assert ["(i32.const 4)"] + [] == ["(i32.const 4)"];
    assert CallInstr("is_even") == "(call $is_even)";
    assert CallInstr("print_bool") == "(call $print_bool)";
    assert CodeGenArgs(scope, [TypedNum(4)]) == Success(["(i32.const 4)"]);
    var call := Call("is_even", [TypedNum(4)], None, Some(BoolType));
    assert ["(i32.const 4)"] + ["(call $is_even)"] == ["(i32.const 4)", "(call $is_even)"];
    assert CodeGenExpr(scope, call) == Success(["(i32.const 4)", "(call $is_even)"]);
    var pr := Builtin1(Print, call, Some(NoneType));
    assert ["(i32.const 4)", "(call $is_even)"] + ["(call $print_bool)"] == ["(i32.const 4)", "(call $is_even)", "(call $print_bool)"];
    assert CodeGenExpr(scope, pr) == Success(["(i32.const 4)", "(call $is_even)", "(call $print_bool)"]);
    var code := ["(i32.const 4)", "(call $is_even)", "(call $print_bool)", "(local.set $$last)"];
    assert ["(i32.const 4)", "(call $is_even)", "(call $print_bool)"] + [SetScratch] == code;
    assert CodeGenStmt(scope, PrintParity(true)) == Success(code);
    assert [PrintParity(true)][1..] == [];
    assert code + [] == code;
  }

  lemma ParityFunsLower(funcs: set<string>)
    requires "is_even" in funcs && "is_odd" in funcs
    ensures CodeGenFuns(funcs, ParityProgram(true).fundefs).Success?
  {
    var tfs := ParityProgram(true).fundefs;
    ParityLowers(funcs, "is_even", "is_odd", true);
    ParityLowers(funcs, "is_odd", "is_even", false);
    assert tfs[1..] == [tfs[1]] && tfs[1..][1..] == [];
  }

  /** Both functions are emitted, and `print` of the `bool` result goes to `print_bool`. */
  lemma MutualRecursionEmits()
    ensures Emit(ParityProgram(true)).Success?
    ensures |Emit(ParityProgram(true)).value.globals| == 2
    ensures Emit(ParityProgram(true)).value.commands
         == ["(local $$last i32)", "(i32.const 4)", "(call $is_even)", "(call $print_bool)", "(local.set $$last)"]
  {
    var tp := ParityProgram(true);
    var funcs := {"is_even", "is_odd"};
    assert ProgramFunNames(tp) == funcs;
    ParityFunsLower(funcs);
    PrintParityLowers(funcs);
  }

  lemma MutualRecursionCompiles()
    ensures var r := Compile(ParityProgram(false));
      && r.Success?
      && r.value.wasmSource == Join(["(local $$last i32)", "(i32.const 4)", "(call $is_even)", "(call $print_bool)", "(local.set $$last)"], "\n")
  {
    MutualRecursionChecks();
    MutualRecursionEmits();
  }
}
