/** The code generator (compiler.ts): lowers a type-annotated program to
    WebAssembly text, one instruction string at a time. Names resolve to a
    local slot when declared in the current function and to a global cell
    otherwise; `print` picks its host primitive from the static type
    annotation of its argument. The generator has no lowering for `while`,
    unary operators, attribute access, attribute assignment, constructor
    calls or method calls: on those it fails. */
module CodeGen {
  import opened Wrappers
  import opened Ast
  import opened Decimal
  import TypeCheck

  /** What a body is lowered against: the names declared in the current
      function (parameters and locals; empty at top level) and the
      program's function names, which tell a function call apart from a
      constructor or method call (the checker resolves functions first). */
  datatype Scope = Scope(locals: set<string>, funcs: set<string>)

  datatype GenFault = Unsupported(construct: string)

  type Gen<T> = Result<T, GenFault>

  /** The scratch slot that receives each expression statement's value. */
  const ScratchDecl: string := "(local $$last i32)"
  const SetScratch: string := "(local.set $$last)"

  // ---------------------------------------------------------------------------
  // Single instructions

  function ResolveLiteral(lit: Literal): string
  {
    match lit
    case NumLit(n) => "(i32.const " + IntToString(n) + ")"
    case BoolLit(b) => if b then "(i32.const 1)" else "(i32.const 0)"
    case NoneLit => "(i32.const 0)"
  }

  function BinOpInstr(op: BinOp): string
  {
    match op
    case Add => "(i32.add)"
    case Sub => "(i32.sub)"
    case Mul => "(i32.mul)"
    case Div => "(i32.div_s)"
    case Mod => "(i32.rem_s)"
    case Lesser => "(i32.lt_s)"
    case LessEq => "(i32.le_s)"
    case Greater => "(i32.gt_s)"
    case GreatEq => "(i32.ge_s)"
    case Equals => "(i32.eq)"
    case Is => "(i32.eq)"
    case NotEquals => "(i32.ne)"
  }

  /** The host function a one-argument builtin calls: `print` is chosen by
      its argument's annotation, and keeps its own name when that annotation
      is an object type or unset. */
  function Builtin1Callee(fn: Builtin1Name, argType: Ann): string
  {
    if fn == Print then
      match argType
      case Some(IntType) => "print_num"
      case Some(BoolType) => "print_bool"
      case Some(NoneType) => "print_none"
      case _ => "print"
    else Builtin1Text(fn)
  }

  function CallInstr(callee: string): string {
    "(call $" + callee + ")"
  }

  function GetInstr(scope: Scope, x: string): string {
    if x in scope.locals then "(local.get $" + x + ")" else "(global.get $" + x + ")"
  }

  function SetInstr(scope: Scope, x: string): string {
    if x in scope.locals then "(local.set $" + x + ")" else "(global.set $" + x + ")"
  }

  // ---------------------------------------------------------------------------
  // Expressions and statements

  function CodeGenExpr(scope: Scope, e: Expr): (r: Gen<seq<string>>)
    ensures r.Success? ==> |r.value| > 0
    decreases e
  {
    match e
    case Builtin1(fn, x, _) =>
      var cx :- CodeGenExpr(scope, x);
      Success(cx + [CallInstr(Builtin1Callee(fn, x.a))])
    case Builtin2(fn, x, y, _) =>
      var cx :- CodeGenExpr(scope, x);
      var cy :- CodeGenExpr(scope, y);
      Success(cx + cy + [CallInstr(Builtin2Text(fn))])
    case LiteralExpr(lit, _) => Success([ResolveLiteral(lit)])
    case Id(x, _) => Success([GetInstr(scope, x)])
    case BinExpr(op, l, r, _) =>
      var cl :- CodeGenExpr(scope, l);
      var cr :- CodeGenExpr(scope, r);
      Success(cl + cr + [BinOpInstr(op)])
    case Call(name, args, _, _) =>
      if name !in scope.funcs then Failure(Unsupported("constructor or method call"))
      else
        var ca :- CodeGenArgs(scope, args);
        Success(ca + [CallInstr(name)])
    case UniExpr(_, _, _) => Failure(Unsupported("unary expression"))
    case GetAttr(_, _, _) => Failure(Unsupported("attribute access"))
  }

  /** The arguments' code, left to right. */
  function CodeGenArgs(scope: Scope, args: seq<Expr>): (r: Gen<seq<string>>)
    decreases args
  {
    if |args| == 0 then Success([])
    else
      var h :- CodeGenExpr(scope, args[0]);
      var t :- CodeGenArgs(scope, args[1..]);
      Success(h + t)
  }

  function CodeGenStmt(scope: Scope, s: Stmt): (r: Gen<seq<string>>)
    decreases s
  {
    match s
    case Assign(NameTarget(x), v, _) =>
      var cv :- CodeGenExpr(scope, v);
      Success(cv + [SetInstr(scope, x)])
    case Assign(AttrTarget(_), _, _) => Failure(Unsupported("attribute assignment"))
    case ExprStmt(x, _) =>
      var cx :- CodeGenExpr(scope, x);
      Success(cx + [SetScratch])
    case Return(x, _) =>
      var cx :- CodeGenExpr(scope, x);
      Success(cx + ["return"])
    case Pass(_) => Success(["nop"])
    case If(c, b, eb, _) =>
      var cc :- CodeGenExpr(scope, c);
      var cb :- CodeGenStmts(scope, b);
      if |eb| == 0 then
        Success(cc + ["(if\n            (then"] + cb + [")", ")"])
      else
        var ce :- CodeGenStmts(scope, eb);
        Success(cc + ["(if", "(then"] + cb + [")", "(else"] + ce + [")", ")"])
    case While(_, _, _) => Failure(Unsupported("while loop"))
  }

  /** The statements' code, concatenated in order. */
  function CodeGenStmts(scope: Scope, ss: seq<Stmt>): (r: Gen<seq<string>>)
    decreases ss
  {
    if |ss| == 0 then Success([])
    else
      var h :- CodeGenStmt(scope, ss[0]);
      var t :- CodeGenStmts(scope, ss[1..]);
      Success(h + t)
  }

  // ---------------------------------------------------------------------------
  // Functions and programs

  /** JavaScript's `Array.prototype.join`. */
  function Join(ss: seq<string>, sep: string): string
    decreases |ss|
  {
    if |ss| == 0 then ""
    else if |ss| == 1 then ss[0]
    else ss[0] + sep + Join(ss[1..], sep)
  }

  /** The names a function body addresses as locals: its locals and its parameters. */
  function FunLocals(f: FunDef): set<string> {
    (set i | 0 <= i < |f.inits| :: f.inits[i].name) + (set i | 0 <= i < |f.params| :: f.params[i].name)
  }

  function ParamDecl(p: TypedVar): string {
    "(param $" + p.name + " i32)"
  }

  /** A local's declaration, initial value and store. */
  function InitCode(v: VarDef): string {
    "(local $" + v.name + " i32)\n" + ResolveLiteral(v.init) + "\n(local.set $" + v.name + ")"
  }

  function FunHeader(f: FunDef): string {
    "(func $" + f.name + " " + Join(seq(|f.params|, i requires 0 <= i < |f.params| => ParamDecl(f.params[i])), " ") + " (result i32)"
  }

  const FunTrailer: string := "(i32.const 0))"

  function CodeGenFun(funcs: set<string>, f: FunDef): (r: Gen<string>)
  {
    var body :- CodeGenStmts(Scope(FunLocals(f), funcs), f.body);
    var decls := Join(seq(|f.inits|, i requires 0 <= i < |f.inits| => InitCode(f.inits[i])), "\n");
    Success(Join([FunHeader(f), ScratchDecl, decls, Join(body, "\n"), FunTrailer], "\n    "))
  }

  function CodeGenFuns(funcs: set<string>, fs: seq<FunDef>): (r: Gen<seq<string>>)
    ensures r.Success? ==> |r.value| == |fs|
    decreases |fs|
  {
    if |fs| == 0 then Success([])
    else
      var h :- CodeGenFun(funcs, fs[0]);
      var t :- CodeGenFuns(funcs, fs[1..]);
      Success([h] + t)
  }

  /** A global's mutable cell, initialized from its literal. */
  function GlobalDecl(v: VarDef): string {
    "(global $" + v.name + " (mut i32) " + ResolveLiteral(v.init) + ")"
  }

  function ProgramFunNames(p: Program): set<string> {
    set i | 0 <= i < |p.fundefs| :: p.fundefs[i].name
  }

  /** The generator's two outputs, before joining: global declarations
      followed by function bodies, and the top-level instruction list. */
  datatype Emitted = Emitted(globals: seq<string>, commands: seq<string>)

  /** Lowers an annotated program. Class definitions are not emitted. */
  function Emit(tp: Program): Gen<Emitted>
  {
    var funcs := ProgramFunNames(tp);
    var decls := seq(|tp.varinits|, i requires 0 <= i < |tp.varinits| => GlobalDecl(tp.varinits[i]));
    var bodies :- CodeGenFuns(funcs, tp.fundefs);
    var commands :- CodeGenStmts(Scope({}, funcs), tp.stmts);
    Success(Emitted(decls + bodies, [ScratchDecl] + commands))
  }

  datatype CompileResult = CompileResult(globals: string, wasmSource: string)

  datatype CompileError = CheckError(fault: TypeCheck.Fault) | GenError(gen: GenFault)

  /** Type checks a parsed program from a fresh environment and lowers it. */
  function Compile(p: Program): Result<CompileResult, CompileError>
  {
    match TypeCheck.CheckProgram(p, TypeCheck.EmptyEnv)
    case Failure(f) => Failure(CheckError(f))
    case Success(tp) =>
      match Emit(tp)
      case Failure(g) => Failure(GenError(g))
      case Success(out) => Success(CompileResult(Join(out.globals, "\n"), Join(out.commands, "\n")))
  }
}
