/** The code generator against the WebAssembly text it writes: every
    instruction it emits decodes to the instruction meant, and on
    well-typed input the emitted code is stack-balanced: an expression
    leaves exactly one value, a statement leaves the stack as it found it. */
module CodeGenStack {
  import opened Wrappers
  import opened Ast
  import opened Decimal
  import opened Wat
  import opened CodeGen
  import opened CodeGenFacts
  import opened TypeCheck
  import opened Typing
  import TypeCheckFacts

  // ---------------------------------------------------------------------------
  // Single instructions

  /** The machine word a literal denotes: a number itself, `True` 1,
      `False` 0, `None` 0. */
  function LiteralWord(lit: Literal): int {
    match lit
    case NumLit(n) => n
    case BoolLit(b) => if b then 1 else 0
    case NoneLit => 0
  }

  /** Each literal lowers to a constant carrying its word. */
  lemma ResolveLiteralDecodes(lit: Literal)
    ensures Decode(ResolveLiteral(lit)) == Some(Const(LiteralWord(lit)))
  {
    var w := LiteralWord(lit);
    if !lit.NumLit? {
      assert IntToString(w) == [DigitChar(w)];
    }
    assert ResolveLiteral(lit) == ConstPrefix + IntToString(w) + ")";
    DecodeConst(w);
  }

  /** A name read decodes to the local or global read of that very name,
      local exactly when the name is in the function's scope. */
  lemma GetDecodes(scope: Scope, x: string)
    ensures Decode(GetInstr(scope, x)) == Some(if x in scope.locals then LocalGet(x) else GlobalGet(x))
  {
    if x in scope.locals { DecodeLocalGet(x); } else { DecodeGlobalGet(x); }
  }

  /** A name store decodes to the local or global store of that very name,
      local exactly when the name is in the function's scope. */
  lemma SetDecodes(scope: Scope, x: string)
    ensures Decode(SetInstr(scope, x)) == Some(if x in scope.locals then LocalSet(x) else GlobalSet(x))
  {
    if x in scope.locals { DecodeLocalSet(x); } else { DecodeGlobalSet(x); }
  }

  lemma ScratchDecodes()
    ensures Decode(SetScratch) == Some(LocalSet("$last"))
  {
    assert SetScratch == LocalSetPrefix + "$last" + ")";
    DecodeLocalSet("$last");
  }

  /** A local's initialisation: after its declaration line, the constant
      decodes to the literal's word and the store to a store into that very
      local, and the two together leave the stack as they found it. */
  lemma InitLinesDecode(v: VarDef, arity: map<string, nat>)
    ensures Decode(InitLines(v)[1]) == Some(Const(LiteralWord(v.init)))
    ensures Decode(InitLines(v)[2]) == Some(LocalSet(v.name))
    ensures NetEffect(InitLines(v)[1..], arity) == Some(0)
  {
    var lines := InitLines(v);
    ResolveLiteralDecodes(v.init);
    assert lines[2] == LocalSetPrefix + v.name + ")";
    DecodeLocalSet(v.name);
    var eff := LineEffects(arity);
    assert eff(lines[1]) == Some(1);
    assert eff(lines[2]) == Some(-1);
    OneLine(lines[1], eff, 1);
    ExtendByLine([lines[1]], lines[2], eff, 1, -1);
    assert lines[1..] == [lines[1]] + [lines[2]];
  }

  /** Calls decode to a call of the named function, and every operator to
      a two-operand numeric instruction. */
  lemma CallAndOpDecode(callee: string, op: BinOp)
    ensures Decode(CallInstr(callee)) == Some(CallTo(callee))
    ensures Decode(BinOpInstr(op)) == Some(NumOp(BinOpInstr(op)))
  {
    DecodeCall(callee);
    DecodeNumOp(BinOpInstr(op));
  }

  // ---------------------------------------------------------------------------
  // Effects of single lines

  /** The line the generator opens an else-less `if` with. */
  const IfThenLine: string := "(if\n            (then"

  /** A per-line stack effect that agrees with the instruction table on
      every line the generator writes in `scope`, a call taking its
      parameter count from `arity`. */
  ghost predicate Faithful(eff: string -> Option<int>, arity: map<string, nat>, scope: Scope) {
    && (forall x :: eff(GetInstr(scope, x)) == Some(1))
    && (forall x :: eff(SetInstr(scope, x)) == Some(-1))
    && eff(SetScratch) == Some(-1)
    && (forall lit :: eff(ResolveLiteral(lit)) == Some(1))
    && (forall op :: eff(BinOpInstr(op)) == Some(-1))
    && (forall f :: f in arity ==> eff(CallInstr(f)) == Some(1 - arity[f] as int))
    && eff("return") == Some(-1) && eff("nop") == Some(0)
    && eff(IfThenLine) == Some(-1) && eff("(if") == Some(-1)
    && eff("(then") == Some(0) && eff("(else") == Some(0) && eff(")") == Some(0)
  }

  lemma NameLinesDecode(arity: map<string, nat>, scope: Scope)
    ensures forall x :: LineEffects(arity)(GetInstr(scope, x)) == Some(1)
    ensures forall x :: LineEffects(arity)(SetInstr(scope, x)) == Some(-1)
    ensures LineEffects(arity)(SetScratch) == Some(-1)
  {
    forall x ensures LineEffects(arity)(GetInstr(scope, x)) == Some(1) {
      GetDecodes(scope, x);
    }
    forall x ensures LineEffects(arity)(SetInstr(scope, x)) == Some(-1) {
      SetDecodes(scope, x);
    }
    ScratchDecodes();
  }

  lemma ValueLinesDecode(arity: map<string, nat>)
    ensures forall lit :: LineEffects(arity)(ResolveLiteral(lit)) == Some(1)
    ensures forall op :: LineEffects(arity)(BinOpInstr(op)) == Some(-1)
    ensures forall f :: f in arity ==> LineEffects(arity)(CallInstr(f)) == Some(1 - arity[f] as int)
  {
    forall lit ensures LineEffects(arity)(ResolveLiteral(lit)) == Some(1) {
      ResolveLiteralDecodes(lit);
    }
    forall op ensures LineEffects(arity)(BinOpInstr(op)) == Some(-1) {
      CallAndOpDecode("", op);
    }
    forall f | f in arity ensures LineEffects(arity)(CallInstr(f)) == Some(1 - arity[f] as int) {
      CallAndOpDecode(f, Add);
    }
  }

  // The structural lines, one lemma each: decoding several literal lines
  // in one proof is costly.
  lemma ReturnLineEffect(arity: map<string, nat>) ensures LineEffects(arity)("return") == Some(-1) {
    DecodeReturn();
    FixedLine(arity, "return", Ret);
  }

  lemma NopLineEffect(arity: map<string, nat>) ensures LineEffects(arity)("nop") == Some(0) {
    DecodeNop();
    FixedLine(arity, "nop", Nop);
  }

  lemma IfThenLineEffect(arity: map<string, nat>) ensures LineEffects(arity)(IfThenLine) == Some(-1) {
    DecodeIfThen();
    FixedLine(arity, IfThenLine, IfThen);
  }

  lemma IfOpenLineEffect(arity: map<string, nat>) ensures LineEffects(arity)("(if") == Some(-1) {
    DecodeIfOpen();
    FixedLine(arity, "(if", IfOpen);
  }

  lemma ThenLineEffect(arity: map<string, nat>) ensures LineEffects(arity)("(then") == Some(0) {
    DecodeThenOpen();
    FixedLine(arity, "(then", ThenOpen);
  }

  lemma ElseLineEffect(arity: map<string, nat>) ensures LineEffects(arity)("(else") == Some(0) {
    DecodeElseOpen();
    FixedLine(arity, "(else", ElseOpen);
  }

  lemma CloseLineEffect(arity: map<string, nat>) ensures LineEffects(arity)(")") == Some(0) {
    DecodeClose();
    FixedLine(arity, ")", Close);
  }

  /** A line that decodes to an instruction other than a call has that
      instruction's effect. */
  lemma FixedLine(arity: map<string, nat>, s: string, i: Instr)
    requires Decode(s) == Some(i) && !i.CallTo?
    ensures LineEffects(arity)(s) == Some(Delta(i))
  {
  }

  /** Decoding gives every line the generator writes the effect the
      instruction table assigns it. */
  lemma DecoderFaithful(arity: map<string, nat>, scope: Scope)
    ensures Faithful(LineEffects(arity), arity, scope)
  {
    NameLinesDecode(arity, scope);
    ValueLinesDecode(arity);
    ReturnLineEffect(arity);
    NopLineEffect(arity);
    IfThenLineEffect(arity);
    IfOpenLineEffect(arity);
    ThenLineEffect(arity);
    ElseLineEffect(arity);
    CloseLineEffect(arity);
  }

  lemma OneLine(s: string, eff: string -> Option<int>, d: int)
    requires eff(s) == Some(d)
    ensures SumEffects([s], eff) == Some(d)
  {
    SumEffectsOne(s, eff);
  }

  lemma ExtendBy(code: seq<string>, more: seq<string>, eff: string -> Option<int>, n: int, d: int)
    requires SumEffects(code, eff) == Some(n) && SumEffects(more, eff) == Some(d)
    ensures SumEffects(code + more, eff) == Some(n + d)
  {
    SumEffectsAppend(code, more, eff);
  }

  /** Appending one line of effect `d`. */
  lemma ExtendByLine(code: seq<string>, s: string, eff: string -> Option<int>, n: int, d: int)
    requires SumEffects(code, eff) == Some(n) && eff(s) == Some(d)
    ensures SumEffects(code + [s], eff) == Some(n + d)
  {
    OneLine(s, eff, d);
    ExtendBy(code, [s], eff, n, d);
  }

  // ---------------------------------------------------------------------------
  // Stack balance

  /** Parameter counts of everything a lowered program calls: the host
      imports and the program's functions. */
  function Arity(env: TypeEnv): map<string, nat> {
    HostArity + map f | f in env.funcs :: |env.funcs[f].params|
  }

  lemma ArityOfFunction(env: TypeEnv, f: string)
    requires f in env.funcs
    ensures f in Arity(env) && Arity(env)[f] == |env.funcs[f].params|
  {
  }

  /** No program function takes the name of a host import. */
  predicate HostNamesFree(env: TypeEnv) {
    forall f :: f in env.funcs ==> f !in HostArity
  }

  /** Every `print` in `e` prints an `int`, a `bool` or `None`; an object
      argument selects the generic `print`, which the runner does not
      import. */
  predicate PrintsPrimitive(e: Expr)
    decreases e
  {
    match e
    case Id(_, _) => true
    case LiteralExpr(_, _) => true
    case Builtin1(fn, x, _) =>
      (fn == Print ==> x.a == Some(IntType) || x.a == Some(BoolType) || x.a == Some(NoneType)) && PrintsPrimitive(x)
    case Builtin2(_, x, y, _) => PrintsPrimitive(x) && PrintsPrimitive(y)
    case BinExpr(_, l, r, _) => PrintsPrimitive(l) && PrintsPrimitive(r)
    case UniExpr(_, x, _) => PrintsPrimitive(x)
    case GetAttr(o, _, _) => PrintsPrimitive(o)
    case Call(_, args, recv, _) =>
      (forall i :: 0 <= i < |args| ==> PrintsPrimitive(args[i])) && (recv.Some? ==> PrintsPrimitive(recv.value))
  }

  predicate PrintsPrimitiveStmt(s: Stmt)
    decreases s
  {
    match s
    case Assign(NameTarget(_), v, _) => PrintsPrimitive(v)
    case Assign(AttrTarget(t), v, _) => PrintsPrimitive(t) && PrintsPrimitive(v)
    case ExprStmt(x, _) => PrintsPrimitive(x)
    case Return(x, _) => PrintsPrimitive(x)
    case Pass(_) => true
    case If(c, b, eb, _) =>
      && PrintsPrimitive(c)
      && (forall i :: 0 <= i < |b| ==> PrintsPrimitiveStmt(b[i]))
      && (forall i :: 0 <= i < |eb| ==> PrintsPrimitiveStmt(eb[i]))
    case While(c, b, _) => PrintsPrimitive(c) && (forall i :: 0 <= i < |b| ==> PrintsPrimitiveStmt(b[i]))
  }

  /** The conditions under which the generator's output is balanced. */
  predicate Emittable(env: TypeEnv, scope: Scope) {
    scope.funcs <= env.funcs.Keys && HostNamesFree(env)
  }

  /** A host import keeps its arity when the program's functions are added. */
  lemma HostArityKept(env: TypeEnv, callee: string)
    requires HostNamesFree(env) && callee in HostArity
    ensures callee in Arity(env) && Arity(env)[callee] == HostArity[callee]
  {
  }

  /** `print` of a primitive value and `abs` call one-parameter host imports. */
  lemma Builtin1CalleeUnary(fn: Builtin1Name, argType: Ann)
    requires fn == Print ==> argType == Some(IntType) || argType == Some(BoolType) || argType == Some(NoneType)
    ensures Builtin1Callee(fn, argType) in HostArity && HostArity[Builtin1Callee(fn, argType)] == 1
  {
  }

  /** `max`, `min` and `pow` are two-parameter host imports. */
  lemma Builtin2Binary(fn: Builtin2Name)
    ensures Builtin2Text(fn) in HostArity && HostArity[Builtin2Text(fn)] == 2
  {
  }

  // The lemmas below that take `Faithful` alone, with no typing facts, do
  // the effect arithmetic of one construct; keeping it apart from the
  // typing facts keeps each proof small.

  lemma NamePushes(eff: string -> Option<int>, arity: map<string, nat>, scope: Scope, x: string)
    requires Faithful(eff, arity, scope)
    ensures SumEffects([GetInstr(scope, x)], eff) == Some(1)
  {
    OneLine(GetInstr(scope, x), eff, 1);
  }

  lemma LiteralPushes(eff: string -> Option<int>, arity: map<string, nat>, scope: Scope, lit: Literal)
    requires Faithful(eff, arity, scope)
    ensures SumEffects([ResolveLiteral(lit)], eff) == Some(1)
  {
    OneLine(ResolveLiteral(lit), eff, 1);
  }

  /** A host call after as many values as the import takes leaves one value. */
  lemma HostCallAfterArgs(env: TypeEnv, scope: Scope, callee: string, ca: seq<string>, eff: string -> Option<int>)
    requires Faithful(eff, Arity(env), scope) && HostNamesFree(env) && callee in HostArity
    requires SumEffects(ca, eff) == Some(HostArity[callee] as int)
    ensures SumEffects(ca + [CallInstr(callee)], eff) == Some(1)
  {
    HostArityKept(env, callee);
    ExtendByLine(ca, CallInstr(callee), eff, HostArity[callee], 1 - HostArity[callee] as int);
  }

  /** A call of a program function after one value per parameter leaves one value. */
  lemma FunCallAfterArgs(env: TypeEnv, scope: Scope, f: string, ca: seq<string>, eff: string -> Option<int>)
    requires Faithful(eff, Arity(env), scope) && f in env.funcs
    requires SumEffects(ca, eff) == Some(|env.funcs[f].params|)
    ensures SumEffects(ca + [CallInstr(f)], eff) == Some(1)
  {
    ArityOfFunction(env, f);
    ExtendByLine(ca, CallInstr(f), eff, |env.funcs[f].params|, 1 - |env.funcs[f].params|);
  }

  /** An operator after its two operands leaves one value. */
  lemma OperatorAfterOperands(eff: string -> Option<int>, arity: map<string, nat>, scope: Scope,
                              op: BinOp, cl: seq<string>, cr: seq<string>)
    requires Faithful(eff, arity, scope)
    requires SumEffects(cl, eff) == Some(1) && SumEffects(cr, eff) == Some(1)
    ensures SumEffects(cl + cr + [BinOpInstr(op)], eff) == Some(1)
  {
    ExtendBy(cl, cr, eff, 1, 1);
    ExtendByLine(cl + cr, BinOpInstr(op), eff, 2, -1);
  }

  /** A line that pops one value, after code that pushed one, balances. */
  lemma PopAfterValue(eff: string -> Option<int>, cv: seq<string>, line: string)
    requires eff(line) == Some(-1) && SumEffects(cv, eff) == Some(1)
    ensures SumEffects(cv + [line], eff) == Some(0)
  {
    ExtendByLine(cv, line, eff, 1, -1);
  }

  lemma AssignBalanced(eff: string -> Option<int>, arity: map<string, nat>, scope: Scope, x: string, cv: seq<string>)
    requires Faithful(eff, arity, scope) && SumEffects(cv, eff) == Some(1)
    ensures SumEffects(cv + [SetInstr(scope, x)], eff) == Some(0)
  {
    PopAfterValue(eff, cv, SetInstr(scope, x));
  }

  lemma DiscardBalanced(eff: string -> Option<int>, arity: map<string, nat>, scope: Scope, cv: seq<string>)
    requires Faithful(eff, arity, scope) && SumEffects(cv, eff) == Some(1)
    ensures SumEffects(cv + [SetScratch], eff) == Some(0)
  {
    PopAfterValue(eff, cv, SetScratch);
  }

  lemma ReturnBalanced(eff: string -> Option<int>, arity: map<string, nat>, scope: Scope, cv: seq<string>)
    requires Faithful(eff, arity, scope) && SumEffects(cv, eff) == Some(1)
    ensures SumEffects(cv + ["return"], eff) == Some(0)
  {
    PopAfterValue(eff, cv, "return");
  }

  lemma PassBalanced(eff: string -> Option<int>, arity: map<string, nat>, scope: Scope)
    requires Faithful(eff, arity, scope)
    ensures SumEffects(["nop"], eff) == Some(0)
  {
    OneLine("nop", eff, 0);
  }

  /** Two lines whose effects sum to `d1 + d2`. */
  lemma TwoLines(s1: string, s2: string, eff: string -> Option<int>, d1: int, d2: int)
    requires eff(s1) == Some(d1) && eff(s2) == Some(d2)
    ensures SumEffects([s1, s2], eff) == Some(d1 + d2)
  {
    OneLine(s1, eff, d1);
    ExtendByLine([s1], s2, eff, d1, d2);
    assert [s1] + [s2] == [s1, s2];
  }

  /** An else-less `if`: the condition's value is consumed by the `if`,
      and a balanced branch keeps the stack balanced. */
  lemma IfThenBalanced(eff: string -> Option<int>, arity: map<string, nat>, scope: Scope, cc: seq<string>, cb: seq<string>)
    requires Faithful(eff, arity, scope)
    requires SumEffects(cc, eff) == Some(1) && SumEffects(cb, eff) == Some(0)
    ensures SumEffects(cc + [IfThenLine] + cb + [")", ")"], eff) == Some(0)
  {
    TwoLines(")", ")", eff, 0, 0);
    ExtendByLine(cc, IfThenLine, eff, 1, -1);
    ExtendBy(cc + [IfThenLine], cb, eff, 0, 0);
    ExtendBy(cc + [IfThenLine] + cb, [")", ")"], eff, 0, 0);
  }

  /** An `if` with an else branch: both branches balanced keep it balanced. */
  lemma IfElseBalanced(eff: string -> Option<int>, arity: map<string, nat>, scope: Scope,
                       cc: seq<string>, cb: seq<string>, ce: seq<string>)
    requires Faithful(eff, arity, scope)
    requires SumEffects(cc, eff) == Some(1) && SumEffects(cb, eff) == Some(0) && SumEffects(ce, eff) == Some(0)
    ensures SumEffects(cc + ["(if", "(then"] + cb + [")", "(else"] + ce + [")", ")"], eff) == Some(0)
  {
    var open, mid, close := ["(if", "(then"], [")", "(else"], [")", ")"];
    TwoLines("(if", "(then", eff, -1, 0);
    TwoLines(")", "(else", eff, 0, 0);
    TwoLines(")", ")", eff, 0, 0);
    ExtendBy(cc, open, eff, 1, -1);
    ExtendBy(cc + open, cb, eff, 0, 0);
    ExtendBy(cc + open + cb, mid, eff, 0, 0);
    ExtendBy(cc + open + cb + mid, ce, eff, 0, 0);
    ExtendBy(cc + open + cb + mid + ce, close, eff, 0, 0);
  }

  /** Under any per-line effect faithful to the instruction table, a lowered
      well-typed expression pushes exactly one value. */
  lemma {:induction false} ExprPushesOne(env: TypeEnv, scope: Scope, e: Expr, eff: string -> Option<int>)
    requires Emittable(env, scope) && Faithful(eff, Arity(env), scope)
    requires WellTyped(env, e) && LowerableExpr(scope.funcs, e) && PrintsPrimitive(e)
    ensures CodeGenExpr(scope, e).Success?
    ensures SumEffects(CodeGenExpr(scope, e).value, eff) == Some(1)
    decreases e, 1
  {
    match e
    case Id(x, _) =>
      NamePushes(eff, Arity(env), scope, x);
    case LiteralExpr(lit, _) =>
      LiteralPushes(eff, Arity(env), scope, lit);
    case Builtin1(_, _, _) =>
      Builtin1PushesOne(env, scope, e, eff);
    case Builtin2(_, _, _, _) =>
      Builtin2PushesOne(env, scope, e, eff);
    case BinExpr(_, _, _, _) =>
      BinExprPushesOne(env, scope, e, eff);
    case Call(_, _, _, _) =>
      CallPushesOne(env, scope, e, eff);
  }

  /** `print` and `abs` push their argument, and the host call replaces it by one value. */
  lemma {:induction false} Builtin1PushesOne(env: TypeEnv, scope: Scope, e: Expr, eff: string -> Option<int>)
    requires Emittable(env, scope) && Faithful(eff, Arity(env), scope) && e.Builtin1?
    requires WellTyped(env, e) && LowerableExpr(scope.funcs, e) && PrintsPrimitive(e)
    ensures CodeGenExpr(scope, e).Success?
    ensures SumEffects(CodeGenExpr(scope, e).value, eff) == Some(1)
    decreases e, 0
  {
    ExprPushesOne(env, scope, e.arg, eff);
    Builtin1CalleeUnary(e.fn1, e.arg.a);
    Builtin1Lowering(scope, e.fn1, e.arg, e.a);
    HostCallAfterArgs(env, scope, Builtin1Callee(e.fn1, e.arg.a), CodeGenExpr(scope, e.arg).value, eff);
  }

  /** `max`, `min` and `pow` push both operands, and the host call replaces them by one value. */
  lemma {:induction false} Builtin2PushesOne(env: TypeEnv, scope: Scope, e: Expr, eff: string -> Option<int>)
    requires Emittable(env, scope) && Faithful(eff, Arity(env), scope) && e.Builtin2?
    requires WellTyped(env, e) && LowerableExpr(scope.funcs, e) && PrintsPrimitive(e)
    ensures CodeGenExpr(scope, e).Success?
    ensures SumEffects(CodeGenExpr(scope, e).value, eff) == Some(1)
    decreases e, 0
  {
    ExprPushesOne(env, scope, e.arg1, eff);
    ExprPushesOne(env, scope, e.arg2, eff);
    Builtin2Binary(e.fn2);
    Builtin2Lowering(scope, e.fn2, e.arg1, e.arg2, e.a);
    var cx, cy := CodeGenExpr(scope, e.arg1).value, CodeGenExpr(scope, e.arg2).value;
    ExtendBy(cx, cy, eff, 1, 1);
    HostCallAfterArgs(env, scope, Builtin2Text(e.fn2), cx + cy, eff);
  }

  /** A binary expression pushes both operands, and the operator replaces them by one value. */
  lemma {:induction false} BinExprPushesOne(env: TypeEnv, scope: Scope, e: Expr, eff: string -> Option<int>)
    requires Emittable(env, scope) && Faithful(eff, Arity(env), scope) && e.BinExpr?
    requires WellTyped(env, e) && LowerableExpr(scope.funcs, e) && PrintsPrimitive(e)
    ensures CodeGenExpr(scope, e).Success?
    ensures SumEffects(CodeGenExpr(scope, e).value, eff) == Some(1)
    decreases e, 0
  {
    ExprPushesOne(env, scope, e.left, eff);
    ExprPushesOne(env, scope, e.right, eff);
    BinExprLowering(scope, e.op, e.left, e.right, e.a);
    OperatorAfterOperands(eff, Arity(env), scope, e.op, CodeGenExpr(scope, e.left).value, CodeGenExpr(scope, e.right).value);
  }

  /** A call pushes one value per parameter, and the call replaces them by one value. */
  lemma {:induction false} CallPushesOne(env: TypeEnv, scope: Scope, e: Expr, eff: string -> Option<int>)
    requires Emittable(env, scope) && Faithful(eff, Arity(env), scope) && e.Call?
    requires WellTyped(env, e) && LowerableExpr(scope.funcs, e) && PrintsPrimitive(e)
    ensures CodeGenExpr(scope, e).Success?
    ensures SumEffects(CodeGenExpr(scope, e).value, eff) == Some(1)
    decreases e, 0
  {
    CallFacts(env, scope, e);
    ArgsPushEach(env, scope, e.args, eff);
    CallLowering(scope, e.name, e.args, e.recv, e.a);
    FunCallAfterArgs(env, scope, e.name, CodeGenArgs(scope, e.args).value, eff);
  }

  /** What a well-typed lowerable call tells about its callee and arguments. */
  lemma CallFacts(env: TypeEnv, scope: Scope, e: Expr)
    requires Emittable(env, scope) && e.Call?
    requires WellTyped(env, e) && LowerableExpr(scope.funcs, e) && PrintsPrimitive(e)
    ensures e.name in env.funcs && |env.funcs[e.name].params| == |e.args|
    ensures forall i :: 0 <= i < |e.args| ==>
      WellTyped(env, e.args[i]) && LowerableExpr(scope.funcs, e.args[i]) && PrintsPrimitive(e.args[i])
  {
  }

  /** A lowered well-typed argument list pushes one value per argument. */
  lemma {:induction false} ArgsPushEach(env: TypeEnv, scope: Scope, args: seq<Expr>, eff: string -> Option<int>)
    requires Emittable(env, scope) && Faithful(eff, Arity(env), scope)
    requires forall i :: 0 <= i < |args| ==>
      WellTyped(env, args[i]) && LowerableExpr(scope.funcs, args[i]) && PrintsPrimitive(args[i])
    ensures CodeGenArgs(scope, args).Success?
    ensures SumEffects(CodeGenArgs(scope, args).value, eff) == Some(|args|)
    decreases args
  {
    if |args| > 0 {
      ExprPushesOne(env, scope, args[0], eff);
      assert forall i :: 0 <= i < |args[1..]| ==> args[1..][i] == args[i + 1];
      ArgsPushEach(env, scope, args[1..], eff);
      var c0, cs := CodeGenExpr(scope, args[0]).value, CodeGenArgs(scope, args[1..]).value;
      assert CodeGenArgs(scope, args) == Success(c0 + cs);
      ExtendBy(c0, cs, eff, 1, |args| - 1);
    }
  }

  /** Under any per-line effect faithful to the instruction table, a lowered
      well-typed statement leaves the stack as it found it. */
  lemma {:induction false} StmtBalanced(env: TypeEnv, scope: Scope, s: Stmt, eff: string -> Option<int>)
    requires Emittable(env, scope) && Faithful(eff, Arity(env), scope)
    requires WellTypedStmt(env, s) && LowerableStmt(scope.funcs, s) && PrintsPrimitiveStmt(s)
    ensures CodeGenStmt(scope, s).Success?
    ensures SumEffects(CodeGenStmt(scope, s).value, eff) == Some(0)
    decreases s, 1
  {
    match s
    case Assign(NameTarget(x), v, _) =>
      ExprPushesOne(env, scope, v, eff);
      var cv := CodeGenExpr(scope, v).value;
      assert CodeGenStmt(scope, s) == Success(cv + [SetInstr(scope, x)]);
      AssignBalanced(eff, Arity(env), scope, x, cv);
    case ExprStmt(x, _) =>
      ExprPushesOne(env, scope, x, eff);
      var cx := CodeGenExpr(scope, x).value;
      assert CodeGenStmt(scope, s) == Success(cx + [SetScratch]);
      DiscardBalanced(eff, Arity(env), scope, cx);
    case Return(x, _) =>
      ExprPushesOne(env, scope, x, eff);
      var cx := CodeGenExpr(scope, x).value;
      assert CodeGenStmt(scope, s) == Success(cx + ["return"]);
      ReturnBalanced(eff, Arity(env), scope, cx);
    case Pass(_) =>
      PassBalanced(eff, Arity(env), scope);
    case If(_, _, _, _) =>
      IfStmtBalanced(env, scope, s, eff);
  }

  /** An `if` consumes its condition's value, and its branches are balanced. */
  lemma {:induction false} IfStmtBalanced(env: TypeEnv, scope: Scope, s: Stmt, eff: string -> Option<int>)
    requires Emittable(env, scope) && Faithful(eff, Arity(env), scope) && s.If?
    requires WellTypedStmt(env, s) && LowerableStmt(scope.funcs, s) && PrintsPrimitiveStmt(s)
    ensures CodeGenStmt(scope, s).Success?
    ensures SumEffects(CodeGenStmt(scope, s).value, eff) == Some(0)
    decreases s, 0
  {
    ExprPushesOne(env, scope, s.cond, eff);
    StmtsBalanced(env, scope, s.body, eff);
    var cc, cb := CodeGenExpr(scope, s.cond).value, CodeGenStmts(scope, s.body).value;
    if |s.elseBody| == 0 {
      assert CodeGenStmt(scope, s) == Success(cc + [IfThenLine] + cb + [")", ")"]);
      IfThenBalanced(eff, Arity(env), scope, cc, cb);
    } else {
      StmtsBalanced(env, scope, s.elseBody, eff);
      var ce := CodeGenStmts(scope, s.elseBody).value;
      assert CodeGenStmt(scope, s) == Success(cc + ["(if", "(then"] + cb + [")", "(else"] + ce + [")", ")"]);
      IfElseBalanced(eff, Arity(env), scope, cc, cb, ce);
    }
  }

  /** A non-empty block is its first statement's code followed by the rest's. */
  lemma StmtsCons(scope: Scope, ss: seq<Stmt>)
    requires |ss| > 0 && CodeGenStmt(scope, ss[0]).Success? && CodeGenStmts(scope, ss[1..]).Success?
    ensures CodeGenStmts(scope, ss) == Success(CodeGenStmt(scope, ss[0]).value + CodeGenStmts(scope, ss[1..]).value)
  {
  }

  lemma {:induction false} StmtsBalanced(env: TypeEnv, scope: Scope, ss: seq<Stmt>, eff: string -> Option<int>)
    requires Emittable(env, scope) && Faithful(eff, Arity(env), scope)
    requires forall i :: 0 <= i < |ss| ==> WellTypedStmt(env, ss[i]) && LowerableStmt(scope.funcs, ss[i]) && PrintsPrimitiveStmt(ss[i])
    ensures CodeGenStmts(scope, ss).Success?
    ensures SumEffects(CodeGenStmts(scope, ss).value, eff) == Some(0)
    decreases ss
  {
    if |ss| > 0 {
      StmtBalanced(env, scope, ss[0], eff);
      assert forall i :: 0 <= i < |ss[1..]| ==> ss[1..][i] == ss[i + 1];
      StmtsBalanced(env, scope, ss[1..], eff);
      StmtsCons(scope, ss);
      ExtendBy(CodeGenStmt(scope, ss[0]).value, CodeGenStmts(scope, ss[1..]).value, eff, 0, 0);
    }
  }

  /** With the decoder's own effects: a lowered well-typed expression's
      code pushes exactly one value. */
  lemma ExprNetEffect(env: TypeEnv, scope: Scope, e: Expr)
    requires Emittable(env, scope)
    requires WellTyped(env, e) && LowerableExpr(scope.funcs, e) && PrintsPrimitive(e)
    ensures CodeGenExpr(scope, e).Success?
    ensures NetEffect(CodeGenExpr(scope, e).value, Arity(env)) == Some(1)
  {
    DecoderFaithful(Arity(env), scope);
    ExprPushesOne(env, scope, e, LineEffects(Arity(env)));
  }

  /** With the decoder's own effects: lowered well-typed statements leave
      the stack as they found it. */
  lemma StmtsNetEffect(env: TypeEnv, scope: Scope, ss: seq<Stmt>)
    requires Emittable(env, scope)
    requires forall i :: 0 <= i < |ss| ==> WellTypedStmt(env, ss[i]) && LowerableStmt(scope.funcs, ss[i]) && PrintsPrimitiveStmt(ss[i])
    ensures CodeGenStmts(scope, ss).Success?
    ensures NetEffect(CodeGenStmts(scope, ss).value, Arity(env)) == Some(0)
  {
    DecoderFaithful(Arity(env), scope);
    StmtsBalanced(env, scope, ss, LineEffects(Arity(env)));
  }

  // ---------------------------------------------------------------------------
  // Whole programs

  /** Every `print` in the annotated program prints a primitive value. */
  predicate ProgramPrintsPrimitive(tp: Program) {
    && (forall i :: 0 <= i < |tp.stmts| ==> PrintsPrimitiveStmt(tp.stmts[i]))
    && (forall i, j :: 0 <= i < |tp.fundefs| && 0 <= j < |tp.fundefs[i].body| ==> PrintsPrimitiveStmt(tp.fundefs[i].body[j]))
  }

  lemma CheckFunDefKeepsName(env: TypeEnv, f: FunDef, tf: FunDef)
    requires CheckFunDef(env, f) == Success(tf)
    ensures tf.name == f.name
  {
  }

  lemma {:induction false} CheckedFunNames(p: Program, tp: Program)
    requires CheckProgram(p, EmptyEnv) == Success(tp)
    ensures ProgramFunNames(tp) == TypeCheckFacts.FunNames(p.fundefs)
  {
    TypeCheckFacts.ProgramChecksEveryBody(p, EmptyEnv, tp);
    var benv := CheckDeclarations(p, EmptyEnv).value.2;
    forall i | 0 <= i < |tp.fundefs| ensures tp.fundefs[i].name == p.fundefs[i].name {
      CheckFunDefKeepsName(benv, p.fundefs[i], tp.fundefs[i]);
    }
  }

  /** With its functions registered, a checked program's environment
      satisfies the conditions for balanced output. */
  lemma CheckedProgramEmittable(p: Program, tp: Program, locals: set<string>)
    requires CheckProgram(p, EmptyEnv) == Success(tp)
    requires forall i :: 0 <= i < |p.fundefs| ==> p.fundefs[i].name !in HostArity
    ensures CheckDeclarations(p, EmptyEnv).Success?
    ensures Emittable(CheckDeclarations(p, EmptyEnv).value.2, Scope(locals, ProgramFunNames(tp)))
  {
    TypeCheckFacts.ProgramChecksEveryBody(p, EmptyEnv, tp);
    TypeCheckFacts.DeclarationsRegisterAll(p, EmptyEnv);
    CheckedFunNames(p, tp);
  }

  /** The top-level code of a compiled program leaves the operand stack as
      it found it. */
  lemma TopLevelBalanced(p: Program, tp: Program)
    requires BareStmts(p.stmts)
    requires CheckProgram(p, EmptyEnv) == Success(tp) && Emit(tp).Success?
    requires ProgramPrintsPrimitive(tp)
    requires forall i :: 0 <= i < |p.fundefs| ==> p.fundefs[i].name !in HostArity
    ensures CheckDeclarations(p, EmptyEnv).Success?
    ensures NetEffect(Emit(tp).value.commands[1..], Arity(CheckDeclarations(p, EmptyEnv).value.2)) == Some(0)
  {
    CheckedProgramEmittable(p, tp, {});
    var benv := CheckDeclarations(p, EmptyEnv).value.2;
    TypeCheckFacts.ProgramChecksEveryBody(p, EmptyEnv, tp);
    CheckStmtsSound(benv, p.stmts, tp.stmts);
    EmitSucceeds(tp);
    StmtsNetEffect(benv, Scope({}, ProgramFunNames(tp)), tp.stmts);
  }

  /** A checked function's body is well typed in the environment the
      checker gave it, which differs from the program's only in its
      variables and return type. */
  lemma CheckedBodyWellTyped(p: Program, tp: Program, i: nat) returns (local: TypeEnv)
    requires i < |p.fundefs| && BareStmts(p.fundefs[i].body)
    requires CheckProgram(p, EmptyEnv) == Success(tp)
    ensures CheckDeclarations(p, EmptyEnv).Success? && i < |tp.fundefs|
    ensures local.funcs == CheckDeclarations(p, EmptyEnv).value.2.funcs
    ensures WellTypedStmts(local, tp.fundefs[i].body)
  {
    var f := tp.fundefs[i];
    var benv := CheckDeclarations(p, EmptyEnv).value.2;
    TypeCheckFacts.ProgramChecksEveryBody(p, EmptyEnv, tp);
    var pf := p.fundefs[i];
    assert CheckFunDef(benv, pf) == Success(f);
    var inits := CheckVarInits(pf.inits, BindParams(benv.vars, pf.params), benv.classes).value;
    local := benv.(vars := inits.1, retType := pf.ret);
    assert CheckStmts(local, pf.body) == Success(f.body);
    CheckStmtsSound(local, pf.body, f.body);
  }

  /** The body code of every compiled function leaves the operand stack as
      it found it. */
  lemma FunctionBodyBalanced(p: Program, tp: Program, i: nat)
    requires i < |p.fundefs| && BareStmts(p.fundefs[i].body)
    requires CheckProgram(p, EmptyEnv) == Success(tp) && Emit(tp).Success?
    requires ProgramPrintsPrimitive(tp)
    requires forall k :: 0 <= k < |p.fundefs| ==> p.fundefs[k].name !in HostArity
    ensures CheckDeclarations(p, EmptyEnv).Success? && i < |tp.fundefs|
    ensures var f := tp.fundefs[i];
      var code := CodeGenStmts(Scope(FunLocals(f), ProgramFunNames(tp)), f.body);
      code.Success? && NetEffect(code.value, Arity(CheckDeclarations(p, EmptyEnv).value.2)) == Some(0)
  {
    var local := CheckedBodyWellTyped(p, tp, i);
    var f := tp.fundefs[i];
    var scope := Scope(FunLocals(f), ProgramFunNames(tp));
    CheckedProgramEmittable(p, tp, FunLocals(f));
    EmitSucceeds(tp);
    assert Arity(local) == Arity(CheckDeclarations(p, EmptyEnv).value.2);
    StmtsNetEffect(local, scope, f.body);
  }
}
