/** The static type checker (typecheck.ts): turns an unannotated program into
    one whose expressions and statements carry their types, or fails with the
    first error it meets. Environments are values threaded explicitly; a
    function body is checked in a copy of the environment, so nothing declared
    inside it reaches the caller. */
module TypeCheck {
  import opened Wrappers
  import opened Ast

  /** A function or method signature: parameter types (a method's include its receiver) and return type. */
  datatype Signature = Signature(params: seq<Type>, ret: Type)

  datatype ClassEnv = ClassEnv(fields: map<string, Type>, methods: map<string, Signature>)

  /** The checking environment. A class name mapped to `None` has been
      registered but its body not yet processed (the source stores `null`). */
  datatype TypeEnv = TypeEnv(
    vars: map<string, Type>,
    funcs: map<string, Signature>,
    classes: map<string, Option<ClassEnv>>,
    retType: Type)

  /** The three error classes the checker raises. */
  datatype ErrorKind = ReferenceError | TypeError | PlainError

  /** What went wrong, with the offending names and types. */
  datatype Fault =
    | NotAVariable(name: string)
    | NotAMember(field: string, cls: string)
    | NotAnObjectReceiver(got: Type)
    | NoSuchMethod(meth: string, cls: string)
    | NotAFunctionOrClass(name: string)
    | NoSuchClass(cls: string)
    | Mismatch(expected: Type, got: Type)
    | DuplicateDecl(name: string)
    | BadCondition(got: Type)
    | BadOperand(op: string, got: Type)
    | BadOperands(op: string, left: Type, right: Type)
    | NotAnObject(got: Type)
    | MissingReturn(fun: string)
    | EmptyBody(fun: string)
    | UnprocessedClass(cls: string)
    | ArityMismatch(callee: string, arity: int, supplied: int)

  /** The error class each fault is raised as. Reading a member of a class
      entry that is `null` or absent, or the last statement of an empty
      body, is a TypeError raised by the JavaScript runtime itself. */
  function Kind(f: Fault): ErrorKind
  {
    match f
    case NotAVariable(_) => ReferenceError
    case NotAMember(_, _) => ReferenceError
    case NotAnObjectReceiver(_) => ReferenceError
    case NoSuchMethod(_, _) => ReferenceError
    case NotAFunctionOrClass(_) => ReferenceError
    case ArityMismatch(_, _, _) => PlainError
    case _ => TypeError
  }

  type Check<T> = Result<T, Fault>

  // ---------------------------------------------------------------------------
  // Literals and assignment compatibility

  /** The type of a literal: a number is `int`, a boolean `bool`, `None` is `None`. */
  function LiteralType(lit: Literal): (t: Type)
    ensures !t.ObjectType?
    ensures t == NoneType <==> lit.NoneLit?
  {
    match lit
    case NumLit(_) => IntType
    case BoolLit(_) => BoolType
    case NoneLit => NoneType
  }

  /** May a value of type `r` be stored where `l` is declared? Equal types
      may; `None` may go wherever an object type is declared. Naming an
      object type whose class was never registered is an error. */
  function CheckAssign(l: Type, r: Type, classes: map<string, Option<ClassEnv>>): (res: Check<bool>)
    ensures res.Failure? <==> l != r && l.ObjectType? && l.cls !in classes
    ensures res.Failure? ==> res.error == NoSuchClass(l.cls)
    ensures res == Success(true) <==> l == r || (l.ObjectType? && l.cls in classes && r == NoneType)
  {
    if l == r then Success(true)
    else if l.ObjectType? then
      if l.cls !in classes then Failure(NoSuchClass(l.cls))
      else Success(r == NoneType || (r.ObjectType? && r.cls == l.cls))
    else Success(false)
  }

  /** Checks declarations in order against `vars`: each literal must be
      assignable to its declared type and each name must be new. Returns the
      annotated declarations and the extended map. */
  function CheckVarInits(inits: seq<VarDef>, vars: map<string, Type>, classes: map<string, Option<ClassEnv>>)
    : (r: Check<(seq<VarDef>, map<string, Type>)>)
    ensures r.Success? ==> |r.value.0| == |inits|
    decreases |inits|
  {
    if |inits| == 0 then Success(([], vars))
    else
      var v := inits[0];
      var ok :- CheckAssign(v.ty, LiteralType(v.init), classes);
      if !ok then Failure(Mismatch(v.ty, LiteralType(v.init)))
      else if v.name in vars then Failure(DuplicateDecl(v.name))
      else
        var rest :- CheckVarInits(inits[1..], vars[v.name := v.ty], classes);
        Success(([v.(a := Some(v.ty))] + rest.0, rest.1))
  }

  // ---------------------------------------------------------------------------
  // Expressions

  predicate Annotated(es: seq<Expr>) {
    forall i :: 0 <= i < |es| ==> es[i].a.Some?
  }

  /** The annotation of a checked expression. */
  function TypeOf(e: Expr): Type
    requires e.a.Some?
  {
    e.a.value
  }

  /** The class entry behind an object type; a `null` or absent entry is a runtime TypeError. */
  function ClassLookup(classes: map<string, Option<ClassEnv>>, cls: string): (r: Check<ClassEnv>)
    ensures r.Success? <==> cls in classes && classes[cls].Some?
    ensures r.Success? ==> r.value == classes[cls].value
  {
    if cls in classes && classes[cls].Some? then Success(classes[cls].value)
    else Failure(UnprocessedClass(cls))
  }

  /** Checks each argument against its parameter type, left to right. */
  function CheckArgTypes(params: seq<Type>, args: seq<Expr>, classes: map<string, Option<ClassEnv>>): (r: Check<()>)
    requires |params| == |args| && Annotated(args)
    decreases |args|
  {
    if |args| == 0 then Success(())
    else
      var ok :- CheckAssign(params[0], TypeOf(args[0]), classes);
      if !ok then Failure(Mismatch(params[0], TypeOf(args[0])))
      else CheckArgTypes(params[1..], args[1..], classes)
  }

  function CheckExpr(env: TypeEnv, e: Expr): (r: Check<Expr>)
    ensures r.Success? ==> r.value.a.Some?
    decreases e
  {
    match e
    case Id(x, _) =>
      if x !in env.vars then Failure(NotAVariable(x))
      else Success(Id(x, Some(env.vars[x])))

    case GetAttr(o, f, _) =>
      var to :- CheckExpr(env, o);
      var t := TypeOf(to);
      if !t.ObjectType? then Failure(NotAnObject(t))
      else
        var ce :- ClassLookup(env.classes, t.cls);
        if f !in ce.fields then Failure(NotAMember(f, t.cls))
        else Success(GetAttr(to, f, Some(ce.fields[f])))

    case Builtin1(fn, x, _) =>
      var tx :- CheckExpr(env, x);
      (match fn
       case Print => Success(Builtin1(fn, tx, Some(NoneType)))
       case Abs =>
         if TypeOf(tx) != IntType then Failure(BadOperand("abs", TypeOf(tx)))
         else Success(Builtin1(fn, tx, Some(IntType))))

    case Builtin2(fn, x, y, _) =>
      var tx :- CheckExpr(env, x);
      var ty :- CheckExpr(env, y);
      if TypeOf(tx) != IntType || TypeOf(ty) != IntType then
        Failure(BadOperands(Builtin2Text(fn), TypeOf(tx), TypeOf(ty)))
      else Success(Builtin2(fn, tx, ty, Some(IntType)))

    case UniExpr(op, x, _) =>
      var tx :- CheckExpr(env, x);
      var want := if op == Not then BoolType else IntType;
      if TypeOf(tx) != want then Failure(BadOperand(UniOpSymbol(op), TypeOf(tx)))
      else Success(UniExpr(op, tx, tx.a))

    case BinExpr(op, l, rt, _) =>
      var tl :- CheckExpr(env, l);
      var tr :- CheckExpr(env, rt);
      var lt, rtt := TypeOf(tl), TypeOf(tr);
      var bad := Failure(BadOperands(BinOpSymbol(op), lt, rtt));
      (match op
       case Add | Sub | Mul | Div | Mod =>
         if lt != IntType || rtt != IntType then bad else Success(BinExpr(op, tl, tr, Some(IntType)))
       case Lesser | LessEq | Greater | GreatEq =>
         if lt != IntType || rtt != IntType then bad else Success(BinExpr(op, tl, tr, Some(BoolType)))
       case Equals | NotEquals =>
         if lt != rtt || rtt == NoneType then bad else Success(BinExpr(op, tl, tr, Some(BoolType)))
       case Is =>
         // as written: the second clause tests the LEFT operand's object-ness again
         if (lt != NoneType && !lt.ObjectType?) || (rtt != NoneType && !lt.ObjectType?) then bad
         else Success(BinExpr(op, tl, tr, Some(BoolType))))

    case LiteralExpr(lit, _) =>
      Success(LiteralExpr(lit, Some(LiteralType(lit))))

    case Call(name, args, recv, _) =>
      if name in env.funcs then
        var targs :- CheckArgs(env, args);
        var sig := env.funcs[name];
        if |sig.params| != |targs| then Failure(ArityMismatch(name, |sig.params|, |targs|))
        else
          var _ :- CheckArgTypes(sig.params, targs, env.classes);
          Success(Call(name, targs, recv, Some(sig.ret)))
      else if name in env.classes then
        if |args| != 0 then Failure(ArityMismatch(name, 0, |args|))
        else Success(Call(name, args, recv, Some(ObjectType(name))))
      else if recv.Some? then
        var tobj :- CheckExpr(env, recv.value);
        var t := TypeOf(tobj);
        if !t.ObjectType? then Failure(NotAnObjectReceiver(t))
        else
          var targs :- CheckArgs(env, args);
          var ce :- ClassLookup(env.classes, t.cls);
          if name !in ce.methods then Failure(NoSuchMethod(name, t.cls))
          else
            var sig := ce.methods[name];
            if |sig.params| - 1 != |targs| then Failure(ArityMismatch(name, |sig.params| - 1, |targs|))
            else
              var _ :- CheckArgTypes(sig.params[1..], targs, env.classes);
              Success(Call(name, targs, Some(tobj), Some(sig.ret)))
      else Failure(NotAFunctionOrClass(name))
  }

  /** Checks arguments left to right; the first failure wins. */
  function CheckArgs(env: TypeEnv, args: seq<Expr>): (r: Check<seq<Expr>>)
    ensures r.Success? ==> |r.value| == |args| && Annotated(r.value)
    decreases args
  {
    if |args| == 0 then Success([])
    else
      var h :- CheckExpr(env, args[0]);
      var t :- CheckArgs(env, args[1..]);
      Success([h] + t)
  }

  // ---------------------------------------------------------------------------
  // Statements

  function CheckStmt(env: TypeEnv, s: Stmt): (r: Check<Stmt>)
    decreases s
  {
    match s
    case Assign(NameTarget(x), v, _) =>
      if x !in env.vars then Failure(NotAVariable(x))
      else
        var tv :- CheckExpr(env, v);
        var ok :- CheckAssign(env.vars[x], TypeOf(tv), env.classes);
        if !ok then Failure(Mismatch(env.vars[x], TypeOf(tv)))
        else Success(Assign(NameTarget(x), tv, Some(NoneType)))

    case Assign(AttrTarget(t), v, _) =>
      var tv :- CheckExpr(env, v);
      var tt :- CheckExpr(env, t);
      var ok :- CheckAssign(TypeOf(tt), TypeOf(tv), env.classes);
      if !ok then Failure(Mismatch(TypeOf(tt), TypeOf(tv)))
      else Success(Assign(AttrTarget(tt), tv, Some(NoneType)))

    case Return(x, _) =>
      var tx :- CheckExpr(env, x);
      var ok :- CheckAssign(env.retType, TypeOf(tx), env.classes);
      if !ok then Failure(Mismatch(env.retType, TypeOf(tx)))
      else Success(Return(tx, Some(NoneType)))

    case Pass(_) => Success(Pass(Some(NoneType)))

    case If(c, b, eb, _) =>
      var tc :- CheckExpr(env, c);
      if TypeOf(tc) != BoolType then Failure(BadCondition(TypeOf(tc)))
      else
        var tb :- CheckStmts(env, b);
        var te :- CheckStmts(env, eb);
        Success(If(tc, tb, te, Some(NoneType)))

    case While(c, b, _) =>
      var tc :- CheckExpr(env, c);
      if TypeOf(tc) != BoolType then Failure(BadCondition(TypeOf(tc)))
      else
        var tb :- CheckStmts(env, b);
        Success(While(tc, tb, Some(NoneType)))

    case ExprStmt(x, _) =>
      var tx :- CheckExpr(env, x);
      Success(ExprStmt(tx, tx.a))
  }

  /** Checks statements in order in one flat scope; the first failure wins. */
  function CheckStmts(env: TypeEnv, ss: seq<Stmt>): (r: Check<seq<Stmt>>)
    ensures r.Success? ==> |r.value| == |ss|
    decreases ss
  {
    if |ss| == 0 then Success([])
    else
      var h :- CheckStmt(env, ss[0]);
      var t :- CheckStmts(env, ss[1..]);
      Success([h] + t)
  }

  // ---------------------------------------------------------------------------
  // Functions, classes and programs

  /** The syntactic return check: the last statement is a `return`, a `pass`,
      or an `if` whose else-branch is non-empty and ends in `return`. */
  predicate ReturnCheck(body: seq<Stmt>)
    requires |body| > 0
  {
    var last := body[|body| - 1];
    last.Return? || last.Pass? || (last.If? && |last.elseBody| > 0 && last.elseBody[|last.elseBody| - 1].Return?)
  }

  /** Binds parameters in order; a later parameter of the same name wins. */
  function BindParams(vars: map<string, Type>, params: seq<TypedVar>): map<string, Type>
    decreases |params|
  {
    if |params| == 0 then vars
    else BindParams(vars[params[0].name := params[0].ty], params[1..])
  }

  function ParamTypes(params: seq<TypedVar>): (ts: seq<Type>)
    ensures |ts| == |params|
    ensures forall i :: 0 <= i < |params| ==> ts[i] == params[i].ty
  {
    seq(|params|, i requires 0 <= i < |params| => params[i].ty)
  }

  function AnnotateParams(params: seq<TypedVar>): (ps: seq<TypedVar>)
    ensures |ps| == |params|
    ensures forall i :: 0 <= i < |params| ==> ps[i] == params[i].(a := Some(params[i].ty))
  {
    seq(|params|, i requires 0 <= i < |params| => params[i].(a := Some(params[i].ty)))
  }

  /** Registers signatures in order; a later definition of the same name wins. */
  function RegisterSigs(m: map<string, Signature>, fs: seq<FunDef>): map<string, Signature>
    decreases |fs|
  {
    if |fs| == 0 then m
    else RegisterSigs(m[fs[0].name := Signature(ParamTypes(fs[0].params), fs[0].ret)], fs[1..])
  }

  /** Checks one function or method body in a private copy of `env`:
      parameters, then locals, then the body, then the return check. */
  function CheckFunDef(env: TypeEnv, f: FunDef): (r: Check<FunDef>)
  {
    var withParams := BindParams(env.vars, f.params);
    var inits :- CheckVarInits(f.inits, withParams, env.classes);
    var local := env.(vars := inits.1, retType := f.ret);
    var body :- CheckStmts(local, f.body);
    if |body| == 0 then Failure(EmptyBody(f.name))
    else if !ReturnCheck(body) then Failure(MissingReturn(f.name))
    else Success(FunDef(f.name, AnnotateParams(f.params), f.ret, inits.0, body))
  }

  function CheckFunDefs(env: TypeEnv, fs: seq<FunDef>): (r: Check<seq<FunDef>>)
    ensures r.Success? ==> |r.value| == |fs|
    decreases |fs|
  {
    if |fs| == 0 then Success([])
    else
      var h :- CheckFunDef(env, fs[0]);
      var t :- CheckFunDefs(env, fs[1..]);
      Success([h] + t)
  }

  /** Checks a class: its fields into a fresh map, then installs the class
      entry (fields and method signatures) before checking the methods. */
  function CheckClassDef(env: TypeEnv, c: ClassDef): (r: Check<(ClassDef, TypeEnv)>)
  {
    var fields :- CheckVarInits(c.fields, map[], env.classes);
    var entry := ClassEnv(fields.1, RegisterSigs(map[], c.methods));
    var env' := env.(classes := env.classes[c.name := Some(entry)]);
    var methods :- CheckFunDefs(env', c.methods);
    Success((ClassDef(c.name, fields.0, methods), env'))
  }

  function CheckClassDefs(env: TypeEnv, cs: seq<ClassDef>): (r: Check<(seq<ClassDef>, TypeEnv)>)
    decreases |cs|
  {
    if |cs| == 0 then Success(([], env))
    else
      var h :- CheckClassDef(env, cs[0]);
      var t :- CheckClassDefs(h.1, cs[1..]);
      Success(([h.0] + t.0, t.1))
  }

  /** Registers every class name with a `null` entry. */
  function PreRegister(classes: map<string, Option<ClassEnv>>, cs: seq<ClassDef>): map<string, Option<ClassEnv>>
    decreases |cs|
  {
    if |cs| == 0 then classes
    else PreRegister(classes[cs[0].name := None], cs[1..])
  }

  /** The part of program checking that precedes the function bodies:
      class names, class bodies, globals, then every function signature.
      Yields the checked classes, the checked globals and the environment
      in which function bodies and top-level statements are checked. */
  function CheckDeclarations(p: Program, env: TypeEnv): Check<(seq<ClassDef>, seq<VarDef>, TypeEnv)>
  {
    var env1 := env.(classes := PreRegister(env.classes, p.classdefs));
    var cls :- CheckClassDefs(env1, p.classdefs);
    var env2 := cls.1;
    var inits :- CheckVarInits(p.varinits, env2.vars, env2.classes);
    var env3 := env2.(vars := inits.1, funcs := RegisterSigs(env2.funcs, p.fundefs));
    Success((cls.0, inits.0, env3))
  }

  function CheckProgram(p: Program, env: TypeEnv): (r: Check<Program>)
    ensures r.Success? ==> |r.value.stmts| == |p.stmts| && |r.value.fundefs| == |p.fundefs|
  {
    var decls :- CheckDeclarations(p, env);
    var funs :- CheckFunDefs(decls.2, p.fundefs);
    var stmts :- CheckStmts(decls.2, p.stmts);
    Success(Program(decls.1, funs, decls.0, stmts, Some(env.retType)))
  }

  /** The environment a fresh compilation starts from. */
  const EmptyEnv: TypeEnv := TypeEnv(map[], map[], map[], NoneType)
}
