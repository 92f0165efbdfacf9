/** Properties of the type checker's individual rules: declarations,
    function scopes, registration order, operator and call typing, the
    return check and the error kinds raised. */
module TypeCheckFacts {
  import opened Wrappers
  import opened Ast
  import opened TypeCheck
  import opened Typing

  // ---------------------------------------------------------------------------
  // Assignment compatibility

  /** `None` may be stored in an object-typed slot of a known class, never in an `int` or `bool` one. */
  lemma NoneAssignability(cls: string, classes: map<string, Option<ClassEnv>>)
    ensures CheckAssign(IntType, NoneType, classes) == Success(false)
    ensures CheckAssign(BoolType, NoneType, classes) == Success(false)
    ensures cls in classes ==> CheckAssign(ObjectType(cls), NoneType, classes) == Success(true)
    ensures cls !in classes ==> CheckAssign(ObjectType(cls), NoneType, classes) == Failure(NoSuchClass(cls))
    ensures Kind(NoSuchClass(cls)) == TypeError
  {
  }

  // ---------------------------------------------------------------------------
  // Declarations

  /** A declaration's literal fits its declared type. */
  predicate InitAcceptable(v: VarDef, classes: map<string, Option<ClassEnv>>) {
    AssignOk(v.ty, LiteralType(v.init), classes)
  }

  /** No name is in `vars` already or declared twice. */
  predicate FreshNames(inits: seq<VarDef>, vars: map<string, Type>) {
    forall i :: 0 <= i < |inits| ==> inits[i].name !in vars && forall j :: 0 <= j < i ==> inits[j].name != inits[i].name
  }

  function InitNames(inits: seq<VarDef>): set<string> {
    set i | 0 <= i < |inits| :: inits[i].name
  }

  /** A declaration passes exactly when its literal fits the declared type
      (an `int`, `bool` or `None` literal for `int`, `bool`, `None`; `None` for
      an object type of a registered class); the name must be new. */
  lemma InitAcceptableMeans(v: VarDef, classes: map<string, Option<ClassEnv>>)
    ensures InitAcceptable(v, classes) <==>
      (match v.init
       case NumLit(_) => v.ty == IntType
       case BoolLit(_) => v.ty == BoolType
       case NoneLit => v.ty == NoneType || (v.ty.ObjectType? && v.ty.cls in classes))
  {
  }

  lemma FreshNamesTail(inits: seq<VarDef>, vars: map<string, Type>)
    requires |inits| > 0
    ensures FreshNames(inits, vars) <==> inits[0].name !in vars && FreshNames(inits[1..], vars[inits[0].name := inits[0].ty])
  {
    var vars' := vars[inits[0].name := inits[0].ty];
    if FreshNames(inits, vars) {
      forall i | 0 <= i < |inits| - 1
        ensures inits[1..][i].name !in vars' && forall j :: 0 <= j < i ==> inits[1..][j].name != inits[1..][i].name
      {
        assert inits[1..][i] == inits[i + 1];
        forall j | 0 <= j < i ensures inits[1..][j].name != inits[1..][i].name {
          assert inits[1..][j] == inits[j + 1];
        }
      }
    }
    if inits[0].name !in vars && FreshNames(inits[1..], vars') {
      forall i | 0 <= i < |inits|
        ensures inits[i].name !in vars && forall j :: 0 <= j < i ==> inits[j].name != inits[i].name
      {
        if i > 0 {
          assert inits[i] == inits[1..][i - 1];
          forall j | 0 <= j < i ensures inits[j].name != inits[i].name {
            if j > 0 { assert inits[j] == inits[1..][j - 1]; }
          }
        }
      }
    }
  }

  lemma AllAcceptableTail(inits: seq<VarDef>, classes: map<string, Option<ClassEnv>>)
    requires |inits| > 0
    ensures (forall i :: 0 <= i < |inits| ==> InitAcceptable(inits[i], classes)) <==>
      InitAcceptable(inits[0], classes) && forall i :: 0 <= i < |inits[1..]| ==> InitAcceptable(inits[1..][i], classes)
  {
    if InitAcceptable(inits[0], classes) && forall i :: 0 <= i < |inits[1..]| ==> InitAcceptable(inits[1..][i], classes) {
      forall i | 0 <= i < |inits| ensures InitAcceptable(inits[i], classes) {
        if i > 0 { assert inits[i] == inits[1..][i - 1]; }
      }
    }
  }

  lemma InitNamesTail(inits: seq<VarDef>)
    requires |inits| > 0
    ensures InitNames(inits) == {inits[0].name} + InitNames(inits[1..])
  {
    forall n | n in InitNames(inits) ensures n in {inits[0].name} + InitNames(inits[1..]) {
      var i :| 0 <= i < |inits| && inits[i].name == n;
      if i > 0 { assert inits[1..][i - 1] == inits[i]; }
    }
    forall n | n in InitNames(inits[1..]) ensures n in InitNames(inits) {
      var i :| 0 <= i < |inits[1..]| && inits[1..][i].name == n;
      assert inits[i + 1] == inits[1..][i];
    }
  }

  /** Declarations pass exactly when every literal fits its declared type
      and every name is new; every failure is a TypeError. */
  lemma {:induction false} CheckVarInitsAccepts(inits: seq<VarDef>, vars: map<string, Type>, classes: map<string, Option<ClassEnv>>)
    ensures var r := CheckVarInits(inits, vars, classes);
      && (r.Success? <==> (forall i :: 0 <= i < |inits| ==> InitAcceptable(inits[i], classes)) && FreshNames(inits, vars))
      && (r.Failure? ==> Kind(r.error) == TypeError)
    decreases |inits|
  {
    if |inits| > 0 {
      var v := inits[0];
      CheckVarInitsAccepts(inits[1..], vars[v.name := v.ty], classes);
      FreshNamesTail(inits, vars);
      AllAcceptableTail(inits, classes);
    }
  }

  /** On success the map gains exactly `name -> declared type` for each
      declaration, keeps every earlier entry, and each declaration comes back
      annotated with its declared type. */
  lemma {:induction false} CheckVarInitsResult(inits: seq<VarDef>, vars: map<string, Type>, classes: map<string, Option<ClassEnv>>)
    requires CheckVarInits(inits, vars, classes).Success?
    ensures var r := CheckVarInits(inits, vars, classes).value;
      && r.1.Keys == vars.Keys + InitNames(inits)
      && (forall k :: k in vars ==> r.1[k] == vars[k])
      && (forall i :: 0 <= i < |inits| ==> r.1[inits[i].name] == inits[i].ty)
      && (forall i :: 0 <= i < |inits| ==> r.0[i] == inits[i].(a := Some(inits[i].ty)))
    decreases |inits|
  {
    if |inits| > 0 {
      var v := inits[0];
      var vars' := vars[v.name := v.ty];
      var r := CheckVarInits(inits, vars, classes).value;
      var rest := CheckVarInits(inits[1..], vars', classes).value;
      CheckVarInitsResult(inits[1..], vars', classes);
      CheckVarInitsAccepts(inits, vars, classes);
      InitNamesTail(inits);
      assert r.1 == rest.1;
      forall i | 0 <= i < |inits| ensures r.1[inits[i].name] == inits[i].ty {
        if i > 0 { assert inits[i] == inits[1..][i - 1]; }
      }
      forall i | 0 <= i < |inits| ensures r.0[i] == inits[i].(a := Some(inits[i].ty)) {
        if i > 0 { assert inits[i] == inits[1..][i - 1]; assert r.0[i] == rest.0[i - 1]; }
      }
    }
  }

  /** The first declaration that fails decides the error: a declaration
      whose literal fits but whose name is already taken, by `vars` or by an
      earlier declaration, is rejected as a duplicate of that name. */
  lemma {:induction false} DuplicateRejected(inits: seq<VarDef>, vars: map<string, Type>, classes: map<string, Option<ClassEnv>>, i: nat)
    requires i < |inits|
    requires forall j :: 0 <= j <= i ==> InitAcceptable(inits[j], classes)
    requires FreshNames(inits[..i], vars)
    requires inits[i].name in vars || exists j :: 0 <= j < i && inits[j].name == inits[i].name
    ensures CheckVarInits(inits, vars, classes) == Failure(DuplicateDecl(inits[i].name))
    decreases i
  {
    var v := inits[0];
    if i > 0 {
      var vars' := vars[v.name := v.ty];
      assert inits[..i][0] == v;
      assert FreshNames(inits[..i][1..], vars') by { FreshNamesTail(inits[..i], vars); }
      assert inits[..i][1..] == inits[1..][..i - 1];
      forall j | 0 <= j <= i - 1 ensures InitAcceptable(inits[1..][j], classes) {
        assert inits[1..][j] == inits[j + 1];
      }
      assert inits[1..][i - 1] == inits[i];
      if inits[i].name !in vars' {
        var j :| 0 <= j < i && inits[j].name == inits[i].name;
        assert j > 0;
        assert inits[1..][j - 1] == inits[j];
      }
      DuplicateRejected(inits[1..], vars', classes, i - 1);
    }
  }

  // ---------------------------------------------------------------------------
  // Function scopes

  function ParamNames(params: seq<TypedVar>): set<string> {
    set i | 0 <= i < |params| :: params[i].name
  }

  lemma {:induction false} BindParamsKeys(vars: map<string, Type>, params: seq<TypedVar>)
    ensures BindParams(vars, params).Keys == vars.Keys + ParamNames(params)
    decreases |params|
  {
    if |params| > 0 {
      BindParamsKeys(vars[params[0].name := params[0].ty], params[1..]);
      assert ParamNames(params) == {params[0].name} + ParamNames(params[1..]) by {
        forall n | n in ParamNames(params) ensures n in {params[0].name} + ParamNames(params[1..]) {
          var i :| 0 <= i < |params| && params[i].name == n;
          if i > 0 { assert params[1..][i - 1] == params[i]; }
        }
        forall n | n in ParamNames(params[1..]) ensures n in ParamNames(params) {
          var i :| 0 <= i < |params[1..]| && params[1..][i].name == n;
          assert params[i + 1] == params[1..][i];
        }
      }
    }
  }

  /** The environment a function body is checked in: the caller's, with
      the parameters and then the locals bound, and the declared return type. */
  function BodyEnv(env: TypeEnv, f: FunDef, locals: map<string, Type>): TypeEnv {
    env.(vars := locals, retType := f.ret)
  }

  /** A function checks only if no local reuses the name of a parameter, of
      a global or of another local; its body is checked in the caller's
      functions and classes with exactly the caller's variables, the
      parameters and the locals in scope, against its declared return type. */
  lemma FunDefScope(env: TypeEnv, f: FunDef, tf: FunDef)
    requires CheckFunDef(env, f) == Success(tf)
    ensures forall i :: 0 <= i < |f.inits| ==> f.inits[i].name !in env.vars && f.inits[i].name !in ParamNames(f.params)
    ensures exists locals: map<string, Type> ::
      && locals.Keys == env.vars.Keys + ParamNames(f.params) + InitNames(f.inits)
      && (forall i :: 0 <= i < |f.inits| ==> locals[f.inits[i].name] == f.inits[i].ty)
      && CheckStmts(BodyEnv(env, f, locals), f.body) == Success(tf.body)
    ensures tf.name == f.name && tf.ret == f.ret && |tf.params| == |f.params| && |tf.inits| == |f.inits|
  {
    var withParams := BindParams(env.vars, f.params);
    BindParamsKeys(env.vars, f.params);
    CheckVarInitsAccepts(f.inits, withParams, env.classes);
    CheckVarInitsResult(f.inits, withParams, env.classes);
    var locals := CheckVarInits(f.inits, withParams, env.classes).value.1;
    assert CheckStmts(BodyEnv(env, f, locals), f.body) == Success(tf.body);
  }

  /** Consequently a local that shares a name with a parameter (or a global)
      is rejected as a duplicate, once the locals before it have passed. */
  lemma LocalShadowingParamRejected(env: TypeEnv, f: FunDef, i: nat)
    requires i < |f.inits|
    requires forall j :: 0 <= j <= i ==> InitAcceptable(f.inits[j], env.classes)
    requires FreshNames(f.inits[..i], BindParams(env.vars, f.params))
    requires f.inits[i].name in ParamNames(f.params) || f.inits[i].name in env.vars
    ensures CheckFunDef(env, f) == Failure(DuplicateDecl(f.inits[i].name))
  {
    BindParamsKeys(env.vars, f.params);
    DuplicateRejected(f.inits, BindParams(env.vars, f.params), env.classes, i);
  }

  // ---------------------------------------------------------------------------
  // The return check

  lemma EraseStmtsAt(ss: seq<Stmt>, i: nat)
    requires i < |ss|
    ensures EraseStmts(ss)[i] == EraseStmt(ss[i])
    decreases i
  {
    if i > 0 {
      EraseStmtsAt(ss[1..], i - 1);
      assert EraseStmts(ss)[1..] == EraseStmts(ss[1..]);
    }
  }

  /** The return check's verdict on a final statement. */
  predicate EndsInReturn(last: Stmt) {
    last.Return? || last.Pass? || (last.If? && |last.elseBody| > 0 && last.elseBody[|last.elseBody| - 1].Return?)
  }

  /** Erasing a final statement does not change the return check's verdict on it. */
  lemma EndsInReturnErased(last: Stmt)
    ensures EndsInReturn(EraseStmt(last)) == EndsInReturn(last)
  {
    if last.If? && |last.elseBody| > 0 {
      var k := |last.elseBody| - 1;
      assert EraseStmt(last).elseBody == EraseStmts(last.elseBody);
      EraseStmtsAt(last.elseBody, k);
    }
  }

  /** The return check sees only statement kinds and else-branch shapes, which annotation does not change. */
  lemma ReturnCheckIgnoresAnnotations(ss: seq<Stmt>)
    requires |ss| > 0
    ensures ReturnCheck(EraseStmts(ss)) == ReturnCheck(ss)
  {
    var es := EraseStmts(ss);
    EraseStmtsAt(ss, |ss| - 1);
    EndsInReturnErased(ss[|ss| - 1]);
    assert ReturnCheck(ss) == EndsInReturn(ss[|ss| - 1]);
    assert ReturnCheck(es) == EndsInReturn(es[|es| - 1]);
  }

  /** Once parameters, locals and body have checked, a function passes
      exactly when its (unannotated) body is non-empty and its last statement
      is a `return`, a `pass`, or an `if` with a non-empty else-branch ending
      in `return` — whatever the declared return type. An empty body raises
      a TypeError; otherwise the failure is "all paths must have return". */
  lemma ReturnCheckDecides(env: TypeEnv, f: FunDef, locals: map<string, Type>, tbody: seq<Stmt>)
    requires BareStmts(f.body)
    requires CheckVarInits(f.inits, BindParams(env.vars, f.params), env.classes).Success?
    requires locals == CheckVarInits(f.inits, BindParams(env.vars, f.params), env.classes).value.1
    requires CheckStmts(BodyEnv(env, f, locals), f.body) == Success(tbody)
    ensures |f.body| == 0 ==> CheckFunDef(env, f) == Failure(EmptyBody(f.name)) && Kind(EmptyBody(f.name)) == TypeError
    ensures |f.body| > 0 ==> (CheckFunDef(env, f).Success? <==> ReturnCheck(f.body))
    ensures |f.body| > 0 && !ReturnCheck(f.body) ==> CheckFunDef(env, f) == Failure(MissingReturn(f.name))
  {
    if |f.body| > 0 {
      CheckStmtsSound(BodyEnv(env, f, locals), f.body, tbody);
      ReturnCheckIgnoresAnnotations(tbody);
    }
  }

  // ---------------------------------------------------------------------------
  // Statements

  /** Assigning to a bare name that is not a variable fails with the
      ReferenceError "Not a variable", before its value is looked at. */
  lemma AssignUndeclaredFails(env: TypeEnv, x: string, v: Expr, a: Ann, rest: seq<Stmt>)
    requires x !in env.vars
    ensures CheckStmt(env, Assign(NameTarget(x), v, a)) == Failure(NotAVariable(x))
    ensures CheckStmts(env, [Assign(NameTarget(x), v, a)] + rest) == Failure(NotAVariable(x))
    ensures Kind(NotAVariable(x)) == ReferenceError
  {
    var ss := [Assign(NameTarget(x), v, a)] + rest;
    assert ss[0] == Assign(NameTarget(x), v, a);
  }

  /** An expression statement is annotated with its expression's type,
      every other statement with `None`; `if` and `while` conditions are `bool`. */
  lemma StmtAnnotation(env: TypeEnv, s: Stmt, ts: Stmt)
    requires CheckStmt(env, s) == Success(ts)
    ensures ts.ExprStmt? <==> s.ExprStmt?
    ensures s.ExprStmt? ==> ts.a == ts.expr.a && ts.a.Some?
    ensures !s.ExprStmt? ==> ts.a == Some(NoneType)
    ensures (s.If? || s.While?) ==> (ts.If? || ts.While?) && ts.cond.a == Some(BoolType)
  {
  }

  /** A condition of any type other than `bool` is a TypeError. */
  lemma NonBoolConditionFails(env: TypeEnv, s: Stmt, tc: Expr)
    requires s.If? || s.While?
    requires CheckExpr(env, s.cond) == Success(tc) && tc.a != Some(BoolType)
    ensures CheckStmt(env, s) == Failure(BadCondition(TypeOf(tc)))
    ensures Kind(BadCondition(TypeOf(tc))) == TypeError
  {
  }

  // ---------------------------------------------------------------------------
  // Operators and builtins

  /** The binary operator table: `+ - * // %` take two ints to an int; the
      orderings take two ints to a bool; `==`/`!=` take two equal, non-`None`
      types to a bool; `is` is accepted as `IsAccepted` says. */
  lemma BinExprTyping(env: TypeEnv, op: BinOp, l: Expr, r: Expr, tl: Expr, tr: Expr)
    requires CheckExpr(env, l) == Success(tl) && CheckExpr(env, r) == Success(tr)
    ensures var res := CheckExpr(env, BinExpr(op, l, r, None));
      && (res.Success? <==> OpResult(op, TypeOf(tl), TypeOf(tr)).Some?)
      && (res.Success? ==> res.value == BinExpr(op, tl, tr, OpResult(op, TypeOf(tl), TypeOf(tr))))
      && (res.Failure? ==> res.error == BadOperands(BinOpSymbol(op), TypeOf(tl), TypeOf(tr)) && Kind(res.error) == TypeError)
  {
  }

  /** `is` as written: its guard tests the left operand's object-ness in
      both clauses, so the right operand is never required to be an object. */
  lemma IsGuardAsWritten(l: Type, r: Type)
    ensures IsAccepted(l, r) <==> !((l != NoneType && !l.ObjectType?) || (r != NoneType && !l.ObjectType?))
    ensures l == IntType || l == BoolType ==> !IsAccepted(l, r)
    ensures forall c :: IsAccepted(ObjectType(c), r)
    ensures forall c :: !IsAccepted(NoneType, ObjectType(c))
    ensures IsAccepted(NoneType, NoneType)
  {
  }

  /** `not` needs a bool and `-` an int, and the result has the operand's
      type; `abs` takes an int to an int; `max`, `min`, `pow` take two ints
      to an int; `print` takes anything and gives `None`. */
  lemma UnaryAndBuiltinTyping(env: TypeEnv, x: Expr, y: Expr, tx: Expr, ty: Expr, uop: UniOp, fn2: Builtin2Name)
    requires CheckExpr(env, x) == Success(tx) && CheckExpr(env, y) == Success(ty)
    ensures var u := CheckExpr(env, UniExpr(uop, x, None));
      u.Success? <==> TypeOf(tx) == (if uop == Not then BoolType else IntType)
    ensures CheckExpr(env, UniExpr(uop, x, None)).Success? ==> CheckExpr(env, UniExpr(uop, x, None)).value.a == tx.a
    ensures CheckExpr(env, Builtin1(Abs, x, None)).Success? <==> TypeOf(tx) == IntType
    ensures CheckExpr(env, Builtin1(Abs, x, None)).Success? ==> CheckExpr(env, Builtin1(Abs, x, None)).value.a == Some(IntType)
    ensures CheckExpr(env, Builtin1(Print, x, None)) == Success(Builtin1(Print, tx, Some(NoneType)))
    ensures var b := CheckExpr(env, Builtin2(fn2, x, y, None));
      && (b.Success? <==> TypeOf(tx) == IntType && TypeOf(ty) == IntType)
      && (b.Success? ==> b.value.a == Some(IntType))
  {
  }

  // ---------------------------------------------------------------------------
  // Call resolution

  /** Calls resolve in a fixed order. A known function wins: its arity must
      match exactly (a plain Error otherwise) and the call has the
      function's return type. Otherwise a known class is a constructor: it
      takes no arguments and yields `object(name)`. Otherwise a receiver
      method is looked up; failing all three is a ReferenceError. */
  lemma CallResolution(env: TypeEnv, name: string, args: seq<Expr>, recv: Option<Expr>)
    ensures var e := Call(name, args, recv, None);
      var r := CheckExpr(env, e);
      && (name in env.funcs ==>
            (CheckArgs(env, args).Success? && |CheckArgs(env, args).value| != |env.funcs[name].params| ==>
               r == Failure(ArityMismatch(name, |env.funcs[name].params|, |args|)))
            && (r.Success? ==> r.value.a == Some(env.funcs[name].ret)
                               && ArgsAssignable(env.funcs[name].params, r.value.args, env.classes)))
      && (name !in env.funcs && name in env.classes ==>
            r == (if |args| == 0 then Success(Call(name, args, recv, Some(ObjectType(name))))
                  else Failure(ArityMismatch(name, 0, |args|))))
      && (name !in env.funcs && name !in env.classes && recv.None? ==> r == Failure(NotAFunctionOrClass(name)))
    ensures Kind(ArityMismatch(name, 0, |args|)) == PlainError
    ensures Kind(NotAFunctionOrClass(name)) == ReferenceError
  {
    var e := Call(name, args, recv, None);
    var r := CheckExpr(env, e);
    if name in env.funcs && r.Success? {
      var targs := CheckArgs(env, args).value;
      CheckArgTypesSound(env.funcs[name].params, targs, env.classes);
    }
  }

  /** A method call on a receiver of class C with declared parameters
      `self, p1, .., pn` takes exactly n arguments, argument i checked against
      parameter i+1, and has the method's return type. */
  lemma MethodCallTyping(env: TypeEnv, name: string, args: seq<Expr>, obj: Expr, tobj: Expr)
    requires name !in env.funcs && name !in env.classes
    requires CheckExpr(env, obj) == Success(tobj) && TypeOf(tobj).ObjectType?
    requires HasClassEntry(env.classes, TypeOf(tobj).cls)
    requires name in env.classes[TypeOf(tobj).cls].value.methods
    ensures var sig := env.classes[TypeOf(tobj).cls].value.methods[name];
      var r := CheckExpr(env, Call(name, args, Some(obj), None));
      && (CheckArgs(env, args).Success? && |sig.params| - 1 != |args| ==>
            r == Failure(ArityMismatch(name, |sig.params| - 1, |args|)))
      && (r.Success? ==>
            && |sig.params| == |args| + 1
            && r.value.a == Some(sig.ret)
            && ArgsAssignable(sig.params[1..], r.value.args, env.classes)
            && r.value.recv == Some(tobj))
  {
    var sig := env.classes[TypeOf(tobj).cls].value.methods[name];
    var r := CheckExpr(env, Call(name, args, Some(obj), None));
    if r.Success? {
      var targs := CheckArgs(env, args).value;
      CheckArgTypesSound(sig.params[1..], targs, env.classes);
    }
  }

  /** A receiver whose type is not an object is a ReferenceError for a
      method call but a TypeError for an attribute read. */
  lemma NonObjectReceiver(env: TypeEnv, name: string, args: seq<Expr>, obj: Expr, tobj: Expr)
    requires name !in env.funcs && name !in env.classes
    requires CheckExpr(env, obj) == Success(tobj) && !TypeOf(tobj).ObjectType?
    ensures CheckExpr(env, Call(name, args, Some(obj), None)) == Failure(NotAnObjectReceiver(TypeOf(tobj)))
    ensures CheckExpr(env, GetAttr(obj, name, None)) == Failure(NotAnObject(TypeOf(tobj)))
    ensures Kind(NotAnObjectReceiver(TypeOf(tobj))) == ReferenceError && Kind(NotAnObject(TypeOf(tobj))) == TypeError
  {
  }

  /** On a receiver of a registered class, reading a field the class does
      not declare, or calling a method it does not declare, is a
      ReferenceError naming the member and the class. The method lookup
      happens only after every argument has checked: an argument's fault
      comes first. */
  lemma MissingMemberRejected(env: TypeEnv, obj: Expr, tobj: Expr, f: string, name: string, args: seq<Expr>)
    requires CheckExpr(env, obj) == Success(tobj) && TypeOf(tobj).ObjectType?
    requires HasClassEntry(env.classes, TypeOf(tobj).cls)
    ensures var cls := TypeOf(tobj).cls;
      var ce := env.classes[cls].value;
      var r := CheckExpr(env, Call(name, args, Some(obj), None));
      && (f !in ce.fields ==> CheckExpr(env, GetAttr(obj, f, None)) == Failure(NotAMember(f, cls)))
      && (f in ce.fields ==> CheckExpr(env, GetAttr(obj, f, None)) == Success(GetAttr(tobj, f, Some(ce.fields[f]))))
      && (name !in env.funcs && name !in env.classes && CheckArgs(env, args).Failure? ==>
            r == Failure(CheckArgs(env, args).error))
      && (name !in env.funcs && name !in env.classes && CheckArgs(env, args).Success? && name !in ce.methods ==>
            r == Failure(NoSuchMethod(name, cls)))
    ensures Kind(NotAMember(f, TypeOf(tobj).cls)) == ReferenceError
    ensures Kind(NoSuchMethod(name, TypeOf(tobj).cls)) == ReferenceError
  {
  }

  // ---------------------------------------------------------------------------
  // Registration order

  function FunNames(fs: seq<FunDef>): set<string> {
    set i | 0 <= i < |fs| :: fs[i].name
  }

  function ClassNames(cs: seq<ClassDef>): set<string> {
    set i | 0 <= i < |cs| :: cs[i].name
  }

  lemma {:induction false} RegisterSigsSpec(m: map<string, Signature>, fs: seq<FunDef>)
    ensures RegisterSigs(m, fs).Keys == m.Keys + FunNames(fs)
    ensures forall i :: 0 <= i < |fs| && (forall j :: i < j < |fs| ==> fs[j].name != fs[i].name) ==>
      RegisterSigs(m, fs)[fs[i].name] == Signature(ParamTypes(fs[i].params), fs[i].ret)
    decreases |fs|
  {
    if |fs| > 0 {
      var m' := m[fs[0].name := Signature(ParamTypes(fs[0].params), fs[0].ret)];
      RegisterSigsSpec(m', fs[1..]);
      assert FunNames(fs) == {fs[0].name} + FunNames(fs[1..]) by {
        forall n | n in FunNames(fs) ensures n in {fs[0].name} + FunNames(fs[1..]) {
          var i :| 0 <= i < |fs| && fs[i].name == n;
          if i > 0 { assert fs[1..][i - 1] == fs[i]; }
        }
        forall n | n in FunNames(fs[1..]) ensures n in FunNames(fs) {
          var i :| 0 <= i < |fs[1..]| && fs[1..][i].name == n;
          assert fs[i + 1] == fs[1..][i];
        }
      }
      forall i | 0 <= i < |fs| && (forall j :: i < j < |fs| ==> fs[j].name != fs[i].name)
        ensures RegisterSigs(m, fs)[fs[i].name] == Signature(ParamTypes(fs[i].params), fs[i].ret)
      {
        if i > 0 {
          assert fs[1..][i - 1] == fs[i];
          forall j | i - 1 < j < |fs[1..]| ensures fs[1..][j].name != fs[1..][i - 1].name {
            assert fs[1..][j] == fs[j + 1];
          }
        } else {
          forall k | k in FunNames(fs[1..]) ensures k != fs[0].name {
            var j :| 0 <= j < |fs[1..]| && fs[1..][j].name == k;
            assert fs[j + 1] == fs[1..][j];
          }
          RegisterSigsKeepsOthers(m', fs[1..], fs[0].name);
        }
      }
    }
  }

  lemma {:induction false} RegisterSigsKeepsOthers(m: map<string, Signature>, fs: seq<FunDef>, n: string)
    requires n in m && n !in FunNames(fs)
    ensures n in RegisterSigs(m, fs) && RegisterSigs(m, fs)[n] == m[n]
    decreases |fs|
  {
    if |fs| > 0 {
      assert fs[0].name in FunNames(fs);
      forall k | k in FunNames(fs[1..]) ensures k in FunNames(fs) {
        var i :| 0 <= i < |fs[1..]| && fs[1..][i].name == k;
        assert fs[i + 1] == fs[1..][i];
      }
      RegisterSigsKeepsOthers(m[fs[0].name := Signature(ParamTypes(fs[0].params), fs[0].ret)], fs[1..], n);
    }
  }

  lemma {:induction false} PreRegisterKeys(classes: map<string, Option<ClassEnv>>, cs: seq<ClassDef>)
    ensures PreRegister(classes, cs).Keys == classes.Keys + ClassNames(cs)
    decreases |cs|
  {
    if |cs| > 0 {
      PreRegisterKeys(classes[cs[0].name := None], cs[1..]);
      assert ClassNames(cs) == {cs[0].name} + ClassNames(cs[1..]) by {
        forall n | n in ClassNames(cs) ensures n in {cs[0].name} + ClassNames(cs[1..]) {
          var i :| 0 <= i < |cs| && cs[i].name == n;
          if i > 0 { assert cs[1..][i - 1] == cs[i]; }
        }
        forall n | n in ClassNames(cs[1..]) ensures n in ClassNames(cs) {
          var i :| 0 <= i < |cs[1..]| && cs[1..][i].name == n;
          assert cs[i + 1] == cs[1..][i];
        }
      }
    }
  }

  /** Class processing only fills in class entries: the key set, the
      variables and the functions stay as they were, and every processed class
      has a non-null entry. */
  lemma {:induction false} CheckClassDefsEnv(env: TypeEnv, cs: seq<ClassDef>)
    requires CheckClassDefs(env, cs).Success?
    ensures var env' := CheckClassDefs(env, cs).value.1;
      && env'.classes.Keys == env.classes.Keys + ClassNames(cs)
      && env'.vars == env.vars && env'.funcs == env.funcs && env'.retType == env.retType
      && forall i :: 0 <= i < |cs| ==> env'.classes[cs[i].name].Some?
    decreases |cs|
  {
    if |cs| > 0 {
      var h := CheckClassDef(env, cs[0]).value;
      CheckClassDefsEnv(h.1, cs[1..]);
      var env' := CheckClassDefs(env, cs).value.1;
      assert env' == CheckClassDefs(h.1, cs[1..]).value.1;
      assert ClassNames(cs) == {cs[0].name} + ClassNames(cs[1..]) by {
        forall n | n in ClassNames(cs) ensures n in {cs[0].name} + ClassNames(cs[1..]) {
          var i :| 0 <= i < |cs| && cs[i].name == n;
          if i > 0 { assert cs[1..][i - 1] == cs[i]; }
        }
        forall n | n in ClassNames(cs[1..]) ensures n in ClassNames(cs) {
          var i :| 0 <= i < |cs[1..]| && cs[1..][i].name == n;
          assert cs[i + 1] == cs[1..][i];
        }
      }
      forall i | 0 <= i < |cs| ensures env'.classes[cs[i].name].Some? {
        if i > 0 { assert cs[1..][i - 1] == cs[i]; }
        else { ClassEntryStays(h.1, cs[1..], cs[0].name); }
      }
    }
  }

  lemma {:induction false} ClassEntryStays(env: TypeEnv, cs: seq<ClassDef>, n: string)
    requires CheckClassDefs(env, cs).Success? && n in env.classes && env.classes[n].Some?
    ensures var env' := CheckClassDefs(env, cs).value.1; n in env'.classes && env'.classes[n].Some?
    decreases |cs|
  {
    if |cs| > 0 {
      ClassEntryStays(CheckClassDef(env, cs[0]).value.1, cs[1..], n);
    }
  }

  /** Every class name and then every function signature is registered
      before any function body or top-level statement is checked, so a body
      may call a function defined after it (mutual recursion) and name any
      class of the program. */
  lemma DeclarationsRegisterAll(p: Program, env: TypeEnv)
    requires CheckDeclarations(p, env).Success?
    ensures var benv := CheckDeclarations(p, env).value.2;
      && benv.funcs.Keys == env.funcs.Keys + FunNames(p.fundefs)
      && benv.classes.Keys == env.classes.Keys + ClassNames(p.classdefs)
      && (forall i :: 0 <= i < |p.classdefs| ==> benv.classes[p.classdefs[i].name].Some?)
      && (forall i :: 0 <= i < |p.fundefs| && (forall j :: i < j < |p.fundefs| ==> p.fundefs[j].name != p.fundefs[i].name) ==>
            benv.funcs[p.fundefs[i].name] == Signature(ParamTypes(p.fundefs[i].params), p.fundefs[i].ret))
      && benv.retType == env.retType
  {
    var env1 := env.(classes := PreRegister(env.classes, p.classdefs));
    PreRegisterKeys(env.classes, p.classdefs);
    CheckClassDefsEnv(env1, p.classdefs);
    var env2 := CheckClassDefs(env1, p.classdefs).value.1;
    RegisterSigsSpec(env2.funcs, p.fundefs);
  }

  /** A checked program had every function body checked in that one
      environment, and its top-level statements too. */
  lemma ProgramChecksEveryBody(p: Program, env: TypeEnv, tp: Program)
    requires CheckProgram(p, env) == Success(tp)
    ensures CheckDeclarations(p, env).Success?
    ensures var benv := CheckDeclarations(p, env).value.2;
      && (forall i :: 0 <= i < |p.fundefs| ==> CheckFunDef(benv, p.fundefs[i]) == Success(tp.fundefs[i]))
      && CheckStmts(benv, p.stmts) == Success(tp.stmts)
      && tp.a == Some(env.retType)
  {
    var benv := CheckDeclarations(p, env).value.2;
    CheckFunDefsEach(benv, p.fundefs);
  }

  lemma {:induction false} CheckFunDefsEach(env: TypeEnv, fs: seq<FunDef>)
    requires CheckFunDefs(env, fs).Success?
    ensures forall i :: 0 <= i < |fs| ==> CheckFunDef(env, fs[i]) == Success(CheckFunDefs(env, fs).value[i])
    decreases |fs|
  {
    if |fs| > 0 {
      CheckFunDefsEach(env, fs[1..]);
      forall i | 0 <= i < |fs| ensures CheckFunDef(env, fs[i]) == Success(CheckFunDefs(env, fs).value[i]) {
        if i > 0 { assert fs[1..][i - 1] == fs[i]; }
      }
    }
  }
}
