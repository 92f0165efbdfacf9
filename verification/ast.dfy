/** The abstract syntax tree shared by the type checker and the code generator
    (ast.ts), in the shape the checker actually reads: programs carry class
    definitions, an assignment target is a bare name or an attribute access,
    a call may carry a receiver, and the type universe includes object types.

    Every expression and statement has an annotation slot `a`. It is unset
    (`None`) on the checker's input and holds the node's type on its output. */
module Ast {
  import opened Wrappers

  /** The static types: `int`, `bool`, `None` and `object(cls)`. */
  datatype Type = IntType | BoolType | NoneType | ObjectType(cls: string)

  /** An annotation slot: `None` while unset, `Some(t)` once the checker typed the node. */
  type Ann = Option<Type>

  /** A literal is a number, a boolean or `None`, and nothing else. */
  datatype Literal = NumLit(n: int) | BoolLit(b: bool) | NoneLit

  datatype BinOp =
    | Add | Sub | Mul | Div | Mod
    | Lesser | LessEq | Greater | GreatEq
    | Equals | NotEquals | Is

  datatype UniOp = Not | Neg

  /** The one-argument builtins the parser produces. */
  datatype Builtin1Name = Print | Abs

  /** The two-argument builtins the parser produces. */
  datatype Builtin2Name = Max | Min | Pow

  datatype Expr =
    | Id(name: string, a: Ann)
    | GetAttr(obj: Expr, name: string, a: Ann)
    | Builtin1(fn1: Builtin1Name, arg: Expr, a: Ann)
    | Builtin2(fn2: Builtin2Name, arg1: Expr, arg2: Expr, a: Ann)
    | BinExpr(op: BinOp, left: Expr, right: Expr, a: Ann)
    | UniExpr(uop: UniOp, right: Expr, a: Ann)
    | LiteralExpr(literal: Literal, a: Ann)
    | Call(name: string, args: seq<Expr>, recv: Option<Expr>, a: Ann)

  /** An assignment target: a bare variable name, or an expression
      (an attribute access in well-formed input) denoting a field. */
  datatype LValue = NameTarget(name: string) | AttrTarget(target: Expr)

  datatype Stmt =
    | Assign(lvalue: LValue, value: Expr, a: Ann)
    | Return(ret: Expr, a: Ann)
    | Pass(a: Ann)
    | If(cond: Expr, body: seq<Stmt>, elseBody: seq<Stmt>, a: Ann)
    | While(cond: Expr, body: seq<Stmt>, a: Ann)
    | ExprStmt(expr: Expr, a: Ann)

  datatype TypedVar = TypedVar(name: string, ty: Type, a: Ann)

  /** A declaration with a literal initializer: a global, a function local or a class field. */
  datatype VarDef = VarDef(name: string, ty: Type, init: Literal, a: Ann)

  datatype FunDef = FunDef(name: string, params: seq<TypedVar>, ret: Type, inits: seq<VarDef>, body: seq<Stmt>)

  datatype ClassDef = ClassDef(name: string, fields: seq<VarDef>, methods: seq<FunDef>)

  datatype Program = Program(varinits: seq<VarDef>, fundefs: seq<FunDef>, classdefs: seq<ClassDef>, stmts: seq<Stmt>, a: Ann)

  // ---------------------------------------------------------------------------
  // Operator spellings

  /** The source spelling of each binary operator. */
  function BinOpSymbol(op: BinOp): string
  {
    match op
    case Add => "+"
    case Sub => "-"
    case Mul => "*"
    case Div => "//"
    case Mod => "%"
    case Lesser => "<"
    case LessEq => "<="
    case Greater => ">"
    case GreatEq => ">="
    case Equals => "=="
    case NotEquals => "!="
    case Is => "is"
  }

  /** Reads a binary operator back from its spelling. */
  function ParseBinOp(s: string): (r: Option<BinOp>)
    ensures r.Some? ==> BinOpSymbol(r.value) == s
  {
    if s == "+" then Some(Add)
    else if s == "-" then Some(Sub)
    else if s == "*" then Some(Mul)
    else if s == "//" then Some(Div)
    else if s == "%" then Some(Mod)
    else if s == "<" then Some(Lesser)
    else if s == "<=" then Some(LessEq)
    else if s == ">" then Some(Greater)
    else if s == ">=" then Some(GreatEq)
    else if s == "==" then Some(Equals)
    else if s == "!=" then Some(NotEquals)
    else if s == "is" then Some(Is)
    else None
  }

  /** All binary operators, in declaration order. */
  const BinOps: seq<BinOp> := [Add, Sub, Mul, Div, Mod, Lesser, LessEq, Greater, GreatEq, Equals, NotEquals, Is]

  /** Every spelling reads back as its operator. */
  lemma BinOpRoundTrip(op: BinOp)
    ensures ParseBinOp(BinOpSymbol(op)) == Some(op)
  {
  }

  /** The position of an operator in `BinOps`. */
  function BinOpIndex(op: BinOp): (k: nat)
    ensures k < |BinOps| && BinOps[k] == op
  {
    match op
    case Add => 0
    case Sub => 1
    case Mul => 2
    case Div => 3
    case Mod => 4
    case Lesser => 5
    case LessEq => 6
    case Greater => 7
    case GreatEq => 8
    case Equals => 9
    case NotEquals => 10
    case Is => 11
  }

  /** `BinOps` lists each operator at its own position only. */
  lemma BinOpsIndexed(i: nat)
    requires i < |BinOps|
    ensures BinOpIndex(BinOps[i]) == i
  {
  }

  /** There are exactly twelve binary operators, each with its own spelling,
      and every spelling reads back as its operator. */
  lemma BinOpsExactlyTwelve()
    ensures |BinOps| == 12
    ensures forall op: BinOp :: op in BinOps
    ensures forall i, j :: 0 <= i < j < |BinOps| ==> BinOpSymbol(BinOps[i]) != BinOpSymbol(BinOps[j])
    ensures forall op: BinOp :: ParseBinOp(BinOpSymbol(op)) == Some(op)
    ensures BinOpSymbol(Div) == "//" && BinOpSymbol(Is) == "is"
  {
    forall op: BinOp ensures op in BinOps && ParseBinOp(BinOpSymbol(op)) == Some(op) {
      BinOpRoundTrip(op);
      assert BinOps[BinOpIndex(op)] == op;
    }
    forall i, j | 0 <= i < j < |BinOps| ensures BinOpSymbol(BinOps[i]) != BinOpSymbol(BinOps[j]) {
      BinOpRoundTrip(BinOps[i]);
      BinOpRoundTrip(BinOps[j]);
      BinOpsIndexed(i);
      BinOpsIndexed(j);
    }
  }

  function UniOpSymbol(op: UniOp): string
  {
    match op
    case Not => "not"
    case Neg => "-"
  }

  /** The two unary operators are `not` and negation, spelled differently. */
  lemma UniOpsExactlyTwo()
    ensures forall op: UniOp :: UniOpSymbol(op) == "not" <==> op == Not
    ensures UniOpSymbol(Not) == "not" && UniOpSymbol(Neg) == "-"
  {
  }

  function Builtin1Text(fn: Builtin1Name): string
  {
    match fn
    case Print => "print"
    case Abs => "abs"
  }

  function Builtin2Text(fn: Builtin2Name): string
  {
    match fn
    case Max => "max"
    case Min => "min"
    case Pow => "pow"
  }

  // ---------------------------------------------------------------------------
  // Annotation erasure: the checker's input is a tree whose every slot is unset.

  function EraseExpr(e: Expr): Expr
    decreases e
  {
    match e
    case Id(x, _) => Id(x, None)
    case GetAttr(o, f, _) => GetAttr(EraseExpr(o), f, None)
    case Builtin1(fn, x, _) => Builtin1(fn, EraseExpr(x), None)
    case Builtin2(fn, x, y, _) => Builtin2(fn, EraseExpr(x), EraseExpr(y), None)
    case BinExpr(op, l, r, _) => BinExpr(op, EraseExpr(l), EraseExpr(r), None)
    case UniExpr(op, r, _) => UniExpr(op, EraseExpr(r), None)
    case LiteralExpr(lit, _) => LiteralExpr(lit, None)
    case Call(f, args, recv, _) =>
      Call(f, EraseArgs(args), if recv.Some? then Some(EraseExpr(recv.value)) else None, None)
  }

  function EraseArgs(es: seq<Expr>): (r: seq<Expr>)
    ensures |r| == |es|
    decreases es
  {
    if |es| == 0 then [] else [EraseExpr(es[0])] + EraseArgs(es[1..])
  }

  function EraseLValue(lv: LValue): LValue
  {
    match lv
    case NameTarget(x) => NameTarget(x)
    case AttrTarget(t) => AttrTarget(EraseExpr(t))
  }

  function EraseStmt(s: Stmt): Stmt
    decreases s
  {
    match s
    case Assign(lv, v, _) => Assign(EraseLValue(lv), EraseExpr(v), None)
    case Return(x, _) => Return(EraseExpr(x), None)
    case Pass(_) => Pass(None)
    case If(c, b, eb, _) => If(EraseExpr(c), EraseStmts(b), EraseStmts(eb), None)
    case While(c, b, _) => While(EraseExpr(c), EraseStmts(b), None)
    case ExprStmt(x, _) => ExprStmt(EraseExpr(x), None)
  }

  function EraseStmts(ss: seq<Stmt>): (r: seq<Stmt>)
    ensures |r| == |ss|
    decreases ss
  {
    if |ss| == 0 then [] else [EraseStmt(ss[0])] + EraseStmts(ss[1..])
  }

  /** An unannotated expression: the shape the checker receives. */
  predicate BareExpr(e: Expr) {
    EraseExpr(e) == e
  }

  predicate BareStmts(ss: seq<Stmt>) {
    EraseStmts(ss) == ss
  }

  /** Erasing twice is erasing once. */
  lemma {:induction false} EraseExprIdempotent(e: Expr)
    ensures BareExpr(EraseExpr(e))
    decreases e
  {
    match e
    case Id(_, _) =>
    case GetAttr(o, _, _) => EraseExprIdempotent(o);
    case Builtin1(_, x, _) => EraseExprIdempotent(x);
    case Builtin2(_, x, y, _) => EraseExprIdempotent(x); EraseExprIdempotent(y);
    case BinExpr(_, l, r, _) => EraseExprIdempotent(l); EraseExprIdempotent(r);
    case UniExpr(_, r, _) => EraseExprIdempotent(r);
    case LiteralExpr(_, _) =>
    case Call(_, args, recv, _) =>
      EraseArgsIdempotent(args);
      if recv.Some? { EraseExprIdempotent(recv.value); }
  }

  lemma {:induction false} EraseArgsIdempotent(es: seq<Expr>)
    ensures EraseArgs(EraseArgs(es)) == EraseArgs(es)
    decreases es
  {
    if |es| > 0 {
      EraseExprIdempotent(es[0]);
      EraseArgsIdempotent(es[1..]);
      var r := EraseArgs(es);
      assert r[0] == EraseExpr(es[0]) && r[1..] == EraseArgs(es[1..]);
    }
  }
}
