/** The slice of WebAssembly text the code generator writes: a decoder from
    instruction strings to instructions, and the effect of each instruction
    on the height of the operand stack, with the host functions the runner
    imports. */
module Wat {
  import opened Wrappers
  import opened Decimal

  datatype Instr =
    | Const(k: int)
    | LocalGet(x: string)
    | GlobalGet(x: string)
    | LocalSet(x: string)
    | GlobalSet(x: string)
    | CallTo(callee: string)
    | NumOp(opcode: string)
    | Ret
    | Nop
    | IfThen      // folded `(if (then`, condition taken from the stack
    | IfOpen      // `(if` of the form that also has an else region
    | ThenOpen
    | ElseOpen
    | Close

  predicate StartsWith(s: string, p: string) {
    |p| <= |s| && s[..|p|] == p
  }

  /** `s` is `p`, then an operand, then a closing parenthesis. */
  predicate Wrapped(s: string, p: string) {
    |s| > |p| && s[..|p|] == p && s[|s| - 1] == ')'
  }

  function Operand(s: string, p: string): string
    requires Wrapped(s, p)
  {
    s[|p|..|s| - 1]
  }

  const ConstPrefix: string := "(i32.const "
  const LocalGetPrefix: string := "(local.get $"
  const LocalSetPrefix: string := "(local.set $"
  const GlobalGetPrefix: string := "(global.get $"
  const GlobalSetPrefix: string := "(global.set $"
  const CallPrefix: string := "(call $"

  /** The two-operand numeric instructions. */
  predicate IsNumOp(s: string) {
    s in {"(i32.add)", "(i32.sub)", "(i32.mul)", "(i32.div_s)", "(i32.rem_s)", "(i32.lt_s)",
          "(i32.le_s)", "(i32.gt_s)", "(i32.ge_s)", "(i32.eq)", "(i32.ne)"}
  }

  function Decode(s: string): Option<Instr> {
    if Wrapped(s, ConstPrefix) then Some(Const(ParseInt(Operand(s, ConstPrefix))))
    else if Wrapped(s, LocalGetPrefix) then Some(LocalGet(Operand(s, LocalGetPrefix)))
    else if Wrapped(s, LocalSetPrefix) then Some(LocalSet(Operand(s, LocalSetPrefix)))
    else if Wrapped(s, GlobalGetPrefix) then Some(GlobalGet(Operand(s, GlobalGetPrefix)))
    else if Wrapped(s, GlobalSetPrefix) then Some(GlobalSet(Operand(s, GlobalSetPrefix)))
    else if Wrapped(s, CallPrefix) then Some(CallTo(Operand(s, CallPrefix)))
    else if IsNumOp(s) then Some(NumOp(s))
    else if s == "return" then Some(Ret)
    else if s == "nop" then Some(Nop)
    else if s == "(if\n            (then" then Some(IfThen)
    else if s == "(if" then Some(IfOpen)
    else if s == "(then" then Some(ThenOpen)
    else if s == "(else" then Some(ElseOpen)
    else if s == ")" then Some(Close)
    else None
  }

  /** Parameter counts of the host functions the runner imports
      (all take and return `i32`). */
  const HostArity: map<string, nat> :=
    map["print_num" := 1, "print_bool" := 1, "print_none" := 1, "abs" := 1,
        "max" := 2, "min" := 2, "pow" := 2]

  /** Change in operand-stack height of every instruction but a call. */
  function Delta(i: Instr): int
    requires !i.CallTo?
  {
    match i
    case Const(_) => 1
    case LocalGet(_) => 1
    case GlobalGet(_) => 1
    case LocalSet(_) => -1
    case GlobalSet(_) => -1
    case NumOp(_) => -1
    case Ret => -1
    case Nop => 0
    case IfThen => -1
    case IfOpen => -1
    case ThenOpen => 0
    case ElseOpen => 0
    case Close => 0
  }

  /** Change in operand-stack height, given the parameter count of every
      callable function (each returns one `i32`); unknown callees have none. */
  function Effect(i: Instr, arity: map<string, nat>): Option<int> {
    if i.CallTo? then
      if i.callee in arity then Some(1 - arity[i.callee] as int) else None
    else Some(Delta(i))
  }

  /** Stack effect of one line; `None` when it does not decode or calls an
      unknown function. */
  function LineEffect(s: string, arity: map<string, nat>): Option<int> {
    match Decode(s)
    case None => None
    case Some(i) => Effect(i, arity)
  }

  /** `LineEffect` for a fixed arity table, as a function value. */
  function LineEffects(arity: map<string, nat>): string -> Option<int> {
    s => LineEffect(s, arity)
  }

  function AddOpt(a: Option<int>, b: Option<int>): Option<int> {
    if a.Some? && b.Some? then Some(a.value + b.value) else None
  }

  lemma AddOptAssoc(x: Option<int>, y: Option<int>, z: Option<int>)
    ensures AddOpt(AddOpt(x, y), z) == AddOpt(x, AddOpt(y, z))
  {
  }

  /** The sum of the per-line effects `eff` over a code sequence; `None` as
      soon as one line has none. */
  function SumEffects(code: seq<string>, eff: string -> Option<int>): Option<int>
    decreases |code|
  {
    if |code| == 0 then Some(0)
    else AddOpt(eff(code[0]), SumEffects(code[1..], eff))
  }

  /** Net stack effect of a code sequence; `None` when some line has none. */
  function NetEffect(code: seq<string>, arity: map<string, nat>): Option<int> {
    SumEffects(code, LineEffects(arity))
  }

  /** A one-line sum is that line's effect. */
  lemma SumEffectsOne(s: string, eff: string -> Option<int>)
    ensures SumEffects([s], eff) == AddOpt(eff(s), Some(0))
  {
    assert [s][1..] == [];
  }

  /** The sum over consecutive code is the sum of the parts' sums. */
  lemma {:induction false} SumEffectsAppend(a: seq<string>, b: seq<string>, eff: string -> Option<int>)
    ensures SumEffects(a + b, eff) == AddOpt(SumEffects(a, eff), SumEffects(b, eff))
    decreases |a|
  {
    if |a| > 0 {
      assert (a + b)[0] == a[0];
      assert (a + b)[1..] == a[1..] + b;
      SumEffectsAppend(a[1..], b, eff);
      AddOptAssoc(eff(a[0]), SumEffects(a[1..], eff), SumEffects(b, eff));
    } else {
      assert a + b == b;
    }
  }

  /** The effect of consecutive code is the sum of the parts' effects. */
  lemma NetEffectAppend(a: seq<string>, b: seq<string>, arity: map<string, nat>)
    ensures NetEffect(a + b, arity) == AddOpt(NetEffect(a, arity), NetEffect(b, arity))
  {
    SumEffectsAppend(a, b, LineEffects(arity));
  }

  // ---------------------------------------------------------------------------
  // Decoding the instruction builders

  /** A string that disagrees with a prefix at some position does not start with it. */
  lemma NotWrapped(s: string, q: string, k: nat)
    requires k < |s| && k < |q| && s[k] != q[k]
    ensures !Wrapped(s, q)
  {
    if |q| <= |s| {
      assert s[..|q|][k] != q[k];
    }
  }

  /** Two prefixes that disagree at some position cannot both start one string. */
  lemma PrefixesExclusive(s: string, p: string, q: string, k: nat)
    requires k < |p| && k < |q| && p[k] != q[k]
    requires StartsWith(s, p)
    ensures !Wrapped(s, q)
  {
    assert s[k] == s[..|p|][k];
    NotWrapped(s, q, k);
  }

  lemma WrappedOperand(p: string, x: string)
    ensures Wrapped(p + x + ")", p) && Operand(p + x + ")", p) == x
  {
    var s := p + x + ")";
    assert s[..|p|] == p;
    assert s[|p|..|s| - 1] == x;
  }

  lemma DecodeLocalGet(x: string)
    ensures Decode(LocalGetPrefix + x + ")") == Some(LocalGet(x))
  {
    var s := LocalGetPrefix + x + ")";
    WrappedOperand(LocalGetPrefix, x);
    PrefixesExclusive(s, LocalGetPrefix, ConstPrefix, 1);
  }

  lemma DecodeLocalSet(x: string)
    ensures Decode(LocalSetPrefix + x + ")") == Some(LocalSet(x))
  {
    var s := LocalSetPrefix + x + ")";
    WrappedOperand(LocalSetPrefix, x);
    PrefixesExclusive(s, LocalSetPrefix, ConstPrefix, 1);
    PrefixesExclusive(s, LocalSetPrefix, LocalGetPrefix, 7);
  }

  lemma DecodeGlobalGet(x: string)
    ensures Decode(GlobalGetPrefix + x + ")") == Some(GlobalGet(x))
  {
    var s := GlobalGetPrefix + x + ")";
    WrappedOperand(GlobalGetPrefix, x);
    PrefixesExclusive(s, GlobalGetPrefix, ConstPrefix, 1);
    PrefixesExclusive(s, GlobalGetPrefix, LocalGetPrefix, 1);
    PrefixesExclusive(s, GlobalGetPrefix, LocalSetPrefix, 1);
  }

  lemma DecodeGlobalSet(x: string)
    ensures Decode(GlobalSetPrefix + x + ")") == Some(GlobalSet(x))
  {
    var s := GlobalSetPrefix + x + ")";
    WrappedOperand(GlobalSetPrefix, x);
    PrefixesExclusive(s, GlobalSetPrefix, ConstPrefix, 1);
    PrefixesExclusive(s, GlobalSetPrefix, LocalGetPrefix, 1);
    PrefixesExclusive(s, GlobalSetPrefix, LocalSetPrefix, 1);
    PrefixesExclusive(s, GlobalSetPrefix, GlobalGetPrefix, 8);
  }

  lemma DecodeCall(f: string)
    ensures Decode(CallPrefix + f + ")") == Some(CallTo(f))
  {
    var s := CallPrefix + f + ")";
    WrappedOperand(CallPrefix, f);
    PrefixesExclusive(s, CallPrefix, ConstPrefix, 1);
    PrefixesExclusive(s, CallPrefix, LocalGetPrefix, 1);
    PrefixesExclusive(s, CallPrefix, LocalSetPrefix, 1);
    PrefixesExclusive(s, CallPrefix, GlobalGetPrefix, 1);
    PrefixesExclusive(s, CallPrefix, GlobalSetPrefix, 1);
  }

  lemma DecodeConst(k: int)
    ensures Decode(ConstPrefix + IntToString(k) + ")") == Some(Const(k))
  {
    WrappedOperand(ConstPrefix, IntToString(k));
    IntToStringRoundTrip(k);
  }

  /** Every fixed instruction spelling decodes to its instruction. */
  lemma DecodeNumOp(s: string)
    requires IsNumOp(s)
    ensures Decode(s) == Some(NumOp(s))
  {
    assert |s| <= 11 && s[1] == 'i' && s[2] == '3';
    NotWrapped(s, LocalGetPrefix, 1);
    NotWrapped(s, LocalSetPrefix, 1);
    NotWrapped(s, GlobalGetPrefix, 1);
    NotWrapped(s, GlobalSetPrefix, 1);
    NotWrapped(s, CallPrefix, 1);
  }

  lemma DecodeFixed()
    ensures Decode("return") == Some(Ret) && Decode("nop") == Some(Nop)
    ensures Decode("(if\n            (then") == Some(IfThen) && Decode("(if") == Some(IfOpen)
    ensures Decode("(then") == Some(ThenOpen) && Decode("(else") == Some(ElseOpen) && Decode(")") == Some(Close)
  {
    DecodeReturn();
    DecodeNop();
    DecodeIfThen();
    DecodeIfOpen();
    DecodeThenOpen();
    DecodeElseOpen();
    DecodeClose();
  }

  lemma DecodeReturn() ensures Decode("return") == Some(Ret) { }
  lemma DecodeNop() ensures Decode("nop") == Some(Nop) { }
  lemma DecodeIfThen() ensures Decode("(if\n            (then") == Some(IfThen) { }
  lemma DecodeIfOpen() ensures Decode("(if") == Some(IfOpen) { }
  lemma DecodeThenOpen() ensures Decode("(then") == Some(ThenOpen) { }
  lemma DecodeElseOpen() ensures Decode("(else") == Some(ElseOpen) { }
  lemma DecodeClose() ensures Decode(")") == Some(Close) { }
}
