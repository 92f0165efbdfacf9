# Wathon: type checker and code generator

Wathon compiles a small subset of Python to WebAssembly text (WAT). This
project models the two middle stages of that compiler and proves properties
about them:

- the **static type checker**. It takes an unannotated program, where every
  annotation slot is `null`, and either annotates every node with its type or
  rejects the program. A rejection carries a `ReferenceError`, a `TypeError`
  or a plain `Error`;
- the **code generator**. It lowers the annotated tree to lists of WAT
  instruction strings: one `(global …)` per top-level variable, one
  `(func …)` per function, and the top-level instruction list that starts
  with the `$$last` scratch local.

Modules:

| file | module | contents |
|---|---|---|
| wrappers.dfy | Wrappers | `Option`, `Result`, with `:-` propagation |
| ast.dfy | Ast | types (`int`, `bool`, `None`, `object(C)`), literals, the 12 binary and 2 unary operators, expressions (with `getattr` and method receivers), statements (with name or field targets), functions, classes, programs; annotation erasure |
| decimal.dfy | Decimal | decimal rendering of integers, which is how JavaScript prints an integer into a template string, and its inverse |
| typecheck.dfy | TypeCheck | the checker: errors and their kinds, `checkAssign`, literal and initializer checking, expressions, statements, the return check, functions, classes, whole programs |
| typing.dfy | Typing | an independent declarative typing relation, and proofs that the checker computes it exactly |
| typecheck_facts.dfy | TypeCheckFacts | properties of the checker, one per rule of the source |
| codegen.dfy | CodeGen | the code generator and the pure part of `compile` |
| codegen_facts.dfy | CodeGenFacts | when lowering succeeds, and the shape of what it emits |
| wat.dfy | Wat | a decoder from emitted instruction strings to WAT instructions, with their stack effects |
| codegen_stack.dfy | CodeGenStack | stack discipline: a well-typed expression's code pushes exactly one value, and a statement's code leaves the stack as it found it |
| scenarios.dfy | Scenarios | the repository's end-to-end test programs, stated as lemmas about the model |

Errors are the `Fault` datatype in TypeCheck. `Kind` sorts each fault into
`ReferenceError`, `TypeError` or `PlainError` as the source throws it. The
model keeps the offending name or types, not the message text.

An annotation slot is `Ann = Option<Type>`, where `None` stands for `null`.
`BareExpr`/`BareStmts` state that a tree is unannotated, which is the input
the checker expects. `EraseExpr` forgets every annotation.

The stack-discipline lemmas are stated for any per-line effect that agrees
with the instruction table (`CodeGenStack.Faithful`). `DecoderFaithful`
shows that the decoder's own effects agree with it. `ExprNetEffect` and
`StmtsNetEffect` combine the two.

The evidence about lowering is these stack-effect theorems, together with
the succeeds theorems (`CodeGenFacts.CodeGenExprSucceeds`,
`CodeGenFacts.CodeGenStmtSucceeds`) and the decoding lemmas. The one-step
lowering lemmas (`PrintDispatch`, `NameAddressing`, `Builtin1Lowering`,
`Builtin2Lowering`, `BinExprLowering`, `CallLowering`, `StmtLowering`,
`EmitShape`) only unfold the generator by one case, for use in those proofs.

## Model

| member | source | states |
|---|---|---|
| Ast.BinOpsExactlyTwelve | ast.ts:42-55 | There are exactly twelve binary operators, each with a distinct spelling, and every spelling parses back to its operator. Floor division is spelled `//` and identity is spelled `is`. |
| Ast.UniOpsExactlyTwo | ast.ts:57-60 | The only unary operators are `not` and negation, and only `Not` is spelled `not`. |
| Ast.ParseBinOp | ast.ts:42-55 | A spelling that parses yields the operator whose spelling it is. |
| Ast.EraseExprIdempotent | ast.ts:33-40 | Erasing an expression's annotations leaves an unannotated tree. |
| Ast.EraseArgsIdempotent | ast.ts:33-40 | Erasing an argument list leaves every argument unannotated. |
| Ast.EraseArgs | ast.ts:33-40 | Erasure keeps the number of arguments. |
| Ast.EraseStmts | ast.ts:25-31 | Erasure keeps the number of statements. |
| Decimal.DigitChar | compiler.ts:95 | A digit below ten is rendered as the decimal digit character of that value. |
| Decimal.NatToString | compiler.ts:95 | A natural number is rendered as a non-empty string of decimal digits with no leading zero. |
| Decimal.IntToString | compiler.ts:95 | An integer's rendering is non-empty and starts with `-` exactly when the integer is negative. |
| Decimal.ParseNatToString | compiler.ts:95 | Reading back the rendering of a natural number gives the number. |
| Decimal.IntToStringRoundTrip | compiler.ts:95 | Reading back the rendering of any integer gives the integer, so distinct constants render differently. |
| TypeCheck.LiteralType | typecheck.ts:350-361 | A literal never has an object type, and its type is `None` exactly for the `None` literal. |
| TypeCheck.CheckAssign | typecheck.ts:118-130 | Assignment compatibility holds when the types are equal, or when the target is a registered class and the value is `None`. The check fails with a "no such class" TypeError exactly when the target is an unregistered class and the types differ. |
| TypeCheck.CheckVarInits | typecheck.ts:40-56 | A successful check keeps the number of initializers (that each is annotated with its declared type is `TypeCheckFacts.CheckVarInitsResult`). |
| TypeCheck.ClassLookup | typecheck.ts:221-222 | A class lookup succeeds exactly when the class is registered with a completed entry, and returns that entry. |
| TypeCheck.CheckExpr | typecheck.ts:206-348 | A successful check gives the expression a type annotation. |
| TypeCheck.CheckArgs | typecheck.ts:302-303 | A successful check annotates every argument and keeps their number. |
| TypeCheck.CheckStmts | typecheck.ts:132-204 | A successful check keeps the number of statements. |
| TypeCheck.ParamTypes | typecheck.ts:27-30 | A function's signature lists each parameter's declared type, in order. |
| TypeCheck.AnnotateParams | typecheck.ts:112-116 | Each parameter is annotated with its declared type, and nothing else about it changes. |
| TypeCheck.CheckFunDefs | typecheck.ts:31-33 | A successful check returns one checked function per function. |
| TypeCheck.CheckProgram | typecheck.ts:16-38 | A successful check keeps the number of top-level statements and functions. |
| Typing.CheckAssignIsAssignOk | typecheck.ts:118-130 | `checkAssign` returns true exactly when the declarative compatibility relation holds. |
| Typing.CheckArgTypesSound | typecheck.ts:306-309 | The argument check passes exactly when every argument is assignable to its parameter. |
| Typing.CheckExprSound | typecheck.ts:206-348 | Whatever the checker returns for an unannotated expression is well typed under the declarative rules, and erases back to the input. |
| Typing.CheckStmtsSound | typecheck.ts:132-204 | Whatever the checker returns for unannotated statements is well typed, and erases back to the input. |
| Typing.CheckOperator | typecheck.ts:262-295 | An operator application checks exactly when the operator table has an entry for the operand types, and is annotated with that entry. |
| Typing.CheckExprComplete | typecheck.ts:206-348 | For every well-typed annotated expression, checking its erasure succeeds and returns exactly that annotation. |
| Typing.CheckStmtsComplete | typecheck.ts:132-204 | For every well-typed statement list, checking its erasure succeeds and returns exactly that annotation. |
| Typing.CheckExprCharacterized | typecheck.ts:206-348 | On unannotated input, the checker returns a tree exactly when that tree is a well-typed annotation of the input. |
| Typing.CheckStmtsCharacterized | typecheck.ts:132-204 | The same characterization holds for statement lists. |
| Typing.CheckedStmtsAnnotated | typecheck.ts:16 | Every statement the checker returns carries a type annotation. |
| TypeCheckFacts.NoneAssignability | typecheck.ts:118-130 | `None` is never assignable to `int` or `bool`. It is assignable to a registered class. For an unregistered class the check fails with a TypeError. |
| TypeCheckFacts.CheckVarInitsAccepts | typecheck.ts:40-56 | Variable declarations pass exactly when each literal's type fits the declared type and no name repeats or is already taken. Every failure is a TypeError. |
| TypeCheckFacts.CheckVarInitsResult | typecheck.ts:40-56 | After the check, the variable map holds the old entries unchanged plus each declared name with its declared type, and each initializer is annotated with its declared type. |
| TypeCheckFacts.DuplicateRejected | typecheck.ts:48-49 | The first declaration whose name is already taken is rejected as a duplicate of that name. |
| TypeCheckFacts.FunDefScope | typecheck.ts:58-89 | A function's body is checked in a copy of the environment extended exactly by its parameters and locals. No local reuses a global or parameter name. The checked function keeps its name, return type and number of parameters and locals. |
| TypeCheckFacts.LocalShadowingParamRejected | typecheck.ts:61-69 | A local that reuses a parameter or global name makes the function fail as a duplicate declaration. |
| TypeCheckFacts.ReturnCheckIgnoresAnnotations | typecheck.ts:77-86 | The return check depends only on the shape of the statements, not on their annotations. |
| TypeCheckFacts.ReturnCheckDecides | typecheck.ts:74-88 | Once the body checks, the function is accepted exactly when the return check passes. An empty body is a TypeError. Otherwise the function fails with "missing return" for that function. |
| TypeCheckFacts.AssignUndeclaredFails | typecheck.ts:138-141 | Assigning to an undeclared name fails with the ReferenceError "not a variable", both on its own and at the head of a block. |
| TypeCheckFacts.StmtAnnotation | typecheck.ts:160-198 | An expression statement takes its expression's type. Every other statement is annotated `None`. A checked `if` or `while` has a `bool` condition. |
| TypeCheckFacts.NonBoolConditionFails | typecheck.ts:170-187 | An `if` or `while` whose condition is not `bool` fails with a TypeError naming the condition's type. |
| TypeCheckFacts.BinExprTyping | typecheck.ts:262-295 | A binary expression checks exactly when the operator table accepts the operand types, and gets the table's result type. Otherwise it fails with a TypeError naming the operator and both types. |
| TypeCheckFacts.IsGuardAsWritten | typecheck.ts:289-293 | `is` accepts exactly when the guard as written accepts: it never accepts an `int` or `bool` left operand, it always accepts an object left operand whatever the right one is, and it rejects `None is object`. |
| TypeCheckFacts.UnaryAndBuiltinTyping | typecheck.ts:229-260 | `not` needs `bool`, negation needs `int`, and both keep the operand's type. `abs` is `int → int`. `print` gives `None`. `max`, `min` and `pow` are `int × int → int`. |
| TypeCheckFacts.CallResolution | typecheck.ts:300-341 | Calls resolve to a function first. A function call with the wrong argument count is an arity error; a successful one has the declared return type, and each argument is assignable to its parameter. Otherwise the call resolves to a class: a constructor needs zero arguments and yields an object of that class. Otherwise a call with no receiver is a "not a function or class" ReferenceError. |
| TypeCheckFacts.MethodCallTyping | typecheck.ts:319-338 | A method's arity is its declared parameter count minus one, and argument i is checked against parameter i+1. The call has the method's return type and keeps its checked receiver. |
| TypeCheckFacts.NonObjectReceiver | typecheck.ts:215-227 | A method call or field read on a receiver that is not an object fails, as a ReferenceError and a TypeError respectively. |
| TypeCheckFacts.MissingMemberRejected | typecheck.ts:215-227 | On an object receiver of a completed class, a field read fails with the ReferenceError `NotAMember` exactly when the class has no such field, and otherwise takes the field's type. A method call that names no function or class fails with the first argument error if an argument fails, and otherwise with the ReferenceError `NoSuchMethod` when the class has no such method (typecheck.ts:319-328). |
| TypeCheckFacts.RegisterSigsSpec | typecheck.ts:27-30 | After registration, every function name is known, and the last definition of a name fixes its signature. |
| TypeCheckFacts.RegisterSigsKeepsOthers | typecheck.ts:27-30 | Registering functions leaves the signatures of other names unchanged. |
| TypeCheckFacts.PreRegisterKeys | typecheck.ts:18-21 | Pre-registration adds exactly the program's class names. |
| TypeCheckFacts.CheckClassDefsEnv | typecheck.ts:22-24 | Checking the classes completes an entry for each of them and touches nothing but the class map. |
| TypeCheckFacts.ClassEntryStays | typecheck.ts:91-110 | A completed class entry stays completed while later classes are checked. |
| TypeCheckFacts.DeclarationsRegisterAll | typecheck.ts:16-33 | Before any function body is checked, every class and every function signature is registered. This is what lets mutually recursive functions check. |
| TypeCheckFacts.ProgramChecksEveryBody | typecheck.ts:16-38 | A checked program's functions and statements are each the result of checking them in the environment with all declarations registered. |
| TypeCheckFacts.CheckFunDefsEach | typecheck.ts:31-33 | Each checked function is the result of checking that function alone. |
| CodeGen.CodeGenExpr | compiler.ts:105-149 | Every lowered expression emits at least one instruction. |
| CodeGen.CodeGenFuns | compiler.ts:28-30 | Lowering the functions yields one text per function. |
| CodeGenFacts.CodeGenExprSucceeds | compiler.ts:105-149 | Expression lowering succeeds exactly when the expression avoids the forms that have no lowering, namely `uniexpr`, `getattr`, and calls to names that are not program functions. |
| CodeGenFacts.CodeGenArgsSucceeds | compiler.ts:145 | Argument lowering succeeds exactly when every argument lowers. |
| CodeGenFacts.CodeGenStmtSucceeds | compiler.ts:64-90 | Statement lowering succeeds exactly when the statement avoids `while`, field assignment and unlowerable expressions. The model rejects a field assignment, where the source emits the value's code followed by `(global.set $undefined)` (see Left out). |
| CodeGenFacts.CodeGenStmtsSucceeds | compiler.ts:82-87 | Block lowering succeeds exactly when every statement lowers. |
| CodeGenFacts.PrintDispatch | compiler.ts:107-123 | `print` calls `print_num`, `print_bool` or `print_none` according to its argument's annotation, and `abs` is called as `abs`. The argument's code always comes first, followed by a single call. |
| CodeGenFacts.CheckedPrintIsDispatched | compiler.ts:110-121 | For a well-typed `print` of a non-object value, the callee is one of the three host printers. |
| CodeGenFacts.NameAddressing | compiler.ts:66-71 | Reads and bare-name writes use `local.get`/`local.set` exactly when the name is local to the function, and `global.get`/`global.set` otherwise, with no undeclared-name error. |
| CodeGenFacts.BinOpInstrTable | compiler.ts:151-177 | `//` becomes `i32.div_s` and `%` becomes `i32.rem_s`. `==` and `is` share `i32.eq`, and every other operator has its own instruction. |
| CodeGenFacts.BinExprLowering | compiler.ts:138-142 | A binary expression emits the left operand's code, then the right operand's code, then one operator instruction. |
| CodeGenFacts.CodeGenArgsInOrder | compiler.ts:145-146 | Argument code is the concatenation of the arguments' code, left to right, at every split point. |
| CodeGenFacts.CodeGenArgsAllSucceed | compiler.ts:145 | If every argument lowers, the argument list lowers. |
| CodeGenFacts.CallLowering | compiler.ts:144-146 | A call of a program function emits its arguments' code, then one call of that function. |
| CodeGenFacts.Builtin2Lowering | compiler.ts:124-127 | A two-argument builtin emits the first operand's code, then the second's, then one call of the builtin. |
| CodeGenFacts.UnsupportedForms | compiler.ts:105-149 | `while`, field assignment, `uniexpr`, `getattr` and constructor or method calls are rejected as `Unsupported`. The source has no meaningful lowering for them: for a field assignment it emits the value's code and then `(global.set $undefined)` (compiler.ts:66-71); the others are listed under Left out. |
| CodeGenFacts.StmtLowering | compiler.ts:64-90 | An expression statement ends by storing into `$$last`, `return` ends with `return`, and `pass` is `nop`. An `if` wraps its condition and body in `(if (then …))`, adding an `(else …)` region only when the else-body is non-empty. |
| CodeGenFacts.CodeGenStmtsSplit | compiler.ts:31-32 | Lowering a block is the concatenation of lowering its parts, so statement order is preserved. |
| CodeGenFacts.FunLocalsExact | compiler.ts:42-49 | A name is local to a function exactly when it is one of its parameters or locals. |
| CodeGenFacts.CodeGenFunShape | compiler.ts:57-61 | A function's text opens with `(func $name` and always ends with `(i32.const 0))`. |
| CodeGenFacts.InitCodeLines | compiler.ts:52-53 | A local's initialisation is three lines: `(local $x i32)`, the literal's constant, and `(local.set $x)`. |
| CodeGenFacts.CodeGenFunLayout | compiler.ts:51-61 | A lowerable function's text is, joined by a newline and four spaces: the header, `(local $$last i32)`, the three initialisation lines of each local in declaration order, the body's lines in order, and `(i32.const 0))`. |
| CodeGenStack.InitLinesDecode | compiler.ts:52-53 | In a local's initialisation the second line decodes to the constant of the literal's word and the third to a store into that same local; together the two leave the stack as they found it. |
| CodeGenFacts.EmitShape | compiler.ts:22-35 | The globals are one mutable global per top-level variable, in order, followed by the functions. The top-level instruction list is the scratch declaration followed by the statements' code, in order. |
| CodeGenFacts.CodeGenFunsEach | compiler.ts:28-30 | Each emitted function text is the lowering of that function alone. |
| CodeGenFacts.EmitSucceeds | compiler.ts:16-38 | Emission succeeds exactly when every function body and every top-level statement lowers. |
| CodeGenFacts.CodeGenFunsSucceeds | compiler.ts:28-30 | All functions lower exactly when every function body lowers. |
| Wat.SumEffectsAppend | compiler.ts:142 | For any per-line effect, the summed effect of concatenated code is the sum of the parts', and an unknown line anywhere makes the sum unknown. |
| Wat.NetEffectAppend | compiler.ts:142 | The stack effect of concatenated code adds up, and undecodable code stays undecodable. |
| Wat.PrefixesExclusive | compiler.ts:69-71 | An instruction string with one prefix cannot be read as another whose text differs from it. |
| Wat.WrappedOperand | compiler.ts:133 | The name inside an emitted get, set or call is recovered exactly. |
| Wat.DecodeLocalGet | compiler.ts:133 | An emitted `local.get` reads back as a read of that local. |
| Wat.DecodeLocalSet | compiler.ts:69 | An emitted `local.set` reads back as a write of that local. |
| Wat.DecodeGlobalGet | compiler.ts:135 | An emitted `global.get` reads back as a read of that global. |
| Wat.DecodeGlobalSet | compiler.ts:71 | An emitted `global.set` reads back as a write of that global. |
| Wat.DecodeCall | compiler.ts:123 | An emitted call reads back as a call of that callee. |
| Wat.DecodeConst | compiler.ts:95 | An emitted constant reads back as that constant, for every integer. |
| Wat.DecodeNumOp | compiler.ts:151-177 | Each operator instruction reads back as a numeric operation. |
| Wat.DecodeFixed | compiler.ts:77-88 | `return`, `nop` and the `if`/`then`/`else` bracket lines read back as themselves. |
| CodeGenStack.ResolveLiteralDecodes | compiler.ts:92-103 | A number `v` lowers to the constant `v`, `True` and `False` to `1` and `0`, and `None` to `0`. |
| CodeGenStack.GetDecodes | compiler.ts:131-135 | A name read decodes as a local read exactly when the name is local, and otherwise as a global read. |
| CodeGenStack.SetDecodes | compiler.ts:66-71 | A name write decodes as a local write exactly when the name is local, and otherwise as a global write. |
| CodeGenStack.ScratchDecodes | compiler.ts:74 | The expression-statement store writes the local `$last`. |
| CodeGenStack.CallAndOpDecode | compiler.ts:123-177 | Emitted calls and operator instructions decode to a call and to a numeric operation. |
| CodeGenStack.DecoderFaithful | compiler.ts:64-177 | Every line the generator can write (reads, writes, the scratch store, constants, operators, calls and the bracket lines) decodes to the effect the instruction table gives it. |
| CodeGenStack.ArityOfFunction | typecheck.ts:27-30 | A program function's arity is its declared parameter count. |
| CodeGenStack.ExprPushesOne | compiler.ts:105-149 | Under any per-line effect that agrees with the instruction table, a well-typed, lowerable expression's code pushes exactly one value. |
| CodeGenStack.Builtin1PushesOne | compiler.ts:107-123 | `print` of a primitive and `abs` push their argument and the one-parameter host call replaces it by one value. |
| CodeGenStack.Builtin2PushesOne | compiler.ts:124-127 | `max`, `min` and `pow` push both operands and the two-parameter host call replaces them by one value. |
| CodeGenStack.BinExprPushesOne | compiler.ts:138-142 | An operator application pushes both operands and the operator replaces them by one value. |
| CodeGenStack.ExprNetEffect | compiler.ts:105-149 | With the decoder's own effects and the host imports' arities, a well-typed, lowerable expression's code pushes exactly one value. |
| CodeGenStack.CallPushesOne | compiler.ts:144-146 | A well-typed call pushes its arguments, one per parameter, and the call replaces them by one value. |
| CodeGenStack.ArgsPushEach | compiler.ts:145 | Argument code pushes one value per argument. |
| CodeGenStack.StmtBalanced | compiler.ts:64-90 | A well-typed, lowerable statement's code leaves the operand stack as it found it. |
| CodeGenStack.IfStmtBalanced | compiler.ts:80-89 | An `if` statement consumes its condition's value, and its branches, being balanced, keep it balanced. |
| CodeGenStack.IfThenBalanced | compiler.ts:83-86 | An `if` without an else pops its condition inside balanced brackets. |
| CodeGenStack.IfElseBalanced | compiler.ts:87-88 | An `if` with an else pops its condition inside balanced brackets. |
| CodeGenStack.StmtsBalanced | compiler.ts:82 | A block of such statements leaves the stack as it found it. |
| CodeGenStack.StmtsNetEffect | compiler.ts:82 | With the decoder's own effects, a block of well-typed, lowerable statements is stack-neutral. |
| CodeGenStack.CheckedFunNames | typecheck.ts:31-33 | The checked program defines the same function names as the input. |
| CodeGenStack.CheckedProgramEmittable | typecheck.ts:16-38 | Every function the generator may call is registered in the checker's environment. |
| CodeGenStack.TopLevelBalanced | compiler.ts:31-32 | For a program that checks and emits, the top-level code after the scratch declaration is stack-neutral. |
| CodeGenStack.CheckedBodyWellTyped | typecheck.ts:58-74 | A checked function's body is well typed in an environment with the program's functions. |
| CodeGenStack.FunctionBodyBalanced | compiler.ts:55-60 | For a program that checks and emits, each function body's code is stack-neutral. |
| Scenarios.UndeclaredVariableRejected | tests/runner.test.ts:137-147 | `y + 2` with no declaration of `y` is rejected with the ReferenceError "not a variable". |
| Scenarios.UnknownFunctionRejected | tests/runner.test.ts:161-171 | Calling `sqrt`, which is not defined, is rejected with the ReferenceError "not a function or class". |
| Scenarios.ArithmeticCompiles | tests/runner.test.ts:106-109 | `2 + 3 * 5 - 2` compiles to the operands in order, the operators in evaluation order, and the store into `$$last`. |
| Scenarios.LoopEndingFunctionRejected | tests/runner.test.ts:295-307 | A function whose body ends in a `while` fails the return check. |
| Scenarios.OperatorMisuseRejected | tests/runner.test.ts:275-292 | `q < 25` with a `bool` `q` is rejected with a TypeError about `<` on `bool` and `int`. |
| Scenarios.PrintingProcedureRejected | tests/runner.test.ts:232-241 | A function whose body ends in a `print` expression is rejected by the return check, even though it returns `None`. |
| Scenarios.MutualRecursionChecks | tests/runner.test.ts:256-273 | Two mutually recursive parity functions check, each calling the other before its body is seen. |
| Scenarios.MutualRecursionEmits | tests/runner.test.ts:256-273 | The mutually recursive program emits two functions and a `print_bool` of the call. |
| Scenarios.MutualRecursionCompiles | tests/runner.test.ts:256-273 | The mutually recursive program compiles end to end to the expected top-level instructions. |

## Left out

- parser.ts: it walks a tree from an external parsing library, and it produces an older AST shape. The model starts from an AST.
- runner.ts: this is WAT assembly, module instantiation and asynchronous I/O. Its rule that a program returns `$$last` exactly when the last statement is a non-`print` expression (runner.ts:29-35) is not modelled. The host import arities (runner.ts:40-46) appear as `Wat.HostArity`.
- webstart.ts, debugstart.ts and node-main.ts are browser and command-line front ends, so they are out of scope.
- Execution of the emitted WAT is not modelled. This covers i32 wrap-around, signed division and the floating-point `Math.pow` host. The stack-effect theorems are about the instruction text, not about values.
- The `console.log` of the generated code (compiler.ts:33) is output only.
- Class and method lowering: compiler.ts has no case for constructors, methods, `getattr`, `uniexpr` or `while`.
  - There, `while`, `getattr` and `uniexpr` fall through and produce `undefined`.
  - There, a constructor or method call is emitted as `(call $name)` of a function that does not exist.
  - There, a field assignment lowers to the value's code followed by `(global.set $undefined)`, because the case reads `stmt.name`, which a field target does not have (compiler.ts:66-71).
  - The model reports all of these as an `Unsupported` failure instead. It tells program functions from other callees by the set of function names in the program.
- Object identity: JavaScript compares object types by reference (`===`), and the model compares them structurally. This matters only where two distinct but equal object types meet: `==`/`!=` on such operands, and `checkAssign` between them when the class is unregistered. In both cases the model accepts where the source rejects.
- Number rendering: JavaScript prints very large integers in exponent form. The model prints every integer in full decimal.
- Number literals are modelled as integers only. In the source a literal's value is a JavaScript `number` (ast.ts:21), the parser builds it with `Number(...)` and no check (parser.ts:8), the checker types every number literal `int` (typecheck.ts:353-354), and the generator renders it as written (compiler.ts:95). A literal such as `1.5`, `1e400` or `1j` is therefore typed `int` and emitted as `(i32.const 1.5)`, `(i32.const Infinity)` or `(i32.const NaN)`, which is not valid WAT. The model's `NumLit` carries an `int`, so such literals have no counterpart.
- Annotation slots on literals, function definitions and class definitions: the checker writes the literal's slot only on initializers, nothing reads it, and it never sets the other two.
- The environment that `compile` builds has no `classes` map, so `typeCheckProgram` would fail on reading it. The model compiles under an environment with an empty class map, as tests/helpers.test.ts:10 builds it.
- `print` of an object-typed value type-checks and is emitted as `(call $print)`, which the runner does not import. The stack theorems (`CodeGenStack.ExprPushesOne`, `CodeGenStack.TopLevelBalanced`, `CodeGenStack.FunctionBodyBalanced`) assume every `print` argument has a primitive type.
- `CodeGenStack.TopLevelBalanced` and `CodeGenStack.FunctionBodyBalanced` assume that no program function is named after a host import (`print_num`, `abs`, `max`, …), because such a program would define a function twice in the assembled module.
- Duplicate function names are accepted by the checker, and the last definition's signature wins (`TypeCheckFacts.RegisterSigsSpec`). The model emits every definition, as the source does.
- Empty function body: in the source, reading the last statement of an empty body throws a JavaScript TypeError. The model reports it as `EmptyBody`, with kind TypeError.
- Reading a class whose entry is only pre-registered (a class used inside an earlier class's methods) throws a JavaScript TypeError in the source. The model reports it as `UnprocessedClass`, with kind TypeError.
- Error message wording is not modelled. Each fault keeps its kind and the offending name or types.
- The AST in ast.ts is older than the checker: it has no object types, classes, `getattr`, assignment targets or method receivers. The model's AST follows what typecheck.ts reads, and the code generator reads the bare-name target where compiler.ts reads `stmt.name`.
- The return check applies to every function, including those declared to return `None`. A `None` procedure whose last statement is a `print` is therefore rejected (`Scenarios.PrintingProcedureRejected`), although tests/runner.test.ts:232-241 expects such a program to run. The model follows the code.
