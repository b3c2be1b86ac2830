# Stella typed-IR construction, modelled in Dafny

Stella compiles a subset of Python functions to LLVM. It does not execute
the bytecode. It interprets it abstractly: every bytecode becomes an IR node that
works on a shared symbolic operand stack (`stack_eval`). Each node then
infers types over the four-point type set `NoType | int | float | bool`
(`type_eval`), inserting `Cast` nodes where an `int` operand meets a
`float` result. When it is translated, it picks a backend instruction from its
per-type table. Code generation partitions the bytecode list into basic
blocks at the jump targets. It translates only the reachable bytecodes, and
annotates a compiler exception with the location of the bytecode that raised it.

The project is organised as follows:

- `wrappers.dfy`: `Option` and `Result`.
- `exc.dfy` (module `Exc`): the compiler's exceptions. A raised fault is a
  `Fault` value. `StellaException` is a class, because the emitter attaches
  the debug information to an exception object in place.
- `types.dfy` (module `Types`): the type lattice and `unify_type` as the
  pure function `Unify`. `Unify` is proved to be the lattice join, with the
  retype signal's two quirks kept. The lemmas also cover the join of a whole
  list of types, as a phi node and floor division compute it.
- `values.dfy` (module `Values`):
  - `Variable` is a class whose `UnifyType` updates its type in place.
  - The literal of a `Const`.
  - `Cast` is a class with its `emitted` memo flag.
  - The backend builder, kept as a log of the conversions requested of it.
  - `ArgView`, the view of an operand that the type rules read.
- `opcodes.dfy` (module `Opcodes`): one constructor per handler class. It
  gives each handler's stack effect and type rule, and a fixed name-to-handler
  table that stands for the reflective registration.
- `rules.dfy` (module `Rules`): each `type_eval` as a pure pass over
  operand views, with its properties:
  - the join the pass settles on;
  - which operands it replaces by casts;
  - that a pass which requested no retype is a fixpoint;
  - the promotion table of binary arithmetic and of both divisions.
- `instructions.dfy` (module `Instructions`):
  - the operand `Stack`;
  - the enclosing function (`Func`: its locals and its retype flag);
  - the IR node class `Instr`, with `use_stack`, `stack_eval`, every
    `type_eval` and `IR.cast` as methods;
  - `LinkedListIter`.

  Every method that rewrites operands in place or updates a variable's type
  is proved to perform exactly the pass the corresponding `Rules` function defines.
- `lowering.dfy` (module `Lowering`): the translation-time choices, as pure
  functions:
  - the `b_func` tables and `builderFuncName`;
  - the `icmp`/`fcmp` predicate tables;
  - the base-widening, exponent-truncation and result-narrowing decisions of
    `BINARY_POWER` and `BINARY_FLOOR_DIVIDE`.

  The lemmas connect these choices to the types the rules infer.
- `codegen.dfy` (module `Codegen`): `blockAndCode` as the methods of the
  class `Impl`, checked against a pure partition function and a reference
  definition of blocks, and the return-kind choice of `makeStub`.

LLVM is represented by opaque operand tokens (`LlvmValue`), by a log of
requested operations (`Builder.log`), and in code generation by block
indices and names.

## Model

| member | source | states |
|---|---|---|
| Exc.Render | stella/exc.py:7-11 | the rendered text starts with the message; it is exactly the message when no debug information is attached; otherwise it continues with " at " and the debug information |
| Exc.RenderDeterminesDebugInfo | stella/exc.py:7-11 | for a fixed message, two renderings are equal only when the attached debug information is equal, so the annotation is never lost |
| Exc.StellaException.constructor | stella/exc.py:18-21 | raising a StellaException, TypingError or UnimplementedError with a message leaves no debug information attached; an UnsupportedOpcode cannot be made this way |
| Exc.StellaException.Unsupported | stella/exc.py:13-16 | an UnsupportedOpcode carries the opcode's name as its message, and its debug information is attached at construction |
| Exc.StellaException.AddDebug | stella/exc.py:4-5 | afterwards the debug information is the given one, whatever was attached before |
| Exc.StellaException.Str | stella/exc.py:7-11 | `str` of the exception is the rendering of its message with its current debug information |
| Types.Unify | stella/bytecode.py:33-44 | unification succeeds exactly when the two types have a common upper bound; the new type is their least upper bound; the retype signal is raised exactly when both are resolved and differ; a failure is the TypingError naming both types |
| Types.JoinUnique | stella/bytecode.py:33-44 | least upper bounds are unique, so the type unification settles on is determined |
| Types.UnifyCommutes | stella/bytecode.py:33-44 | whether unification succeeds, and the type it gives, do not depend on the order of the two types |
| Types.UnifyIdempotent | stella/bytecode.py:33-44 | unifying again with the same type keeps the type, and raises the signal again only for a float variable meeting an int |
| Types.UnifyMonotone | stella/bytecode.py:33-44 | a variable's type only moves up the lattice, and a resolved type never returns to NoType |
| Types.RetypeSignalQuirks | stella/bytecode.py:35-41 | NoType adopting int reports no change; float meeting int reports a change although the type stays float; int meeting float becomes float with a change; int with bool and bool with float fail |
| Types.JoinFromIsLeastUpperBound | stella/bytecode.py:211-213 | unifying a result successively with a list of types gives the least upper bound of the start type and all of them, and fails exactly when they have no common upper bound |
| Types.JoinAllOrderFree | stella/bytecode.py:211-213 | the type a phi node settles on depends only on the multiset of incoming types, not on their order |
| Values.LiteralType | stella/bytecode.py:51-53 | a constant's type is resolved and is the type of its literal |
| Values.Builder.SiToFpCall | stella/bytecode.py:107 | the int-to-float conversion is appended to the builder's log, and its result is the operand token for that log position |
| Values.Variable.constructor | stella/bytecode.py:12-18 | a new variable has the given name, type NoType and no backend operand |
| Values.Variable.Tmp | stella/bytecode.py:114-121 | a temporary is a fresh, unnamed variable of type NoType |
| Values.Variable.UnifyType | stella/bytecode.py:33-44 | the variable's new type and the returned retype signal are those of Unify; on a TypingError the type is left as it was |
| Values.Cast.constructor | stella/bytecode.py:79-86 | a cast may only be made to a type different from its source's type; it starts not emitted, without an operand or a value |
| Values.Cast.Translate | stella/bytecode.py:88-107 | a second translation changes nothing and requests nothing; the first one reuses the source's operand when the types have come to agree, makes a float constant from a source that carries a value, and otherwise requests exactly one int-to-float conversion; afterwards the cast is emitted and has its operand |
| Opcodes.Effect | stella/bytecode.py:205-514 | no handler pops more than two operands or pushes more than one result; the per-handler counts (LOAD_FAST and LOAD_CONST 0/1, binary operators and COMPARE_OP 2/1, STORE_FAST, RETURN_VALUE and the jumps 1/0, a phi node 1/1) are the table StackEval's contract is stated against |
| Opcodes.Lookup | stella/bytecode.py:529-537 | a handler found for a name is registered and has that class name |
| Opcodes.LookupFromSound | stella/bytecode.py:529-537 | a lookup from position i finds only handlers in the table from i on, and only under their own names |
| Opcodes.RegisteredIffNamed | stella/bytecode.py:529-537 | exactly the concrete bytecode handler classes are registered; PhiNode, Jump and an in-place power are not |
| Opcodes.ClassNameInjective | stella/bytecode.py:529-537 | two handlers never share a class name, so the registry is unambiguous |
| Opcodes.LookupComplete | stella/bytecode.py:529-537 | every registered handler is found under its own class name |
| Opcodes.LookupFromReaches | stella/bytecode.py:529-537 | a lookup started at or before a handler's position finds that handler under its name |
| Opcodes.InplaceReusesBinary | stella/bytecode.py:430-436 | each in-place operator has the same stack effect and the same type rule as its binary counterpart |
| Rules.BinaryPassFromShape | stella/bytecode.py:291-299 | one pass of the binary rule succeeds exactly when the join of the result and all operand types exists, the result becomes that join, earlier operands are untouched, and only int operands are replaced, by casts to float |
| Rules.BinaryPassFromJoin | stella/bytecode.py:291-299 | the binary pass succeeds exactly when the join exists, and the result's type becomes the join |
| Rules.BinaryPassFromOps | stella/bytecode.py:291-299 | the binary pass keeps the operand count, leaves earlier operands alone, replaces only int operands by a cast to float, and never clears a retype request |
| Rules.NoRetypeMeansAgreement | stella/bytecode.py:291-299 | a pass that requests no retype replaced no operand, and all operand types are NoType or the result type |
| Rules.AgreementIsStable | stella/bytecode.py:291-299 | when every operand type is NoType or the result type, the pass changes nothing and requests no retype |
| Rules.BinaryPassIdempotent | stella/bytecode.py:291-299 | re-running the binary rule on the outcome of a pass that requested no retype changes nothing and requests nothing |
| Rules.BinaryPassPair | stella/bytecode.py:291-299 | the pass over two operands is the two unification steps written out |
| Rules.JoinAllPair | stella/bytecode.py:371-378 | the join over two types is the two unification steps written out |
| Rules.BinaryPromotion | stella/bytecode.py:291-299 | from an unknown result type, two passes over two numeric operands settle the result on float unless both are int; exactly the int operand of a mixed pair is cast to float; a third pass is a fixpoint |
| Rules.BinaryMixedRequestsRetype | stella/bytecode.py:294-299 | the first pass over a mixed int/float pair requests a retype |
| Rules.TrueDividePromotion | stella/bytecode.py:409-412 | true division of two numbers settles on float in one pass, casting every int operand to float, and the next pass is a fixpoint |
| Rules.TrueDivideRejectsBool | stella/bytecode.py:409-412 | true division with a bool operand is a TypingError |
| Rules.FloatOperands | stella/bytecode.py:380-386 | every operand that is not float is wrapped in a cast to float, every float operand is kept |
| Rules.FloorDivideOperandsFloat | stella/bytecode.py:380-386 | after a floor-division pass every operand is float |
| Rules.FloorDividePromotion | stella/bytecode.py:371-386 | floor division of two numbers settles the result on float unless both are int (judged on the pre-cast types), casts every int operand to float, and the next pass is a fixpoint |
| Rules.CompareRule | stella/bytecode.py:469-473 | a comparison succeeds exactly when both operand types are equal, with result type bool; otherwise it is a TypingError |
| Rules.StoreRule | stella/bytecode.py:253-262 | a store succeeds exactly when unification does; the destination's type becomes the join; a retype is requested exactly when both types are resolved and differ; the source is cast exactly when a float destination receives an int |
| Rules.PhiMergesIntAndFloat | stella/bytecode.py:211-213 | a phi node over an int and a float is float, in either order |
| Instructions.Stack.Push | stella/bytecode.py:209 | the value is added on top of the stack |
| Instructions.Stack.Pop | stella/bytecode.py:132 | the top value is returned and removed |
| Instructions.Func.Retype | stella/bytecode.py:258-260 | the function's retype flag is set; its locals are unchanged |
| Instructions.Instr.constructor | stella/bytecode.py:156-170 | a new node has no arguments, no result, no block and no successor; only LOAD_CONST is marked for discarding |
| Instructions.Instr.AddArg | stella/bytecode.py:175-176 | the argument is appended; nothing else changes |
| Instructions.Instr.AddConst | stella/bytecode.py:172-173 | the constant is appended as an argument; nothing else changes |
| Instructions.Instr.AddCmp | stella/bytecode.py:461-462 | the comparison operator is recorded; nothing else changes |
| Instructions.Instr.UseStack | stella/bytecode.py:123-140 | the stack loses exactly its top n items, and they are appended to the arguments in push order, deepest first, after the arguments already present |
| Instructions.Instr.StackEval | stella/bytecode.py:205-514 | every handler pops its stack effect's operands into its arguments, in push order after the arguments already there, and pushes its result when the effect says so; LOAD_FAST pushes the named local, and fails with a KeyError quoting the name (changing nothing) exactly when the name is unknown; LOAD_CONST pushes its constant; STORE_FAST's result is its first argument (the destination local added before), RETURN_VALUE's the popped value; binary operators, comparisons and phi nodes push a fresh temporary of type NoType; jumps leave the result alone |
| Instructions.Instr.LoadFastEval | stella/bytecode.py:230-234 | the named local becomes the result and is pushed; for a name the function does not have, a KeyError quoting the name, with the stack and result unchanged |
| Instructions.Instr.PopPush | stella/bytecode.py:248-514 | every other handler moves its stack effect's operands into its arguments and pushes its constant, its fresh temporary or nothing, as its effect says; STORE_FAST's result is its destination argument |
| Instructions.Instr.PushResult | stella/bytecode.py:233-234 | the value becomes the result and is pushed on the stack |
| Instructions.Instr.PushTemp | stella/bytecode.py:286-289 | n operands are moved to the arguments, then a fresh temporary of type NoType becomes the result and is pushed |
| Instructions.Instr.Recast | stella/bytecode.py:296-297 | operand i is replaced by a new, not yet emitted cast of it to the given type, and only its view changes |
| Instructions.Instr.BinaryOperand | stella/bytecode.py:293-299 | one step of the binary rule on operand i: the result's type and the signal are those of Unify; on a signal the operand is replaced by a cast exactly when its type differs from the result's, and a retype is requested |
| Instructions.Instr.BinaryTypeEval | stella/bytecode.py:291-299 | for a handler whose type rule is the binary one (the arithmetic and power operators and their in-place forms, and true division after it forces float), the handler performs exactly one pass of the binary rule: its error, the result's new type, the retype flag and the operand views are those of BinaryPass, and each changed operand is a new cast of the original |
| Instructions.Instr.TrueDivideTypeEval | stella/bytecode.py:409-412 | the handler performs exactly the true-division pass: the result is forced to float, then the binary rule runs |
| Instructions.Instr.FloatOperand | stella/bytecode.py:382-386 | operand i is replaced by a cast to float, with a retype request, exactly when it is not float |
| Instructions.Instr.UnifyPreCast | stella/bytecode.py:372-378 | the result is unified with every operand's pre-cast type: it ends as their join with the start type, or with the first TypingError; no operand changes |
| Instructions.Instr.CastAllToFloat | stella/bytecode.py:380-386 | the operand views become those of FloatOperands, and a retype is requested exactly when some operand was not float |
| Instructions.Instr.FloorDivideTypeEval | stella/bytecode.py:371-386 | the handler performs exactly the floor-division pass: its error, the result's type, the retype flag and the operand views are those of FloorDividePass |
| Instructions.Instr.CompareTypeEval | stella/bytecode.py:469-473 | the result becomes bool, and the handler fails exactly as CompareRule does on the two operand types |
| Instructions.Instr.StoreFastTypeEval | stella/bytecode.py:253-262 | the destination's type, the retype flag and the outcome are those of StoreRule; when it casts, the source operand is replaced by a new cast of it to the destination's type and nothing else changes |
| Instructions.Instr.PhiTypeEval | stella/bytecode.py:211-213 | the result's type becomes the join of its type and all incoming types, or the handler fails with the first TypingError |
| Instructions.Instr.TranslateArg | stella/bytecode.py:180-182 | translating one argument emits it when it is a cast, keeps the operand of a cast emitted before, leaves every other cast alone and requests at most one conversion |
| Instructions.Instr.TranslateCasts | stella/bytecode.py:178-182 | afterwards every cast among the arguments is emitted; casts emitted before keep their operand; the backend receives at most one conversion per distinct cast not yet emitted, however often it occurs |
| Instructions.LinkedListIter.constructor | stella/bytecode.py:143-144 | the iterator starts at the given node, with the whole list still to visit |
| Instructions.LinkedListIter.Next | stella/bytecode.py:149-154 | it returns the next node and advances past it, or signals the end when the list is exhausted |
| Instructions.Elements | stella/bytecode.py:196-197 | iterating from the first node visits exactly the nodes of the list, in order |
| Lowering.BuilderFuncName | stella/bytecode.py:301-305 | the builder function is the table entry for the result type, and it exists exactly when the type is in the table; otherwise a TypingError names the handler class and the type |
| Lowering.BinaryTableDomain | stella/bytecode.py:316-401 | every binary table covers exactly int and float, except true division, which covers only float; none covers bool |
| Lowering.ArithmeticLowersAfterPromotion | stella/bytecode.py:307-310 | after the binary rule settles two numeric operands, the arithmetic table finds a builder method, and it is the floating-point one exactly when an operand is float |
| Lowering.TrueDivideLowersToFdiv | stella/bytecode.py:400-412 | true division of two numbers always lowers to fdiv |
| Lowering.BoolArithmeticFailsAtTranslation | stella/bytecode.py:301-305 | two bools pass the binary rule (result bool, no retype) and fail only at translation, with a TypingError |
| Lowering.CompareTablesDomain | stella/bytecode.py:442-456 | both predicate tables are defined on exactly the six comparison operators |
| Lowering.CompareTablesInvertible | stella/bytecode.py:442-456 | each table is a bijection between the operators and the backend predicates |
| Lowering.CompareTablesMeaning | stella/bytecode.py:442-456 | every table entry computes the comparison it is filed under, signed on integers and ordered on floats |
| Lowering.CompareLowering | stella/bytecode.py:475-484 | a comparison lowers exactly when the first operand's type is resolved and the operator is known; the floating-point table is used exactly for float; an unresolved type is an UnimplementedError and an unknown or missing operator a KeyError |
| Lowering.UntypedCompareFailsAtTranslation | stella/bytecode.py:475-479 | two operands of unknown type pass the type rule and fail only at translation, with an UnimplementedError |
| Lowering.CompareLoweringSound | stella/bytecode.py:438-484 | a comparison that passes the type rule on resolved operands lowers to a predicate that computes the source operator |
| Lowering.PowerLowering | stella/bytecode.py:345-365 | the power translation fails with a KeyError exactly when the exponent is not numeric; the base is never left int; powi and exponent truncation are used exactly for an int exponent |
| Lowering.PowerLowersAfterPromotion | stella/bytecode.py:345-365 | after the binary rule settles two numeric operands, the power translation uses a float base, uses powi exactly for two ints, and narrows back to int exactly when the inferred result is int, so it produces the inferred type |
| Lowering.BoolPowerFailsAtTranslation | stella/bytecode.py:358 | a bool power passes the type rule and fails at translation with a KeyError |
| Lowering.FloorDivideLowersAfterPromotion | stella/bytecode.py:388-398 | after the floor-division rule, the quotient is narrowed back to int exactly when both operands were int, so it has the inferred type |
| Codegen.Partition | stella/codegen.py:59-77 | as many blocks are assigned as bytecodes are kept |
| Codegen.PartitionStep | stella/codegen.py:64-77 | a discarded bytecode changes nothing; any other is kept, a target names one new block, and the bytecode joins the current block |
| Codegen.KeptMeaning | stella/codegen.py:64-68 | the kept bytecodes are exactly those not marked for discarding |
| Codegen.PartitionKeeps | stella/codegen.py:64-68 | block assignment keeps exactly the bytecodes not discarded, in order |
| Codegen.PartitionNames | stella/codegen.py:71-75 | the blocks opened are named by the locations of the kept targets, in order |
| Codegen.PartitionBlocks | stella/codegen.py:70-77 | each kept bytecode's block is the base count plus the number of targets up to and including it |
| Codegen.PartitionMeetsReference | stella/codegen.py:59-77 | block assignment agrees with the reference definitions of kept bytecodes, block names and block indices |
| Codegen.ReachableOfMeaning | stella/codegen.py:95-100 | the bytecodes translated are exactly the reachable ones, taken from the list |
| Codegen.FirstFailure | stella/codegen.py:89-103 | emission stops at the first reachable bytecode whose translation raises, and no earlier reachable bytecode raises |
| Codegen.Impl.AssignBlocks | stella/codegen.py:59-77 | appends entry; the list afterwards is the kept bytecodes; the new block names are entry followed by the kept targets' locations; each kept bytecode's block is the one the partition gives; discarded bytecodes get no block; nothing else of any bytecode changes |
| Codegen.Impl.Scan | stella/codegen.py:89-100 | the walk stops at the first raising reachable bytecode, having translated the reachable ones before it and opened a builder at every block before it |
| Codegen.Impl.Emit | stella/codegen.py:86-103 | exactly the reachable bytecodes up to the first raising one are translated, in order; without a failure nothing is raised; a raised StellaException carries that bytecode's debug information, and no other exception is annotated |
| Codegen.Impl.BlockAndCode | stella/codegen.py:59-103 | the whole of AssignBlocks' contract (the kept list, the block names, each block, discarded bytecodes keeping their block, no other field changed) followed by the whole of Emit's (the translated bytecodes, the builders up to and including a failing bytecode, the debug information on the raised StellaException and on no other exception) |
| Codegen.BlocksAreContiguous | stella/codegen.py:70-77 | along the kept list the block index grows by one exactly at a target; the first bytecode is in entry unless it is a target |
| Codegen.BlocksAreMonotone | stella/codegen.py:70-77 | block indices never decrease along the list |
| Codegen.TargetNamesBlock | stella/codegen.py:71-75 | the block a target opens is named by the target's location |
| Codegen.BlocksStartAtTargets | stella/codegen.py:62-77 | a kept bytecode is in entry exactly when no target precedes or is it; a target's block carries its location; a bytecode is in a different block from its predecessor exactly when it is a target |
| Codegen.MakeStub | stella/codegen.py:105-124 | the stub is named after the entry function with `__stub__`, takes no parameters and calls the entry function; it returns void exactly when the entry result is Void, and the call's value otherwise |

## Left out

- LLVM itself: every builder call, intrinsic and constant is an opaque token
  (`LlvmValue`), a log entry (`BackendOp`) or a block index. The `translate`
  methods, which only assemble backend calls, are modelled by the choices they
  make (module `Lowering`), not by the instructions they emit.
- Numeric results of floating-point operations (`fdiv`, `floor`, `pow`,
  `sitofp`, `frem` versus `srem`): only the type decisions are modelled. Floats
  are reals.
- Registration by reflection over `dis.opmap` is replaced by a fixed table
  of handler class names. Opcode numbers and `dis.opname` are not modelled, so
  `UnsupportedOpcode` takes the opcode's name.
- `Target`, `addTarget`, `addTargetBytecode` and the `Target.__str__` and
  `Variable.__str__` formatters are not modelled. Jumps are treated only by
  their stack effect.
- The retype fixpoint driver and the function object (`func.locals`,
  `func.retype()`) are not part of this model. The function is a map of
  locals and a flag.
- The debug-information argument that `unify_type` passes to TypingError is
  not modelled. The faults carry the class and the message.
- When a handler fails part-way, the model leaves the state reached up to
  the failing step, as the source does. The contracts say nothing about that
  partial state beyond the fault.
- Instructions.Instr.UseStack, StackEval: popping an empty stack raises an
  IndexError in the source. The model requires that the stack holds at least
  the handler's operands, so this failure path is not modelled.
- JUMP_IF_FALSE_OR_POP: the code inherits `Jump`'s `use_stack(1)` and pops
  one operand. The model follows the code.
- Instructions.Instr.PhiTypeEval, BinaryTypeEval, TrueDivideTypeEval,
  FloorDivideTypeEval: each requires that its result variable is not among the
  objects its operands' types read. `stack_eval` makes it a fresh temporary,
  so this holds.
- Instructions.Instr.TranslateCasts: its requires asks that every cast not
  yet emitted has a source operand. The source relies on earlier
  translation for this, without checking it.
- Rewritten: the instruction contracts state that each changed operand is a
  cast of the original, drawn from the new casts. They do not state that the
  casts are pairwise distinct.
- Codegen.Impl.AssignBlocks: `impl.remove(bc)` on the linked bytecode list
  is modelled by rebuilding the list of kept bytecodes. The `prev`/`next`
  relinking is not modelled.
- Codegen.Impl.AssignBlocks: the assertion that a jump target has no block
  yet is a requires, rather than an AssertionError path. A discarded
  bytecode that is a jump target opens no block.
- Codegen.Impl.Emit: what translating a bytecode does is given as the
  `raising` map (which bytecodes raise, and what). The external modules'
  translation and `printAll` between the two loops are not modelled.
- Codegen.Impl.Emit: the source never updates `bb`, so every bytecode with a
  block gets a new builder; `builders` records exactly that.
- Codegen.MakeStub: global variables and the translation of the entry
  arguments are parameters. The LLVM function type is reduced to its
  parameter count.
- Lowering.PowerLowering: the side effect of the power translation (the
  widening cast it writes back into `args[0]`) is given as a pure plan, not
  as an in-place update.
- Exc.StellaException.constructor: the model constructs only the
  StellaException kinds other than UnsupportedOpcode, whose construction
  always attaches debug information (`Unsupported`). KeyError is a host
  exception, which the emitter does not annotate.
- Logging in every function.
