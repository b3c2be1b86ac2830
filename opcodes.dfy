/**
 * The fixed opcode table of stella/bytecode.py: which handler class stands
 * for each opcode, each handler's stack effect, and which type rule it uses.
 * It replaces the registration of handler classes by reflection.
 */
module Opcodes {
  import opened Wrappers

  datatype BinOp = Add | Subtract | Multiply | Modulo | Power | FloorDivide | TrueDivide

  /** One constructor per handler class; `Binary(b, true)` are the INPLACE_ classes. */
  datatype Opcode =
    | LoadFast
    | StoreFast
    | LoadConst
    | Binary(bop: BinOp, inplace: bool)
    | CompareOp
    | ReturnValue
    | Jump
    | JumpIfFalseOrPop
    | Phi

  /** How many operands a handler pops, and how many results (0 or 1) it pushes. */
  datatype StackEffect = StackEffect(pops: nat, pushes: nat)

  function Effect(op: Opcode): (e: StackEffect)
    ensures e.pushes <= 1
    ensures e.pops <= 2
  {
    match op
    case LoadFast => StackEffect(0, 1)
    case LoadConst => StackEffect(0, 1)
    case StoreFast => StackEffect(1, 0)
    case Binary(_, _) => StackEffect(2, 1)
    case CompareOp => StackEffect(2, 1)
    case ReturnValue => StackEffect(1, 0)
    case Jump => StackEffect(1, 0)
    case JumpIfFalseOrPop => StackEffect(1, 0)
    case Phi => StackEffect(1, 1)
  }

  function BinOpName(b: BinOp): string {
    match b
    case Add => "ADD"
    case Subtract => "SUBTRACT"
    case Multiply => "MULTIPLY"
    case Modulo => "MODULO"
    case Power => "POWER"
    case FloorDivide => "FLOOR_DIVIDE"
    case TrueDivide => "TRUE_DIVIDE"
  }

  /**
   * The class name of a handler, for the handlers that are registered as
   * bytecodes. `PhiNode` and `Jump` are IR nodes, not bytecodes, and there
   * is no in-place power.
   */
  function ClassName(op: Opcode): Option<string> {
    match op
    case LoadFast => Some("LOAD_FAST")
    case StoreFast => Some("STORE_FAST")
    case LoadConst => Some("LOAD_CONST")
    case Binary(b, false) => Some("BINARY_" + BinOpName(b))
    case Binary(b, true) => if b == Power then None else Some("INPLACE_" + BinOpName(b))
    case CompareOp => Some("COMPARE_OP")
    case ReturnValue => Some("RETURN_VALUE")
    case Jump => None
    case JumpIfFalseOrPop => Some("JUMP_IF_FALSE_OR_POP")
    case Phi => None
  }

  const BinOps: seq<BinOp> := [Add, Subtract, Multiply, Modulo, Power, FloorDivide, TrueDivide]

  /** The registered handlers, in the order the handler classes are declared. */
  const PlainHandlers: seq<Opcode> := [LoadFast, StoreFast, LoadConst]
  const BinaryHandlers: seq<Opcode> :=
    [Binary(Add, false), Binary(Subtract, false), Binary(Multiply, false), Binary(Modulo, false),
     Binary(Power, false), Binary(FloorDivide, false), Binary(TrueDivide, false)]
  const InplaceHandlers: seq<Opcode> :=
    [Binary(Add, true), Binary(Subtract, true), Binary(Multiply, true), Binary(TrueDivide, true),
     Binary(FloorDivide, true), Binary(Modulo, true)]
  const ControlHandlers: seq<Opcode> := [CompareOp, ReturnValue, JumpIfFalseOrPop]
  const Registered: seq<Opcode> := PlainHandlers + BinaryHandlers + InplaceHandlers + ControlHandlers

  /** The table lookup from an opcode's name to its handler; `None` is an unsupported opcode. */
  function LookupFrom(name: string, i: nat): Option<Opcode>
    requires i <= |Registered|
    decreases |Registered| - i
  {
    if i == |Registered| then None
    else if ClassName(Registered[i]) == Some(name) then Some(Registered[i])
    else LookupFrom(name, i + 1)
  }

  function Lookup(name: string): (r: Option<Opcode>)
    ensures r.Some? ==> r.value in Registered && ClassName(r.value) == Some(name)
  {
    LookupFromSound(name, 0);
    assert Registered[0..] == Registered;
    LookupFrom(name, 0)
  }

  lemma {:induction false} LookupFromSound(name: string, i: nat)
    requires i <= |Registered|
    ensures LookupFrom(name, i).Some? ==>
      LookupFrom(name, i).value in Registered[i..] && ClassName(LookupFrom(name, i).value) == Some(name)
    decreases |Registered| - i
  {
    if i < |Registered| && ClassName(Registered[i]) != Some(name) {
      LookupFromSound(name, i + 1);
    }
  }

  /** Exactly the handlers with a class name are registered. */
  lemma RegisteredIffNamed(op: Opcode)
    ensures op in Registered <==> ClassName(op).Some?
  {
    assert op in Registered <==>
      op in PlainHandlers || op in BinaryHandlers || op in InplaceHandlers || op in ControlHandlers;
  }

  /** Two handlers never share a class name, so the table is unambiguous. */
  lemma ClassNameInjective(op1: Opcode, op2: Opcode)
    requires ClassName(op1).Some? && ClassName(op1) == ClassName(op2)
    ensures op1 == op2
  {
    var s := ClassName(op1).value;
    FirstLetter(op1);
    FirstLetter(op2);
    if op1.Binary? && op2.Binary? {
      var k := if op1.inplace then 8 else 7;
      assert s[k..] == BinOpName(op1.bop);
      assert s[k..] == BinOpName(op2.bop);
    }
  }

  /** Binary handlers' names start with B or I, by their in-place flag; no other name does. */
  lemma FirstLetter(op: Opcode)
    requires ClassName(op).Some?
    ensures |ClassName(op).value| > 0
    ensures op.Binary? ==> ClassName(op).value[0] == if op.inplace then 'I' else 'B'
    ensures !op.Binary? ==> ClassName(op).value[0] !in {'B', 'I'}
  {
  }

  /** Every registered handler is found under its own class name. */
  lemma {:induction false} LookupComplete(op: Opcode)
    requires ClassName(op).Some?
    ensures Lookup(ClassName(op).value) == Some(op)
  {
    RegisteredIffNamed(op);
    var name := ClassName(op).value;
    var k :| 0 <= k < |Registered| && Registered[k] == op;
    LookupFromReaches(name, 0, k);
  }

  lemma {:induction false} LookupFromReaches(name: string, i: nat, k: nat)
    requires i <= k < |Registered| && ClassName(Registered[k]) == Some(name)
    ensures LookupFrom(name, i) == Some(Registered[k])
    decreases k - i
  {
    if ClassName(Registered[i]) == Some(name) {
      ClassNameInjective(Registered[i], Registered[k]);
    } else {
      LookupFromReaches(name, i + 1, k);
    }
  }

  /** The type rule each handler's `type_eval` applies. */
  datatype TypeRule = NoTypeEval | BinaryEval | TrueDivideEval | FloorDivideEval | CompareEval | StoreEval | PhiEval

  function RuleOf(op: Opcode): TypeRule {
    match op
    case Binary(TrueDivide, _) => TrueDivideEval
    case Binary(FloorDivide, _) => FloorDivideEval
    case Binary(_, _) => BinaryEval
    case CompareOp => CompareEval
    case StoreFast => StoreEval
    case Phi => PhiEval
    case _ => NoTypeEval
  }

  /** In-place operators are their binary counterparts on scalar types:
      the same stack effect and the same type rule. */
  lemma InplaceReusesBinary(b: BinOp)
    requires ClassName(Binary(b, true)).Some?
    ensures Effect(Binary(b, true)) == Effect(Binary(b, false))
    ensures RuleOf(Binary(b, true)) == RuleOf(Binary(b, false))
  {
  }
}
