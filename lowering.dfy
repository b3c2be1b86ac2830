/**
 * The backend choices made when instructions are translated
 * (stella/bytecode.py): the per-class `b_func` tables, `builderFuncName`,
 * the comparison predicate tables, and the conversions `BINARY_POWER` and
 * `BINARY_FLOOR_DIVIDE` wrap around their backend calls.
 *
 * Each decision is a function of the operand views the type rules leave
 * behind; the lemmas connect the two stages.
 */
module Lowering {
  import opened Wrappers
  import opened Exc
  import opened Types
  import opened Values
  import opened Opcodes
  import opened Rules

  /** The backend intrinsics the translation instantiates. */
  datatype Intrinsic = IntrPow | IntrPowi | IntrFloor

  /** A `b_func` entry: the name of a builder method, or an intrinsic. */
  datatype BackendFunc = BuilderCall(name: string) | IntrinsicCall(intr: Intrinsic)

  /** The arithmetic table of a binary operator: float instruction, int instruction. */
  function ArithTable(f: string, i: string): map<Type, BackendFunc> {
    map[Float := BuilderCall(f), Int := BuilderCall(i)]
  }

  /** `b_func`: the backend function per result type (per operand type for
      comparisons); handlers without a table have the empty one. */
  function BFunc(op: Opcode): map<Type, BackendFunc> {
    match op
    case Binary(Add, _) => ArithTable("fadd", "add")
    case Binary(Subtract, _) => ArithTable("fsub", "sub")
    case Binary(Multiply, _) => ArithTable("fmul", "mul")
    case Binary(Modulo, _) => ArithTable("frem", "srem")
    case Binary(Power, _) => map[Float := IntrinsicCall(IntrPow), Int := IntrinsicCall(IntrPowi)]
    case Binary(FloorDivide, _) => ArithTable("fdiv", "fdiv")
    case Binary(TrueDivide, _) => map[Float := BuilderCall("fdiv")]
    case CompareOp => map[Float := BuilderCall("fcmp"), Int := BuilderCall("icmp"), Bool := BuilderCall("icmp")]
    case _ => map[]
  }

  /** The message of the TypingError `builderFuncName` raises. */
  function NoImplementationMessage(op: Opcode, t: Type): string
    requires ClassName(op).Some?
  {
    ClassName(op).value + " does not yet implement type " + TypeStr(t)
  }

  /** `builderFuncName`: the table entry for the result type, or a TypingError
      naming the handler class and the type. */
  function BuilderFuncName(op: Opcode, t: Type): (r: Result<BackendFunc, Fault>)
    requires op.Binary? && ClassName(op).Some?
    ensures r.Ok? <==> t in BFunc(op)
    ensures r.Ok? ==> r.value == BFunc(op)[t]
    ensures r.Err? ==> r.error == Fault(TypingError, NoImplementationMessage(op, t))
  {
    var table := BFunc(op);
    if t in table then Ok(table[t]) else Err(Fault(TypingError, NoImplementationMessage(op, t)))
  }

  /** The binary tables cover exactly the numeric types, except true division,
      which covers only `float`; no binary table has an entry for `bool`. */
  lemma BinaryTableDomain(b: BinOp, inplace: bool, t: Type)
    ensures b != TrueDivide ==> (t in BFunc(Binary(b, inplace)) <==> Numeric(t))
    ensures b == TrueDivide ==> (t in BFunc(Binary(b, inplace)) <==> t == Float)
  {
  }

  /** The operators whose translation calls the builder method `builderFuncName` chooses. */
  predicate UsesBuilderFuncName(b: BinOp) {
    b in {Add, Subtract, Multiply, Modulo, TrueDivide}
  }

  /**
   * After the binary rule has settled on the promoted type of two numeric
   * operands, the table finds a builder method for it, and that method is
   * the floating-point one exactly when one operand is a `float`.
   */
  lemma ArithmeticLowersAfterPromotion(b: BinOp, inplace: bool, a: Type, c: Type)
    requires UsesBuilderFuncName(b) && b != TrueDivide
    requires ClassName(Binary(b, inplace)).Some?
    requires Numeric(a) && Numeric(c)
    ensures var p1 := BinaryPass(NoType, [Direct(a), Direct(c)]);
      && p1.Ok?
      && var p2 := BinaryPass(p1.value.rt, p1.value.ops);
      && p2.Ok?
      && var f := BuilderFuncName(Binary(b, inplace), p2.value.rt);
      && f.Ok? && f.value.BuilderCall?
      && (f.value.name[0] == 'f' <==> (a == Float || c == Float))
  {
    BinaryPromotion(a, c);
  }

  /** True division always finds `fdiv` once its rule has run on numeric operands. */
  lemma TrueDivideLowersToFdiv(inplace: bool, a: Type, c: Type)
    requires Numeric(a) && Numeric(c)
    ensures var p := TrueDividePass([Direct(a), Direct(c)]);
      p.Ok? && BuilderFuncName(Binary(TrueDivide, inplace), p.value.rt) == Ok(BuilderCall("fdiv"))
  {
    TrueDividePromotion(a, c);
  }

  /**
   * Adding two booleans passes the type rules (the result becomes `bool`)
   * and fails only at translation, with the TypingError of `builderFuncName`.
   */
  lemma BoolArithmeticFailsAtTranslation(b: BinOp, inplace: bool)
    requires UsesBuilderFuncName(b) && b != TrueDivide
    requires ClassName(Binary(b, inplace)).Some?
    ensures var p := BinaryPass(NoType, [Direct(Bool), Direct(Bool)]);
      && p.Ok? && p.value.rt == Bool && !p.value.retype
      && BuilderFuncName(Binary(b, inplace), Bool).Err?
      && BuilderFuncName(Binary(b, inplace), Bool).error.kind == TypingError
  {
    BinaryPassPair(NoType, Direct(Bool), Direct(Bool));
  }

  // ---------------------------------------------------------------------
  // Comparisons

  /** The integer predicates of the backend (signed comparisons). */
  datatype IntPredicate = IcmpEq | IcmpNe | IcmpSgt | IcmpSge | IcmpSlt | IcmpSle

  /** The ordered floating-point predicates of the backend. */
  datatype FloatPredicate = FcmpOeq | FcmpOne | FcmpOgt | FcmpOge | FcmpOlt | FcmpOle

  /** The backend comparison a `COMPARE_OP` becomes. */
  datatype Comparison = IntCompare(ip: IntPredicate) | FloatCompare(fp: FloatPredicate)

  /** The source comparison operators the tables know. */
  const CompareOps: set<string> := {"==", "!=", ">", ">=", "<", "<="}

  /** `COMPARE_OP.icmp`. */
  const IcmpTable: map<string, IntPredicate> :=
    map["==" := IcmpEq, "!=" := IcmpNe, ">" := IcmpSgt, ">=" := IcmpSge, "<" := IcmpSlt, "<=" := IcmpSle]

  /** `COMPARE_OP.fcmp`. */
  const FcmpTable: map<string, FloatPredicate> :=
    map["==" := FcmpOeq, "!=" := FcmpOne, ">" := FcmpOgt, ">=" := FcmpOge, "<" := FcmpOlt, "<=" := FcmpOle]

  /** What a source comparison operator means on two numbers. */
  function SourceCompare(op: string, x: real, y: real): bool
    requires op in CompareOps
  {
    if op == "==" then x == y
    else if op == "!=" then x != y
    else if op == ">" then x > y
    else if op == ">=" then x >= y
    else if op == "<" then x < y
    else x <= y
  }

  /** What a backend integer predicate computes (signed, on unbounded integers). */
  function IntHolds(p: IntPredicate, x: int, y: int): bool {
    match p
    case IcmpEq => x == y
    case IcmpNe => x != y
    case IcmpSgt => x > y
    case IcmpSge => x >= y
    case IcmpSlt => x < y
    case IcmpSle => x <= y
  }

  /** What a backend ordered float predicate computes (on reals, where no operand is NaN). */
  function FloatHolds(p: FloatPredicate, x: real, y: real): bool {
    match p
    case FcmpOeq => x == y
    case FcmpOne => x != y
    case FcmpOgt => x > y
    case FcmpOge => x >= y
    case FcmpOlt => x < y
    case FcmpOle => x <= y
  }

  /** The source operator each integer predicate is filed under. */
  function IcmpOperator(p: IntPredicate): string {
    match p
    case IcmpEq => "=="
    case IcmpNe => "!="
    case IcmpSgt => ">"
    case IcmpSge => ">="
    case IcmpSlt => "<"
    case IcmpSle => "<="
  }

  /** The source operator each float predicate is filed under. */
  function FcmpOperator(p: FloatPredicate): string {
    match p
    case FcmpOeq => "=="
    case FcmpOne => "!="
    case FcmpOgt => ">"
    case FcmpOge => ">="
    case FcmpOlt => "<"
    case FcmpOle => "<="
  }

  /** Both tables are defined on exactly the known operators. */
  lemma CompareTablesDomain()
    ensures IcmpTable.Keys == CompareOps && FcmpTable.Keys == CompareOps
  {
  }

  /** Each table is a bijection between the operators and the predicates:
      looking an operator up and reading the predicate back gives the
      operator, and every predicate is reached. */
  lemma CompareTablesInvertible(op: string, ip: IntPredicate, fp: FloatPredicate)
    ensures op in CompareOps ==> op in IcmpTable && IcmpOperator(IcmpTable[op]) == op
    ensures op in CompareOps ==> op in FcmpTable && FcmpOperator(FcmpTable[op]) == op
    ensures IcmpOperator(ip) in IcmpTable && IcmpTable[IcmpOperator(ip)] == ip
    ensures FcmpOperator(fp) in FcmpTable && FcmpTable[FcmpOperator(fp)] == fp
  {
  }

  /** Every table entry computes the source operator it is filed under. */
  lemma CompareTablesMeaning(op: string, i: int, j: int, x: real, y: real)
    requires op in CompareOps
    ensures op in IcmpTable && IntHolds(IcmpTable[op], i, j) == SourceCompare(op, i as real, j as real)
    ensures op in FcmpTable && FloatHolds(FcmpTable[op], x, y) == SourceCompare(op, x, y)
  {
  }

  /**
   * `COMPARE_OP.translate`'s choice: the table is picked by the first
   * operand's type (an UnimplementedError carrying the type when there is
   * none), then the predicate by the operator (a KeyError when the operator
   * was never set or is unknown).
   */
  function CompareLowering(t: Type, cmp: Option<string>): (r: Result<Comparison, Fault>)
    ensures r.Ok? <==> t != NoType && cmp.Some? && cmp.value in CompareOps
    ensures t == NoType ==> r == Err(Fault(UnimplementedError, TypeStr(t)))
    ensures t != NoType && !(cmp.Some? && cmp.value in CompareOps) ==> r == Err(Fault(KeyError, KeyMessage(cmp)))
    ensures r.Ok? ==> (r.value.FloatCompare? <==> t == Float)
  {
    var table := BFunc(CompareOp);
    if t !in table then Err(Fault(UnimplementedError, TypeStr(t)))
    else if cmp.None? then Err(Fault(KeyError, KeyMessage(cmp)))
    else if table[t] == BuilderCall("fcmp") then
      if cmp.value in FcmpTable then Ok(FloatCompare(FcmpTable[cmp.value])) else Err(Fault(KeyError, KeyMessage(cmp)))
    else
      if cmp.value in IcmpTable then Ok(IntCompare(IcmpTable[cmp.value])) else Err(Fault(KeyError, KeyMessage(cmp)))
  }

  /**
   * Comparing two values whose types are still unknown passes the type rule
   * (they agree) and fails only at translation, with an UnimplementedError.
   */
  lemma UntypedCompareFailsAtTranslation(cmp: Option<string>)
    ensures CompareRule(NoType, NoType) == Ok(Bool)
    ensures CompareLowering(NoType, cmp) == Err(Fault(UnimplementedError, ""))
  {
  }

  /**
   * A comparison that passes the type rule on resolved operands, with a
   * known operator, lowers to a predicate that computes that operator on
   * either kind of number.
   */
  lemma CompareLoweringSound(t0: Type, t1: Type, op: string, i: int, j: int, x: real, y: real)
    requires t0 != NoType && CompareRule(t0, t1).Ok?
    requires op in CompareOps
    ensures var r := CompareLowering(t0, Some(op));
      && r.Ok?
      && (r.value.IntCompare? ==> IntHolds(r.value.ip, i, j) == SourceCompare(op, i as real, j as real))
      && (r.value.FloatCompare? ==> FloatHolds(r.value.fp, x, y) == SourceCompare(op, x, y))
  {
    CompareTablesMeaning(op, i, j, x, y);
  }

  // ---------------------------------------------------------------------
  // Power

  /**
   * The translation plan of `BINARY_POWER`: the base operand after the
   * widening cast, whether the base was widened, whether the exponent is
   * truncated to the 32-bit integer `powi` takes, the intrinsic, and
   * whether the result is converted back to an integer.
   */
  datatype PowerPlan = PowerPlan(base: ArgView, widen: bool, truncate: bool, intr: Intrinsic, narrow: bool)

  /** The message of Python's KeyError for a missing type key. */
  function TypeKeyMessage(t: Type): string {
    if t == NoType then "''" else TypeStr(t)
  }

  /**
   * `BINARY_POWER.translate`'s decisions on the operand views: an `int`
   * base is cast to `float`; an `int` exponent is truncated; the intrinsic
   * is chosen by the exponent's type (a KeyError when the table has none);
   * the result is narrowed back to `int` when the base is a cast of an
   * `int` and the exponent is an `int`.
   */
  function PowerLowering(base: ArgView, exp: ArgView): (r: Result<PowerPlan, Fault>)
    ensures r.Ok? <==> Numeric(exp.tp)
    ensures r.Err? ==> r.error == Fault(KeyError, TypeKeyMessage(exp.tp))
    ensures r.Ok? ==> r.value.base.tp != Int
    ensures r.Ok? ==> (r.value.intr == IntrPowi <==> exp.tp == Int) && (r.value.truncate <==> exp.tp == Int)
  {
    var widen := base.tp == Int;
    var base' := if widen then CastTo(base, Float) else base;
    var table := BFunc(Binary(Power, false));
    if exp.tp !in table then Err(Fault(KeyError, TypeKeyMessage(exp.tp)))
    else
      var narrow := base'.Converted? && base'.from == Int && exp.tp == Int;
      Ok(PowerPlan(base', widen, exp.tp == Int, table[exp.tp].intr, narrow))
  }

  /** The type of the value the power translation leaves in the result. */
  function PowerLoweredType(p: PowerPlan): Type {
    if p.narrow then Int else p.base.tp
  }

  /**
   * On the operands the binary rule settles two numeric operands to, the
   * power translation succeeds, calls its intrinsic on a `float` base, uses
   * `powi` exactly for two `int`s, and produces a value of the very type the
   * rule inferred for the result.
   */
  lemma PowerLowersAfterPromotion(a: Type, c: Type)
    requires Numeric(a) && Numeric(c)
    ensures var p1 := BinaryPass(NoType, [Direct(a), Direct(c)]);
      && p1.Ok?
      && var p2 := BinaryPass(p1.value.rt, p1.value.ops);
      && p2.Ok? && |p2.value.ops| == 2
      && var r := PowerLowering(p2.value.ops[0], p2.value.ops[1]);
      && r.Ok?
      && r.value.base.tp == Float
      && (r.value.intr == IntrPowi <==> a == Int && c == Int)
      && (r.value.narrow <==> p2.value.rt == Int)
      && PowerLoweredType(r.value) == p2.value.rt
  {
    BinaryPromotion(a, c);
  }

  /** Raising a `bool` to a `bool` passes the type rules and fails at translation. */
  lemma BoolPowerFailsAtTranslation()
    ensures var p := BinaryPass(NoType, [Direct(Bool), Direct(Bool)]);
      && p.Ok? && p.value.ops == [Direct(Bool), Direct(Bool)]
      && PowerLowering(p.value.ops[0], p.value.ops[1]) == Err(Fault(KeyError, "<class 'bool'>"))
  {
    BinaryPassPair(NoType, Direct(Bool), Direct(Bool));
  }

  // ---------------------------------------------------------------------
  // Floor division

  /** `BINARY_FLOOR_DIVIDE.translate` converts the floored quotient back to
      `int` when every operand is a cast of an `int`. */
  predicate FloorDivideNarrows(ops: seq<ArgView>) {
    forall k :: 0 <= k < |ops| ==> ops[k].Converted? && ops[k].from == Int
  }

  /** The type of the value the floor-division translation leaves in the result. */
  function FloorDivideLoweredType(ops: seq<ArgView>): Type {
    if FloorDivideNarrows(ops) then Int else Float
  }

  /**
   * On the operands the floor-division rule leaves (all cast to `float`),
   * the result is narrowed back exactly when both operands were `int`s, so
   * the translated value has the type the rule inferred.
   */
  lemma FloorDivideLowersAfterPromotion(a: Type, c: Type)
    requires Numeric(a) && Numeric(c)
    ensures var p := FloorDividePass(NoType, [Direct(a), Direct(c)]);
      && p.Ok?
      && (FloorDivideNarrows(p.value.ops) <==> a == Int && c == Int)
      && FloorDivideLoweredType(p.value.ops) == p.value.rt
  {
    FloorDividePromotion(a, c);
    var ops := FloorDividePass(NoType, [Direct(a), Direct(c)]).value.ops;
    if a != Int {
      assert ops[0] == Direct(Float);
    } else if c != Int {
      assert ops[1] == Direct(Float);
    }
  }
}
