/**
 * The per-opcode type rules of `type_eval` (stella/bytecode.py) as pure
 * functions over operand views. One pass of a rule gives the result's new
 * type, the operand list after cast insertion, and whether a retype was
 * requested. The imperative handlers in module Instructions are proved to
 * perform exactly these passes.
 */
module Rules {
  import opened Wrappers
  import opened Exc
  import opened Types
  import opened Values

  datatype PassResult = PassResult(rt: Type, ops: seq<ArgView>, retype: bool)

  /** The view of `Cast(a, t)`, a new cast wrapping the operand `a`. */
  function CastTo(a: ArgView, t: Type): ArgView {
    Converted(a.tp, t)
  }

  function TypesOf(ops: seq<ArgView>): (ts: seq<Type>)
    ensures |ts| == |ops| && forall k :: 0 <= k < |ops| ==> ts[k] == ops[k].tp
  {
    seq(|ops|, k requires 0 <= k < |ops| => ops[k].tp)
  }

  /** The type an operand had before any cast: a cast's wrapped value's type. */
  function PreCastType(a: ArgView): Type {
    match a
    case Direct(t) => t
    case Converted(f, _) => f
  }

  function PreCastTypes(ops: seq<ArgView>): (ts: seq<Type>)
    ensures |ts| == |ops| && forall k :: 0 <= k < |ops| ==> ts[k] == PreCastType(ops[k])
  {
    seq(|ops|, k requires 0 <= k < |ops| => PreCastType(ops[k]))
  }

  // ---------------------------------------------------------------- BinaryOp

  /**
   * `BinaryOp.type_eval` from operand `i` on: unify the result with the
   * operand; on a retype signal, replace the operand by a cast to the
   * result's type when the two differ, and request a retype.
   */
  function BinaryPassFrom(rt: Type, ops: seq<ArgView>, i: nat, retype: bool): Result<PassResult, Fault>
    requires i <= |ops|
    decreases |ops| - i
  {
    if i == |ops| then Ok(PassResult(rt, ops, retype))
    else match Unify(rt, ops[i].tp)
      case Err(f) => Err(f)
      case Ok(u) =>
        var ops' := if u.changed && u.tp != ops[i].tp then ops[i := CastTo(ops[i], u.tp)] else ops;
        BinaryPassFrom(u.tp, ops', i + 1, retype || u.changed)
  }

  function BinaryPass(rt: Type, ops: seq<ArgView>): Result<PassResult, Fault> {
    BinaryPassFrom(rt, ops, 0, false)
  }

  /** `BINARY_TRUE_DIVIDE.type_eval`: the result is forced to `float`, then the binary rule applies. */
  function TrueDividePass(ops: seq<ArgView>): Result<PassResult, Fault> {
    BinaryPass(Float, ops)
  }

  lemma {:induction false} JoinFromSuffix(rt: Type, ts1: seq<Type>, ts2: seq<Type>, i: nat)
    requires i <= |ts1| == |ts2|
    requires forall k :: i <= k < |ts1| ==> ts1[k] == ts2[k]
    ensures JoinFrom(rt, ts1, i) == JoinFrom(rt, ts2, i)
    decreases |ts1| - i
  {
    if i < |ts1| {
      match Unify(rt, ts1[i])
      case Err(_) =>
      case Ok(u) => JoinFromSuffix(u.tp, ts1, ts2, i + 1);
    }
  }

  /**
   * What one pass of the binary rule does: the result's type becomes the
   * join of its type and all operand types (and the pass fails exactly when
   * that join does not exist); operands before `i` are untouched; and every
   * operand the pass replaces was an `int` that is now cast to `float`.
   */
  lemma {:induction false} BinaryPassFromShape(rt: Type, ops: seq<ArgView>, i: nat, retype: bool)
    requires i <= |ops|
    ensures BinaryPassFrom(rt, ops, i, retype).Ok? <==> JoinFrom(rt, TypesOf(ops), i).Ok?
    ensures BinaryPassFrom(rt, ops, i, retype).Ok? ==>
      var p := BinaryPassFrom(rt, ops, i, retype).value;
      && p.rt == JoinFrom(rt, TypesOf(ops), i).value
      && |p.ops| == |ops|
      && (forall k :: 0 <= k < i ==> p.ops[k] == ops[k])
      && (forall k :: i <= k < |ops| ==> p.ops[k] == ops[k] || (ops[k].tp == Int && p.ops[k] == Converted(Int, Float)))
      && (retype ==> p.retype)
  {
    BinaryPassFromJoin(rt, ops, i, retype);
    BinaryPassFromOps(rt, ops, i, retype);
  }

  /** A pass succeeds exactly when the join exists, and makes the join the result's type. */
  lemma {:induction false} BinaryPassFromJoin(rt: Type, ops: seq<ArgView>, i: nat, retype: bool)
    requires i <= |ops|
    ensures BinaryPassFrom(rt, ops, i, retype).Ok? <==> JoinFrom(rt, TypesOf(ops), i).Ok?
    ensures BinaryPassFrom(rt, ops, i, retype).Ok? ==>
      BinaryPassFrom(rt, ops, i, retype).value.rt == JoinFrom(rt, TypesOf(ops), i).value
    decreases |ops| - i
  {
    if i < |ops| {
      match Unify(rt, ops[i].tp)
      case Err(_) =>
      case Ok(u) =>
        var ops' := if u.changed && u.tp != ops[i].tp then ops[i := CastTo(ops[i], u.tp)] else ops;
        BinaryPassFromJoin(u.tp, ops', i + 1, retype || u.changed);
        JoinFromSuffix(u.tp, TypesOf(ops'), TypesOf(ops), i + 1);
    }
  }

  /** A pass leaves the operands before `i` alone and only replaces `int` operands by casts to `float`. */
  lemma {:induction false} BinaryPassFromOps(rt: Type, ops: seq<ArgView>, i: nat, retype: bool)
    requires i <= |ops|
    ensures BinaryPassFrom(rt, ops, i, retype).Ok? ==>
      var p := BinaryPassFrom(rt, ops, i, retype).value;
      && |p.ops| == |ops|
      && (forall k :: 0 <= k < i ==> p.ops[k] == ops[k])
      && (forall k :: i <= k < |ops| ==> p.ops[k] == ops[k] || (ops[k].tp == Int && p.ops[k] == Converted(Int, Float)))
      && (retype ==> p.retype)
    decreases |ops| - i
  {
    if i < |ops| {
      match Unify(rt, ops[i].tp)
      case Err(_) =>
      case Ok(u) =>
        var ops' := if u.changed && u.tp != ops[i].tp then ops[i := CastTo(ops[i], u.tp)] else ops;
        BinaryPassFromOps(u.tp, ops', i + 1, retype || u.changed);
        assert ops' == ops || (ops[i].tp == Int && ops'[i] == Converted(Int, Float));
    }
  }

  /** Every operand's type is `NoType` or `t`. */
  predicate AllAgree(ops: seq<ArgView>, i: nat, t: Type)
    requires i <= |ops|
  {
    forall k :: i <= k < |ops| ==> ops[k].tp == NoType || ops[k].tp == t
  }

  lemma {:induction false} NoRetypeMeansAgreement(rt: Type, ops: seq<ArgView>, i: nat)
    requires i <= |ops|
    requires BinaryPassFrom(rt, ops, i, false).Ok? && !BinaryPassFrom(rt, ops, i, false).value.retype
    ensures var p := BinaryPassFrom(rt, ops, i, false).value;
      p.ops == ops && (rt == NoType || rt == p.rt) && AllAgree(ops, i, p.rt)
    decreases |ops| - i
  {
    if i < |ops| {
      var u := Unify(rt, ops[i].tp).value;
      var ops' := if u.changed && u.tp != ops[i].tp then ops[i := CastTo(ops[i], u.tp)] else ops;
      BinaryPassFromShape(u.tp, ops', i + 1, u.changed);
      assert !u.changed;
      assert ops' == ops;
      NoRetypeMeansAgreement(u.tp, ops, i + 1);
    }
  }

  lemma {:induction false} AgreementIsStable(t: Type, ops: seq<ArgView>, i: nat)
    requires i <= |ops| && AllAgree(ops, i, t)
    ensures BinaryPassFrom(t, ops, i, false) == Ok(PassResult(t, ops, false))
    decreases |ops| - i
  {
    if i < |ops| {
      AgreementIsStable(t, ops, i + 1);
    }
  }

  /**
   * Re-running the binary rule on the outcome of a pass that requested no
   * retype changes nothing and requests nothing: the fixpoint is stable.
   */
  lemma BinaryPassIdempotent(rt: Type, ops: seq<ArgView>)
    requires BinaryPass(rt, ops).Ok? && !BinaryPass(rt, ops).value.retype
    ensures var p := BinaryPass(rt, ops).value;
      BinaryPass(p.rt, p.ops) == Ok(PassResult(p.rt, p.ops, false))
  {
    NoRetypeMeansAgreement(rt, ops, 0);
    var p := BinaryPass(rt, ops).value;
    AgreementIsStable(p.rt, ops, 0);
  }

  /** One pass of the binary rule over a two-operand list, written out. */
  function PairPass(rt: Type, x: ArgView, y: ArgView): Result<PassResult, Fault> {
    match Unify(rt, x.tp)
    case Err(f) => Err(f)
    case Ok(u1) =>
      var x' := if u1.changed && u1.tp != x.tp then CastTo(x, u1.tp) else x;
      match Unify(u1.tp, y.tp)
      case Err(f) => Err(f)
      case Ok(u2) =>
        var y' := if u2.changed && u2.tp != y.tp then CastTo(y, u2.tp) else y;
        Ok(PassResult(u2.tp, [x', y'], u1.changed || u2.changed))
  }

  lemma BinaryPassPair(rt: Type, x: ArgView, y: ArgView)
    ensures BinaryPass(rt, [x, y]) == PairPass(rt, x, y)
  {
    var ops := [x, y];
    match Unify(rt, x.tp)
    case Err(_) =>
    case Ok(u1) =>
      var ops1 := if u1.changed && u1.tp != x.tp then ops[0 := CastTo(x, u1.tp)] else ops;
      assert BinaryPassFrom(rt, ops, 0, false) == BinaryPassFrom(u1.tp, ops1, 1, u1.changed);
      match Unify(u1.tp, y.tp)
      case Err(_) =>
      case Ok(u2) =>
        assert ops1[1] == y;
        var ops2 := if u2.changed && u2.tp != y.tp then ops1[1 := CastTo(y, u2.tp)] else ops1;
        assert BinaryPassFrom(u1.tp, ops1, 1, u1.changed) == BinaryPassFrom(u2.tp, ops2, 2, u1.changed || u2.changed);
        var x' := if u1.changed && u1.tp != x.tp then CastTo(x, u1.tp) else x;
        var y' := if u2.changed && u2.tp != y.tp then CastTo(y, u2.tp) else y;
        assert ops2 == [x', y'];
  }

  /** Unification folded over two types, written out. */
  lemma JoinAllPair(rt: Type, a: Type, b: Type)
    ensures JoinAll(rt, [a, b]) ==
      match Unify(rt, a)
      case Err(f) => Err(f)
      case Ok(u1) => match Unify(u1.tp, b) case Err(f) => Err(f) case Ok(u2) => Ok(u2.tp)
  {
    match Unify(rt, a)
    case Err(_) =>
    case Ok(u1) =>
      assert JoinFrom(rt, [a, b], 0) == JoinFrom(u1.tp, [a, b], 1);
      match Unify(u1.tp, b)
      case Err(_) =>
      case Ok(u2) =>
        assert JoinFrom(u1.tp, [a, b], 1) == JoinFrom(u2.tp, [a, b], 2);
  }

  /** A numeric scalar type. */
  predicate Numeric(t: Type) {
    t == Int || t == Float
  }

  /** The promoted type of two numeric operands: `float` unless both are `int`. */
  function Promote(a: Type, b: Type): Type {
    if a == Int && b == Int then Int else Float
  }

  /** An operand of original type `t` once the result has settled on type `j`. */
  function Settled(t: Type, j: Type): ArgView {
    if t == j then Direct(t) else Converted(t, j)
  }

  /**
   * The promotion table of binary arithmetic: starting from an unknown result
   * type, two passes of the binary rule settle the result on `Promote(a, b)`,
   * with exactly the `int` operand of a mixed pair cast to `float`, and a
   * third pass changes nothing and requests no retype.
   */
  lemma BinaryPromotion(a: Type, b: Type)
    requires Numeric(a) && Numeric(b)
    ensures var p1 := BinaryPass(NoType, [Direct(a), Direct(b)]);
      && p1.Ok?
      && var p2 := BinaryPass(p1.value.rt, p1.value.ops);
      && p2.Ok?
      && p2.value.rt == Promote(a, b)
      && p2.value.ops == [Settled(a, Promote(a, b)), Settled(b, Promote(a, b))]
      && BinaryPass(p2.value.rt, p2.value.ops) == Ok(PassResult(p2.value.rt, p2.value.ops, false))
  {
    BinaryPassPair(NoType, Direct(a), Direct(b));
    var p1 := BinaryPass(NoType, [Direct(a), Direct(b)]).value;
    assert |p1.ops| == 2;
    assert p1.ops == [p1.ops[0], p1.ops[1]];
    BinaryPassPair(p1.rt, p1.ops[0], p1.ops[1]);
    var p2 := BinaryPass(p1.rt, p1.ops).value;
    assert p2.ops == [p2.ops[0], p2.ops[1]];
    BinaryPassPair(p2.rt, p2.ops[0], p2.ops[1]);
  }

  /** A mixed pair cannot be settled in one pass: the first pass requests a retype. */
  lemma BinaryMixedRequestsRetype(a: Type, b: Type)
    requires Numeric(a) && Numeric(b) && a != b
    ensures BinaryPass(NoType, [Direct(a), Direct(b)]).Ok?
    ensures BinaryPass(NoType, [Direct(a), Direct(b)]).value.retype
  {
    BinaryPassPair(NoType, Direct(a), Direct(b));
  }

  /**
   * True division: whatever the numeric operands, one pass leaves the result
   * `float` with every `int` operand cast to `float`, and the next pass
   * changes nothing.
   */
  lemma TrueDividePromotion(a: Type, b: Type)
    requires Numeric(a) && Numeric(b)
    ensures var p1 := TrueDividePass([Direct(a), Direct(b)]);
      && p1.Ok?
      && p1.value.rt == Float
      && p1.value.ops == [Settled(a, Float), Settled(b, Float)]
      && TrueDividePass(p1.value.ops) == Ok(PassResult(Float, p1.value.ops, false))
  {
    BinaryPassPair(Float, Direct(a), Direct(b));
    var p1 := TrueDividePass([Direct(a), Direct(b)]).value;
    assert p1.ops == [p1.ops[0], p1.ops[1]];
    BinaryPassPair(Float, p1.ops[0], p1.ops[1]);
  }

  /** True division rejects a `bool` operand. */
  lemma TrueDivideRejectsBool(ops: seq<ArgView>, k: nat)
    requires k < |ops| && ops[k].tp == Bool
    ensures TrueDividePass(ops).Err?
  {
    JoinFromIsLeastUpperBound(Float, TypesOf(ops), 0);
    BinaryPassFromShape(Float, ops, 0, false);
    assert TypesOf(ops)[k] == Bool;
    assert forall j :: !(Below(Float, j) && Below(Bool, j));
  }

  // ------------------------------------------------------ BINARY_FLOOR_DIVIDE

  /** The operands cast to `float`: every operand that is not already `float` is wrapped in a cast. */
  function FloatOperands(ops: seq<ArgView>): (r: seq<ArgView>)
    ensures |r| == |ops|
    ensures forall k :: 0 <= k < |ops| ==> r[k] == if ops[k].tp == Float then ops[k] else CastTo(ops[k], Float)
  {
    seq(|ops|, k requires 0 <= k < |ops| => if ops[k].tp == Float then ops[k] else CastTo(ops[k], Float))
  }

  /**
   * `BINARY_FLOOR_DIVIDE.type_eval`: the result is unified with every
   * operand's pre-cast type (its retype signals are ignored), then every
   * operand that is not `float` is cast to `float`, each cast requesting a retype.
   */
  function FloorDividePass(rt: Type, ops: seq<ArgView>): Result<PassResult, Fault> {
    match JoinAll(rt, PreCastTypes(ops))
    case Err(f) => Err(f)
    case Ok(j) => Ok(PassResult(j, FloatOperands(ops), exists k :: 0 <= k < |ops| && ops[k].tp != Float))
  }

  /** After a floor-division pass every operand is `float`. */
  lemma FloorDivideOperandsFloat(rt: Type, ops: seq<ArgView>)
    requires FloorDividePass(rt, ops).Ok?
    ensures forall k :: 0 <= k < |ops| ==> FloorDividePass(rt, ops).value.ops[k].tp == Float
  {
  }

  /**
   * Floor division from an unknown result type: one pass settles the result
   * on `Promote(a, b)` (the pre-cast types) and casts every `int` operand to
   * `float`; the next pass changes nothing and requests no retype.
   */
  lemma FloorDividePromotion(a: Type, b: Type)
    requires Numeric(a) && Numeric(b)
    ensures var p1 := FloorDividePass(NoType, [Direct(a), Direct(b)]);
      && p1.Ok?
      && p1.value.rt == Promote(a, b)
      && p1.value.ops == [Settled(a, Float), Settled(b, Float)]
      && FloorDividePass(p1.value.rt, p1.value.ops) == Ok(PassResult(p1.value.rt, p1.value.ops, false))
  {
    var ops := [Direct(a), Direct(b)];
    assert PreCastTypes(ops) == [a, b];
    JoinAllPair(NoType, a, b);
    var p1 := FloorDividePass(NoType, ops).value;
    assert p1.ops == [Settled(a, Float), Settled(b, Float)];
    assert PreCastTypes(p1.ops) == [a, b];
    JoinAllPair(p1.rt, a, b);
    assert !(exists k :: 0 <= k < |p1.ops| && p1.ops[k].tp != Float);
    assert FloatOperands(p1.ops) == p1.ops;
  }

  // --------------------------------------------------------------- COMPARE_OP

  /** `COMPARE_OP.type_eval`: the result is `bool`; operands of different types are a TypingError. */
  function CompareRule(t0: Type, t1: Type): (r: Result<Type, Fault>)
    ensures r.Ok? <==> t0 == t1
    ensures r.Ok? ==> r.value == Bool
    ensures r.Err? ==> r.error.kind == TypingError
  {
    if t0 != t1 then
      Err(Fault(TypingError, "Comparing different types (" + TypeStr(t0) + " with " + TypeStr(t1) + ")"))
    else Ok(Bool)
  }

  // --------------------------------------------------------------- STORE_FAST

  datatype StoreOutcome = StoreOutcome(tp: Type, cast: bool, retype: bool)

  /**
   * `STORE_FAST.type_eval`: the destination is unified with the source; on a
   * retype signal a retype is requested, and the source is cast to the
   * destination's new type when the two differ.
   */
  function StoreRule(dt: Type, st: Type): (r: Result<StoreOutcome, Fault>)
    ensures r.Ok? <==> Unify(dt, st).Ok?
    ensures r.Ok? ==> IsJoin(dt, st, r.value.tp)
    ensures r.Ok? ==> (r.value.retype <==> dt != NoType && st != NoType && dt != st)
    ensures r.Ok? ==> (r.value.cast <==> dt == Float && st == Int)
  {
    match Unify(dt, st)
    case Err(f) => Err(f)
    case Ok(u) => Ok(StoreOutcome(u.tp, u.changed && u.tp != st, u.changed))
  }

  // ------------------------------------------------------------------ PhiNode

  /** `PhiNode.type_eval`: the result is unified with every incoming value, signals ignored. */
  function PhiRule(rt: Type, ops: seq<ArgView>): Result<Type, Fault> {
    JoinAll(rt, TypesOf(ops))
  }

  /**
   * A variable assigned `int` on one branch and `float` on the other: the
   * phi node at the join has type `float`, from either order of the
   * incoming values.
   */
  lemma PhiMergesIntAndFloat()
    ensures PhiRule(NoType, [Direct(Int), Direct(Float)]) == Ok(Float)
    ensures PhiRule(NoType, [Direct(Float), Direct(Int)]) == Ok(Float)
  {
    assert TypesOf([Direct(Int), Direct(Float)]) == [Int, Float];
    assert TypesOf([Direct(Float), Direct(Int)]) == [Float, Int];
  }
}
