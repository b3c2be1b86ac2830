/**
 * The IR nodes of stella/bytecode.py and their handlers: the shared
 * symbolic operand stack, `use_stack`, each opcode's `stack_eval` and
 * `type_eval`, `IR.cast`, and the iterator over the linked instruction list.
 *
 * The function being compiled is represented by its map of locals and the
 * flag that `func.retype()` sets.
 */
module Instructions {
  import opened Wrappers
  import opened Exc
  import opened Types
  import opened Values
  import opened Opcodes
  import opened Rules

  /** `s` in reverse order (a list's `reverse()`). */
  function Reverse<T>(s: seq<T>): (r: seq<T>)
    ensures |r| == |s|
  {
    if s == [] then [] else Reverse(s[1..]) + [s[0]]
  }

  lemma {:induction false} ReverseAt<T>(s: seq<T>, k: nat)
    requires k < |s|
    ensures Reverse(s)[k] == s[|s| - 1 - k]
  {
    if k < |s| - 1 {
      ReverseAt(s[1..], k);
    }
  }

  /** Reversing twice gives back the original order. */
  lemma ReverseInvolutive<T>(s: seq<T>)
    ensures Reverse(Reverse(s)) == s
  {
    forall k | 0 <= k < |s| ensures Reverse(Reverse(s))[k] == s[k] {
      ReverseAt(Reverse(s), k);
      ReverseAt(s, |s| - 1 - k);
    }
  }

  /** The symbolic operand stack shared by the instructions of one function. */
  class Stack {
    var items: seq<Value>

    constructor ()
      ensures items == []
    {
      items := [];
    }

    method Push(v: Value)
      modifies this
      ensures items == old(items) + [v]
    {
      items := items + [v];
    }

    method Pop() returns (v: Value)
      requires |items| > 0
      modifies this
      ensures v == old(items)[|old(items)| - 1]
      ensures items == old(items)[..|old(items)| - 1]
    {
      v := items[|items| - 1];
      items := items[..|items| - 1];
    }
  }

  /** The enclosing function as the handlers see it: its locals and its retype flag. */
  class Func {
    var locals: map<string, Variable>
    var retypeRequested: bool

    constructor (locals: map<string, Variable>)
      ensures this.locals == locals && !retypeRequested
    {
      this.locals := locals;
      retypeRequested := false;
    }

    /** `func.retype()`: asks for the type pass to be run again. */
    method Retype()
      modifies this
      ensures retypeRequested && locals == old(locals)
    {
      retypeRequested := true;
    }
  }

  /** One IR node: a bytecode, a phi node or a jump. */
  class Instr {
    const op: Opcode
    const debuginfo: string
    const loc: string
    const stack: Stack
    /** Only `LOAD_CONST` is discarded before code emission. */
    const discard: bool
    var args: seq<Value>
    var result: Option<Value>
    /** The comparison operator of a `COMPARE_OP` (`addCmp`). */
    var cmp: Option<string>
    /** Set by the reachability analysis, which is not part of this model;
        a new node is unreachable until that analysis marks it. */
    var reachable: bool
    var block: Option<nat>
    var next: Instr?

    constructor (op: Opcode, debuginfo: string, loc: string, stack: Stack)
      ensures this.op == op && this.debuginfo == debuginfo && this.loc == loc && this.stack == stack
      ensures discard == (op == LoadConst)
      ensures args == [] && result == None && cmp == None && block == None && next == null && !reachable
    {
      this.op := op;
      this.debuginfo := debuginfo;
      this.loc := loc;
      this.stack := stack;
      discard := op == LoadConst;
      args := [];
      result := None;
      cmp := None;
      reachable := false;
      block := None;
      next := null;
    }

    method AddArg(a: Value)
      modifies this
      ensures args == old(args) + [a]
      ensures result == old(result) && cmp == old(cmp) && block == old(block) && next == old(next) && reachable == old(reachable)
    {
      args := args + [a];
    }

    method AddConst(l: Literal)
      modifies this
      ensures args == old(args) + [ConstValue(l)]
      ensures result == old(result) && cmp == old(cmp) && block == old(block) && next == old(next) && reachable == old(reachable)
    {
      AddArg(ConstValue(l));
    }

    method AddCmp(c: string)
      modifies this
      ensures cmp == Some(c)
      ensures args == old(args) && result == old(result) && block == old(block) && next == old(next) && reachable == old(reachable)
    {
      cmp := Some(c);
    }

    /**
     * `use_stack(n)`: pops `n` operands and appends them to the arguments
     * in the order they were pushed (deepest first).
     */
    method UseStack(n: nat)
      requires n <= |stack.items|
      modifies this, stack
      ensures var k := |old(stack.items)| - n;
        && stack.items == old(stack.items)[..k]
        && args == old(args) + old(stack.items)[k..]
      ensures result == old(result) && cmp == old(cmp) && block == old(block) && next == old(next) && reachable == old(reachable)
    {
      ghost var s0 := stack.items;
      var popped: seq<Value> := [];
      var i := 0;
      while i < n
        invariant 0 <= i <= n
        invariant stack.items == s0[..|s0| - i]
        invariant popped == Reverse(s0[|s0| - i..])
        invariant args == old(args) && result == old(result) && cmp == old(cmp)
        invariant block == old(block) && next == old(next) && reachable == old(reachable)
      {
        var v := stack.Pop();
        assert s0[|s0| - (i + 1)..] == [v] + s0[|s0| - i..];
        popped := popped + [v];
        i := i + 1;
      }
      ReverseInvolutive(s0[|s0| - n..]);
      popped := Reverse(popped);
      args := args + popped;
    }

    /**
     * Each opcode's `stack_eval`: pops `Effect(op).pops` operands into the
     * arguments and pushes `Effect(op).pushes` results: a fresh temporary for
     * binary operators, comparisons and phi nodes; the named local for
     * `LOAD_FAST`, which fails with a KeyError for an unknown name; the
     * constant argument for `LOAD_CONST`.
     */
    method StackEval(func: Func) returns (err: Option<Fault>)
      requires Effect(op).pops <= |stack.items|
      requires op == LoadFast ==> |args| >= 1 && args[0].VarValue?
      requires op == LoadConst ==> |args| >= 1
      modifies this, stack
      ensures err.Some? <==> op == LoadFast && old(args[0].v.name) !in func.locals
      ensures err.Some? ==>
        && err == Some(Fault(KeyError, KeyMessage(Some(old(args[0].v.name)))))
        && args == old(args) && result == old(result) && stack.items == old(stack.items)
      ensures err.None? ==>
        var k := |old(stack.items)| - Effect(op).pops;
        && args == old(args) + old(stack.items)[k..]
        && (Effect(op).pushes == 1 ==> result.Some? && stack.items == old(stack.items)[..k] + [result.value])
        && (Effect(op).pushes == 0 ==> stack.items == old(stack.items)[..k])
      ensures err.None? && op == LoadFast ==> result == Some(VarValue(func.locals[args[0].v.name]))
      ensures err.None? && (op == LoadConst || op == StoreFast || op == ReturnValue) ==> result == Some(args[0])
      ensures err.None? && (op.Binary? || op == CompareOp || op == Phi) ==>
        result.Some? && result.value.VarValue? && fresh(result.value.v) && result.value.v.tp == NoType
      ensures (op == Jump || op == JumpIfFalseOrPop) ==> result == old(result)
      ensures cmp == old(cmp) && block == old(block) && next == old(next) && reachable == old(reachable)
    {
      if op == LoadFast {
        err := LoadFastEval(func);
        assert Effect(op) == StackEffect(0, 1);
        assert old(stack.items)[|old(stack.items)|..] == [];
      } else {
        err := None;
        PopPush();
      }
    }

    /** `stack_eval` of every handler other than `LOAD_FAST`, none of which fails. */
    method PopPush()
      requires op != LoadFast && Effect(op).pops <= |stack.items|
      requires op == LoadConst ==> |args| >= 1
      modifies this, stack
      ensures var k := |old(stack.items)| - Effect(op).pops;
        && args == old(args) + old(stack.items)[k..]
        && (Effect(op).pushes == 1 ==> result.Some? && stack.items == old(stack.items)[..k] + [result.value])
        && (Effect(op).pushes == 0 ==> stack.items == old(stack.items)[..k])
      ensures (op == LoadConst || op == StoreFast || op == ReturnValue) ==> result == Some(args[0])
      ensures (op.Binary? || op == CompareOp || op == Phi) ==>
        result.Some? && result.value.VarValue? && fresh(result.value.v) && result.value.v.tp == NoType
      ensures (op == Jump || op == JumpIfFalseOrPop) ==> result == old(result)
      ensures cmp == old(cmp) && block == old(block) && next == old(next) && reachable == old(reachable)
    {
      match op
      case LoadConst =>
        PushResult(args[0]);
        assert old(stack.items)[|old(stack.items)|..] == [];
      case StoreFast | ReturnValue =>
        UseStack(1);
        result := Some(args[0]);
      case Binary(_, _) | CompareOp =>
        PushTemp(2);
      case Phi =>
        PushTemp(1);
      case Jump | JumpIfFalseOrPop =>
        UseStack(1);
    }

    /** `LOAD_FAST.stack_eval`: pushes the named local, or fails with a KeyError
        for a name the function does not have, changing nothing. */
    method LoadFastEval(func: Func) returns (err: Option<Fault>)
      requires op == LoadFast && |args| >= 1 && args[0].VarValue?
      modifies this, stack
      ensures err.Some? <==> old(args[0].v.name) !in func.locals
      ensures err.Some? ==>
        && err == Some(Fault(KeyError, KeyMessage(Some(old(args[0].v.name)))))
        && result == old(result) && stack.items == old(stack.items)
      ensures err.None? ==>
        && result == Some(VarValue(func.locals[old(args[0].v.name)]))
        && stack.items == old(stack.items) + [result.value]
      ensures args == old(args) && cmp == old(cmp) && block == old(block) && next == old(next) && reachable == old(reachable)
    {
      // an unknown name is a lookup failure, not a new local
      var name := args[0].v.name;
      if name !in func.locals {
        return Some(Fault(KeyError, KeyMessage(Some(name))));
      }
      err := None;
      PushResult(VarValue(func.locals[name]));
    }

    /** `self.result = v; self.stack.push(self.result)`. */
    method PushResult(v: Value)
      modifies this, stack
      ensures result == Some(v) && stack.items == old(stack.items) + [v]
      ensures args == old(args) && cmp == old(cmp) && block == old(block) && next == old(next) && reachable == old(reachable)
    {
      result := Some(v);
      stack.Push(v);
    }

    /** `use_stack(n)`, then a fresh temporary becomes the result and is pushed. */
    method PushTemp(n: nat)
      requires n <= |stack.items|
      modifies this, stack
      ensures var k := |old(stack.items)| - n;
        && args == old(args) + old(stack.items)[k..]
        && result.Some? && stack.items == old(stack.items)[..k] + [result.value]
      ensures result.Some? && result.value.VarValue? && fresh(result.value.v) && result.value.v.tp == NoType
      ensures cmp == old(cmp) && block == old(block) && next == old(next) && reachable == old(reachable)
    {
      UseStack(n);
      var t := Variable.Tmp();
      PushResult(VarValue(t));
    }

    /** `self.args[i] = Cast(arg, tp)`: operand `i` is replaced by a new cast of it to `tp`. */
    method Recast(i: nat, tp: Type) returns (ghost made: set<Cast>)
      requires i < |args| && TypeOf(args[i]) != tp
      modifies this
      ensures result == old(result)
      ensures ArgsReads(args) <= old(ArgsReads(args))
      ensures Views(args) == old(Views(args))[i := CastTo(old(ViewOf(args[i])), tp)]
      ensures ReplacedAt(old(args), args, i, true, made) && fresh(made)
      ensures args[i].cast.tp == tp && args[i].cast.Valid() && !args[i].cast.emitted
    {
      var arg := args[i];
      ViewReadsIn(args, i);
      ArgsReadsAllocated(args);
      var c := new Cast(arg, tp);
      ViewsUpdate(args, i, CastValue(c));
      args := args[i := CastValue(c)];
      made := {c};
    }

    /**
     * The body of `BinaryOp.type_eval`'s loop for operand `i`: the result
     * is unified with the operand; on a retype signal the operand is
     * replaced by a new cast to the result's type when the two differ, and a
     * retype is requested.
     */
    method BinaryOperand(func: Func, i: nat) returns (changed: bool, err: Option<Fault>, ghost made: set<Cast>)
      requires result.Some? && result.value.VarValue? && i < |args|
      requires result.value.v !in ArgsReads(args)
      modifies this, result.value.v, func
      ensures result == old(result) && func.locals == old(func.locals)
      ensures result.value.v !in ArgsReads(args)
      ensures var vs := old(Views(args)); var u := Unify(old(result.value.v.tp), vs[i].tp);
        && (err.Some? <==> u.Err?)
        && (u.Err? ==> err == Some(u.error))
        && (u.Ok? ==>
          var recast := u.value.changed && u.value.tp != vs[i].tp;
          && result.value.v.tp == u.value.tp && changed == u.value.changed
          && func.retypeRequested == (old(func.retypeRequested) || changed)
          && Views(args) == (if recast then vs[i := CastTo(vs[i], u.value.tp)] else vs)
          && ReplacedAt(old(args), args, i, recast, made))
      ensures fresh(made)
    {
      var r := result.value.v;
      var arg := args[i];
      ViewReadsIn(args, i);
      ArgsReadsAllocated(args);
      ghost var vs := Views(args);
      ViewsAt(args, i);
      made := {};
      changed, err := r.UnifyType(TypeOf(arg));
      assert Views(args) == vs;
      if err.Some? {
        return;
      }
      if changed {
        if r.tp != TypeOf(arg) {
          made := Recast(i, r.tp);
          ArgsReadsAllocated(args);
        }
        func.Retype();
      }
    }

    /**
     * `BinaryOp.type_eval` (also that of `BINARY_POWER` and of the in-place
     * operators): one pass of the binary rule over the operand list, on the
     * result variable and the operands themselves. It is the type rule of the
     * handlers whose rule is the binary one, and the second half of true division's.
     * The result is the fresh temporary of this operator, which no operand mentions.
     */
    method BinaryTypeEval(func: Func) returns (err: Option<Fault>, ghost made: set<Cast>)
      requires RuleOf(op) == BinaryEval || RuleOf(op) == TrueDivideEval
      requires result.Some? && result.value.VarValue?
      requires result.value.v !in ArgsReads(args)
      modifies this, result.value.v, func
      ensures result == old(result) && func.locals == old(func.locals)
      ensures var P := BinaryPass(old(result.value.v.tp), old(Views(args)));
        && (err.None? <==> P.Ok?)
        && (P.Err? ==> err == Some(P.error))
        && (P.Ok? ==>
          && result.value.v.tp == P.value.rt
          && func.retypeRequested == (old(func.retypeRequested) || P.value.retype)
          && Views(args) == P.value.ops
          && Rewritten(old(args), old(Views(args)), args, P.value.ops, made))
      ensures fresh(made)
    {
      var r := result.value.v;
      ghost var ops0 := Views(args);
      ghost var P0 := BinaryPass(r.tp, ops0);
      ghost var ops := ops0;
      ghost var requested := false;
      made := {};
      var i := 0;
      while i < |args|
        invariant 0 <= i <= |args| == |ops| == |ops0|
        invariant result == old(result) && r == result.value.v && func.locals == old(func.locals)
        invariant r !in ArgsReads(args)
        invariant Views(args) == ops
        invariant P0 == BinaryPassFrom(r.tp, ops, i, requested)
        invariant func.retypeRequested == (old(func.retypeRequested) || requested)
        invariant forall j :: i <= j < |ops| ==> ops[j] == ops0[j]
        invariant Rewritten(old(args), ops0, args, ops, made) && fresh(made)
      {
        var changed, e, m := BinaryOperand(func, i);
        if e.Some? {
          return e, made;
        }
        made := made + m;
        requested := requested || changed;
        ops := Views(args);
        i := i + 1;
      }
      err := None;
    }

    /** `BINARY_TRUE_DIVIDE.type_eval`: the result is set to `float`, then the binary rule runs. */
    method TrueDivideTypeEval(func: Func) returns (err: Option<Fault>, ghost made: set<Cast>)
      requires RuleOf(op) == TrueDivideEval
      requires result.Some? && result.value.VarValue?
      requires result.value.v !in ArgsReads(args)
      modifies this, result.value.v, func
      ensures result == old(result) && func.locals == old(func.locals)
      ensures var P := TrueDividePass(old(Views(args)));
        && (err.None? <==> P.Ok?)
        && (P.Err? ==> err == Some(P.error))
        && (P.Ok? ==>
          && result.value.v.tp == P.value.rt
          && func.retypeRequested == (old(func.retypeRequested) || P.value.retype)
          && Views(args) == P.value.ops
          && Rewritten(old(args), old(Views(args)), args, P.value.ops, made))
      ensures fresh(made)
    {
      ghost var views := Views(args);
      ArgsReadsAllocated(args);
      // true division forces a float result before the binary rule runs
      result.value.v.tp := Float;
      err, made := BinaryTypeEval(func);
    }

    /** The body of `BINARY_FLOOR_DIVIDE.type_eval`'s second loop for operand `i`. */
    method FloatOperand(func: Func, i: nat) returns (ghost made: set<Cast>)
      requires i < |args|
      modifies this, func
      ensures result == old(result) && func.locals == old(func.locals)
      ensures ArgsReads(args) <= old(ArgsReads(args))
      ensures var vs := old(Views(args));
        && func.retypeRequested == (old(func.retypeRequested) || vs[i].tp != Float)
        && Views(args) == (if vs[i].tp != Float then vs[i := CastTo(vs[i], Float)] else vs)
        && ReplacedAt(old(args), args, i, vs[i].tp != Float, made)
      ensures fresh(made)
    {
      var arg := args[i];
      ArgsReadsAllocated(args);
      ghost var vs := Views(args);
      ViewsAt(args, i);
      made := {};
      if TypeOf(arg) != Float {
        made := Recast(i, Float);
        ArgsReadsAllocated(args);
        func.Retype();
      }
    }

    /** The first loop of `BINARY_FLOOR_DIVIDE.type_eval`: the result is unified with each operand's pre-cast type. */
    method UnifyPreCast() returns (err: Option<Fault>)
      requires result.Some? && result.value.VarValue?
      requires result.value.v !in ArgsReads(args)
      modifies result.value.v
      ensures Views(args) == old(Views(args))
      ensures var J := JoinAll(old(result.value.v.tp), PreCastTypes(old(Views(args))));
        && (err.None? <==> J.Ok?)
        && (J.Ok? ==> result.value.v.tp == J.value)
        && (J.Err? ==> err == Some(J.error))
    {
      var r := result.value.v;
      ghost var ops0 := Views(args);
      ghost var pre := PreCastTypes(ops0);
      ghost var J := JoinAll(r.tp, pre);
      ArgsReadsAllocated(args);
      var i := 0;
      while i < |args|
        invariant 0 <= i <= |args| == |ops0|
        invariant Views(args) == ops0
        invariant J == JoinFrom(r.tp, pre, i)
      {
        var arg := args[i];
        var tp := if arg.CastValue? then TypeOf(arg.cast.obj) else TypeOf(arg);
        ViewsAt(args, i);
        assert tp == pre[i];
        var _, e := r.UnifyType(tp);
        if e.Some? {
          return e;
        }
        i := i + 1;
      }
      err := None;
    }

    /** The second loop of `BINARY_FLOOR_DIVIDE.type_eval`: every operand that is not `float` becomes a cast to `float`. */
    method CastAllToFloat(func: Func) returns (ghost made: set<Cast>)
      requires result.Some? && result.value.VarValue?
      modifies this, func
      ensures result == old(result) && func.locals == old(func.locals)
      ensures ArgsReads(args) <= old(ArgsReads(args))
      ensures Views(args) == FloatOperands(old(Views(args)))
      ensures func.retypeRequested == (old(func.retypeRequested) || exists k :: 0 <= k < |args| && old(Views(args))[k].tp != Float)
      ensures Rewritten(old(args), old(Views(args)), args, Views(args), made) && fresh(made)
    {
      ghost var ops0 := Views(args);
      ghost var ops := ops0;
      made := {};
      var i := 0;
      while i < |args|
        invariant 0 <= i <= |args| == |ops| == |ops0|
        invariant result == old(result) && func.locals == old(func.locals)
        invariant ArgsReads(args) <= old(ArgsReads(args))
        invariant Views(args) == ops
        invariant forall j :: 0 <= j < |ops| ==> ops[j] == if j < i then FloatOperands(ops0)[j] else ops0[j]
        invariant func.retypeRequested == (old(func.retypeRequested) || exists k :: 0 <= k < i && ops0[k].tp != Float)
        invariant Rewritten(old(args), ops0, args, ops, made) && fresh(made)
      {
        var m := FloatOperand(func, i);
        made := made + m;
        ops := Views(args);
        assert ops[i] == FloatOperands(ops0)[i];
        i := i + 1;
      }
      assert ops == FloatOperands(ops0);
    }

    /**
     * `BINARY_FLOOR_DIVIDE.type_eval`: the result is unified with each
     * operand's pre-cast type (the wrapped value's type for an existing cast),
     * then every operand that is not `float` is replaced by a cast to
     * `float`, each replacement requesting a retype.
     */
    method FloorDivideTypeEval(func: Func) returns (err: Option<Fault>, ghost made: set<Cast>)
      requires RuleOf(op) == FloorDivideEval
      requires result.Some? && result.value.VarValue?
      requires result.value.v !in ArgsReads(args)
      modifies this, result.value.v, func
      ensures result == old(result) && func.locals == old(func.locals)
      ensures var P := FloorDividePass(old(result.value.v.tp), old(Views(args)));
        && (err.None? <==> P.Ok?)
        && (P.Err? ==> err == Some(P.error))
        && (P.Ok? ==>
          && result.value.v.tp == P.value.rt
          && func.retypeRequested == (old(func.retypeRequested) || P.value.retype)
          && Views(args) == P.value.ops
          && Rewritten(old(args), old(Views(args)), args, P.value.ops, made))
      ensures fresh(made)
    {
      ghost var ops0 := Views(args);
      ArgsReadsAllocated(args);
      made := {};
      err := UnifyPreCast();
      if err.Some? {
        return;
      }
      // every operand enters the floored quotient as a float
      made := CastAllToFloat(func);
    }

    /**
     * `COMPARE_OP.type_eval`: the result becomes `bool` (before the check),
     * and operands of different types raise a TypingError.
     */
    method CompareTypeEval() returns (err: Option<Fault>)
      requires RuleOf(op) == CompareEval
      requires |args| >= 2 && result.Some? && result.value.VarValue?
      modifies result.value.v
      ensures result.value.v.tp == Bool
      ensures var R := CompareRule(TypeOf(args[0]), TypeOf(args[1]));
        (err.None? <==> R.Ok?) && (R.Err? ==> err == Some(R.error))
    {
      result.value.v.tp := Bool;
      var R := CompareRule(TypeOf(args[0]), TypeOf(args[1]));
      err := if R.Err? then Some(R.error) else None;
    }

    /**
     * `STORE_FAST.type_eval`: the destination (the result, argument 0) is
     * unified with the source (argument 1); on a retype signal a retype is
     * requested and, when their types differ, the source is replaced by a cast.
     */
    method StoreFastTypeEval(func: Func) returns (err: Option<Fault>)
      requires RuleOf(op) == StoreEval
      requires |args| >= 2 && result.Some? && result.value.VarValue?
      modifies this, result.value.v, func
      ensures result == old(result) && func.locals == old(func.locals)
      ensures var S := StoreRule(old(result.value.v.tp), old(TypeOf(args[1])));
        && (err.None? <==> S.Ok?)
        && (S.Err? ==> err == Some(S.error))
        && (S.Ok? ==>
          && result.value.v.tp == S.value.tp
          && func.retypeRequested == (old(func.retypeRequested) || S.value.retype)
          && (!S.value.cast ==> args == old(args))
          && (S.value.cast ==>
               && |args| == |old(args)| && args == old(args)[1 := args[1]]
               && args[1].CastValue? && fresh(args[1].cast) && args[1].cast.obj == old(args)[1]
               && args[1].cast.tp == S.value.tp && args[1].cast.Valid() && !args[1].cast.emitted))
    {
      var d := result.value.v;
      var arg := args[1];
      var changed, e := d.UnifyType(TypeOf(arg));
      if e.Some? {
        return e;
      }
      err := None;
      if changed {
        func.Retype();
        if d.tp != TypeOf(arg) {
          var c := new Cast(arg, d.tp);
          args := args[1 := CastValue(c)];
        }
      }
    }

    /** `PhiNode.type_eval`: the result is unified with every incoming value. */
    method PhiTypeEval() returns (err: Option<Fault>)
      requires RuleOf(op) == PhiEval
      requires result.Some? && result.value.VarValue?
      requires forall j :: 0 <= j < |args| ==> result.value.v !in TypeReads(args[j])
      modifies result.value.v
      ensures var J := PhiRule(old(result.value.v.tp), old(Views(args)));
        && (err.None? <==> J.Ok?)
        && (J.Ok? ==> result.value.v.tp == J.value)
        && (J.Err? ==> err == Some(J.error))
    {
      var r := result.value.v;
      ghost var ts := TypesOf(Views(args));
      ghost var J := JoinAll(r.tp, ts);
      forall j | 0 <= j < |args| ensures TypeOf(args[j]) == ts[j] {
        ViewsAt(args, j);
      }
      var i := 0;
      while i < |args|
        invariant 0 <= i <= |args| == |ts|
        invariant forall j :: 0 <= j < |args| ==> TypeOf(args[j]) == ts[j]
        invariant J == JoinFrom(r.tp, ts, i)
      {
        var _, e := r.UnifyType(TypeOf(args[i]));
        if e.Some? {
          return e;
        }
        i := i + 1;
      }
      err := None;
    }

    /** One iteration of `IR.cast`: the argument `v`, when it is a cast, is translated. */
    static method TranslateArg(v: Value, b: Builder, ghost all: set<Cast>)
      requires v.CastValue? ==> v.cast in all
      requires forall c :: c in all ==> Ready(c)
      modifies (if v.CastValue? then {v.cast} else {}), b
      ensures forall c :: c in all ==> Ready(c)
      ensures v.CastValue? ==> v.cast.emitted
      ensures v.CastValue? && old(v.cast.emitted) ==> v.cast.llvm == old(v.cast.llvm)
      ensures forall c :: c in all && !(v.CastValue? && c == v.cast) ==> c.emitted == old(c.emitted) && c.llvm == old(c.llvm)
      ensures |old(b.log)| <= |b.log| <= |old(b.log)| + (if v.CastValue? && !old(v.cast.emitted) then 1 else 0)
      ensures b.log[..|old(b.log)|] == old(b.log)
    {
      if v.CastValue? {
        var c := v.cast;
        c.Translate(b);
        forall c2 | c2 in all ensures Ready(c2) {
          if c2 != c && c2.obj.CastValue? && c2.obj.cast == c {
            assert OperandOf(c2.obj) == c.llvm;
          }
        }
      }
    }

    /**
     * `IR.cast`: translates every cast among the arguments. Afterwards every
     * one of them is emitted; those emitted before keep their operand; and
     * the backend receives at most one conversion per distinct cast that was
     * not yet emitted, however often it occurs.
     */
    method TranslateCasts(b: Builder)
      requires forall c :: c in CastsIn(args) ==> Ready(c)
      modifies CastsIn(args), b
      ensures forall c :: c in CastsIn(args) ==> c.Valid() && c.emitted
      ensures forall c :: c in CastsIn(args) && old(c.emitted) ==> c.llvm == old(c.llvm)
      ensures |old(b.log)| <= |b.log| && b.log[..|old(b.log)|] == old(b.log)
      ensures |b.log| <= |old(b.log)| + |set c | c in CastsIn(args) && !old(c.emitted)|
    {
      ghost var all := CastsIn(args);
      ghost var pending := set c | c in all && !c.emitted;
      ghost var done: set<Cast> := {};
      ghost var converted: set<Cast> := {};
      var a := args;
      var i := 0;
      while i < |a|
        invariant 0 <= i <= |a|
        invariant done <= all
        invariant forall j :: 0 <= j < i && a[j].CastValue? ==> a[j].cast in done
        invariant forall c :: c in all ==>
          && Ready(c)
          && (if c in done then c.emitted else c.emitted == old(c.emitted))
          && (old(c.emitted) ==> c.llvm == old(c.llvm))
        invariant converted <= pending && converted <= done
        invariant |old(b.log)| <= |b.log| <= |old(b.log)| + |converted|
        invariant b.log[..|old(b.log)|] == old(b.log)
      {
        ghost var wasPending := a[i].CastValue? && !a[i].cast.emitted;
        TranslateArg(a[i], b, all);
        if a[i].CastValue? {
          if wasPending {
            assert a[i].cast !in done;
            converted := converted + {a[i].cast};
          }
          done := done + {a[i].cast};
        }
        i := i + 1;
      }
      assert forall c :: c in all ==> c in done;
      assert pending == set c | c in CastsIn(args) && !old(c.emitted);
      SubsetCard(converted, pending);
    }
  }

  /** A cast that can be translated: consistent, and with its source's operand once it still has to convert. */
  ghost predicate Ready(c: Cast)
    reads c, OperandReads(c.obj)
  {
    c.Valid() && (!c.emitted ==> OperandOf(c.obj).Some?)
  }

  /**
   * The operand list `a` is `a0` with the operands whose view changed from
   * `ops0` to `ops` replaced by casts, drawn from `made`, of the original operand.
   */
  predicate Rewritten(a0: seq<Value>, ops0: seq<ArgView>, a: seq<Value>, ops: seq<ArgView>, made: set<Cast>) {
    && |a0| == |a| == |ops0| == |ops|
    && forall j :: 0 <= j < |a| ==>
         if ops[j] == ops0[j] then a[j] == a0[j]
         else a[j].CastValue? && a[j].cast.obj == a0[j] && a[j].cast in made
  }

  /** `a` is `a0` with, if `replaced`, operand `i` replaced by a cast of it drawn from `made`. */
  predicate ReplacedAt(a0: seq<Value>, a: seq<Value>, i: nat, replaced: bool, made: set<Cast>) {
    && |a| == |a0| && i < |a|
    && (forall j :: 0 <= j < |a| && j != i ==> a[j] == a0[j])
    && (if replaced then a[i].CastValue? && a[i].cast.obj == a0[i] && a[i].cast in made else a[i] == a0[i])
  }

  /** Each operand's view depends only on objects of the list's footprint. */
  lemma {:induction false} ViewReadsIn(args: seq<Value>, i: nat)
    requires i < |args|
    ensures ViewReads(args[i]) <= ArgsReads(args)
  {
    if i > 0 {
      ViewReadsIn(args[1..], i - 1);
    }
  }

  /** Replacing an operand by one with a smaller footprint replaces its view only. */
  lemma {:induction false} ViewsUpdate(args: seq<Value>, i: nat, v: Value)
    requires i < |args| && ViewReads(v) <= ViewReads(args[i])
    ensures ArgsReads(args[i := v]) <= ArgsReads(args)
    ensures Views(args[i := v]) == Views(args)[i := ViewOf(v)]
  {
    if i == 0 {
      assert args[i := v][1..] == args[1..];
    } else {
      ViewsUpdate(args[1..], i - 1, v);
      assert args[i := v][1..] == args[1..][i - 1 := v];
    }
  }

  lemma SubsetCard<T>(a: set<T>, b: set<T>)
    requires a <= b
    ensures |a| <= |b|
  {
    assert b == a + (b - a);
  }

  /** The instructions `s` form the linked list that starts at `first` and ends in `null`. */
  ghost predicate Chain(first: Instr?, s: seq<Instr>)
    reads s
  {
    && (first == null <==> s == [])
    && (s != [] ==> first == s[0] && s[|s| - 1].next == null)
    && forall k :: 0 <= k < |s| - 1 ==> s[k].next == s[k + 1]
  }

  /** `LinkedListIter`: walks the instruction list through the `next` links. */
  class LinkedListIter {
    var next: Instr?
    /** The instructions still to be visited. */
    ghost var rest: seq<Instr>

    ghost predicate Valid()
      reads this, rest
    {
      Chain(next, rest)
    }

    constructor (start: Instr?, ghost chain: seq<Instr>)
      requires Chain(start, chain)
      ensures Valid() && next == start && rest == chain
    {
      next := start;
      rest := chain;
    }

    /** `__next__`: the next instruction, or `null` for StopIteration. */
    method Next() returns (current: Instr?)
      requires Valid()
      modifies this
      ensures Valid()
      ensures old(rest) == [] ==> current == null && rest == []
      ensures old(rest) != [] ==> current == old(rest)[0] && rest == old(rest)[1..]
    {
      if next == null {
        return null;
      }
      current := next;
      assert rest[0] == current;
      next := current.next;
      assert |rest| > 1 ==> next == rest[1];
      rest := rest[1..];
    }
  }

  /** Iterating over the list from `start` visits exactly its instructions, in order. */
  method Elements(start: Instr?, ghost chain: seq<Instr>) returns (out: seq<Instr>)
    requires Chain(start, chain)
    ensures out == chain
  {
    var it := new LinkedListIter(start, chain);
    out := [];
    var cur := it.Next();
    while cur != null
      invariant it.Valid()
      invariant cur != null ==> out + [cur] + it.rest == chain
      invariant cur == null ==> out == chain
      decreases |it.rest| + (if cur == null then 0 else 1)
    {
      out := out + [cur];
      cur := it.Next();
    }
  }
}
