/**
 * The values an instruction consumes (stella/bytecode.py): variables, whose
 * type unification updates in place; constants, whose type is fixed by their
 * literal; and casts, whose backend conversion runs at most once.
 *
 * The backend (LLVM) is represented only by the operand tokens it hands out
 * and by a log of the conversions the model asks of it.
 */
module Values {
  import opened Wrappers
  import opened Exc
  import opened Types

  /** The literal of a `Const`. Floating-point numbers are modelled as reals. */
  datatype Literal = IntLit(i: int) | FloatLit(x: real) | BoolLit(b: bool)

  /** `type(value)`: a constant's type is fixed by its literal and always resolved. */
  function LiteralType(l: Literal): (t: Type)
    ensures t != NoType
    ensures (t == Int <==> l.IntLit?) && (t == Float <==> l.FloatLit?) && (t == Bool <==> l.BoolLit?)
  {
    match l
    case IntLit(_) => Int
    case FloatLit(_) => Float
    case BoolLit(_) => Bool
  }

  /** `float(value)` of a constant's literal. */
  function AsFloat(l: Literal): real {
    match l
    case IntLit(i) => i as real
    case FloatLit(x) => x
    case BoolLit(b) => if b then 1.0 else 0.0
  }

  /** A backend operand: a constant, or the result of the k-th requested backend operation. */
  datatype LlvmValue = LlvmConst(lit: Literal) | LlvmResult(index: nat)

  /** The backend operations the model requests (only the cast's int-to-float conversion). */
  datatype BackendOp = SiToFp(src: LlvmValue)

  /** The backend instruction builder, kept as the log of what was asked of it. */
  class Builder {
    var log: seq<BackendOp>

    constructor ()
      ensures log == []
    {
      log := [];
    }

    /** `builder.sitofp`: appends the conversion and hands out its result operand. */
    method SiToFpCall(src: LlvmValue) returns (r: LlvmValue)
      modifies this
      ensures log == old(log) + [SiToFp(src)]
      ensures r == LlvmResult(|old(log)|)
    {
      r := LlvmResult(|log|);
      log := log + [SiToFp(src)];
    }
  }

  /** A named or temporary (empty-named) variable; its type starts at `NoType`. */
  class Variable {
    const name: string
    var tp: Type
    var llvm: Option<LlvmValue>

    constructor (name: string)
      ensures this.name == name && tp == NoType && llvm == None
    {
      this.name := name;
      tp := NoType;
      llvm := None;
    }

    /** `Local.tmp()`: a fresh temporary. */
    static method Tmp() returns (v: Variable)
      ensures fresh(v) && v.name == "" && v.tp == NoType && v.llvm == None
    {
      v := new Variable("");
    }

    /** `unify_type`: merges `tp2` into this variable's type and returns the
        retype signal, or the TypingError it raises (leaving the type as it was). */
    method UnifyType(tp2: Type) returns (changed: bool, err: Option<Fault>)
      modifies this
      ensures var u := Unify(old(tp), tp2);
        && (u.Ok? ==> err == None && tp == u.value.tp && changed == u.value.changed)
        && (u.Err? ==> err == Some(u.error) && tp == old(tp))
      ensures llvm == old(llvm)
    {
      var tp1 := tp;
      changed := false;
      err := None;
      if tp1 == tp2 {
      } else if tp1 == NoType {
        tp := tp2;
      } else if tp2 == NoType {
      } else if (tp1 == Int && tp2 == Float) || (tp1 == Float && tp2 == Int) {
        tp := Float;
        changed := true;
      } else {
        err := Some(UnifyFault(tp1, tp2));
      }
    }
  }

  /** Anything an instruction can consume. */
  datatype Value = VarValue(v: Variable) | ConstValue(lit: Literal) | CastValue(cast: Cast)

  /** The objects a value's type depends on (a cast's type is fixed). */
  function TypeReads(v: Value): set<Variable> {
    if v.VarValue? then {v.v} else {}
  }

  /** The objects a value's backend operand depends on. */
  function OperandReads(v: Value): set<object> {
    match v
    case VarValue(x) => {x}
    case ConstValue(_) => {}
    case CastValue(c) => {c}
  }

  function TypeOf(v: Value): Type
    reads TypeReads(v)
  {
    match v
    case VarValue(x) => x.tp
    case ConstValue(l) => LiteralType(l)
    case CastValue(c) => c.tp
  }

  /** The value's backend operand, once it has one. */
  function OperandOf(v: Value): Option<LlvmValue>
    reads OperandReads(v)
  {
    match v
    case VarValue(x) => x.llvm
    case ConstValue(l) => Some(LlvmConst(l))
    case CastValue(c) => c.llvm
  }

  /** `hasattr(obj, 'value')`: constants, and casts that have converted a constant. */
  predicate HasValue(v: Value)
    reads OperandReads(v)
  {
    match v
    case VarValue(_) => false
    case ConstValue(_) => true
    case CastValue(c) => c.value.Some?
  }

  /** `float(obj.value)`. */
  function FloatValue(v: Value): real
    requires HasValue(v)
    reads OperandReads(v)
  {
    match v
    case ConstValue(l) => AsFloat(l)
    case CastValue(c) => c.value.value
  }

  /**
   * `Cast(obj, tp)`: `obj` converted to `tp`. The conversion is emitted in
   * the backend at most once, however many instructions consume the cast.
   */
  class Cast {
    const obj: Value
    const tp: Type
    var emitted: bool
    var llvm: Option<LlvmValue>
    var value: Option<real>

    /** Once emitted, the cast has its operand; a cast never wraps itself. */
    ghost predicate Valid()
      reads this
    {
      && (emitted ==> llvm.Some?)
      && (value.Some? ==> emitted)
      && obj != CastValue(this)
    }

    constructor (obj: Value, tp: Type)
      requires TypeOf(obj) != tp
      ensures this.obj == obj && this.tp == tp
      ensures !emitted && llvm == None && value == None
      ensures Valid()
    {
      this.obj := obj;
      this.tp := tp;
      emitted := false;
      llvm := None;
      value := None;
    }

    /**
     * `Cast.translate`: the first call produces the operand (reusing the
     * source's operand when the types have come to agree, a float constant
     * when the source carries a value, and an int-to-float conversion
     * otherwise); every later call changes nothing.
     */
    method Translate(b: Builder)
      requires Valid()
      requires !emitted ==> OperandOf(obj).Some?
      modifies this, b
      ensures Valid() && emitted
      ensures |old(b.log)| <= |b.log| <= |old(b.log)| + (if old(emitted) then 0 else 1)
      ensures b.log[..|old(b.log)|] == old(b.log)
      ensures old(emitted) ==> llvm == old(llvm) && value == old(value) && b.log == old(b.log)
      ensures !old(emitted) && old(TypeOf(obj)) == tp ==>
        llvm == old(OperandOf(obj)) && value == old(value) && b.log == old(b.log)
      ensures !old(emitted) && old(TypeOf(obj)) != tp && old(HasValue(obj)) ==>
        value == Some(old(FloatValue(obj))) && llvm == Some(LlvmConst(FloatLit(value.value))) && b.log == old(b.log)
      ensures !old(emitted) && old(TypeOf(obj)) != tp && !old(HasValue(obj)) ==>
        b.log == old(b.log) + [SiToFp(old(OperandOf(obj)).value)] && llvm == Some(LlvmResult(|old(b.log)|)) && value == old(value)
    {
      if emitted {
        return;
      }
      var tpSame := TypeOf(obj) == tp;
      var operand := OperandOf(obj);
      var hasValue := HasValue(obj);
      emitted := true;
      if tpSame {
        llvm := operand;
        return;
      }
      if hasValue {
        var f := FloatValue(obj);
        value := Some(f);
        llvm := Some(LlvmConst(FloatLit(f)));
      } else {
        var r := b.SiToFpCall(operand.value);
        llvm := Some(r);
      }
    }
  }

  /**
   * A snapshot of an operand as the type rules see it: a value of type `tp`,
   * or an existing cast to `tp` of a value whose type is `from`.
   */
  datatype ArgView = Direct(tp: Type) | Converted(from: Type, tp: Type)

  /** The objects an operand's view depends on. */
  function ViewReads(v: Value): set<Variable> {
    match v
    case VarValue(x) => {x}
    case ConstValue(_) => {}
    case CastValue(c) => TypeReads(c.obj)
  }

  function ViewOf(v: Value): (a: ArgView)
    reads ViewReads(v)
    ensures a.tp == TypeOf(v)
  {
    match v
    case VarValue(x) => Direct(x.tp)
    case ConstValue(l) => Direct(LiteralType(l))
    case CastValue(c) => Converted(TypeOf(c.obj), c.tp)
  }

  function ArgsReads(args: seq<Value>): set<Variable> {
    if args == [] then {} else ViewReads(args[0]) + ArgsReads(args[1..])
  }

  /** Every object of a list's footprint already exists, so later calls leave it in place. */
  lemma {:induction false} ArgsReadsAllocated(args: seq<Value>)
    ensures forall v :: v in ArgsReads(args) ==> allocated(v)
  {
    if args != [] {
      ArgsReadsAllocated(args[1..]);
    }
  }

  /** The views of an operand list, position by position. */
  function Views(args: seq<Value>): (vs: seq<ArgView>)
    reads ArgsReads(args)
    ensures |vs| == |args|
  {
    if args == [] then [] else [ViewOf(args[0])] + Views(args[1..])
  }

  lemma {:induction false} ViewsAt(args: seq<Value>, j: nat)
    requires j < |args|
    ensures Views(args)[j] == ViewOf(args[j])
  {
    if j > 0 {
      ViewsAt(args[1..], j - 1);
    }
  }

  /** The casts among an operand list. */
  function CastsIn(args: seq<Value>): set<Cast> {
    set j | 0 <= j < |args| && args[j].CastValue? :: args[j].cast
  }
}
