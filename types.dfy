/**
 * The four-point type set of the typed IR and the unification of
 * `Variable.unify_type` (stella/bytecode.py), as pure functions.
 */
module Types {
  import opened Wrappers
  import opened Exc

  /** `NoType` (the empty string in the source) is the not-yet-known type. */
  datatype Type = NoType | Int | Float | Bool

  /** `str()` of a type as the host prints it; `NoType` prints as the empty string. */
  function TypeStr(t: Type): string {
    match t
    case NoType => ""
    case Int => "<class 'int'>"
    case Float => "<class 'float'>"
    case Bool => "<class 'bool'>"
  }

  /** The lattice order: `NoType` is below every type and `int` is below `float`. */
  predicate Below(a: Type, b: Type) {
    a == b || a == NoType || (a == Int && b == Float)
  }

  /** `j` is the least upper bound of `a` and `b`. */
  predicate IsJoin(a: Type, b: Type, j: Type) {
    Below(a, j) && Below(b, j) && forall u :: Below(a, u) && Below(b, u) ==> Below(j, u)
  }

  /** What unification leaves behind: the variable's new type, and the
      boolean that the source returns as its "please retype" signal. */
  datatype Unified = Unified(tp: Type, changed: bool)

  function UnifyFault(tp1: Type, tp2: Type): Fault {
    Fault(TypingError, "Unifying of types " + TypeStr(tp1) + " and " + TypeStr(tp2) + " not yet implemented")
  }

  /**
   * Merging `tp2` into a variable of type `tp1`. The new type is the join
   * of the two, and unification fails exactly when there is no join. The
   * retype signal is raised exactly when both types are resolved and differ,
   * so that `NoType` adopting a type does not raise it, while `float` meeting
   * `int` raises it although the type stays `float`.
   */
  function Unify(tp1: Type, tp2: Type): (r: Result<Unified, Fault>)
    ensures r.Ok? <==> exists u :: Below(tp1, u) && Below(tp2, u)
    ensures r.Ok? ==> IsJoin(tp1, tp2, r.value.tp)
    ensures r.Ok? ==> (r.value.changed <==> tp1 != NoType && tp2 != NoType && tp1 != tp2)
    ensures r.Err? ==> r.error == UnifyFault(tp1, tp2)
  {
    if tp1 == tp2 then assert Below(tp1, tp1) && Below(tp2, tp1); Ok(Unified(tp1, false))
    else if tp1 == NoType then assert Below(tp1, tp2) && Below(tp2, tp2); Ok(Unified(tp2, false))
    else if tp2 == NoType then assert Below(tp1, tp1) && Below(tp2, tp1); Ok(Unified(tp1, false))
    else if (tp1 == Int && tp2 == Float) || (tp1 == Float && tp2 == Int) then
      assert Below(tp1, Float) && Below(tp2, Float);
      Ok(Unified(Float, true))
    else
      assert !Below(tp1, Float) || !Below(tp2, Float);
      Err(UnifyFault(tp1, tp2))
  }

  lemma BelowTransitive(a: Type, b: Type, c: Type)
    requires Below(a, b) && Below(b, c)
    ensures Below(a, c)
  {
  }

  /** Joins are unique. */
  lemma JoinUnique(a: Type, b: Type, j1: Type, j2: Type)
    requires IsJoin(a, b, j1) && IsJoin(b, a, j2)
    ensures j1 == j2
  {
    assert Below(j1, j2) && Below(j2, j1);
  }

  /** The type unification leaves does not depend on the order of its operands. */
  lemma UnifyCommutes(a: Type, b: Type)
    ensures Unify(a, b).Ok? <==> Unify(b, a).Ok?
    ensures Unify(a, b).Ok? ==> Unify(a, b).value.tp == Unify(b, a).value.tp
  {
    if Unify(a, b).Ok? {
      JoinUnique(a, b, Unify(a, b).value.tp, Unify(b, a).value.tp);
    }
  }

  /** Unifying once more with the same type leaves the type where it is; the
      signal is raised again only for `float` meeting `int`. */
  lemma UnifyIdempotent(a: Type, b: Type)
    requires Unify(a, b).Ok?
    ensures Unify(Unify(a, b).value.tp, b).Ok?
    ensures Unify(Unify(a, b).value.tp, b).value.tp == Unify(a, b).value.tp
    ensures Unify(Unify(a, b).value.tp, b).value.changed <==> Unify(a, b).value.tp == Float && b == Int
  {
  }

  /** A resolved type never returns to `NoType`, and never moves down the lattice. */
  lemma UnifyMonotone(a: Type, b: Type)
    requires Unify(a, b).Ok?
    ensures Below(a, Unify(a, b).value.tp)
    ensures a != NoType ==> Unify(a, b).value.tp != NoType
  {
  }

  /** The two quirks of the retype signal, on concrete inputs. */
  lemma RetypeSignalQuirks()
    ensures Unify(NoType, Int) == Ok(Unified(Int, false))
    ensures Unify(Float, Int) == Ok(Unified(Float, true))
    ensures Unify(Int, Float) == Ok(Unified(Float, true))
    ensures Unify(Int, Bool).Err? && Unify(Bool, Float).Err?
  {
  }

  /**
   * Unification folded over `ts[i..]`, starting from type `rt`, ignoring the
   * retype signals: what the loops of `PhiNode.type_eval` and the first loop
   * of `BINARY_FLOOR_DIVIDE.type_eval` compute.
   */
  function JoinFrom(rt: Type, ts: seq<Type>, i: nat): (r: Result<Type, Fault>)
    requires i <= |ts|
    decreases |ts| - i
  {
    if i == |ts| then Ok(rt)
    else match Unify(rt, ts[i])
      case Err(f) => Err(f)
      case Ok(u) => JoinFrom(u.tp, ts, i + 1)
  }

  function JoinAll(rt: Type, ts: seq<Type>): Result<Type, Fault> {
    JoinFrom(rt, ts, 0)
  }

  /** `u` is an upper bound of `rt` and of every type of `ts[i..]`. */
  predicate UpperBound(rt: Type, ts: seq<Type>, i: nat, u: Type)
    requires i <= |ts|
  {
    Below(rt, u) && forall k :: i <= k < |ts| ==> Below(ts[k], u)
  }

  /**
   * The fold is the least upper bound of the start type and all the types,
   * and it fails exactly when they have no common upper bound.
   */
  lemma {:induction false} JoinFromIsLeastUpperBound(rt: Type, ts: seq<Type>, i: nat)
    requires i <= |ts|
    ensures JoinFrom(rt, ts, i).Ok? ==> UpperBound(rt, ts, i, JoinFrom(rt, ts, i).value)
    ensures JoinFrom(rt, ts, i).Ok? ==> forall u :: UpperBound(rt, ts, i, u) ==> Below(JoinFrom(rt, ts, i).value, u)
    ensures JoinFrom(rt, ts, i).Err? ==> forall u :: !UpperBound(rt, ts, i, u)
    decreases |ts| - i
  {
    if i < |ts| {
      match Unify(rt, ts[i])
      case Err(_) =>
        assert forall u :: !(Below(rt, u) && Below(ts[i], u));
      case Ok(un) =>
        JoinFromIsLeastUpperBound(un.tp, ts, i + 1);
        var j := un.tp;
        forall u | UpperBound(rt, ts, i, u) ensures UpperBound(j, ts, i + 1, u) {
          assert Below(ts[i], u);
        }
        forall u | UpperBound(j, ts, i + 1, u) ensures UpperBound(rt, ts, i, u) {
          BelowTransitive(rt, j, u);
          BelowTransitive(ts[i], j, u);
        }
        if JoinFrom(j, ts, i + 1).Ok? {
          var r := JoinFrom(j, ts, i + 1).value;
          BelowTransitive(rt, j, r);
          BelowTransitive(ts[i], j, r);
        }
    }
  }

  /** A phi node's type does not depend on the order of its incoming values:
      any two folds over the same collection of types agree. */
  lemma {:induction false} JoinAllOrderFree(rt: Type, ts1: seq<Type>, ts2: seq<Type>)
    requires multiset(ts1) == multiset(ts2)
    ensures JoinAll(rt, ts1).Ok? <==> JoinAll(rt, ts2).Ok?
    ensures JoinAll(rt, ts1).Ok? ==> JoinAll(rt, ts1) == JoinAll(rt, ts2)
  {
    JoinFromIsLeastUpperBound(rt, ts1, 0);
    JoinFromIsLeastUpperBound(rt, ts2, 0);
    forall u ensures UpperBound(rt, ts1, 0, u) <==> UpperBound(rt, ts2, 0, u) {
      if UpperBound(rt, ts1, 0, u) {
        forall k | 0 <= k < |ts2| ensures Below(ts2[k], u) {
          assert ts2[k] in multiset(ts2);
          assert ts2[k] in ts1;
        }
      }
      if UpperBound(rt, ts2, 0, u) {
        forall k | 0 <= k < |ts1| ensures Below(ts1[k], u) {
          assert ts1[k] in multiset(ts1);
          assert ts1[k] in ts2;
        }
      }
    }
    if JoinAll(rt, ts1).Ok? && JoinAll(rt, ts2).Ok? {
      var a, b := JoinAll(rt, ts1).value, JoinAll(rt, ts2).value;
      assert Below(a, b) && Below(b, a);
    }
  }
}
