/**
 * Code emission for one function (stella/codegen.py): the bytecode list is
 * partitioned into basic blocks at the jump targets, the reachable
 * bytecodes are translated in order, and a StellaException raised while
 * translating one is annotated with that bytecode's location; and the entry
 * stub's return kind.
 *
 * What translating one bytecode does in the backend is decided by the
 * handlers and the backend, and enters here only as the exception (if any)
 * it raises.
 */
module Codegen {
  import opened Wrappers
  import opened Exc
  import opened Types
  import opened Values
  import opened Instructions

  /** No bytecode occurs twice in the list. */
  predicate Distinct(s: seq<Instr>) {
    forall i, j :: 0 <= i < j < |s| ==> s[i] != s[j]
  }

  /** The bytecodes that survive discard removal, in order. */
  function Kept(s: seq<Instr>): (r: seq<Instr>)
    ensures |r| <= |s|
  {
    if s == [] then []
    else Kept(s[..|s| - 1]) + (if s[|s| - 1].discard then [] else [s[|s| - 1]])
  }

  /** How many bytecodes of the list are jump targets. */
  function TargetCount(s: seq<Instr>, targets: set<Instr>): (n: nat)
    ensures n <= |s|
  {
    if s == [] then 0
    else TargetCount(s[..|s| - 1], targets) + (if s[|s| - 1] in targets then 1 else 0)
  }

  /** The locations of the jump targets of the list, in order: the names of
      the blocks they open. */
  function TargetLocs(s: seq<Instr>, targets: set<Instr>): (r: seq<string>)
    ensures |r| == TargetCount(s, targets)
  {
    if s == [] then []
    else TargetLocs(s[..|s| - 1], targets) + (if s[|s| - 1] in targets then [s[|s| - 1].loc] else [])
  }

  /** The index of the block the `i`-th bytecode belongs to, when the
      function already had `base` blocks before `entry` was appended. */
  function BlockIndex(s: seq<Instr>, targets: set<Instr>, base: nat, i: nat): nat
    requires i < |s|
  {
    base + TargetCount(s[..i + 1], targets)
  }

  /** The outcome of walking the first `n` bytecodes: those kept, the names
      of the blocks opened after `entry`, and the block of each kept one. */
  datatype Partitioned = Partitioned(kept: seq<Instr>, names: seq<string>, blocks: seq<nat>)

  /**
   * Block assignment over the first `n` bytecodes, when the backend
   * function already had `base` blocks before `entry`: a discarded bytecode
   * is dropped, a target opens the next block, any other joins the current
   * one (`entry` until the first target).
   */
  function Partition(s: seq<Instr>, targets: set<Instr>, base: nat, n: nat): (q: Partitioned)
    requires n <= |s|
    ensures |q.blocks| == |q.kept|
  {
    if n == 0 then Partitioned([], [], [])
    else
      var q := Partition(s, targets, base, n - 1);
      var x := s[n - 1];
      if x.discard then q
      else if x in targets then Partitioned(q.kept + [x], q.names + [x.loc], q.blocks + [base + |q.names| + 1])
      else Partitioned(q.kept + [x], q.names, q.blocks + [base + |q.names|])
  }

  /** One step of the walk: a discarded bytecode changes nothing; any other is
      kept, names a new block when it is a target, and joins the current one. */
  lemma PartitionStep(s: seq<Instr>, targets: set<Instr>, base: nat, i: nat)
    requires i < |s|
    ensures var q := Partition(s, targets, base, i); var q' := Partition(s, targets, base, i + 1);
      if s[i].discard then q' == q
      else
        && q'.kept == q.kept + [s[i]]
        && q'.names == q.names + (if s[i] in targets then [s[i].loc] else [])
        && q'.blocks == q.blocks + [base + |q'.names|]
  {
  }

  /** In a list without repetitions, the bytecode the walk reaches has not been kept yet. */
  lemma {:induction false} PartitionKeptFrom(s: seq<Instr>, targets: set<Instr>, base: nat, i: nat)
    requires i < |s| && Distinct(s)
    ensures forall k :: 0 <= k < |Partition(s, targets, base, i).kept| ==> Partition(s, targets, base, i).kept[k] != s[i]
  {
    PartitionKeptBefore(s, targets, base, i);
    assert s[i] !in s[..i];
  }

  lemma {:induction false} PartitionKeptBefore(s: seq<Instr>, targets: set<Instr>, base: nat, n: nat)
    requires n <= |s|
    ensures forall x :: x in Partition(s, targets, base, n).kept ==> x in s[..n]
  {
    if n > 0 {
      PartitionKeptBefore(s, targets, base, n - 1);
      assert s[..n] == s[..n - 1] + [s[n - 1]];
    }
  }

  /** The fields of a bytecode that block assignment leaves alone. */
  datatype InstrState = InstrState(reachable: bool, args: seq<Value>, result: Option<Value>, next: Instr?)

  function Snapshot(x: Instr): InstrState
    reads x
  {
    InstrState(x.reachable, x.args, x.result, x.next)
  }

  predicate Unchanged(x: Instr, st: InstrState)
    reads x
  {
    Snapshot(x) == st
  }

  /** The first `n` bytecodes of the list that are flagged reachable, in order. */
  function ReachableOf(s: seq<Instr>, n: nat): (r: seq<Instr>)
    requires n <= |s|
    reads s
    ensures |r| <= n
  {
    if n == 0 then []
    else ReachableOf(s, n - 1) + (if s[n - 1].reachable then [s[n - 1]] else [])
  }

  /** The outcome of translating a bytecode that raises. */
  datatype Raised = Stella(e: StellaException) | Other(f: Fault)

  /** The first reachable bytecode whose translation raises, or `|s|`. */
  function FirstFailure(s: seq<Instr>, raising: map<Instr, Raised>): (k: nat)
    reads s
    ensures k <= |s|
    ensures k < |s| ==> s[k].reachable && s[k] in raising
    ensures forall j :: 0 <= j < k ==> !(s[j].reachable && s[j] in raising)
  {
    if s == [] then 0
    else if s[0].reachable && s[0] in raising then 0
    else 1 + FirstFailure(s[1..], raising)
  }

  /** The blocks of the first `n` bytecodes of the list that have one, in order. */
  function BlocksOf(s: seq<Instr>, n: nat): (r: seq<nat>)
    requires n <= |s|
    reads s
    ensures |r| <= n
  {
    if n == 0 then []
    else BlocksOf(s, n - 1) + (if s[n - 1].block.Some? then [s[n - 1].block.value] else [])
  }

  /** The exceptions the translation of some bytecode may raise. */
  function Raisable(raising: map<Instr, Raised>): set<StellaException> {
    set bc | bc in raising && raising[bc].Stella? :: raising[bc].e
  }

  /** A function under code generation: its bytecode list, the bytecodes
      some jump targets, and the blocks of its backend function. */
  class Impl {
    var bytecodes: seq<Instr>
    const incomingJumps: set<Instr>
    var blockNames: seq<string>

    constructor (bytecodes: seq<Instr>, incomingJumps: set<Instr>)
      ensures this.bytecodes == bytecodes && this.incomingJumps == incomingJumps && blockNames == []
    {
      this.bytecodes := bytecodes;
      this.incomingJumps := incomingJumps;
      blockNames := [];
    }

    /**
     * The first half of `blockAndCode`: appends the `entry` block, then
     * walks the list; a discarded bytecode is removed and gets no block; a
     * jump target (which must not have a block yet) opens a new block named
     * by its location, which becomes the current one; every other bytecode
     * joins the current block.
     */
    method AssignBlocks()
      requires Distinct(bytecodes)
      requires forall i :: 0 <= i < |bytecodes| && bytecodes[i] in incomingJumps && !bytecodes[i].discard ==>
        bytecodes[i].block == None
      modifies this, bytecodes
      ensures var q := Partition(old(bytecodes), incomingJumps, |old(blockNames)|, |old(bytecodes)|);
        && bytecodes == q.kept
        && blockNames == old(blockNames) + ["entry"] + q.names
        && forall k :: 0 <= k < |bytecodes| ==> bytecodes[k].block == Some(q.blocks[k])
      ensures forall k :: 0 <= k < |old(bytecodes)| && old(bytecodes)[k].discard ==>
        old(bytecodes)[k].block == old(bytecodes[k].block)
      ensures forall k :: 0 <= k < |old(bytecodes)| ==> Unchanged(old(bytecodes)[k], old(Snapshot(bytecodes[k])))
    {
      var base := |blockNames|;
      var bcs := bytecodes;
      var names := blockNames + ["entry"];
      ghost var names0 := names;
      var bb := base;
      var i := 0;
      var kept: seq<Instr> := [];
      ghost var q := Partition(bcs, incomingJumps, base, 0);
      while i < |bcs|
        invariant 0 <= i <= |bcs|
        invariant q == Partition(bcs, incomingJumps, base, i)
        invariant kept == q.kept && names == names0 + q.names && bb == base + |q.names|
        invariant forall k :: 0 <= k < |kept| ==> kept[k].block == Some(q.blocks[k])
        invariant forall k :: 0 <= k < |bcs| ==>
          && bcs[k].reachable == old(bcs[k].reachable) && bcs[k].args == old(bcs[k].args)
          && bcs[k].result == old(bcs[k].result) && bcs[k].next == old(bcs[k].next)
          && (bcs[k].discard ==> bcs[k].block == old(bcs[k].block))
      {
        var bc := bcs[i];
        PartitionStep(bcs, incomingJumps, base, i);
        if !bc.discard {
          if bc in incomingJumps {
            names := names + [bc.loc];
            bb := bb + 1;
          }
          PartitionKeptFrom(bcs, incomingJumps, base, i);
          bc.block := Some(bb);
          kept := kept + [bc];
        }
        q := Partition(bcs, incomingJumps, base, i + 1);
        i := i + 1;
      }
      bytecodes := kept;
      blockNames := names;
    }

    /** The walk of `blockAndCode` up to the first bytecode whose translation raises. */
    static method Scan(bcs: seq<Instr>, raising: map<Instr, Raised>)
      returns (i: nat, translated: seq<Instr>, builders: seq<nat>)
      ensures i == FirstFailure(bcs, raising)
      ensures translated == ReachableOf(bcs, i)
      ensures builders == BlocksOf(bcs, i)
    {
      translated := [];
      builders := [];
      i := 0;
      while i < |bcs| && !(bcs[i].reachable && bcs[i] in raising)
        invariant 0 <= i <= |bcs|
        invariant i <= FirstFailure(bcs, raising)
        invariant translated == ReachableOf(bcs, i)
        invariant builders == BlocksOf(bcs, i)
      {
        var bc := bcs[i];
        FirstFailureStep(bcs, raising, i);
        if bc.block.Some? {
          builders := builders + [bc.block.value];
        }
        if bc.reachable {
          translated := translated + [bc];
        }
        i := i + 1;
      }
      if i < |bcs| {
        FirstFailureStep(bcs, raising, i);
      }
    }

    /**
     * The second half of `blockAndCode`: walks the list in order, placing a
     * fresh builder at the block of every bytecode that has one (the source
     * never updates the builder's block, so every such bytecode gets a new
     * builder), and translates exactly the reachable ones; unreachable
     * ones stay in the list. When a translation raises a StellaException,
     * that bytecode's debug information is attached and the exception is
     * propagated; any other exception propagates unchanged.
     */
    method Emit(raising: map<Instr, Raised>, ghost exns: set<StellaException>)
      returns (raised: Option<Raised>, translated: seq<Instr>, builders: seq<nat>)
      requires Raisable(raising) <= exns
      modifies exns
      ensures var k := FirstFailure(bytecodes, raising);
        && translated == ReachableOf(bytecodes, k)
        && (k == |bytecodes| ==> raised == None && builders == BlocksOf(bytecodes, |bytecodes|))
        && (k < |bytecodes| ==> raised == Some(raising[bytecodes[k]]) && builders == BlocksOf(bytecodes, k + 1))
        && (k < |bytecodes| && raised.value.Stella? ==> raised.value.e.debuginfo == Some(bytecodes[k].debuginfo))
        && forall e :: e in exns && !(k < |bytecodes| && raised.value.Stella? && raised.value.e == e) ==>
             e.debuginfo == old(e.debuginfo)
    {
      var i;
      i, translated, builders := Scan(bytecodes, raising);
      raised := None;
      if i < |bytecodes| {
        var bc := bytecodes[i];
        if bc.block.Some? {
          builders := builders + [bc.block.value];
        }
        var r := raising[bc];
        if r.Stella? {
          assert r.e in Raisable(raising);
          r.e.AddDebug(bc.debuginfo);
        }
        raised := Some(r);
      }
    }

    /** `blockAndCode`: block assignment, then emission. */
    method BlockAndCode(raising: map<Instr, Raised>, ghost exns: set<StellaException>)
      returns (raised: Option<Raised>, translated: seq<Instr>, builders: seq<nat>)
      requires Raisable(raising) <= exns
      requires Distinct(bytecodes)
      requires forall i :: 0 <= i < |bytecodes| && bytecodes[i] in incomingJumps && !bytecodes[i].discard ==>
        bytecodes[i].block == None
      modifies this, bytecodes, exns
      ensures var q := Partition(old(bytecodes), incomingJumps, |old(blockNames)|, |old(bytecodes)|);
        && bytecodes == q.kept
        && blockNames == old(blockNames) + ["entry"] + q.names
        && forall k :: 0 <= k < |bytecodes| ==> bytecodes[k].block == Some(q.blocks[k])
      ensures forall k :: 0 <= k < |old(bytecodes)| && old(bytecodes)[k].discard ==>
        old(bytecodes)[k].block == old(bytecodes[k].block)
      ensures forall k :: 0 <= k < |old(bytecodes)| ==> Unchanged(old(bytecodes)[k], old(Snapshot(bytecodes[k])))
      ensures var k := FirstFailure(bytecodes, raising);
        && translated == ReachableOf(bytecodes, k)
        && (k == |bytecodes| ==> raised == None && builders == BlocksOf(bytecodes, |bytecodes|))
        && (k < |bytecodes| ==> raised == Some(raising[bytecodes[k]]) && builders == BlocksOf(bytecodes, k + 1))
        && (k < |bytecodes| && raised.value.Stella? ==> raised.value.e.debuginfo == Some(bytecodes[k].debuginfo))
        && forall e :: e in exns && !(k < |bytecodes| && raised.value.Stella? && raised.value.e == e) ==>
             e.debuginfo == old(e.debuginfo)
    {
      AssignBlocks();
      raised, translated, builders := Emit(raising, exns);
    }
  }

  lemma KeptStep(s: seq<Instr>, i: nat)
    requires i < |s|
    ensures Kept(s[..i + 1]) == Kept(s[..i]) + (if s[i].discard then [] else [s[i]])
  {
    assert s[..i + 1][..i] == s[..i];
  }

  /** Appending a kept bytecode appends its location to the block names when it is a target. */
  lemma TargetLocsStep(kept: seq<Instr>, bc: Instr, targets: set<Instr>)
    ensures TargetLocs(kept + [bc], targets) == TargetLocs(kept, targets) + (if bc in targets then [bc.loc] else [])
  {
    assert (kept + [bc])[..|kept|] == kept;
  }

  /** Appending a kept bytecode leaves the block indices of the earlier ones in place. */
  lemma PrefixBlocks(kept: seq<Instr>, bc: Instr, targets: set<Instr>, base: nat)
    ensures forall k :: 0 <= k < |kept| ==>
      BlockIndex(kept + [bc], targets, base, k) == BlockIndex(kept, targets, base, k)
    ensures BlockIndex(kept + [bc], targets, base, |kept|) == base + TargetCount(kept, targets) + (if bc in targets then 1 else 0)
  {
    var s := kept + [bc];
    forall k | 0 <= k < |kept|
      ensures BlockIndex(s, targets, base, k) == BlockIndex(kept, targets, base, k)
    {
      assert s[..k + 1] == kept[..k + 1];
    }
    assert s[..|kept| + 1] == s;
    assert s[..|s| - 1] == kept;
  }

  /** The walk keeps exactly the bytecodes that are not discarded, in order. */
  lemma {:induction false} PartitionKeeps(s: seq<Instr>, targets: set<Instr>, base: nat, n: nat)
    requires n <= |s|
    ensures Partition(s, targets, base, n).kept == Kept(s[..n])
  {
    if n > 0 {
      PartitionKeeps(s, targets, base, n - 1);
      KeptStep(s, n - 1);
    }
  }

  /** The blocks the walk opens are named by the locations of the kept targets, in order. */
  lemma {:induction false} PartitionNames(s: seq<Instr>, targets: set<Instr>, base: nat, n: nat)
    requires n <= |s|
    ensures var q := Partition(s, targets, base, n); q.names == TargetLocs(q.kept, targets)
  {
    if n > 0 {
      PartitionNames(s, targets, base, n - 1);
      var q := Partition(s, targets, base, n - 1);
      if !s[n - 1].discard {
        TargetLocsStep(q.kept, s[n - 1], targets);
      }
    }
  }

  /** Each kept bytecode's block is `base` plus the number of targets up to and including it. */
  lemma {:induction false} PartitionBlocks(s: seq<Instr>, targets: set<Instr>, base: nat, n: nat)
    requires n <= |s|
    ensures var q := Partition(s, targets, base, n);
      forall k :: 0 <= k < |q.kept| ==> q.blocks[k] == BlockIndex(q.kept, targets, base, k)
  {
    if n > 0 {
      PartitionBlocks(s, targets, base, n - 1);
      PartitionNames(s, targets, base, n - 1);
      var q := Partition(s, targets, base, n - 1);
      var x := s[n - 1];
      if !x.discard {
        PrefixBlocks(q.kept, x, targets, base);
        var q' := Partition(s, targets, base, n);
        assert q'.kept == q.kept + [x];
        assert |q.names| == TargetCount(q.kept, targets);
        forall k | 0 <= k < |q'.kept|
          ensures q'.blocks[k] == BlockIndex(q'.kept, targets, base, k)
        {
          if k < |q.kept| {
            assert q'.blocks[k] == q.blocks[k];
          }
        }
      }
    }
  }

  /** The kept bytecodes are exactly the ones of the list that are not discarded. */
  lemma {:induction false} KeptMeaning(s: seq<Instr>)
    ensures forall x :: x in Kept(s) ==> x in s && !x.discard
    ensures forall k :: 0 <= k < |s| && !s[k].discard ==> s[k] in Kept(s)
  {
    if s != [] {
      KeptMeaning(s[..|s| - 1]);
      assert s == s[..|s| - 1] + [s[|s| - 1]];
    }
  }

  /**
   * The block assignment walk agrees with the reference definitions: it
   * keeps exactly the bytecodes that are not discarded, in order; the
   * blocks it opens are named by the locations of the kept targets, in
   * order; and each kept bytecode's block is `base` plus the number of
   * targets up to and including it.
   */
  lemma PartitionMeetsReference(s: seq<Instr>, targets: set<Instr>, base: nat, n: nat)
    requires n <= |s|
    ensures var q := Partition(s, targets, base, n);
      && q.kept == Kept(s[..n])
      && q.names == TargetLocs(q.kept, targets)
      && forall k :: 0 <= k < |q.kept| ==> q.blocks[k] == BlockIndex(q.kept, targets, base, k)
  {
    PartitionKeeps(s, targets, base, n);
    PartitionNames(s, targets, base, n);
    PartitionBlocks(s, targets, base, n);
  }

  /** Exactly the reachable bytecodes among the first `n` are translated, in list order. */
  lemma {:induction false} ReachableOfMeaning(s: seq<Instr>, n: nat)
    requires n <= |s|
    ensures forall x :: x in ReachableOf(s, n) ==> x in s[..n] && x.reachable
    ensures forall k :: 0 <= k < n && s[k].reachable ==> s[k] in ReachableOf(s, n)
  {
    if n > 0 {
      ReachableOfMeaning(s, n - 1);
      assert s[..n] == s[..n - 1] + [s[n - 1]];
    }
  }

  lemma FirstFailureStep(s: seq<Instr>, raising: map<Instr, Raised>, i: nat)
    requires i < |s| && i <= FirstFailure(s, raising)
    ensures s[i].reachable && s[i] in raising ==> FirstFailure(s, raising) == i
    ensures !(s[i].reachable && s[i] in raising) ==> i + 1 <= FirstFailure(s, raising)
  {
  }

  // ---------------------------------------------------------------------
  // Properties of the block partition

  /** Along the kept list, the block index grows by one exactly at a jump
      target and stays the same otherwise; the first bytecode is in `entry`
      unless it is itself a target. */
  lemma {:induction false} BlocksAreContiguous(s: seq<Instr>, targets: set<Instr>, base: nat, i: nat)
    requires 0 < i < |s|
    ensures BlockIndex(s, targets, base, i) == BlockIndex(s, targets, base, i - 1) + (if s[i] in targets then 1 else 0)
    ensures BlockIndex(s, targets, base, 0) == base + (if s[0] in targets then 1 else 0)
  {
    assert s[..i + 1][..i] == s[..i];
    assert s[..1][..0] == [];
  }

  /** Block indices never decrease along the list. */
  lemma {:induction false} BlocksAreMonotone(s: seq<Instr>, targets: set<Instr>, base: nat, i: nat, j: nat)
    requires i <= j < |s|
    ensures BlockIndex(s, targets, base, i) <= BlockIndex(s, targets, base, j)
    decreases j - i
  {
    if i < j {
      BlocksAreContiguous(s, targets, base, j);
      BlocksAreMonotone(s, targets, base, i, j - 1);
    }
  }

  /** Listing the targets of a prefix gives a prefix of the listing. */
  lemma {:induction false} TargetLocsPrefix(s: seq<Instr>, targets: set<Instr>, n: nat)
    requires n <= |s|
    ensures TargetLocs(s[..n], targets) <= TargetLocs(s, targets)
    decreases |s| - n
  {
    if n < |s| {
      TargetLocsPrefix(s, targets, n + 1);
      var p := s[..n + 1];
      assert p[..|p| - 1] == s[..n];
    } else {
      assert s[..n] == s;
    }
  }

  /** A target heads the block named by its location. */
  lemma {:induction false} TargetNamesBlock(s: seq<Instr>, targets: set<Instr>, i: nat)
    requires i < |s| && s[i] in targets
    ensures 1 <= TargetCount(s[..i + 1], targets) <= |TargetLocs(s, targets)|
    ensures TargetLocs(s, targets)[TargetCount(s[..i + 1], targets) - 1] == s[i].loc
  {
    TargetLocsPrefix(s, targets, i + 1);
    var p := s[..i + 1];
    assert p[..|p| - 1] == s[..i];
    var c := TargetCount(p, targets);
    assert TargetLocs(p, targets)[c - 1] == s[i].loc;
  }

  /**
   * After block assignment, a block other than `entry` starts exactly at a
   * jump target: the bytecode opening a new block is a target, and the
   * block a target opens carries the target's location as its name.
   */
  lemma BlocksStartAtTargets(names0: seq<string>, s: seq<Instr>, targets: set<Instr>, i: nat)
    requires i < |s|
    ensures var names := names0 + ["entry"] + TargetLocs(s, targets);
      var b := BlockIndex(s, targets, |names0|, i);
      && b < |names|
      && (b == |names0| <==> TargetCount(s[..i + 1], targets) == 0)
      && (s[i] in targets ==> names[b] == s[i].loc)
      && (0 < i ==> (b != BlockIndex(s, targets, |names0|, i - 1) <==> s[i] in targets))
  {
    TargetLocsPrefix(s, targets, i + 1);
    assert |TargetLocs(s[..i + 1], targets)| == TargetCount(s[..i + 1], targets);
    if s[i] in targets {
      TargetNamesBlock(s, targets, i);
    }
    if 0 < i {
      BlocksAreContiguous(s, targets, |names0|, i);
    }
  }

  // ---------------------------------------------------------------------
  // The entry stub

  /** The result type of the entry function. */
  datatype ResultKind = VoidResult | TypedResult(t: Type)

  /** A backend instruction of the stub. */
  datatype StubOp = CallEntry(callee: string, args: seq<LlvmValue>) | RetVoid | RetCall

  /** The stub function: its name, its parameter count and its body. */
  datatype Stub = Stub(name: string, params: nat, body: seq<StubOp>)

  /**
   * `makeStub`: a parameterless function that calls the entry function
   * with the translated entry arguments and returns void exactly when the
   * entry function's result is `Void`, and the call's value otherwise.
   */
  function MakeStub(entry: string, result: ResultKind, args: seq<LlvmValue>): (s: Stub)
    ensures s.name == entry + "__stub__" && s.params == 0
    ensures |s.body| == 2 && s.body[0] == CallEntry(entry, args)
    ensures s.body[1] == RetVoid <==> result == VoidResult
    ensures s.body[1] == RetCall <==> result != VoidResult
  {
    Stub(entry + "__stub__", 0, [CallEntry(entry, args), if result == VoidResult then RetVoid else RetCall])
  }
}
