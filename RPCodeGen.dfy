// The Raster Pipeline code generator's slot allocation and instruction helpers
// (src/sksl/codegen/SkSLRasterPipelineCodeGenerator.cpp).
module RPCodeGen {
  import opened RPOps
  import opened Wrappers
  import RPBuilder

  /** Identity of an IR node (a variable or a call site) the slot map is keyed on. */
  type NodeId = int

  /** The number kind of an SkSL type's component type. */
  datatype NumberKind = Float | Signed | Unsigned | Boolean | Nonnumeric

  /** One builder op per number kind; `unsupported` where the kind has no such op. */
  datatype BinaryOps = BinaryOps(floatOp: BuilderOp, signedOp: BuilderOp, unsignedOp: BuilderOp, booleanOp: BuilderOp)

  /** The op binaryOp picks for a number kind. */
  function SelectOp(kind: NumberKind, ops: BinaryOps): BuilderOp
    requires !kind.Nonnumeric?
  {
    match kind
    case Float => ops.floatOp
    case Signed => ops.signedOp
    case Unsigned => ops.unsignedOp
    case Boolean => ops.booleanOp
  }

  // The op tables pushBinaryExpression hands to binaryOp.
  const Plus := BinaryOps(binary(add_n_floats), binary(add_n_ints), binary(add_n_ints), unsupported)
  const LessThan := BinaryOps(binary(cmplt_n_floats), binary(cmplt_n_ints), unsupported, unsupported)
  const LessThanEquals := BinaryOps(binary(cmple_n_floats), binary(cmple_n_ints), unsupported, unsupported)
  const Equals := BinaryOps(binary(cmpeq_n_floats), binary(cmpeq_n_ints), binary(cmpeq_n_ints), binary(cmpeq_n_ints))
  const NotEquals := BinaryOps(binary(cmpne_n_floats), binary(cmpne_n_ints), binary(cmpne_n_ints), binary(cmpne_n_ints))

  /** Every op of the tables is either unsupported or a multi-slot binary op. */
  predicate WellFormedOps(ops: BinaryOps) {
    (ops.floatOp == unsupported || IsBinaryOp(ops.floatOp)) &&
    (ops.signedOp == unsupported || IsBinaryOp(ops.signedOp)) &&
    (ops.unsignedOp == unsupported || IsBinaryOp(ops.unsignedOp)) &&
    (ops.booleanOp == unsupported || IsBinaryOp(ops.booleanOp))
  }

  /**
   * The tables are well formed; addition and ordering have no boolean form, and
   * ordering has no unsigned form yet.
   */
  lemma OpTablesShape()
    ensures WellFormedOps(Plus) && WellFormedOps(LessThan) && WellFormedOps(LessThanEquals)
    ensures WellFormedOps(Equals) && WellFormedOps(NotEquals)
    ensures SelectOp(Boolean, Plus) == unsupported && SelectOp(Unsigned, Plus) != unsupported
    ensures SelectOp(Unsigned, LessThan) == unsupported && SelectOp(Boolean, LessThan) == unsupported
    ensures SelectOp(Unsigned, LessThanEquals) == unsupported && SelectOp(Boolean, LessThanEquals) == unsupported
    ensures forall k: NumberKind :: !k.Nonnumeric? ==> SelectOp(k, Equals) != unsupported && SelectOp(k, NotEquals) != unsupported
  {
  }

  /** The instructions foldWithOp(op, elements) emits. */
  function FoldCode(op: BuilderOp, elements: int): (r: seq<Instruction>)
    ensures |r| == (if IsBinaryOp(op) && elements > 1 then elements - 1 else 0)
    ensures forall i :: 0 <= i < |r| ==> r[i] == Op(op, 1, 0)
  {
    if IsBinaryOp(op) && elements > 1 then seq(elements - 1, _ => Op(op, 1, 0)) else []
  }

  /** `k` copies of the binary op on single slots, or nothing for an op that is not binary. */
  function FoldRun(op: BuilderOp, k: nat): seq<Instruction> {
    if IsBinaryOp(op) then seq(k, _ => Op(op, 1, 0)) else []
  }

  lemma FoldRunSnoc(start: seq<Instruction>, op: BuilderOp, k: nat)
    ensures (start + FoldRun(op, k)) + (if IsBinaryOp(op) then [Op(op, 1, 0)] else []) == start + FoldRun(op, k + 1)
  {
    if IsBinaryOp(op) {
      assert FoldRun(op, k) + [Op(op, 1, 0)] == FoldRun(op, k + 1);
    }
  }

  lemma FoldCodeRun(op: BuilderOp, elements: int)
    ensures FoldCode(op, elements) == FoldRun(op, if elements > 1 then elements - 1 else 0)
  {
  }

  lemma BinaryStackUsage(op: BuilderOp)
    requires IsBinaryOp(op)
    ensures StackUsage(Op(op, 1, 0)) == -1
  {
  }

  /** Folding `elements` single slots with a binary op leaves exactly one slot. */
  lemma {:induction false} FoldNetUsage(op: BuilderOp, elements: int)
    requires IsBinaryOp(op) && elements >= 1
    ensures NetUsage(FoldCode(op, elements)) == 1 - elements
    decreases elements
  {
    if elements > 1 {
      var code := FoldCode(op, elements);
      FoldNetUsage(op, elements - 1);
      assert code[..|code| - 1] == FoldCode(op, elements - 1);
      BinaryStackUsage(op);
    }
  }

  /** What a call into the statement or expression writer appended, and whether it succeeded. */
  datatype Fragment = Fragment(code: seq<Instruction>, ok: bool)

  const PushConditionMask := Op(push_condition_mask, 0, 0)
  const PopConditionMask := Op(pop_condition_mask, 0, 0)
  const NotTest := Op(unary(bitwise_not_int), 1, 0)
  const DiscardTest := Op(discard_stack, 1, 0)

  /** The instructions writeIfStatement appends, including its early exits. */
  function IfCode(test: Fragment, ifTrue: Fragment, ifFalse: Option<Fragment>): seq<Instruction> {
    if !test.ok then test.code
    else if !ifTrue.ok then test.code + [PushConditionMask] + ifTrue.code
    else
      var thenPart := test.code + [PushConditionMask] + ifTrue.code + [PopConditionMask];
      match ifFalse
      case None => thenPart + [DiscardTest]
      case Some(f) =>
        var elsePart := thenPart + [NotTest] + [PushConditionMask] + f.code;
        if !f.ok then elsePart else elsePart + [PopConditionMask] + [DiscardTest]
  }

  /** Occurrences of `op` in `s`. */
  function CountOp(s: seq<Instruction>, op: BuilderOp): nat {
    if |s| == 0 then 0 else CountOp(s[..|s| - 1], op) + (if s[|s| - 1].op == op then 1 else 0)
  }

  lemma {:induction false} CountOpAppend(a: seq<Instruction>, b: seq<Instruction>, op: BuilderOp)
    ensures CountOp(a + b, op) == CountOp(a, op) + CountOp(b, op)
    decreases |b|
  {
    if |b| == 0 {
      assert a + b == a;
    } else {
      assert (a + b)[..|a + b| - 1] == a + b[..|b| - 1];
      CountOpAppend(a, b[..|b| - 1], op);
    }
  }

  /** Condition-mask pushes minus pops. */
  function MaskBalance(s: seq<Instruction>): int {
    CountOp(s, push_condition_mask) - CountOp(s, pop_condition_mask)
  }

  lemma MaskBalanceAppend(a: seq<Instruction>, b: seq<Instruction>)
    ensures MaskBalance(a + b) == MaskBalance(a) + MaskBalance(b)
  {
    CountOpAppend(a, b, push_condition_mask);
    CountOpAppend(a, b, pop_condition_mask);
  }

  lemma MaskBalanceOne(inst: Instruction)
    ensures MaskBalance([inst]) ==
      (if inst.op == push_condition_mask then 1 else if inst.op == pop_condition_mask then -1 else 0)
  {
    assert [inst][..0] == [];
    assert CountOp([inst], push_condition_mask) == (if inst.op == push_condition_mask then 1 else 0);
    assert CountOp([inst], pop_condition_mask) == (if inst.op == pop_condition_mask then 1 else 0);
  }

  /** MaskBalance of code extended by one instruction. */
  lemma MaskBalanceSnoc(a: seq<Instruction>, inst: Instruction)
    ensures MaskBalance(a + [inst]) ==
      MaskBalance(a) + (if inst.op == push_condition_mask then 1 else if inst.op == pop_condition_mask then -1 else 0)
  {
    MaskBalanceAppend(a, [inst]);
    MaskBalanceOne(inst);
  }

  /**
   * On success every condition mask writeIfStatement pushes is popped again: the
   * statement adds no imbalance to that of the code it wraps.
   */
  lemma IfPairsConditionMasks(test: Fragment, ifTrue: Fragment, ifFalse: Option<Fragment>)
    requires test.ok && ifTrue.ok && (ifFalse.Some? ==> ifFalse.value.ok)
    ensures MaskBalance(IfCode(test, ifTrue, ifFalse)) ==
      MaskBalance(test.code) + MaskBalance(ifTrue.code) + (if ifFalse.Some? then MaskBalance(ifFalse.value.code) else 0)
  {
    var thenPart := test.code + [PushConditionMask] + ifTrue.code + [PopConditionMask];
    ThenPartBalance(test.code, ifTrue.code);
    match ifFalse
    case None =>
      MaskBalanceSnoc(thenPart, DiscardTest);
    case Some(f) =>
      ElsePartBalance(thenPart, f.code);
  }

  /** The test, a pushed mask, the true branch and the mask popped again. */
  lemma ThenPartBalance(test: seq<Instruction>, ifTrue: seq<Instruction>)
    ensures MaskBalance(test + [PushConditionMask] + ifTrue + [PopConditionMask]) == MaskBalance(test) + MaskBalance(ifTrue)
  {
    var a := test + [PushConditionMask];
    MaskBalanceSnoc(test, PushConditionMask);
    MaskBalanceAppend(a, ifTrue);
    MaskBalanceSnoc(a + ifTrue, PopConditionMask);
  }

  /** The inverted test, a pushed mask, the false branch, the mask popped and the test discarded. */
  lemma ElsePartBalance(thenPart: seq<Instruction>, ifFalse: seq<Instruction>)
    ensures MaskBalance(thenPart + [NotTest] + [PushConditionMask] + ifFalse + [PopConditionMask] + [DiscardTest]) ==
      MaskBalance(thenPart) + MaskBalance(ifFalse)
  {
    var c := thenPart + [NotTest] + [PushConditionMask];
    MaskBalanceSnoc(thenPart, NotTest);
    MaskBalanceSnoc(thenPart + [NotTest], PushConditionMask);
    MaskBalanceAppend(c, ifFalse);
    MaskBalanceSnoc(c + ifFalse, PopConditionMask);
    MaskBalanceSnoc(c + ifFalse + [PopConditionMask], DiscardTest);
  }

  lemma MarkerStackUsage()
    ensures StackUsage(PushConditionMask) == 1 && StackUsage(PopConditionMask) == -1
    ensures StackUsage(NotTest) == 0 && StackUsage(DiscardTest) == -1
  {
  }

  /** NetUsage of code extended by one instruction. */
  lemma NetUsageSnoc(a: seq<Instruction>, inst: Instruction)
    ensures NetUsage(a + [inst]) == NetUsage(a) + StackUsage(inst)
  {
    assert (a + [inst])[..|a|] == a;
  }

  /**
   * On success the if statement consumes the one slot its test pushed: with a test
   * that pushes one slot and branches that leave the stack as they found it, the
   * statement leaves it as it found it.
   */
  lemma IfNetUsage(test: Fragment, ifTrue: Fragment, ifFalse: Option<Fragment>)
    requires test.ok && ifTrue.ok && (ifFalse.Some? ==> ifFalse.value.ok)
    ensures NetUsage(IfCode(test, ifTrue, ifFalse)) ==
      NetUsage(test.code) + NetUsage(ifTrue.code) + (if ifFalse.Some? then NetUsage(ifFalse.value.code) else 0) - 1
  {
    MarkerStackUsage();
    var a := test.code + [PushConditionMask];
    var thenPart := a + ifTrue.code + [PopConditionMask];
    NetUsageSnoc(test.code, PushConditionMask);
    NetUsageAppend(a, ifTrue.code);
    NetUsageSnoc(a + ifTrue.code, PopConditionMask);
    match ifFalse
    case None =>
      NetUsageSnoc(thenPart, DiscardTest);
    case Some(f) =>
      var c := thenPart + [NotTest] + [PushConditionMask];
      NetUsageSnoc(thenPart, NotTest);
      NetUsageSnoc(thenPart + [NotTest], PushConditionMask);
      NetUsageAppend(c, f.code);
      NetUsageSnoc(c + f.code, PopConditionMask);
      NetUsageSnoc(c + f.code + [PopConditionMask], DiscardTest);
  }

  /**
   * A failing callee ends the statement with that callee's own output, leaving the
   * masks it pushed unpopped.
   */
  lemma IfFailureStopsEarly(test: Fragment, ifTrue: Fragment, ifFalse: Option<Fragment>)
    requires !(test.ok && ifTrue.ok && (ifFalse.Some? ==> ifFalse.value.ok))
    ensures !test.ok ==> IfCode(test, ifTrue, ifFalse) == test.code
    ensures test.ok && !ifTrue.ok ==> IfCode(test, ifTrue, ifFalse) == test.code + [PushConditionMask] + ifTrue.code
    ensures MaskBalance(IfCode(test, ifTrue, ifFalse)) ==
      MaskBalance(test.code) + (if test.ok then 1 + MaskBalance(ifTrue.code) else 0) +
      (if test.ok && ifTrue.ok then MaskBalance(ifFalse.value.code) else 0)
  {
    if test.ok {
      var a := test.code + [PushConditionMask];
      MaskBalanceSnoc(test.code, PushConditionMask);
      MaskBalanceAppend(a, ifTrue.code);
      if ifTrue.ok {
        var thenPart := a + ifTrue.code + [PopConditionMask];
        MaskBalanceSnoc(a + ifTrue.code, PopConditionMask);
        MaskBalanceSnoc(thenPart, NotTest);
        MaskBalanceSnoc(thenPart + [NotTest], PushConditionMask);
        MaskBalanceAppend(thenPart + [NotTest] + [PushConditionMask], ifFalse.value.code);
      }
    }
  }

  /** All ranges lie in [0, slotCount) and no two keys share a slot. */
  ghost predicate SlotsDisjoint(slotMap: map<NodeId, SlotRange>, slotCount: int) {
    (forall k :: k in slotMap ==>
      0 <= slotMap[k].index && 0 <= slotMap[k].count && slotMap[k].index + slotMap[k].count <= slotCount) &&
    (forall a, b :: a in slotMap && b in slotMap && a != b ==>
      slotMap[a].index + slotMap[a].count <= slotMap[b].index ||
      slotMap[b].index + slotMap[b].count <= slotMap[a].index)
  }

  /** A fresh range at the top of the slots keeps the map disjoint. */
  lemma AddFreshRange(slotMap: map<NodeId, SlotRange>, slotCount: int, key: NodeId, numSlots: int)
    requires SlotsDisjoint(slotMap, slotCount) && key !in slotMap && 0 <= slotCount && 0 <= numSlots
    ensures SlotsDisjoint(slotMap[key := SlotRange(slotCount, numSlots)], slotCount + numSlots)
  {
    var m := slotMap[key := SlotRange(slotCount, numSlots)];
    forall k | k in m
      ensures 0 <= m[k].index && 0 <= m[k].count && m[k].index + m[k].count <= slotCount + numSlots
    {
      if k != key {
        assert m[k] == slotMap[k];
      }
    }
    forall a, b | a in m && b in m && a != b
      ensures m[a].index + m[a].count <= m[b].index || m[b].index + m[b].count <= m[a].index
    {
      if a == key {
        assert m[b] == slotMap[b];
      } else if b == key {
        assert m[a] == slotMap[a];
      } else {
        assert m[a] == slotMap[a] && m[b] == slotMap[b];
      }
    }
  }

  class Generator {
    var builder: RPBuilder.Builder
    var slotMap: map<NodeId, SlotRange>
    var slotCount: int

    ghost predicate Valid()
      reads this, builder
    {
      builder.Valid() && 0 <= slotCount && SlotsDisjoint(slotMap, slotCount)
    }

    constructor ()
      ensures Valid() && fresh(builder) && slotMap == map[] && slotCount == 0
      ensures builder.instructions == [] && builder.numLabels == 0 && builder.numBranches == 0
    {
      builder := new RPBuilder.Builder();
      slotMap := map[];
      slotCount := 0;
    }

    /** Allocates `numSlots` fresh slots at the top. */
    method CreateSlots(numSlots: int) returns (range: SlotRange)
      requires Valid() && numSlots >= 0
      modifies this
      ensures Valid() && builder == old(builder) && slotMap == old(slotMap)
      ensures range == SlotRange(old(slotCount), numSlots) && slotCount == old(slotCount) + numSlots
    {
      range := SlotRange(slotCount, numSlots);
      slotCount := slotCount + numSlots;
    }

    /**
     * The slots of a variable whose type needs `numSlots`: the range already mapped,
     * or a fresh one, which is then remembered.
     */
    method GetSlots(v: NodeId, numSlots: int) returns (range: SlotRange)
      requires Valid() && numSlots >= 0
      modifies this
      ensures Valid() && builder == old(builder)
      ensures v in old(slotMap) ==> range == old(slotMap)[v] && slotMap == old(slotMap) && slotCount == old(slotCount)
      ensures v !in old(slotMap) ==>
        range == SlotRange(old(slotCount), numSlots) && slotCount == old(slotCount) + numSlots &&
        slotMap == old(slotMap)[v := range]
    {
      if v in slotMap {
        return slotMap[v];
      }
      AddFreshRange(slotMap, slotCount, v, numSlots);
      range := CreateSlots(numSlots);
      slotMap := slotMap[v := range];
    }

    /**
     * The slots holding a function's return value at one call site, created on the
     * first request for that call site.
     */
    method GetFunctionSlots(callSite: NodeId, returnSlots: int) returns (range: SlotRange)
      requires Valid() && returnSlots >= 0
      modifies this
      ensures Valid() && builder == old(builder)
      ensures callSite in old(slotMap) ==>
        range == old(slotMap)[callSite] && slotMap == old(slotMap) && slotCount == old(slotCount)
      ensures callSite !in old(slotMap) ==>
        range == SlotRange(old(slotCount), returnSlots) && slotCount == old(slotCount) + returnSlots &&
        slotMap == old(slotMap)[callSite := range]
    {
      if callSite in slotMap {
        return slotMap[callSite];
      }
      AddFreshRange(slotMap, slotCount, callSite, returnSlots);
      range := CreateSlots(returnSlots);
      slotMap := slotMap[callSite := range];
    }

    /** Emits the op `ops` has for the number kind, or fails when that op is unsupported. */
    method BinaryOp(kind: NumberKind, slots: int, ops: BinaryOps) returns (ok: bool)
      requires Valid() && !kind.Nonnumeric?
      modifies builder
      ensures Valid() && slotMap == old(slotMap) && slotCount == old(slotCount)
      ensures ok <==> SelectOp(kind, ops) != unsupported
      ensures builder.Emitted(if ok && IsBinaryOp(SelectOp(kind, ops)) then [Op(SelectOp(kind, ops), slots, 0)] else [])
    {
      var op := SelectOp(kind, ops);
      if op == unsupported {
        assert builder.instructions + [] == builder.instructions;
        return false;
      }
      builder.BinaryOp(op, slots);
      ok := true;
    }

    /** Folds the top `elements` single slots into one with a binary op. */
    method FoldWithOp(op: BuilderOp, elements: int)
      requires Valid()
      modifies builder
      ensures Valid() && slotMap == old(slotMap) && slotCount == old(slotCount)
      ensures builder.Emitted(FoldCode(op, elements))
    {
      var n := elements;
      ghost var k: nat := 0;
      ghost var start := builder.instructions;
      while n > 1
        invariant n == elements - k && (elements <= 1 ==> k == 0) && (elements > 1 ==> k < elements)
        invariant Valid() && slotMap == old(slotMap) && slotCount == old(slotCount)
        invariant builder.instructions == start + FoldRun(op, k)
        invariant builder.numLabels == old(builder.numLabels) && builder.numBranches == old(builder.numBranches)
      {
        builder.BinaryOp(op, 1);
        FoldRunSnoc(start, op, k);
        n := n - 1;
        k := k + 1;
      }
      FoldCodeRun(op, elements);
    }

    /**
     * The if statement around code the statement and expression writers produce:
     * the test, then the if-true branch under the test as condition mask, then, when
     * present, the if-false branch under the negated test, then the test is dropped.
     * A failing callee ends the statement at once.
     */
    method WriteIfStatement(test: Fragment, ifTrue: Fragment, ifFalse: Option<Fragment>) returns (ok: bool)
      requires Valid() && StraightLine(test.code) && StraightLine(ifTrue.code)
      requires ifFalse.Some? ==> StraightLine(ifFalse.value.code)
      modifies builder
      ensures Valid() && slotMap == old(slotMap) && slotCount == old(slotCount)
      ensures ok <==> test.ok && ifTrue.ok && (ifFalse.Some? ==> ifFalse.value.ok)
      ensures builder.Emitted(IfCode(test, ifTrue, ifFalse))
    {
      ok := WriteIfTrue(test, ifTrue);
      if !ok {
        return;
      }
      ghost var start := old(builder.instructions);
      ghost var thenPart := test.code + [PushConditionMask] + ifTrue.code + [PopConditionMask];
      if ifFalse.Some? {
        ok := WriteIfFalse(ifFalse.value);
        RPBuilder.ConcatAssoc(start, thenPart,
          if ok then [NotTest] + [PushConditionMask] + ifFalse.value.code + [PopConditionMask] + [DiscardTest]
          else [NotTest] + [PushConditionMask] + ifFalse.value.code);
        assert thenPart + ([NotTest] + [PushConditionMask] + ifFalse.value.code) ==
          thenPart + [NotTest] + [PushConditionMask] + ifFalse.value.code;
        assert thenPart + ([NotTest] + [PushConditionMask] + ifFalse.value.code + [PopConditionMask] + [DiscardTest]) ==
          thenPart + [NotTest] + [PushConditionMask] + ifFalse.value.code + [PopConditionMask] + [DiscardTest];
      } else {
        builder.DiscardStack(1);
        RPBuilder.ConcatAssoc(start, thenPart, [DiscardTest]);
      }
    }

    /** The test, then the if-true branch under the test as condition mask. */
    method WriteIfTrue(test: Fragment, ifTrue: Fragment) returns (ok: bool)
      requires Valid() && StraightLine(test.code) && StraightLine(ifTrue.code)
      modifies builder
      ensures Valid() && slotMap == old(slotMap) && slotCount == old(slotCount)
      ensures ok <==> test.ok && ifTrue.ok
      ensures builder.Emitted(
        if !test.ok then test.code
        else if !ifTrue.ok then test.code + [PushConditionMask] + ifTrue.code
        else test.code + [PushConditionMask] + ifTrue.code + [PopConditionMask])
    {
      ghost var start := builder.instructions;
      builder.AppendCode(test.code);
      if !test.ok {
        return false;
      }
      builder.MaskOp(push_condition_mask);
      RPBuilder.ConcatAssoc(start, test.code, [PushConditionMask]);
      ghost var a := test.code + [PushConditionMask];
      builder.AppendCode(ifTrue.code);
      RPBuilder.ConcatAssoc(start, a, ifTrue.code);
      if !ifTrue.ok {
        return false;
      }
      builder.MaskOp(pop_condition_mask);
      RPBuilder.ConcatAssoc(start, a + ifTrue.code, [PopConditionMask]);
      ok := true;
    }

    /** The if-false branch under the negated test, then the test is dropped. */
    method WriteIfFalse(ifFalse: Fragment) returns (ok: bool)
      requires Valid() && StraightLine(ifFalse.code)
      modifies builder
      ensures Valid() && slotMap == old(slotMap) && slotCount == old(slotCount)
      ensures ok == ifFalse.ok
      ensures builder.Emitted(
        if !ifFalse.ok then [NotTest] + [PushConditionMask] + ifFalse.code
        else [NotTest] + [PushConditionMask] + ifFalse.code + [PopConditionMask] + [DiscardTest])
    {
      ghost var start := builder.instructions;
      builder.UnaryOp(unary(bitwise_not_int), 1);
      builder.MaskOp(push_condition_mask);
      RPBuilder.ConcatAssoc(start, [NotTest], [PushConditionMask]);
      ghost var a := [NotTest] + [PushConditionMask];
      builder.AppendCode(ifFalse.code);
      RPBuilder.ConcatAssoc(start, a, ifFalse.code);
      if !ifFalse.ok {
        return false;
      }
      builder.MaskOp(pop_condition_mask);
      RPBuilder.ConcatAssoc(start, a + ifFalse.code, [PopConditionMask]);
      builder.DiscardStack(1);
      RPBuilder.ConcatAssoc(start, a + ifFalse.code + [PopConditionMask], [DiscardTest]);
      ok := true;
    }
  }
}
