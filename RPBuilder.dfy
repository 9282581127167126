// The Raster Pipeline instruction builder (src/sksl/codegen/SkSLRasterPipelineBuilder.h
// and the Builder members of SkSLRasterPipelineBuilder.cpp).
module RPBuilder {
  import opened RPOps
  import RPProgram

  /** The swizzle instruction that clones the single top slot `n` times. */
  function Splat(n: int): Instruction
    requires 1 <= n <= 4
  {
    Op(SwizzleOp(n), 1, 0)
  }

  function Clone(numSlots: int): Instruction {
    Op(push_clone, numSlots, numSlots)
  }

  function Clones(k: nat, numSlots: int): seq<Instruction> {
    if k == 0 then [] else Clones(k - 1, numSlots) + [Clone(numSlots)]
  }

  /** The instructions push_duplicates(count) emits for the trailing `rest` (< 4) copies. */
  function TrailingDuplicates(rest: int): seq<Instruction> {
    if rest == 3 then [Splat(4)] else if rest == 2 then [Splat(3)] else if rest == 1 then [Clone(1)] else []
  }

  /** The instructions push_duplicates(count) emits. */
  function DuplicatesCode(count: nat): seq<Instruction> {
    var head := if count >= 3 then [Splat(4)] else [];
    var rest := if count >= 3 then count - 3 else count;
    head + Clones(rest / 4, 4) + TrailingDuplicates(rest % 4)
  }

  lemma {:induction false} ClonesNetUsage(k: nat, numSlots: int)
    ensures NetUsage(Clones(k, numSlots)) == k * numSlots
  {
    if k > 0 {
      ClonesNetUsage(k - 1, numSlots);
      NetUsageAppend(Clones(k - 1, numSlots), [Clone(numSlots)]);
      CloneNetUsage(numSlots);
      assert (k - 1) * numSlots + numSlots == k * numSlots;
    }
  }

  /** One clone of `numSlots` slots grows the stack by `numSlots`. */
  lemma CloneNetUsage(numSlots: int)
    ensures NetUsage([Clone(numSlots)]) == numSlots
  {
    OneNetUsage(Clone(numSlots));
  }

  lemma ClonesSnoc(start: seq<Instruction>, k: nat, numSlots: int)
    ensures (start + Clones(k, numSlots)) + [Clone(numSlots)] == start + Clones(k + 1, numSlots)
  {
    ConcatAssoc(start, Clones(k, numSlots), [Clone(numSlots)]);
  }

  /** Division by four read back from a quotient and a remainder. */
  lemma QuarterOf(count: int, k: int, n: int)
    requires 0 <= n < 4 && count == n + 4 * k
    ensures count / 4 == k && count % 4 == n
  {
  }

  lemma OneNetUsage(inst: Instruction)
    ensures NetUsage([inst]) == StackUsage(inst)
  {
    assert [inst][..0] == [];
  }

  /** A splat to `n` slots grows the stack by `n - 1`. */
  lemma SplatNetUsage(n: int)
    requires 1 <= n <= 4
    ensures NetUsage([Splat(n)]) == n - 1
  {
    OneNetUsage(Splat(n));
  }

  /** DuplicatesCode(count) read as the splat, `k` four-slot clones and the trailing `n`. */
  lemma DuplicatesCodeSplit(count: nat, k: nat, n: int)
    requires 0 <= n < 4 && n + 4 * k + (if count >= 3 then 3 else 0) == count
    ensures DuplicatesCode(count) == (if count >= 3 then [Splat(4)] else []) + Clones(k, 4) + TrailingDuplicates(n)
  {
    var rest := if count >= 3 then count - 3 else count;
    assert rest == 4 * k + n;
    assert rest / 4 == k && rest % 4 == n;
  }

  lemma ConcatAssoc(a: seq<Instruction>, b: seq<Instruction>, c: seq<Instruction>)
    ensures a + b + c == a + (b + c)
  {
  }

  lemma PackZeros()
    ensures PackComponents([0, 0, 0, 0]) == 0 && PackComponents([0, 0, 0]) == 0
  {
    assert [0, 0, 0, 0][1..] == [0, 0, 0];
    assert [0, 0, 0][1..] == [0, 0];
    assert [0, 0][1..] == [0];
    assert [0][1..] == [];
  }

  lemma TrailingNetUsage(t: int)
    requires 0 <= t < 4
    ensures NetUsage(TrailingDuplicates(t)) == t
  {
    if t == 3 { SplatNetUsage(4); }
    else if t == 2 { SplatNetUsage(3); }
    else if t == 1 { OneNetUsage(Clone(1)); }
  }

  /** push_duplicates(count) grows the temp stack by exactly `count` slots. */
  lemma DuplicatesNetUsage(count: nat)
    ensures NetUsage(DuplicatesCode(count)) == count
  {
    var head: seq<Instruction> := if count >= 3 then [Splat(4)] else [];
    var rest := if count >= 3 then count - 3 else count;
    var q, t := rest / 4, rest % 4;
    var clones := Clones(q, 4);
    var trailing := TrailingDuplicates(t);
    assert DuplicatesCode(count) == head + clones + trailing;
    NetUsageAppend(head, clones);
    NetUsageAppend(head + clones, trailing);
    ClonesNetUsage(q, 4);
    TrailingNetUsage(t);
    if count >= 3 { SplatNetUsage(4); } else { assert head == []; }
    assert NetUsage(head) == count - rest;
    assert q * 4 + t == rest;
  }

  class Builder {
    var instructions: seq<Instruction>
    var numLabels: int
    var numBranches: int

    ghost predicate Valid()
      reads this
    {
      numLabels >= 0 && numBranches == CountBranches(instructions) && LabelsInRange(instructions, numLabels)
    }

    /** Only `insts` were appended; the label and branch counters did not move. */
    twostate predicate Emitted(insts: seq<Instruction>)
      reads this
    {
      instructions == old(instructions) + insts && numLabels == old(numLabels) && numBranches == old(numBranches)
    }

    constructor ()
      ensures Valid() && instructions == [] && numLabels == 0 && numBranches == 0
    {
      instructions := [];
      numLabels := 0;
      numBranches := 0;
    }

    /** Appends one instruction that is neither a label nor a branch. */
    method Append(inst: Instruction)
      requires Valid() && inst.op != label_ && !IsBranchOp(inst.op)
      modifies this
      ensures Valid() && Emitted([inst])
    {
      CountBranchesAppend(instructions, inst);
      instructions := instructions + [inst];
    }

    /** Appends straight-line code that other appenders produced. */
    method AppendCode(code: seq<Instruction>)
      requires Valid() && StraightLine(code)
      modifies this
      ensures Valid() && Emitted(code)
    {
      StraightLineAppend(instructions, code);
      instructions := instructions + code;
    }

    /** Peels off a new label ID. */
    method NextLabelID() returns (id: int)
      requires Valid()
      modifies this
      ensures Valid() && id == old(numLabels) && numLabels == old(numLabels) + 1
      ensures instructions == old(instructions) && numBranches == old(numBranches)
    {
      id := numLabels;
      numLabels := numLabels + 1;
    }

    method InitLaneMasks()
      requires Valid()
      modifies this
      ensures Valid() && Emitted([Op(init_lane_masks, 0, 0)])
    {
      Append(Op(init_lane_masks, 0, 0));
    }

    method StoreSrcRg(slots: SlotRange)
      requires Valid() && slots.count == 2
      modifies this
      ensures Valid() && Emitted([OpA(store_src_rg, slots.index, 0)])
    {
      Append(OpA(store_src_rg, slots.index, 0));
    }

    method StoreSrc(slots: SlotRange)
      requires Valid() && slots.count == 4
      modifies this
      ensures Valid() && Emitted([OpA(store_src, slots.index, 0)])
    {
      Append(OpA(store_src, slots.index, 0));
    }

    method StoreDst(slots: SlotRange)
      requires Valid() && slots.count == 4
      modifies this
      ensures Valid() && Emitted([OpA(store_dst, slots.index, 0)])
    {
      Append(OpA(store_dst, slots.index, 0));
    }

    method LoadSrc(slots: SlotRange)
      requires Valid() && slots.count == 4
      modifies this
      ensures Valid() && Emitted([OpA(load_src, slots.index, 0)])
    {
      Append(OpA(load_src, slots.index, 0));
    }

    method LoadDst(slots: SlotRange)
      requires Valid() && slots.count == 4
      modifies this
      ensures Valid() && Emitted([OpA(load_dst, slots.index, 0)])
    {
      Append(OpA(load_dst, slots.index, 0));
    }

    method SetCurrentStack(stackIdx: int)
      requires Valid()
      modifies this
      ensures Valid() && Emitted([Op(set_current_stack, stackIdx, 0)])
    {
      Append(Op(set_current_stack, stackIdx, 0));
    }

    /** Places a label; the ID must come from NextLabelID. */
    method Label(labelID: int)
      requires Valid() && 0 <= labelID < numLabels
      modifies this
      ensures Valid() && Emitted([Op(label_, labelID, 0)])
    {
      CountBranchesAppend(instructions, Op(label_, labelID, 0));
      instructions := instructions + [Op(label_, labelID, 0)];
    }

    /** Appends a branch to `labelID` and counts it. */
    method Branch(op: BuilderOp, labelID: int)
      requires Valid() && IsBranchOp(op) && 0 <= labelID < numLabels
      modifies this
      ensures Valid()
      ensures instructions == old(instructions) + [Op(op, labelID, 0)]
      ensures numBranches == old(numBranches) + 1 && numLabels == old(numLabels)
    {
      CountBranchesAppend(instructions, Op(op, labelID, 0));
      instructions := instructions + [Op(op, labelID, 0)];
      numBranches := numBranches + 1;
    }

    method Jump(labelID: int)
      requires Valid() && 0 <= labelID < numLabels
      modifies this
      ensures Valid() && instructions == old(instructions) + [Op(jump, labelID, 0)]
      ensures numBranches == old(numBranches) + 1 && numLabels == old(numLabels)
    {
      Branch(jump, labelID);
    }

    method BranchIfAnyActiveLanes(labelID: int)
      requires Valid() && 0 <= labelID < numLabels
      modifies this
      ensures Valid() && instructions == old(instructions) + [Op(branch_if_any_active_lanes, labelID, 0)]
      ensures numBranches == old(numBranches) + 1 && numLabels == old(numLabels)
    {
      Branch(branch_if_any_active_lanes, labelID);
    }

    method BranchIfNoActiveLanes(labelID: int)
      requires Valid() && 0 <= labelID < numLabels
      modifies this
      ensures Valid() && instructions == old(instructions) + [Op(branch_if_no_active_lanes, labelID, 0)]
      ensures numBranches == old(numBranches) + 1 && numLabels == old(numLabels)
    {
      Branch(branch_if_no_active_lanes, labelID);
    }

    /** immediate_f; a float is given by its 32-bit pattern. */
    method ImmediateF(floatBits: int)
      requires Valid() && IsUInt32(floatBits)
      modifies this
      ensures Valid() && Emitted([Op(immediate_f, BitCastToInt32(floatBits), 0)])
    {
      Append(Op(immediate_f, BitCastToInt32(floatBits), 0));
    }

    method ImmediateI(val: int)
      requires Valid() && IsInt32(val)
      modifies this
      ensures Valid() && Emitted([Op(immediate_f, val, 0)])
    {
      Append(Op(immediate_f, val, 0));
    }

    method ImmediateU(val: int)
      requires Valid() && IsUInt32(val)
      modifies this
      ensures Valid() && Emitted([Op(immediate_f, BitCastToInt32(val), 0)])
    {
      Append(Op(immediate_f, BitCastToInt32(val), 0));
    }

    method PushLiteralF(floatBits: int)
      requires Valid() && IsUInt32(floatBits)
      modifies this
      ensures Valid() && Emitted([Op(push_literal_f, BitCastToInt32(floatBits), 0)])
    {
      Append(Op(push_literal_f, BitCastToInt32(floatBits), 0));
    }

    method PushLiteralI(val: int)
      requires Valid() && IsInt32(val)
      modifies this
      ensures Valid() && Emitted([Op(push_literal_f, val, 0)])
    {
      Append(Op(push_literal_f, val, 0));
    }

    method PushLiteralU(val: int)
      requires Valid() && IsUInt32(val)
      modifies this
      ensures Valid() && Emitted([Op(push_literal_f, BitCastToInt32(val), 0)])
    {
      Append(Op(push_literal_f, BitCastToInt32(val), 0));
    }

    method PushSlots(src: SlotRange)
      requires Valid()
      modifies this
      ensures Valid() && Emitted([OpA(push_slots, src.index, src.count)])
    {
      Append(OpA(push_slots, src.index, src.count));
    }

    method CopyStackToSlots(dst: SlotRange)
      requires Valid()
      modifies this
      ensures Valid() && Emitted([OpA(copy_stack_to_slots, dst.index, dst.count)])
    {
      Append(OpA(copy_stack_to_slots, dst.index, dst.count));
    }

    method CopyStackToSlotsUnmasked(dst: SlotRange)
      requires Valid()
      modifies this
      ensures Valid() && Emitted([OpA(copy_stack_to_slots_unmasked, dst.index, dst.count)])
    {
      Append(OpA(copy_stack_to_slots_unmasked, dst.index, dst.count));
    }

    /** Appends the op when it is a multi-slot unary op; any other op appends nothing. */
    method UnaryOp(op: BuilderOp, slots: int)
      requires Valid()
      modifies this
      ensures Valid() && Emitted(if IsUnaryOp(op) then [Op(op, slots, 0)] else [])
    {
      if IsUnaryOp(op) {
        Append(Op(op, slots, 0));
      } else {
        assert instructions + [] == instructions;
      }
    }

    /** Appends the op when it is a multi-slot binary op; any other op appends nothing. */
    method BinaryOp(op: BuilderOp, slots: int)
      requires Valid()
      modifies this
      ensures Valid() && Emitted(if IsBinaryOp(op) then [Op(op, slots, 0)] else [])
    {
      if IsBinaryOp(op) {
        Append(Op(op, slots, 0));
      } else {
        assert instructions + [] == instructions;
      }
    }

    /** Appends the op when it is the multi-slot ternary op; any other op appends nothing. */
    method TernaryOp(op: BuilderOp, slots: int)
      requires Valid()
      modifies this
      ensures Valid() && Emitted(if IsTernaryOp(op) then [Op(op, slots, 0)] else [])
    {
      if IsTernaryOp(op) {
        Append(Op(op, slots, 0));
      } else {
        assert instructions + [] == instructions;
      }
    }

    method DiscardStack(count: int)
      requires Valid()
      modifies this
      ensures Valid() && Emitted([Op(discard_stack, count, 0)])
    {
      Append(Op(discard_stack, count, 0));
    }

    /** copy_stack_to_slots(dst) followed by discard_stack(dst.count). */
    method PopSlots(dst: SlotRange)
      requires Valid()
      modifies this
      ensures Valid() && Emitted([OpA(copy_stack_to_slots, dst.index, dst.count), Op(discard_stack, dst.count, 0)])
    {
      CopyStackToSlots(dst);
      DiscardStack(dst.count);
    }

    method Duplicate(count: int)
      requires Valid() && count >= 0
      modifies this
      ensures Valid() && Emitted([Op(duplicate, count, 0)])
    {
      Append(Op(duplicate, count, 0));
    }

    method Select(slots: int)
      requires Valid() && slots > 0
      modifies this
      ensures Valid() && Emitted([Op(select, slots, 0)])
    {
      Append(Op(select, slots, 0));
    }

    /** copy_stack_to_slots_unmasked(dst) followed by discard_stack(dst.count). */
    method PopSlotsUnmasked(dst: SlotRange)
      requires Valid()
      modifies this
      ensures Valid() && Emitted([OpA(copy_stack_to_slots_unmasked, dst.index, dst.count), Op(discard_stack, dst.count, 0)])
    {
      CopyStackToSlotsUnmasked(dst);
      DiscardStack(dst.count);
    }

    method LoadUnmasked(slot: int)
      requires Valid()
      modifies this
      ensures Valid() && Emitted([OpA(load_unmasked, slot, 0)])
    {
      Append(OpA(load_unmasked, slot, 0));
    }

    method StoreUnmasked(slot: int)
      requires Valid()
      modifies this
      ensures Valid() && Emitted([OpA(store_unmasked, slot, 0)])
    {
      Append(OpA(store_unmasked, slot, 0));
    }

    method StoreMasked(slot: int)
      requires Valid()
      modifies this
      ensures Valid() && Emitted([OpA(store_masked, slot, 0)])
    {
      Append(OpA(store_masked, slot, 0));
    }

    method CopySlotsMasked(dst: SlotRange, src: SlotRange)
      requires Valid() && dst.count == src.count
      modifies this
      ensures Valid() && Emitted([Instruction(copy_slot_masked, dst.index, src.index, NA, dst.count, 0)])
    {
      Append(Instruction(copy_slot_masked, dst.index, src.index, NA, dst.count, 0));
    }

    method CopySlotsUnmasked(dst: SlotRange, src: SlotRange)
      requires Valid() && dst.count == src.count
      modifies this
      ensures Valid() && Emitted([Instruction(copy_slot_unmasked, dst.index, src.index, NA, dst.count, 0)])
    {
      Append(Instruction(copy_slot_unmasked, dst.index, src.index, NA, dst.count, 0));
    }

    method ZeroSlotsUnmasked(dst: SlotRange)
      requires Valid()
      modifies this
      ensures Valid() && Emitted([OpA(zero_slot_unmasked, dst.index, dst.count)])
    {
      Append(OpA(zero_slot_unmasked, dst.index, dst.count));
    }

    /** Appends a mask op that carries no operands. */
    method MaskOp(op: BuilderOp)
      requires Valid()
      requires IsMaskOp(op)
      modifies this
      ensures Valid() && Emitted([Op(op, 0, 0)])
    {
      Append(Op(op, 0, 0));
    }

    method ReenableLoopMask(src: SlotRange)
      requires Valid() && src.count == 1
      modifies this
      ensures Valid() && Emitted([OpA(reenable_loop_mask, src.index, 0)])
    {
      Append(OpA(reenable_loop_mask, src.index, 0));
    }

    /** Clones the top `numSlots` stack slots onto the stack. */
    method PushClone(numSlots: int)
      requires Valid()
      modifies this
      ensures Valid() && Emitted([Clone(numSlots)])
    {
      Append(Clone(numSlots));
    }

    /**
     * Consumes `inputSlots` stack slots and pushes |components| slots picked from them;
     * the components are packed as nybbles, the first one lowest.
     */
    method Swizzle(inputSlots: int, components: seq<int>)
      requires Valid() && 1 <= |components| <= 4
      requires forall i :: 0 <= i < |components| ==> 0 <= components[i] < inputSlots
      modifies this
      ensures Valid() && Emitted([Op(SwizzleOp(|components|), inputSlots, PackComponents(components))])
    {
      var componentBits: nat := 0;
      var j := |components|;
      while j > 0
        invariant 0 <= j <= |components|
        invariant componentBits == PackComponents(components[j..])
      {
        j := j - 1;
        assert components[j..][1..] == components[j + 1..];
        componentBits := BitOr(componentBits * 16, components[j]);
      }
      assert components[0..] == components;
      Append(Op(SwizzleOp(|components|), inputSlots, componentBits));
    }

    /** Pushes `count` more copies of the top stack slot. */
    method PushDuplicates(count: int)
      requires Valid() && count >= 0
      modifies this
      ensures Valid() && Emitted(DuplicatesCode(count))
    {
      ghost var start := instructions;
      var n := count;
      if n >= 3 {
        PushSplat(4);
        n := n - 3;
      }
      ghost var head := if count >= 3 then [Splat(4)] else [];
      ghost var rest := n;
      n := PushCloneGroups(n);
      PushTrailing(n);
      DuplicatesCodeSplit(count, rest / 4, n);
      ConcatAssoc(start, head, Clones(rest / 4, 4));
      ConcatAssoc(start, head + Clones(rest / 4, 4), TrailingDuplicates(n));
    }

    /** The middle loop of push_duplicates: four-slot clones while four or more copies remain. */
    method PushCloneGroups(count: int) returns (n: int)
      requires Valid() && count >= 0
      modifies this
      ensures n == count % 4
      ensures Valid() && Emitted(Clones(count / 4, 4))
    {
      n := count;
      ghost var k: nat := 0;
      ghost var start := instructions;
      while n >= 4
        invariant 0 <= n && n + 4 * k == count
        invariant Valid() && instructions == start + Clones(k, 4)
        invariant numLabels == old(numLabels) && numBranches == old(numBranches)
      {
        PushClone(4);
        ClonesSnoc(start, k, 4);
        n := n - 4;
        k := k + 1;
      }
      QuarterOf(count, k, n);
    }

    /** swizzle(1, {0, ..., 0}) with `n` zero components: a splat of the top slot. */
    method PushSplat(n: int)
      requires Valid() && 3 <= n <= 4
      modifies this
      ensures Valid() && Emitted([Splat(n)])
    {
      var zeros := if n == 4 then [0, 0, 0, 0] else [0, 0, 0];
      PackZeros();
      Swizzle(1, zeros);
    }

    /** The switch closing push_duplicates: the fewer than four copies left. */
    method PushTrailing(n: int)
      requires Valid() && 0 <= n < 4
      modifies this
      ensures Valid() && Emitted(TrailingDuplicates(n))
    {
      if n == 3 {
        PushSplat(4);
      } else if n == 2 {
        PushSplat(3);
      } else if n == 1 {
        PushClone(1);
      }
    }

    /** Hands the instruction stream and the counters to a new Program. */
    method Finish(numValueSlots: int, numUniformSlots: int) returns (p: RPProgram.Program)
      requires Valid()
      ensures fresh(p)
      ensures p.instructions == instructions && p.numValueSlots == numValueSlots
      ensures p.numUniformSlots == numUniformSlots
      ensures p.numLabels == numLabels && p.numBranches == numBranches
      ensures p.tempStackMaxDepths == RPProgram.MaxDepths(instructions)
    {
      p := new RPProgram.Program(instructions, numValueSlots, numUniformSlots, numLabels, numBranches);
    }
  }
}
