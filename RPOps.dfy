// Instructions of the SkSL Raster Pipeline builder and the stack effect of each
// (src/sksl/codegen/SkSLRasterPipelineBuilder.h, SkSLRasterPipelineBuilder.cpp).
module RPOps {
  import opened Ints

  /** A slot index; NA marks an operand an instruction does not use. */
  const NA: int := -1

  /** A run of `count` consecutive slots starting at `index`. */
  datatype SlotRange = SlotRange(index: int, count: int)

  /** The multi-slot unary stages. */
  datatype UnaryStage =
    | abs_float | abs_int | bitwise_not_int | cast_to_float_from_int | cast_to_float_from_uint
    | cast_to_int_from_float | cast_to_uint_from_float | ceil_float | floor_float

  /** The multi-slot binary stages. */
  datatype BinaryStage =
    | add_n_floats | add_n_ints | sub_n_floats | sub_n_ints | mul_n_floats | mul_n_ints
    | div_n_floats | div_n_ints | div_n_uints
    | bitwise_and_n_ints | bitwise_or_n_ints | bitwise_xor_n_ints
    | min_n_floats | min_n_ints | min_n_uints | max_n_floats | max_n_ints | max_n_uints
    | cmple_n_floats | cmple_n_ints | cmple_n_uints | cmplt_n_floats | cmplt_n_ints | cmplt_n_uints
    | cmpeq_n_floats | cmpeq_n_ints | cmpne_n_floats | cmpne_n_ints

  /**
   * Builder ops. The native Raster Pipeline stages the builder refers to by name
   * come first (the multi-slot unary and binary stages grouped under `unary` and
   * `binary`); every other native stage is `OtherStage`. Builder-only ops follow.
   */
  datatype BuilderOp =
    | init_lane_masks | store_src_rg | store_src | store_dst | load_src | load_dst
    | immediate_f | load_unmasked | store_unmasked | store_masked
    | unary(u: UnaryStage)
    | binary(b: BinaryStage)
    // the multi-slot ternary stage
    | mix_n_floats
    | copy_slot_masked | copy_slot_unmasked | zero_slot_unmasked
    | swizzle_1 | swizzle_2 | swizzle_3 | swizzle_4 | transpose
    | merge_condition_mask | mask_off_loop_mask | reenable_loop_mask | merge_loop_mask
    | mask_off_return_mask
    | jump | branch_if_any_active_lanes | branch_if_no_active_lanes
    | OtherStage(stage: int)
    // builder-specific ops
    | push_literal_f | push_slots | push_uniform | push_zeros | push_clone | push_clone_from_stack
    | copy_stack_to_slots | copy_stack_to_slots_unmasked | discard_stack | duplicate | select
    | push_condition_mask | pop_condition_mask | push_loop_mask | pop_loop_mask
    | push_return_mask | pop_return_mask | set_current_stack | label_ | unsupported

  // `label_` is the builder op `label` (a reserved word in Dafny).

  /** One builder instruction; slots the instruction does not use hold NA. */
  datatype Instruction = Instruction(op: BuilderOp, slotA: int, slotB: int, slotC: int, immA: int, immB: int)

  /** An instruction with no slot operands. */
  function Op(op: BuilderOp, immA: int, immB: int): Instruction {
    Instruction(op, NA, NA, NA, immA, immB)
  }

  /** An instruction with one slot operand. */
  function OpA(op: BuilderOp, a: int, immA: int): Instruction {
    Instruction(op, a, NA, NA, immA, 0)
  }

  predicate IsUnaryOp(op: BuilderOp) { op.unary? }

  predicate IsBinaryOp(op: BuilderOp) { op.binary? }

  predicate IsTernaryOp(op: BuilderOp) { op == mix_n_floats }

  predicate IsBranchOp(op: BuilderOp) {
    op == jump || op == branch_if_any_active_lanes || op == branch_if_no_active_lanes
  }

  /** The operand-free mask ops of the builder. */
  predicate IsMaskOp(op: BuilderOp) {
    op == push_condition_mask || op == pop_condition_mask || op == merge_condition_mask ||
    op == push_loop_mask || op == pop_loop_mask || op == mask_off_loop_mask || op == merge_loop_mask ||
    op == push_return_mask || op == pop_return_mask || op == mask_off_return_mask
  }

  /** The swizzle op producing `size` components: swizzle_1 + size - 1. */
  function SwizzleOp(size: int): (op: BuilderOp)
    requires 1 <= size <= 4
  {
    if size == 1 then swizzle_1 else if size == 2 then swizzle_2 else if size == 3 then swizzle_3 else swizzle_4
  }

  function SwizzleSize(op: BuilderOp): int {
    match op
    case swizzle_1 => 1
    case swizzle_2 => 2
    case swizzle_3 => 3
    case swizzle_4 => 4
    case _ => 0
  }

  /** Number of branch instructions (jump, branch_if_*) in a sequence. */
  function CountBranches(s: seq<Instruction>): nat {
    if |s| == 0 then 0
    else CountBranches(s[..|s| - 1]) + (if IsBranchOp(s[|s| - 1].op) then 1 else 0)
  }

  /** Every label and branch instruction names a label below `numLabels`. */
  predicate LabelsInRange(s: seq<Instruction>, numLabels: int) {
    forall i :: 0 <= i < |s| && (s[i].op == label_ || IsBranchOp(s[i].op)) ==> 0 <= s[i].immA < numLabels
  }

  /** Code with no label and no branch: what statements other than loops emit. */
  predicate StraightLine(s: seq<Instruction>) {
    forall i :: 0 <= i < |s| ==> s[i].op != label_ && !IsBranchOp(s[i].op)
  }

  lemma {:induction false} StraightLineAppend(s: seq<Instruction>, code: seq<Instruction>)
    requires StraightLine(code)
    ensures CountBranches(s + code) == CountBranches(s)
    ensures forall numLabels :: LabelsInRange(s, numLabels) ==> LabelsInRange(s + code, numLabels)
    decreases |code|
  {
    if |code| == 0 {
      assert s + code == s;
    } else {
      var init := code[..|code| - 1];
      assert (s + code)[..|s + code| - 1] == s + init;
      StraightLineAppend(s, init);
    }
  }

  lemma CountBranchesAppend(s: seq<Instruction>, inst: Instruction)
    ensures CountBranches(s + [inst]) == CountBranches(s) + (if IsBranchOp(inst.op) then 1 else 0)
  {
    assert (s + [inst])[..|s + [inst]| - 1] == s;
  }

  /** How many temp-stack slots an instruction pushes (positive) or pops (negative). */
  function StackUsage(inst: Instruction): int {
    var op := inst.op;
    if op == push_literal_f || op == push_condition_mask || op == push_loop_mask || op == push_return_mask then 1
    else if op == push_slots || op == push_uniform || op == push_zeros || op == push_clone
         || op == push_clone_from_stack then inst.immA
    else if op == pop_condition_mask || op == pop_loop_mask || op == pop_return_mask then -1
    else if IsBinaryOp(op) || op == discard_stack || op == select then -inst.immA
    else if IsTernaryOp(op) then 2 * -inst.immA
    else if SwizzleSize(op) > 0 then SwizzleSize(op) - inst.immA
    else 0
  }

  /** Net stack growth of an instruction sequence. */
  function NetUsage(s: seq<Instruction>): int {
    if |s| == 0 then 0 else NetUsage(s[..|s| - 1]) + StackUsage(s[|s| - 1])
  }

  lemma {:induction false} NetUsageAppend(a: seq<Instruction>, b: seq<Instruction>)
    ensures NetUsage(a + b) == NetUsage(a) + NetUsage(b)
    decreases |b|
  {
    if |b| > 0 {
      assert (a + b)[..|a + b| - 1] == a + b[..|b| - 1];
      NetUsageAppend(a, b[..|b| - 1]);
    } else {
      assert a + b == a;
    }
  }

  // ---- bitwise helpers on non-negative integers ----

  /** Bitwise OR of two non-negative integers. */
  function BitOr(a: nat, b: nat): nat
    decreases a + b
  {
    if a == 0 then b
    else if b == 0 then a
    else 2 * BitOr(a / 2, b / 2) + (if a % 2 == 1 || b % 2 == 1 then 1 else 0)
  }

  lemma {:induction false} BitOrLowBits(x: nat, c: nat, k: nat)
    requires c < Pow2(k)
    ensures BitOr(x * Pow2(k), c) == x * Pow2(k) + c
    decreases k
  {
    if k > 0 {
      var half := x * Pow2(k - 1);
      var whole := x * Pow2(k);
      assert whole == 2 * half by { MulTwo(x, Pow2(k - 1)); }
      if whole != 0 && c != 0 {
        assert whole / 2 == half && whole % 2 == 0;
        assert BitOr(whole, c) == 2 * BitOr(half, c / 2) + (if c % 2 == 1 then 1 else 0);
        BitOrLowBits(x, c / 2, k - 1);
      }
    }
  }

  lemma MulTwo(x: int, p: int)
    ensures x * (2 * p) == 2 * (x * p)
  {
  }


  // ---- int32 bit casts ----

  const TWO_31: int := 0x8000_0000
  const TWO_32: int := 0x1_0000_0000

  predicate IsInt32(x: int) { -TWO_31 <= x < TWO_31 }
  predicate IsUInt32(x: int) { 0 <= x < TWO_32 }

  /** sk_bit_cast<int32_t> of a 32-bit pattern (a float's bits or a uint32_t). */
  function BitCastToInt32(bits: int): (r: int)
    requires IsUInt32(bits)
    ensures IsInt32(r) && (r - bits) % TWO_32 == 0
  {
    if bits < TWO_31 then bits else bits - TWO_32
  }

  /** The 32-bit pattern of an int32_t. */
  function BitsOfInt32(x: int): (r: int)
    requires IsInt32(x)
    ensures IsUInt32(r)
  {
    if x >= 0 then x else x + TWO_32
  }

  /** The bit cast loses nothing: it is undone by reading the pattern back, and is injective. */
  lemma BitCastRoundTrip(bits: int, x: int)
    requires IsUInt32(bits) && IsInt32(x)
    ensures BitsOfInt32(BitCastToInt32(bits)) == bits
    ensures BitCastToInt32(BitsOfInt32(x)) == x
  {
  }

  // ---- swizzle component packing ----

  function Pow16(k: nat): (r: nat)
    ensures r >= 1
  {
    if k == 0 then 1 else 16 * Pow16(k - 1)
  }

  /**
   * The swizzle's component nybbles: the components taken from last to first, each
   * shifted in with `bits <<= 4; bits |= c`, so the first component is the low nybble.
   */
  function PackComponents(cs: seq<int>): nat
    requires forall i :: 0 <= i < |cs| ==> 0 <= cs[i]
  {
    if |cs| == 0 then 0 else BitOr(PackComponents(cs[1..]) * 16, cs[0])
  }

  lemma PackComponentsStep(cs: seq<int>)
    requires |cs| > 0 && forall i :: 0 <= i < |cs| ==> 0 <= cs[i] < 16
    ensures PackComponents(cs) == cs[0] + 16 * PackComponents(cs[1..])
  {
    BitOrNybble(PackComponents(cs[1..]), cs[0]);
  }

  /** A nybble or-ed below a value shifted by four bits is added to it. */
  lemma BitOrNybble(x: nat, c: nat)
    requires c < 16
    ensures BitOr(x * 16, c) == x * 16 + c
  {
    assert Pow2(4) == 16 by { assert Pow2(2) == 4; }
    BitOrLowBits(x, c, 4);
  }

  lemma MulDistribSub(a: int, b: int, m: int)
    ensures (a - b) * m == a * m - b * m
  {
  }

  lemma MulAtLeast(k: int, m: int)
    requires k >= 1 && m > 0
    ensures k * m >= m
  {
    assert k * m == (k - 1) * m + m;
  }

  lemma DivUnique(x: int, m: int, d: int, r: int)
    requires m > 0 && 0 <= r < m && x == d * m + r
    ensures x / m == d
  {
    var d2, r2 := x / m, x % m;
    assert x == d2 * m + r2 && 0 <= r2 < m;
    MulDistribSub(d2, d, m);
    assert (d2 - d) * m == r - r2;
    if d2 > d {
      MulAtLeast(d2 - d, m);
    } else if d2 < d {
      MulDistribSub(d, d2, m);
      MulAtLeast(d - d2, m);
    }
  }

  lemma DivAddLow(c: nat, p: nat, q: nat)
    requires c < 16 && q >= 1
    ensures (c + 16 * p) / (16 * q) == p / q
  {
    var d, r := p / q, p % q;
    assert p == d * q + r && 0 <= r < q;
    assert c + 16 * p == d * (16 * q) + (16 * r + c);
    DivUnique(c + 16 * p, 16 * q, d, 16 * r + c);
  }

  /**
   * Reading nybble `i` back out of the packed bits gives component `i`, and every
   * nybble above the last component is zero.
   */
  lemma {:induction false} PackComponentsNybble(cs: seq<int>, i: nat)
    requires forall k :: 0 <= k < |cs| ==> 0 <= cs[k] < 16
    ensures (PackComponents(cs) / Pow16(i)) % 16 == if i < |cs| then cs[i] else 0
    decreases i
  {
    var whole := PackComponents(cs);
    if |cs| == 0 {
      assert whole == 0;
      assert 0 / Pow16(i) == 0;
    } else {
      PackComponentsStep(cs);
      var p := PackComponents(cs[1..]);
      assert whole == cs[0] + 16 * p;
      if i == 0 {
        assert whole / 1 == whole;
        DivUnique(whole, 16, p, cs[0]);
      } else {
        assert Pow16(i) == 16 * Pow16(i - 1);
        DivAddLow(cs[0], p, Pow16(i - 1));
        assert whole / Pow16(i) == p / Pow16(i - 1);
        PackComponentsNybble(cs[1..], i - 1);
        if i < |cs| {
          assert cs[1..][i - 1] == cs[i];
        }
      }
    }
  }

  /** Packed components fit in 4 bits per component. */
  lemma {:induction false} PackComponentsBound(cs: seq<int>)
    requires forall k :: 0 <= k < |cs| ==> 0 <= cs[k] < 16
    ensures PackComponents(cs) < Pow16(|cs|)
  {
    if |cs| > 0 {
      PackComponentsStep(cs);
      PackComponentsBound(cs[1..]);
    }
  }
}
