// Program bookkeeping over a finished instruction stream
// (the Program members of src/sksl/codegen/SkSLRasterPipelineBuilder.cpp).
module RPProgram {
  import opened RPOps
  import Text

  // ---- temp-stack depths ----

  /** A map from temp-stack index to depth; the hash map's operator[] reads 0 for a new key. */
  type DepthMap = map<int, int>

  function Get(m: DepthMap, k: int): int {
    if k in m then m[k] else 0
  }

  /**
   * The running state of tempStackMaxDepths after some instructions. `order` lists
   * the stacks in the order they were first touched; it fixes the iteration order of
   * the depth map, which the hash map leaves unspecified.
   */
  datatype DepthState = DepthState(curIdx: int, current: DepthMap, largest: DepthMap, order: seq<int>,
                                   neverNegative: bool)

  /** What one instruction means to the depth walk: an optional stack switch and its stack usage. */
  datatype StackEffect = StackEffect(switches: bool, stack: int, usage: int)

  function EffectOf(inst: Instruction): StackEffect {
    StackEffect(inst.op == set_current_stack, inst.immA, StackUsage(inst))
  }

  function Effects(s: seq<Instruction>): (e: seq<StackEffect>)
    ensures |e| == |s|
  {
    seq(|s|, i requires 0 <= i < |s| => EffectOf(s[i]))
  }

  function DepthStep(st: DepthState, e: StackEffect): DepthState {
    var idx := if e.switches then e.stack else st.curIdx;
    var c := Get(st.current, idx) + e.usage;
    var l := Get(st.largest, idx);
    DepthState(idx, st.current[idx := c], st.largest[idx := if c > l then c else l],
               if idx in st.largest then st.order else st.order + [idx],
               st.neverNegative && c >= 0)
  }

  /** The state after the first `n` instructions, given by their effects `s`. */
  function RunDepths(s: seq<StackEffect>, n: nat): DepthState
    requires n <= |s|
  {
    if n == 0 then DepthState(0, map[], map[], [], true) else DepthStep(RunDepths(s, n - 1), s[n - 1])
  }

  /** The per-stack maximum depths tempStackMaxDepths returns. */
  function MaxDepths(s: seq<Instruction>): DepthMap {
    RunDepths(Effects(s), |s|).largest
  }

  /** The order in which the stacks of `s` are laid out. */
  function StackOrder(s: seq<Instruction>): seq<int> {
    RunDepths(Effects(s), |s|).order
  }

  /** What the two debug assertions of tempStackMaxDepths check. */
  predicate Balanced(s: seq<Instruction>) {
    var st := RunDepths(Effects(s), |s|);
    st.neverNegative && forall k :: k in st.current ==> st.current[k] == 0
  }

  /** Every stack touched is listed once in `order`, and both maps cover exactly those stacks. */
  ghost predicate WellOrdered(st: DepthState) {
    (forall i, j :: 0 <= i < j < |st.order| ==> st.order[i] != st.order[j]) &&
    (forall k :: k in st.largest <==> k in st.order) &&
    (forall k :: k in st.current <==> k in st.largest)
  }

  lemma {:induction false} RunDepthsWellOrdered(s: seq<StackEffect>, n: nat)
    requires n <= |s|
    ensures WellOrdered(RunDepths(s, n))
  {
    if n > 0 {
      RunDepthsWellOrdered(s, n - 1);
    }
  }

  /**
   * tempStackMaxDepths: walks the instructions once, tracking each stack's current and
   * largest depth. `order` lists the stacks as they were first touched, which is the
   * order this model iterates the result in. `balanced` is what the source's debug
   * assertions check: no stack ever went below zero and every stack ends empty.
   */
  method TempStackMaxDepths(instrs: seq<Instruction>) returns (largest: DepthMap, order: seq<int>, balanced: bool)
    ensures largest == MaxDepths(instrs) && order == StackOrder(instrs)
    ensures balanced == Balanced(instrs)
  {
    var effects := Effects(instrs);
    var st := WalkDepths(effects);
    largest, order := st.largest, st.order;
    RunDepthsWellOrdered(effects, |effects|);
    OrderCoversCurrent(st);
    var empty := AllEmpty(st.current, st.order);
    balanced := st.neverNegative && empty;
  }

  /** In a well-ordered state the stacks of `order` are exactly the keys of the current depths. */
  lemma OrderCoversCurrent(st: DepthState)
    requires WellOrdered(st)
    ensures forall j :: 0 <= j < |st.order| ==> st.order[j] in st.current
    ensures forall k :: k in st.current ==> k in st.order
  {
    forall j | 0 <= j < |st.order|
      ensures st.order[j] in st.current
    {
      var k := st.order[j];
      assert k in st.order;
      assert (k in st.largest) <==> (k in st.order);
    }
  }

  /**
   * The loop of tempStackMaxDepths over the instructions' stack effects; `st` holds
   * the loop's variables (the current stack and each stack's current and largest depth).
   */
  method WalkDepths(effects: seq<StackEffect>) returns (st: DepthState)
    ensures RunDepths(effects, |effects|) == st
  {
    st := DepthState(0, map[], map[], [], true);
    var i := 0;
    while i < |effects|
      invariant 0 <= i <= |effects|
      invariant RunDepths(effects, i) == st
    {
      st := TrackInstruction(effects[i], st);
      i := i + 1;
    }
  }

  /** The body of the tempStackMaxDepths loop for one instruction's effect. */
  method TrackInstruction(e: StackEffect, st: DepthState) returns (st': DepthState)
    ensures st' == DepthStep(st, e)
  {
    var curIdx := if e.switches then e.stack else st.curIdx;
    var c := Get(st.current, curIdx) + e.usage;
    var l := Get(st.largest, curIdx);
    var order := if curIdx in st.largest then st.order else st.order + [curIdx];
    st' := DepthState(curIdx, st.current[curIdx := c], st.largest[curIdx := if c > l then c else l], order,
      st.neverNegative && c >= 0);
  }

  /**
   * Whether every stack in the map has depth zero (the second debug assertion), visiting
   * the stacks in `order`, the order this model iterates the map in.
   */
  method AllEmpty(current: DepthMap, order: seq<int>) returns (empty: bool)
    requires forall j :: 0 <= j < |order| ==> order[j] in current
    requires forall k :: k in current ==> k in order
    ensures empty <==> forall k :: k in current ==> current[k] == 0
  {
    empty := true;
    var i := 0;
    while i < |order|
      invariant 0 <= i <= |order|
      invariant empty <==> forall j :: 0 <= j < i ==> current[order[j]] == 0
    {
      empty := empty && current[order[i]] == 0;
      i := i + 1;
    }
    assert forall k :: k in current ==> exists j :: 0 <= j < |order| && order[j] == k;
  }

  /** The largest depth of each stack never falls below zero and never below its current depth. */
  lemma {:induction false} LargestDominatesCurrent(s: seq<StackEffect>, n: nat, k: int)
    requires n <= |s|
    ensures Get(RunDepths(s, n).largest, k) >= Get(RunDepths(s, n).current, k)
    ensures Get(RunDepths(s, n).largest, k) >= 0
  {
    if n > 0 {
      LargestDominatesCurrent(s, n - 1, k);
    }
  }

  /** Largest depths only grow as the walk goes on. */
  lemma {:induction false} LargestMonotone(s: seq<StackEffect>, n: nat, m: nat, k: int)
    requires n <= m <= |s|
    ensures Get(RunDepths(s, n).largest, k) <= Get(RunDepths(s, m).largest, k)
    decreases m - n
  {
    if n < m {
      LargestMonotone(s, n, m - 1, k);
    }
  }

  /** At every step of the walk, each stack's final maximum is at least its depth at that step. */
  lemma MaxDepthBoundsEveryStep(s: seq<Instruction>, n: nat, k: int)
    requires n <= |s|
    ensures Get(MaxDepths(s), k) >= Get(RunDepths(Effects(s), n).current, k)
  {
    LargestDominatesCurrent(Effects(s), n, k);
    LargestMonotone(Effects(s), n, |s|, k);
  }

  /** While the walk has never driven a stack below zero, every stack's depth is non-negative. */
  lemma {:induction false} NeverNegativeMeansNonNegative(s: seq<StackEffect>, n: nat, k: int)
    requires n <= |s| && RunDepths(s, n).neverNegative
    ensures Get(RunDepths(s, n).current, k) >= 0
  {
    if n > 0 {
      NeverNegativeMeansNonNegative(s, n - 1, k);
    }
  }

  /** The never-negative flag of a walk holds at every earlier step. */
  lemma {:induction false} NeverNegativeEarlier(s: seq<StackEffect>, n: nat, m: nat)
    requires n <= m <= |s| && RunDepths(s, m).neverNegative
    ensures RunDepths(s, n).neverNegative
    decreases m - n
  {
    if n < m {
      NeverNegativeEarlier(s, n, m - 1);
    }
  }

  /** In a balanced stream no stack depth is negative at any step of the walk. */
  lemma BalancedPrefixesNonNegative(s: seq<Instruction>, n: nat, k: int)
    requires n <= |s| && Balanced(s)
    ensures Get(RunDepths(Effects(s), n).current, k) >= 0
  {
    NeverNegativeEarlier(Effects(s), n, |s|);
    NeverNegativeMeansNonNegative(Effects(s), n, k);
  }

  /** With one stack in use, the depth tracked for stack 0 is the net stack usage. */
  lemma {:induction false} SingleStackDepthIsNetUsage(s: seq<Instruction>, n: nat)
    requires n <= |s|
    requires forall i :: 0 <= i < |s| ==> s[i].op != set_current_stack
    ensures RunDepths(Effects(s), n).curIdx == 0
    ensures Get(RunDepths(Effects(s), n).current, 0) == NetUsage(s[..n])
  {
    if n > 0 {
      SingleStackDepthIsNetUsage(s, n - 1);
      assert Effects(s)[n - 1] == EffectOf(s[n - 1]);
      assert s[..n][..n - 1] == s[..n - 1];
    }
  }

  /** A balanced single-stack stream has zero net usage. */
  lemma BalancedSingleStackNetsZero(s: seq<Instruction>)
    requires Balanced(s) && |s| > 0
    requires forall i :: 0 <= i < |s| ==> s[i].op != set_current_stack
    ensures NetUsage(s) == 0
  {
    SingleStackDepthIsNetUsage(s, |s|);
    assert s[..|s|] == s;
    assert 0 in RunDepths(Effects(s), |s|).current;
  }

  // ---- the temp-stack slot count and the stack layout ----

  /** The depths of the stacks listed in `order`, added up. */
  function SumDepths(m: DepthMap, order: seq<int>): int {
    if |order| == 0 then 0 else SumDepths(m, order[..|order| - 1]) + Get(m, order[|order| - 1])
  }

  /** Where appendStages places stack `order[i]`: after all stacks listed before it. */
  function StackBase(m: DepthMap, order: seq<int>, i: nat): int
    requires i <= |order|
  {
    SumDepths(m, order[..i])
  }

  predicate NonNegativeDepths(m: DepthMap) {
    forall k :: k in m ==> m[k] >= 0
  }

  lemma {:induction false} StackBaseMonotone(m: DepthMap, order: seq<int>, i: nat, j: nat)
    requires i <= j <= |order| && NonNegativeDepths(m)
    ensures StackBase(m, order, i) <= StackBase(m, order, j)
    decreases j - i
  {
    if i < j {
      StackBaseMonotone(m, order, i, j - 1);
      assert order[..j][..j - 1] == order[..j - 1];
    }
  }

  /**
   * The stacks laid out one after another fill exactly fNumTempStackSlots slots: each
   * stack's region lies inside [0, SumDepths) and ends before the next one starts.
   */
  lemma StacksDisjointAndInside(m: DepthMap, order: seq<int>, i: nat, j: nat)
    requires i < j < |order| && NonNegativeDepths(m)
    ensures 0 <= StackBase(m, order, i)
    ensures StackBase(m, order, i) + Get(m, order[i]) <= StackBase(m, order, j)
    ensures StackBase(m, order, j) + Get(m, order[j]) <= SumDepths(m, order)
  {
    StackBaseMonotone(m, order, 0, i);
    assert order[..0] == [];
    assert order[..i + 1][..i] == order[..i];
    StackBaseMonotone(m, order, i + 1, j);
    assert order[..j + 1][..j] == order[..j];
    StackBaseMonotone(m, order, j + 1, |order|);
    assert order[..|order|] == order;
  }

  lemma {:induction false} MaxDepthsNonNegative(s: seq<Instruction>)
    ensures NonNegativeDepths(MaxDepths(s))
  {
    forall k | k in MaxDepths(s) ensures MaxDepths(s)[k] >= 0 {
      LargestDominatesCurrent(Effects(s), |s|, k);
    }
  }

  // ---- copies split into stages of at most four slots ----

  /** One appended pipeline stage with its destination and source offsets (in floats). */
  datatype CopyStage = CopyStage(stage: int, dst: int, src: int)

  /** The number of slots the k-th stage of an n-slot copy covers. */
  function ChunkSize(n: int, k: int): int {
    if n - 4 * k >= 4 then 4 else n - 4 * k
  }

  /**
   * appendCopy: splits an n-slot copy into stages of at most four slots; a stage
   * covering k slots is `baseStage + k - 1`, and each stage starts 4 slots (times the
   * stride) after the previous one.
   */
  method AppendCopy(baseStage: int, dst: int, dstStride: int, src: int, srcStride: int, numSlots: int)
    returns (stages: seq<CopyStage>)
    requires numSlots >= 0
    ensures |stages| == (numSlots + 3) / 4
    ensures forall k :: 0 <= k < |stages| ==>
      1 <= ChunkSize(numSlots, k) <= 4 &&
      stages[k] == CopyStage(baseStage + ChunkSize(numSlots, k) - 1, dst + 4 * k * dstStride, src + 4 * k * srcStride)
    decreases numSlots
  {
    stages := [];
    var n, d, s := numSlots, dst, src;
    while n > 4
      invariant 0 <= n == numSlots - 4 * |stages|
      invariant d == dst + 4 * |stages| * dstStride && s == src + 4 * |stages| * srcStride
      invariant forall k :: 0 <= k < |stages| ==>
        ChunkSize(numSlots, k) == 4 &&
        stages[k] == CopyStage(baseStage + 3, dst + 4 * k * dstStride, src + 4 * k * srcStride)
    {
      var four := AppendCopy(baseStage, d, dstStride, s, srcStride, 4);
      assert four == [CopyStage(baseStage + 3, d, s)];
      StrideStep(dst, |stages|, dstStride);
      StrideStep(src, |stages|, srcStride);
      stages := stages + four;
      d := d + 4 * dstStride;
      s := s + 4 * srcStride;
      n := n - 4;
    }
    CopyStageCount(numSlots, |stages|, n);
    if n > 0 {
      stages := stages + [CopyStage(baseStage + n - 1, d, s)];
    }
  }

  /** The next four-slot stage starts four strides further on. */
  lemma StrideStep(base: int, k: int, stride: int)
    ensures base + 4 * k * stride + 4 * stride == base + 4 * (k + 1) * stride
  {
  }

  /** `m` full stages and `n` (at most four) slots left make (numSlots + 3) / 4 stages. */
  lemma CopyStageCount(numSlots: int, m: int, n: int)
    requires 0 <= n <= 4 && numSlots == n + 4 * m && m >= 0
    ensures (numSlots + 3) / 4 == m + (if n > 0 then 1 else 0)
  {
  }

  // ---- pipeline stage counts and branch fix-up ----

  /** Stages appendMultiSlotUnaryOp appends: one per four slots, and always a last one. */
  function UnaryStages(n: int): nat
    decreases n
  {
    if n > 4 then 1 + UnaryStages(n - 4) else 1
  }

  /** Stages appendCopy appends for an n-slot copy. */
  function CopyStages(n: int): nat {
    if n > 0 then (n + 3) / 4 else 0
  }

  /** Ops appendStages turns into exactly one stage. */
  predicate IsSingleStageOp(op: BuilderOp) {
    op == init_lane_masks || op == store_src_rg || op == store_src || op == store_dst ||
    op == load_src || op == load_dst || op == immediate_f || op == load_unmasked ||
    op == store_unmasked || op == store_masked || SwizzleSize(op) > 0 || op == transpose ||
    IsMaskOp(op) || op == reenable_loop_mask || op == push_literal_f
  }

  /** Ops appendStages lowers through appendCopy. */
  predicate IsCopyOp(op: BuilderOp) {
    op == select || op == copy_slot_masked || op == copy_slot_unmasked || op == push_slots ||
    op == push_uniform || op == copy_stack_to_slots || op == copy_stack_to_slots_unmasked ||
    op == push_clone || op == push_clone_from_stack
  }

  /** Stages appendStages emits for a non-branch, non-label instruction. */
  function StageCount(inst: Instruction): nat {
    var op := inst.op;
    if IsSingleStageOp(op) then 1
    else if IsUnaryOp(op) || op == zero_slot_unmasked || op == push_zeros then UnaryStages(inst.immA)
    else if IsBinaryOp(op) || IsTernaryOp(op) then (if inst.immA > 0 then 1 else 0)
    else if IsCopyOp(op) then CopyStages(inst.immA)
    else 0
  }

  /** Stages between periodic stack rewinds. */
  const REWIND_INTERVAL: int := 500

  /** What one instruction means to the branch bookkeeping of appendStages. */
  datatype Placement = PlaceLabel(id: int) | PlaceBranch(target: int) | PlaceStages(count: nat)

  function PlacementOf(inst: Instruction): Placement {
    if inst.op == label_ then PlaceLabel(inst.immA)
    else if IsBranchOp(inst.op) then PlaceBranch(inst.immA)
    else PlaceStages(StageCount(inst))
  }

  function Placements(s: seq<Instruction>): (p: seq<Placement>)
    ensures |p| == |s|
  {
    seq(|s|, i requires 0 <= i < |s| => PlacementOf(s[i]))
  }

  /** Every label and branch placement names a label below `numLabels`. */
  predicate PlacementsInRange(p: seq<Placement>, numLabels: int) {
    forall i :: 0 <= i < |p| ==>
      (p[i].PlaceLabel? ==> 0 <= p[i].id < numLabels) && (p[i].PlaceBranch? ==> 0 <= p[i].target < numLabels)
  }

  lemma PlacementsOfLabelsInRange(s: seq<Instruction>, numLabels: int)
    requires LabelsInRange(s, numLabels)
    ensures PlacementsInRange(Placements(s), numLabels)
  {
    forall i | 0 <= i < |s|
      ensures (Placements(s)[i].PlaceLabel? ==> 0 <= Placements(s)[i].id < numLabels)
      ensures (Placements(s)[i].PlaceBranch? ==> 0 <= Placements(s)[i].target < numLabels)
    {
      assert Placements(s)[i] == PlacementOf(s[i]);
    }
  }

  /**
   * The branch bookkeeping of appendStages: the number of stages so far, the stage
   * count at the most recent rewind, each label's stage offset (-1 until placed),
   * and for each branch the stage it was appended at and the label it goes to.
   */
  datatype Layout = Layout(numStages: int, mostRecentRewind: int, labelOffsets: seq<int>,
                           branchPos: seq<int>, branchLabel: seq<int>)

  /**
   * One instruction of appendStages. A branch to a label already placed is a backward
   * branch and gets a stack rewind first; after every instruction, more than 500
   * stages since the last rewind also append one. `rewinds` says whether a rewind
   * really appends a stage (builds without guaranteed tail calls).
   */
  function LayoutStep(st: Layout, pl: Placement, rewinds: bool): Layout {
    RewindStep(PlaceStep(st, pl, rewinds), rewinds)
  }

  /** Placing one instruction, before the periodic rewind check. */
  function PlaceStep(st: Layout, pl: Placement, rewinds: bool): Layout {
    match pl
    case PlaceLabel(id) =>
      if 0 <= id < |st.labelOffsets| then st.(labelOffsets := st.labelOffsets[id := st.numStages]) else st
    case PlaceBranch(target) =>
      var backward := 0 <= target < |st.labelOffsets| && st.labelOffsets[target] >= 0;
      var at := if backward && rewinds then st.numStages + 1 else st.numStages;
      Layout(at + 1, if backward then at else st.mostRecentRewind, st.labelOffsets,
             st.branchPos + [at], st.branchLabel + [target])
    case PlaceStages(count) => st.(numStages := st.numStages + count)
  }

  /** The periodic rewind: more than REWIND_INTERVAL stages since the last one append another. */
  function RewindStep(st: Layout, rewinds: bool): Layout {
    if st.numStages - st.mostRecentRewind > REWIND_INTERVAL
    then st.(numStages := if rewinds then st.numStages + 1 else st.numStages, mostRecentRewind := st.numStages)
    else st
  }

  predicate LayoutOk(st: Layout) {
    st.numStages >= 0 && |st.branchPos| == |st.branchLabel| &&
    (forall l :: 0 <= l < |st.labelOffsets| ==> -1 <= st.labelOffsets[l] <= st.numStages) &&
    (forall b :: 0 <= b < |st.branchPos| ==> 0 <= st.branchPos[b] < st.numStages)
  }

  function InitialLayout(numLabels: nat): Layout {
    Layout(0, 0, seq(numLabels, _ => -1), [], [])
  }

  /** The branch bookkeeping after the first `n` placements of `p`. */
  function RunLayout(p: seq<Placement>, n: nat, numLabels: nat, rewinds: bool): (st: Layout)
    requires n <= |p|
    ensures |st.labelOffsets| == numLabels
  {
    if n == 0 then InitialLayout(numLabels) else LayoutStep(RunLayout(p, n - 1, numLabels, rewinds), p[n - 1], rewinds)
  }

  /** Label offsets stay within the stages seen so far and branch positions name stages already appended. */
  lemma {:induction false} RunLayoutOk(p: seq<Placement>, n: nat, numLabels: nat, rewinds: bool)
    requires n <= |p|
    ensures LayoutOk(RunLayout(p, n, numLabels, rewinds))
  {
    if n > 0 {
      RunLayoutOk(p, n - 1, numLabels, rewinds);
      LayoutStepOk(RunLayout(p, n - 1, numLabels, rewinds), p[n - 1], rewinds);
    }
  }

  lemma LayoutStepOk(st: Layout, pl: Placement, rewinds: bool)
    requires LayoutOk(st)
    ensures LayoutOk(LayoutStep(st, pl, rewinds))
  {
    var mid := PlaceStep(st, pl, rewinds);
    assert LayoutOk(mid);
  }

  /** Branch placements among the first `n` of `p`. */
  function BranchesBefore(p: seq<Placement>, n: nat): nat
    requires n <= |p|
  {
    if n == 0 then 0 else BranchesBefore(p, n - 1) + (if p[n - 1].PlaceBranch? then 1 else 0)
  }

  lemma {:induction false} BranchesBeforeCountsBranches(s: seq<Instruction>, n: nat)
    requires n <= |s|
    ensures BranchesBefore(Placements(s), n) == CountBranches(s[..n])
  {
    if n > 0 {
      BranchesBeforeCountsBranches(s, n - 1);
      assert s[..n][..n - 1] == s[..n - 1];
      assert Placements(s)[n - 1] == PlacementOf(s[n - 1]);
    }
  }

  lemma {:induction false} BranchesBeforeMonotone(p: seq<Placement>, n: nat, m: nat)
    requires n <= m <= |p|
    ensures BranchesBefore(p, n) <= BranchesBefore(p, m)
    decreases m - n
  {
    if n < m {
      BranchesBeforeMonotone(p, n, m - 1);
    }
  }

  /** Each branch is recorded once, with the label its instruction names. */
  lemma {:induction false} BranchRecordsMatchPlacements(p: seq<Placement>, n: nat, numLabels: nat, rewinds: bool)
    requires n <= |p| && PlacementsInRange(p, numLabels)
    ensures |RunLayout(p, n, numLabels, rewinds).branchPos| == BranchesBefore(p, n)
    ensures |RunLayout(p, n, numLabels, rewinds).branchLabel| == BranchesBefore(p, n)
    ensures forall b :: 0 <= b < BranchesBefore(p, n) ==>
      0 <= RunLayout(p, n, numLabels, rewinds).branchLabel[b] < numLabels
  {
    if n > 0 {
      BranchRecordsMatchPlacements(p, n - 1, numLabels, rewinds);
    }
  }

  /** The branch targets after the fix-up: each branch's distance to its label. */
  function BranchOffsets(st: Layout): (r: seq<int>)
    requires |st.branchPos| == |st.branchLabel|
    requires forall b :: 0 <= b < |st.branchLabel| ==> 0 <= st.branchLabel[b] < |st.labelOffsets|
    ensures |r| == |st.branchPos|
  {
    seq(|st.branchPos|, b requires 0 <= b < |st.branchPos| => st.labelOffsets[st.branchLabel[b]] - st.branchPos[b])
  }

  /** The layout appendStages reaches over the whole instruction stream. */
  function FinalLayout(s: seq<Instruction>, numLabels: nat, rewinds: bool): Layout {
    RunLayout(Placements(s), |s|, numLabels, rewinds)
  }

  /** The branch targets appendStages leaves behind for the instruction stream `s`. */
  function BranchTargets(s: seq<Instruction>, numLabels: nat, rewinds: bool): (r: seq<int>)
    requires LabelsInRange(s, numLabels)
    ensures |r| == CountBranches(s)
  {
    PlacementsOfLabelsInRange(s, numLabels);
    BranchRecordsMatchPlacements(Placements(s), |s|, numLabels, rewinds);
    RunLayoutOk(Placements(s), |s|, numLabels, rewinds);
    BranchesBeforeCountsBranches(s, |s|);
    assert s[..|s|] == s;
    BranchOffsets(FinalLayout(s, numLabels, rewinds))
  }

  /**
   * A branch to a label that was already placed is a backward branch: its target is
   * at or before the stage holding the branch (strictly before when a rewind stage
   * sits in between).
   */
  lemma BackwardBranchOffset(p: seq<Placement>, n: nat, numLabels: nat, rewinds: bool)
    requires n < |p| && p[n].PlaceBranch? && 0 <= p[n].target < numLabels
    requires RunLayout(p, n, numLabels, rewinds).labelOffsets[p[n].target] >= 0
    ensures var after := RunLayout(p, n + 1, numLabels, rewinds);
      |after.branchPos| == |after.branchLabel| > 0 &&
      after.branchLabel[|after.branchLabel| - 1] == p[n].target &&
      after.labelOffsets[p[n].target] - after.branchPos[|after.branchPos| - 1] <= (if rewinds then -1 else 0)
  {
    RunLayoutOk(p, n, numLabels, rewinds);
  }

  /** branch_if_* and jump instructions of the source test RasterPipelineBuilderBranches. */
  function BranchesTestProgram(): seq<Instruction> {
    [Op(jump, 2, 0), Op(label_, 0, 0), Op(immediate_f, 0x3F80_0000, 0), Op(label_, 1, 0),
     Op(immediate_f, 0x4000_0000, 0), Op(branch_if_no_active_lanes, 1, 0), Op(label_, 2, 0),
     Op(immediate_f, 0x4040_0000, 0), Op(branch_if_any_active_lanes, 0, 0)]
  }

  /** How the placements of that test program read. */
  function BranchesTestLayoutInput(): seq<Placement> {
    [PlaceBranch(2), PlaceLabel(0), PlaceStages(1), PlaceLabel(1), PlaceStages(1), PlaceBranch(1),
     PlaceLabel(2), PlaceStages(1), PlaceBranch(0)]
  }

  lemma BranchesTestPlacements()
    ensures Placements(BranchesTestProgram()) == BranchesTestLayoutInput()
  {
  }

  lemma BranchesTestFirstHalf()
    ensures RunLayout(BranchesTestLayoutInput(), 4, 3, true) == Layout(2, 0, [1, 2, -1], [0], [2])
  {
    var p := BranchesTestLayoutInput();
    assert RunLayout(p, 1, 3, true) == Layout(1, 0, [-1, -1, -1], [0], [2]);
    assert RunLayout(p, 2, 3, true).labelOffsets == [1, -1, -1];
    assert RunLayout(p, 3, 3, true) == Layout(2, 0, [1, -1, -1], [0], [2]);
    assert RunLayout(p, 4, 3, true).labelOffsets == [1, 2, -1];
  }

  lemma BranchesTestThirdQuarter()
    ensures RunLayout(BranchesTestLayoutInput(), 6, 3, true) == Layout(5, 4, [1, 2, -1], [0, 4], [2, 1])
  {
    BranchesTestFirstHalf();
    var p := BranchesTestLayoutInput();
    assert RunLayout(p, 5, 3, true) == Layout(3, 0, [1, 2, -1], [0], [2]);
  }

  lemma BranchesTestSecondHalf()
    ensures RunLayout(BranchesTestLayoutInput(), 9, 3, true) == Layout(8, 7, [1, 2, 5], [0, 4, 7], [2, 1, 0])
  {
    BranchesTestThirdQuarter();
    var p := BranchesTestLayoutInput();
    assert RunLayout(p, 7, 3, true).labelOffsets == [1, 2, 5];
    assert RunLayout(p, 8, 3, true) == Layout(6, 4, [1, 2, 5], [0, 4], [2, 1]);
  }

  /**
   * The expected dump of that test: jump +5, then after a rewind a branch -2, then
   * after another rewind a branch -6, over 8 stages in all.
   */
  lemma BranchesTestOffsets()
    ensures FinalLayout(BranchesTestProgram(), 3, true).numStages == 8
    ensures FinalLayout(BranchesTestProgram(), 3, true).branchPos == [0, 4, 7]
    ensures LabelsInRange(BranchesTestProgram(), 3)
    ensures BranchTargets(BranchesTestProgram(), 3, true) == [5, -2, -6]
  {
    BranchesTestFinalLayout();
    BranchesTestLabelsInRange();
    BranchesTestTargets();
  }

  lemma BranchesTestFinalLayout()
    ensures FinalLayout(BranchesTestProgram(), 3, true) == Layout(8, 7, [1, 2, 5], [0, 4, 7], [2, 1, 0])
  {
    BranchesTestPlacements();
    BranchesTestSecondHalf();
    assert |BranchesTestProgram()| == 9;
  }

  lemma BranchesTestTargets()
    ensures BranchOffsets(Layout(8, 7, [1, 2, 5], [0, 4, 7], [2, 1, 0])) == [5, -2, -6]
  {
  }

  lemma BranchesTestLabelsInRange()
    ensures LabelsInRange(BranchesTestProgram(), 3)
  {
  }

  // ---- slot-range text ----

  /** The dump's text for a slot range: `first`, or `first..last` for more than one slot. */
  function AsRange(first: int, count: int): (text: string)
    ensures count <= 1 ==> text == Text.IntToString(first)
    ensures count > 1 ==> text == Text.IntToString(first) + ".." + Text.IntToString(first + count - 1)
  {
    var text := Text.IntToString(first);
    if count > 1 then text + ".." + Text.IntToString(first + count - 1) else text
  }

  /**
   * The dump names each non-empty slot range unambiguously: equal texts come from
   * the same range.
   */
  lemma AsRangeInjective(first: int, count: int, first': int, count': int)
    requires count >= 1 && count' >= 1
    requires AsRange(first, count) == AsRange(first', count')
    ensures first == first' && count == count'
  {
    Text.IntToStringNoDot(first);
    Text.IntToStringNoDot(first');
    var last, last' := first + count - 1, first' + count' - 1;
    if count == 1 && count' == 1 {
      Text.IntToStringInjective(first, first');
    } else if count == 1 {
      Text.DottedHasDot(Text.IntToString(first'), Text.IntToString(last'));
    } else if count' == 1 {
      Text.DottedHasDot(Text.IntToString(first), Text.IntToString(last));
    } else {
      Text.SplitAtDots(Text.IntToString(first), Text.IntToString(last), Text.IntToString(first'), Text.IntToString(last'));
      Text.IntToStringInjective(first, first');
      Text.IntToStringInjective(last, last');
    }
  }

  class Program {
    const instructions: seq<Instruction>
    const numValueSlots: int
    const numUniformSlots: int
    const numLabels: int
    const numBranches: int
    const tempStackMaxDepths: DepthMap
    const tempStackOrder: seq<int>
    const numTempStackSlots: int

    constructor (instrs: seq<Instruction>, numValueSlots: int, numUniformSlots: int, numLabels: int, numBranches: int)
      ensures this.instructions == instrs && this.numValueSlots == numValueSlots
      ensures this.numUniformSlots == numUniformSlots
      ensures this.numLabels == numLabels && this.numBranches == numBranches
      ensures tempStackMaxDepths == MaxDepths(instrs) && tempStackOrder == StackOrder(instrs)
      ensures numTempStackSlots == SumDepths(MaxDepths(instrs), StackOrder(instrs))
    {
      this.instructions := instrs;
      this.numValueSlots := numValueSlots;
      this.numUniformSlots := numUniformSlots;
      this.numLabels := numLabels;
      this.numBranches := numBranches;
      var depths, order, _ := TempStackMaxDepths(instrs);
      this.tempStackMaxDepths := depths;
      this.tempStackOrder := order;
      var total := 0;
      var i := 0;
      while i < |order|
        invariant 0 <= i <= |order|
        invariant total == SumDepths(depths, order[..i])
      {
        assert order[..i + 1][..i] == order[..i];
        total := total + Get(depths, order[i]);
        i := i + 1;
      }
      assert order[..i] == order;
      this.numTempStackSlots := total;
    }

    /**
     * The branch bookkeeping of appendStages: walks the instructions counting the
     * stages they append, records label offsets and branch positions, then rewrites
     * each branch target as the distance to its label. `rewinds` says whether stack
     * rewinds are appended (builds without guaranteed tail calls).
     */
    method AppendStagesBranches(rewinds: bool) returns (branchTargets: array<int>, numStages: int)
      requires numLabels >= 0 && LabelsInRange(instructions, numLabels)
      requires CountBranches(instructions) == numBranches
      ensures fresh(branchTargets)
      ensures numStages == FinalLayout(instructions, numLabels, rewinds).numStages
      ensures branchTargets[..] == BranchTargets(instructions, numLabels, rewinds)
    {
      branchTargets := new int[numBranches];
      var labelOffsets := new int[numLabels](_ => -1);
      var branchGoesToLabel := new int[numBranches](_ => -1);
      assert labelOffsets[..] == seq(numLabels, _ => -1);
      PlacementsOfLabelsInRange(instructions, numLabels);
      BranchesBeforeCountsBranches(instructions, |instructions|);
      assert instructions[..|instructions|] == instructions;
      var placements := Placements(instructions);
      var mostRecentRewind;
      numStages, mostRecentRewind := WalkLayout(placements, numLabels, rewinds, labelOffsets, branchTargets, branchGoesToLabel);
      ghost var st := FinalLayout(instructions, numLabels, rewinds);
      BranchRecordsMatchPlacements(placements, |instructions|, numLabels, rewinds);
      FixUpBranches(branchTargets, labelOffsets, branchGoesToLabel, st);
    }
  }

  /**
   * The walk of appendStages over the instruction stream, leaving the stage count,
   * the most recent rewind, the label offsets and the raw branch records.
   */
  method WalkLayout(p: seq<Placement>, numLabels: nat, rewinds: bool, labelOffsets: array<int>,
                    branchTargets: array<int>, branchGoesToLabel: array<int>)
    returns (numStages: int, mostRecentRewind: int)
    requires PlacementsInRange(p, numLabels)
    requires branchTargets.Length == branchGoesToLabel.Length == BranchesBefore(p, |p|)
    requires labelOffsets != branchTargets && labelOffsets != branchGoesToLabel && branchTargets != branchGoesToLabel
    requires labelOffsets[..] == seq(numLabels, _ => -1)
    modifies labelOffsets, branchTargets, branchGoesToLabel
    ensures RunLayout(p, |p|, numLabels, rewinds) ==
      Layout(numStages, mostRecentRewind, labelOffsets[..], branchTargets[..], branchGoesToLabel[..])
  {
    ghost var total := branchTargets.Length;
    numStages := 0;
    mostRecentRewind := 0;
    var currentBranchOp := 0;
    var i := 0;
    while i < |p|
      invariant 0 <= i <= |p|
      invariant currentBranchOp == BranchesBefore(p, i) <= total
      invariant RunLayout(p, i, numLabels, rewinds) ==
        Layout(numStages, mostRecentRewind, labelOffsets[..], branchTargets[..currentBranchOp],
               branchGoesToLabel[..currentBranchOp])
    {
      BranchesBeforeMonotone(p, i + 1, |p|);
      numStages, mostRecentRewind, currentBranchOp :=
        PlaceInstruction(p[i], rewinds, numStages, mostRecentRewind, labelOffsets,
                         branchTargets, branchGoesToLabel, currentBranchOp);
      numStages, mostRecentRewind := MaybeRewind(rewinds, numStages, mostRecentRewind,
        Layout(numStages, mostRecentRewind, labelOffsets[..], branchTargets[..currentBranchOp],
               branchGoesToLabel[..currentBranchOp]));
      i := i + 1;
    }
    assert branchTargets[..currentBranchOp] == branchTargets[..];
    assert branchGoesToLabel[..currentBranchOp] == branchGoesToLabel[..];
  }

  /** The closing loop of appendStages: each branch target becomes the distance to its label. */
  method FixUpBranches(branchTargets: array<int>, labelOffsets: array<int>, branchGoesToLabel: array<int>,
                       ghost st: Layout)
    requires branchTargets != labelOffsets && branchTargets != branchGoesToLabel
    requires branchTargets.Length == branchGoesToLabel.Length
    requires st == Layout(st.numStages, st.mostRecentRewind, labelOffsets[..], branchTargets[..], branchGoesToLabel[..])
    requires forall b :: 0 <= b < |st.branchLabel| ==> 0 <= st.branchLabel[b] < |st.labelOffsets|
    modifies branchTargets
    ensures |st.branchPos| == |st.branchLabel| && branchTargets[..] == BranchOffsets(st)
  {
    var index := 0;
    while index < branchTargets.Length
      invariant 0 <= index <= branchTargets.Length
      invariant forall b :: 0 <= b < index ==> branchTargets[b] == labelOffsets[branchGoesToLabel[b]] - st.branchPos[b]
      invariant forall b :: index <= b < branchTargets.Length ==> branchTargets[b] == st.branchPos[b]
    {
      var branchFromIdx := branchTargets[index];
      var branchToIdx := labelOffsets[branchGoesToLabel[index]];
      branchTargets[index] := branchToIdx - branchFromIdx;
      index := index + 1;
    }
  }

  /** The body of the appendStages loop, as far as labels, branches and stage counts go. */
  method PlaceInstruction(pl: Placement, rewinds: bool, numStages: int, mostRecentRewind: int,
                          labelOffsets: array<int>, branchTargets: array<int>, branchGoesToLabel: array<int>,
                          currentBranchOp: int)
    returns (numStages': int, mostRecentRewind': int, currentBranchOp': int)
    requires branchTargets.Length == branchGoesToLabel.Length && branchTargets != branchGoesToLabel
    requires labelOffsets != branchTargets && labelOffsets != branchGoesToLabel
    requires pl.PlaceLabel? ==> 0 <= pl.id < labelOffsets.Length
    requires pl.PlaceBranch? ==> 0 <= pl.target < labelOffsets.Length
    requires 0 <= currentBranchOp && currentBranchOp + (if pl.PlaceBranch? then 1 else 0) <= branchTargets.Length
    modifies labelOffsets, branchTargets, branchGoesToLabel
    ensures currentBranchOp' == currentBranchOp + (if pl.PlaceBranch? then 1 else 0)
    ensures PlaceStep(Layout(numStages, mostRecentRewind, old(labelOffsets[..]), old(branchTargets[..currentBranchOp]),
                             old(branchGoesToLabel[..currentBranchOp])), pl, rewinds) ==
            Layout(numStages', mostRecentRewind', labelOffsets[..], branchTargets[..currentBranchOp'],
                   branchGoesToLabel[..currentBranchOp'])
  {
    numStages', mostRecentRewind', currentBranchOp' := numStages, mostRecentRewind, currentBranchOp;
    match pl
    case PlaceLabel(id) =>
      labelOffsets[id] := numStages';
    case PlaceBranch(target) =>
      if labelOffsets[target] >= 0 {
        if rewinds { numStages' := numStages' + 1; }
        mostRecentRewind' := numStages';
      }
      branchTargets[currentBranchOp'] := numStages';
      branchGoesToLabel[currentBranchOp'] := target;
      numStages' := numStages' + 1;
      currentBranchOp' := currentBranchOp' + 1;
      assert branchTargets[..currentBranchOp'] == old(branchTargets[..currentBranchOp]) + [branchTargets[currentBranchOp]];
      assert branchGoesToLabel[..currentBranchOp'] == old(branchGoesToLabel[..currentBranchOp]) + [target];
    case PlaceStages(count) =>
      numStages' := numStages' + count;
  }

  /** The rewind check appendStages makes after each instruction. */
  method MaybeRewind(rewinds: bool, numStages: int, mostRecentRewind: int, ghost st: Layout)
    returns (numStages': int, mostRecentRewind': int)
    requires st.numStages == numStages && st.mostRecentRewind == mostRecentRewind
    ensures RewindStep(st, rewinds) == st.(numStages := numStages', mostRecentRewind := mostRecentRewind')
  {
    numStages', mostRecentRewind' := numStages, mostRecentRewind;
    if numStages - mostRecentRewind > REWIND_INTERVAL {
      if rewinds { numStages' := numStages + 1; }
      mostRecentRewind' := numStages;
    }
  }
}
