# A verified model of pieces of Skia

This project models, in Dafny, a set of self-contained pieces of the Skia graphics library and proves properties of them:

- the SkSL Raster Pipeline instruction builder: the stack effect of every instruction, the builder's appenders, the number of temporary-stack slots a program needs, the splitting of copies into stages of at most four slots, and the fix-up of branch offsets;
- the Raster Pipeline code generator's slot allocation, operator selection, folding and `if` lowering;
- the shader code dictionary (find-or-create by key contents, built-in and user-defined snippet IDs, runtime-effect snippets, default call arguments) and the pipeline data cache;
- the counting of Graphite precompile combinations and the split of a combination index into one index per option;
- the family, name and fallback-chain registries of both Android font hosts;
- the classification of the GL version, shading-language version, vendor and renderer strings, the stencil-function table and the compressed-format test;
- `SkSL::stoi`, the sksl-minify tool's name helpers and token re-lexing, and the build script that runs the minifier over the SkSL modules;
- the image decoder's own state, pixel-ref lock counting and generation IDs with the factory registry, and mesh index generation;
- the emoji font's glyph lookup and image cache, and the program that generates its code-point table;
- the DSL C++ generator's variable naming, modifier text and enum key widths;
- the program descriptor's processor keys;
- the removal of dead global variables from SkSL modules and programs.

Most source files are one Dafny module each, named after the file. Two are split by concern:
- src/sksl/codegen/SkSLRasterPipelineBuilder.h and .cpp become three modules: `RPOps` (the instructions and their stack effect), `RPBuilder` (the `Builder` members) and `RPProgram` (the `Program` members);
- legacy/src/ports/SkFontHost_android.cpp becomes `FontHostLegacy` (families, names and face lookup) and `FontHostLegacyFallback` (the per-language fallback chains).

The newer src/ports/SkFontHost_android.cpp is `FontHost`, and src/gpu/graphite/PipelineDataCache.h is `PipelineDataCache`. Code that changes state in place (the builders, registries, caches and descriptors) is a `class` whose methods are proved against specification functions. Pure code is datatypes, functions and lemmas. `Wrappers` holds `Option` and `Result`. `Text` and `Ints` hold the string and fixed-width integer helpers that stand for the C library calls the sources use.

## Model

| member | source | states |
|---|---|---|
| RPOps.StackUsage | src/sksl/codegen/SkSLRasterPipelineBuilder.cpp:158-199 | the stack slots one instruction pushes (positive) or pops (negative); NetUsageAppend and the NetUsage lemmas state its sums |
| RPOps.NetUsage | src/sksl/codegen/SkSLRasterPipelineBuilder.cpp:158-199 | the net stack growth of an instruction run, the sum of its instructions' usage; NetUsageAppend states it is additive |
| RPOps.NetUsageAppend | src/sksl/codegen/SkSLRasterPipelineBuilder.cpp:158-199 | the net stack growth of two instruction runs laid end to end is the sum of their net growths |
| RPOps.CountBranchesAppend | src/sksl/codegen/SkSLRasterPipelineBuilder.h:165-186 | appending one instruction adds one to the branch count exactly when it is a jump or a branch_if_* |
| RPOps.StraightLineAppend | src/sksl/codegen/SkSLRasterPipelineBuilder.h:132-337 | appending code without labels or branches leaves the branch count and the label-range property unchanged |
| RPOps.BitCastRoundTrip | src/sksl/codegen/SkSLRasterPipelineBuilder.h:188-211 | the float/uint bit-cast into the int32 immediate and back is the identity in both directions |
| RPOps.PackComponentsNybble | src/sksl/codegen/SkSLRasterPipelineBuilder.cpp:132-145 | nybble i of the packed swizzle is component i (reverse order in the integer), 0 past the last component |
| RPOps.PackComponentsBound | src/sksl/codegen/SkSLRasterPipelineBuilder.cpp:132-145 | k packed components fit in 4k bits |
| RPBuilder.DuplicatesNetUsage | src/sksl/codegen/SkSLRasterPipelineBuilder.cpp:112-130 | the code push_duplicates(count) emits grows the stack by exactly count slots |
| RPBuilder.ClonesNetUsage | src/sksl/codegen/SkSLRasterPipelineBuilder.cpp:119-122 | k push_clone(numSlots) instructions grow the stack by k * numSlots |
| RPBuilder.SplatNetUsage | src/sksl/codegen/SkSLRasterPipelineBuilder.cpp:114-117 | a splat to n slots grows the stack by n - 1 |
| RPBuilder.TrailingNetUsage | src/sksl/codegen/SkSLRasterPipelineBuilder.cpp:124-129 | the trailing 0-3 duplicates grow the stack by their count |
| RPBuilder.DuplicatesCode | src/sksl/codegen/SkSLRasterPipelineBuilder.cpp:112-130 | the code push_duplicates(count) emits; DuplicatesCodeSplit states its three parts and DuplicatesNetUsage its net growth of count |
| RPBuilder.DuplicatesCodeSplit | src/sksl/codegen/SkSLRasterPipelineBuilder.cpp:112-130 | push_duplicates is an optional 4-splat, then count/4 four-slot clones, then the remainder |
| RPBuilder.Builder.constructor | src/sksl/codegen/SkSLRasterPipelineBuilder.h:341-344 | a new builder has no instructions, labels or branches |
| RPBuilder.Builder.NextLabelID | src/sksl/codegen/SkSLRasterPipelineBuilder.h:127-129 | returns the old label count and increments it; nothing else changes |
| RPBuilder.Builder.InitLaneMasks | src/sksl/codegen/SkSLRasterPipelineBuilder.h:132-134 | appends exactly one init_lane_masks instruction, counters unchanged |
| RPBuilder.Builder.StoreSrcRg | src/sksl/codegen/SkSLRasterPipelineBuilder.h:136-139 | requires a 2-slot range; appends store_src_rg at its first slot |
| RPBuilder.Builder.StoreSrc | src/sksl/codegen/SkSLRasterPipelineBuilder.h:141-144 | requires a 4-slot range; appends store_src at its first slot |
| RPBuilder.Builder.StoreDst | src/sksl/codegen/SkSLRasterPipelineBuilder.h:146-149 | requires a 4-slot range; appends store_dst at its first slot |
| RPBuilder.Builder.LoadSrc | src/sksl/codegen/SkSLRasterPipelineBuilder.h:151-154 | requires a 4-slot range; appends load_src at its first slot |
| RPBuilder.Builder.LoadDst | src/sksl/codegen/SkSLRasterPipelineBuilder.h:156-159 | requires a 4-slot range; appends load_dst at its first slot |
| RPBuilder.Builder.SetCurrentStack | src/sksl/codegen/SkSLRasterPipelineBuilder.h:161-163 | appends set_current_stack carrying the stack index |
| RPBuilder.Builder.Label | src/sksl/codegen/SkSLRasterPipelineBuilder.h:165-168 | requires 0 <= labelID < label count; appends the label, branch count unchanged |
| RPBuilder.Builder.Branch | src/sksl/codegen/SkSLRasterPipelineBuilder.h:170-186 | requires a valid label; appends the branch and increments the branch count by one |
| RPBuilder.Builder.Jump | src/sksl/codegen/SkSLRasterPipelineBuilder.h:170-174 | requires a valid label; appends jump and increments the branch count by one |
| RPBuilder.Builder.BranchIfAnyActiveLanes | src/sksl/codegen/SkSLRasterPipelineBuilder.h:176-180 | requires a valid label; appends branch_if_any_active_lanes and increments the branch count |
| RPBuilder.Builder.BranchIfNoActiveLanes | src/sksl/codegen/SkSLRasterPipelineBuilder.h:182-186 | requires a valid label; appends branch_if_no_active_lanes and increments the branch count |
| RPBuilder.Builder.ImmediateF | src/sksl/codegen/SkSLRasterPipelineBuilder.h:189-191 | appends immediate_f holding the float's bits as an int32 |
| RPBuilder.Builder.ImmediateI | src/sksl/codegen/SkSLRasterPipelineBuilder.h:193-195 | appends immediate_f holding the int32 unchanged |
| RPBuilder.Builder.ImmediateU | src/sksl/codegen/SkSLRasterPipelineBuilder.h:197-199 | appends immediate_f holding the uint32 bit-cast to int32 |
| RPBuilder.Builder.PushLiteralF | src/sksl/codegen/SkSLRasterPipelineBuilder.h:201-203 | appends push_literal_f holding the float's bits as an int32 |
| RPBuilder.Builder.PushLiteralI | src/sksl/codegen/SkSLRasterPipelineBuilder.h:205-207 | appends push_literal_f holding the int32 unchanged |
| RPBuilder.Builder.PushLiteralU | src/sksl/codegen/SkSLRasterPipelineBuilder.h:209-211 | appends push_literal_f holding the uint32 bit-cast to int32 |
| RPBuilder.Builder.PushSlots | src/sksl/codegen/SkSLRasterPipelineBuilder.h:213-216 | appends push_slots with the range's first slot and count |
| RPBuilder.Builder.CopyStackToSlots | src/sksl/codegen/SkSLRasterPipelineBuilder.h:218-222 | appends copy_stack_to_slots with the range's first slot and count |
| RPBuilder.Builder.CopyStackToSlotsUnmasked | src/sksl/codegen/SkSLRasterPipelineBuilder.h:224-228 | appends copy_stack_to_slots_unmasked with the range's first slot and count |
| RPBuilder.Builder.UnaryOp | src/sksl/codegen/SkSLRasterPipelineBuilder.cpp:76-86 | appends one instruction when the op is a listed unary op, and nothing otherwise |
| RPBuilder.Builder.BinaryOp | src/sksl/codegen/SkSLRasterPipelineBuilder.cpp:88-98 | appends one instruction when the op is a listed binary op, and nothing otherwise |
| RPBuilder.Builder.TernaryOp | src/sksl/codegen/SkSLRasterPipelineBuilder.cpp:100-110 | appends one instruction when the op is a listed ternary op, and nothing otherwise |
| RPBuilder.Builder.DiscardStack | src/sksl/codegen/SkSLRasterPipelineBuilder.h:238-241 | appends discard_stack with the count |
| RPBuilder.Builder.PopSlots | src/sksl/codegen/SkSLRasterPipelineBuilder.h:243-248 | appends exactly copy_stack_to_slots(dst) then discard_stack(dst.count) |
| RPBuilder.Builder.Duplicate | src/sksl/codegen/SkSLRasterPipelineBuilder.h:250-254 | appends duplicate with the count |
| RPBuilder.Builder.Select | src/sksl/codegen/SkSLRasterPipelineBuilder.h:256-261 | requires slots > 0; appends select with the slot count |
| RPBuilder.Builder.PopSlotsUnmasked | src/sksl/codegen/SkSLRasterPipelineBuilder.h:263-268 | appends exactly copy_stack_to_slots_unmasked(dst) then discard_stack(dst.count) |
| RPBuilder.Builder.LoadUnmasked | src/sksl/codegen/SkSLRasterPipelineBuilder.h:270-272 | appends load_unmasked at the slot |
| RPBuilder.Builder.StoreUnmasked | src/sksl/codegen/SkSLRasterPipelineBuilder.h:274-276 | appends store_unmasked at the slot |
| RPBuilder.Builder.StoreMasked | src/sksl/codegen/SkSLRasterPipelineBuilder.h:278-280 | appends store_masked at the slot |
| RPBuilder.Builder.CopySlotsMasked | src/sksl/codegen/SkSLRasterPipelineBuilder.h:282-285 | requires equal counts; appends copy_slot_masked storing dst, src and the count |
| RPBuilder.Builder.CopySlotsUnmasked | src/sksl/codegen/SkSLRasterPipelineBuilder.h:287-290 | requires equal counts; appends copy_slot_unmasked storing dst, src and the count |
| RPBuilder.Builder.ZeroSlotsUnmasked | src/sksl/codegen/SkSLRasterPipelineBuilder.h:292-294 | appends zero_slot_unmasked with the range's first slot and count |
| RPBuilder.Builder.MaskOp | src/sksl/codegen/SkSLRasterPipelineBuilder.h:296-339 | each of the condition/loop/return mask appenders appends exactly its one instruction |
| RPBuilder.Builder.ReenableLoopMask | src/sksl/codegen/SkSLRasterPipelineBuilder.h:320-323 | requires a 1-slot range; appends reenable_loop_mask at it |
| RPBuilder.Builder.PushClone | src/sksl/codegen/SkSLRasterPipelineBuilder.cpp:118-122 | appends one push_clone of numSlots |
| RPBuilder.Builder.Swizzle | src/sksl/codegen/SkSLRasterPipelineBuilder.cpp:132-145 | requires 1 <= size <= 4 and every component below inputSlots; appends the swizzle op for the size with the components packed as nybbles |
| RPBuilder.Builder.PushDuplicates | src/sksl/codegen/SkSLRasterPipelineBuilder.cpp:112-130 | appends exactly the duplicate code for count (whose net usage is count, by DuplicatesNetUsage) |
| RPBuilder.Builder.PushCloneGroups | src/sksl/codegen/SkSLRasterPipelineBuilder.cpp:119-122 | the clone loop appends count/4 four-slot clones and leaves count % 4 |
| RPBuilder.Builder.PushTrailing | src/sksl/codegen/SkSLRasterPipelineBuilder.cpp:124-129 | the final switch appends the 0-3 trailing duplicates |
| RPBuilder.Builder.Finish | src/sksl/codegen/SkSLRasterPipelineBuilder.cpp:147-152 | the program gets the builder's instructions, label and branch counts and the slot counts, and computes its temp-stack depths |
| RPProgram.TempStackMaxDepths | src/sksl/codegen/SkSLRasterPipelineBuilder.cpp:201-221 | the per-stack largest depths and stack order of the depth walk, and whether it never went negative and ended with every stack at 0 |
| RPProgram.MaxDepths | src/sksl/codegen/SkSLRasterPipelineBuilder.cpp:201-221 | the largest depth of each temp stack over the program; TempStackMaxDepths, MaxDepthsNonNegative and MaxDepthBoundsEveryStep state it |
| RPProgram.LargestDominatesCurrent | src/sksl/codegen/SkSLRasterPipelineBuilder.cpp:201-221 | each stack's largest depth is at least 0 and at least its current depth after every instruction |
| RPProgram.LargestMonotone | src/sksl/codegen/SkSLRasterPipelineBuilder.cpp:211-212 | a stack's largest depth never decreases along the walk |
| RPProgram.MaxDepthBoundsEveryStep | src/sksl/codegen/SkSLRasterPipelineBuilder.cpp:201-221 | the returned maximum bounds the stack's depth at every step |
| RPProgram.BalancedPrefixesNonNegative | src/sksl/codegen/SkSLRasterPipelineBuilder.cpp:213-219 | when the debug assertions hold, no stack depth is negative after any prefix |
| RPProgram.SingleStackDepthIsNetUsage | src/sksl/codegen/SkSLRasterPipelineBuilder.cpp:201-221 | without set_current_stack, stack 0's depth after n instructions is their net stack usage |
| RPProgram.BalancedSingleStackNetsZero | src/sksl/codegen/SkSLRasterPipelineBuilder.cpp:213-219 | a balanced single-stack program has net stack usage 0 |
| RPProgram.MaxDepthsNonNegative | src/sksl/codegen/SkSLRasterPipelineBuilder.cpp:201-221 | every recorded maximum depth is non-negative |
| RPProgram.StacksDisjointAndInside | src/sksl/codegen/SkSLRasterPipelineBuilder.cpp:438-443 | stacks laid out one after another in map order do not overlap and fit inside the summed temp-stack size |
| RPProgram.Program.constructor | src/sksl/codegen/SkSLRasterPipelineBuilder.cpp:223-248 | fNumTempStackSlots is the sum of the per-stack maximum depths, the other fields are the arguments |
| RPProgram.AppendCopy | src/sksl/codegen/SkSLRasterPipelineBuilder.cpp:272-294 | emits ceil(n/4) stages; stage k covers between 1 and 4 slots, uses base + size - 1 and starts 4k strides into dst and src |
| RPProgram.AsRange | src/sksl/codegen/SkSLRasterPipelineBuilder.cpp:799-806 | the dump text of a slot range: the first slot alone for one slot, "first..last" for more |
| RPProgram.AsRangeInjective | src/sksl/codegen/SkSLRasterPipelineBuilder.cpp:799-806 | the dump names every non-empty slot range unambiguously: equal texts come from the same first slot and count |
| RPProgram.RunLayoutOk | src/sksl/codegen/SkSLRasterPipelineBuilder.cpp:450-726 | the branch position and label records of the stage walk stay the same length |
| RPProgram.StageCount | src/sksl/codegen/SkSLRasterPipelineBuilder.cpp:484-709 | the stages appendStages emits for one non-branch, non-label instruction: one for a single-stage op, by slot count for the unary, binary, ternary and copy lowerings; Program.AppendStagesBranches states the total |
| RPProgram.BranchTargets | src/sksl/codegen/SkSLRasterPipelineBuilder.cpp:450-733 | one target per branch instruction, each its label's offset minus the branch's position; BranchesTestOffsets gives the test program's targets |
| RPProgram.BranchesBeforeCountsBranches | src/sksl/codegen/SkSLRasterPipelineBuilder.cpp:464-482 | the walk records one branch per jump/branch_if_* instruction |
| RPProgram.BranchRecordsMatchPlacements | src/sksl/codegen/SkSLRasterPipelineBuilder.cpp:464-482 | every recorded branch names a label in range |
| RPProgram.BackwardBranchOffset | src/sksl/codegen/SkSLRasterPipelineBuilder.cpp:467-474 | a branch to an already placed label gets a non-positive offset, negative when stack rewinds are appended before it |
| RPProgram.Program.AppendStagesBranches | src/sksl/codegen/SkSLRasterPipelineBuilder.cpp:417-733 | the stage count and the fixed-up branch targets equal those of the layout function: each target is its label's offset minus the branch's position |
| RPProgram.WalkLayout | src/sksl/codegen/SkSLRasterPipelineBuilder.cpp:450-726 | the instruction loop leaves the arrays equal to the layout function's records |
| RPProgram.FixUpBranches | src/sksl/codegen/SkSLRasterPipelineBuilder.cpp:728-733 | each branch target becomes its label's offset minus the branch's own position |
| RPProgram.BranchesTestOffsets | tests/RasterPipelineBuilderTest.cpp:239-268 | the branch test program lays out 8 stages with branches at 0, 4 and 7 and targets 5, -2 and -6 |
| RPProgram.BranchesTestFinalLayout | tests/RasterPipelineBuilderTest.cpp:239-268 | the complete layout of the branch test program |
| RPCodeGen.OpTablesShape | src/sksl/codegen/SkSLRasterPipelineCodeGenerator.cpp:400-457 | the operator tables: + has no boolean op, < and <= have no unsigned or boolean op, == and != support every numeric kind |
| RPCodeGen.Generator.constructor | src/sksl/codegen/SkSLRasterPipelineCodeGenerator.cpp:168-172 | a new generator has an empty slot map, slot count 0 and an empty builder |
| RPCodeGen.AddFreshRange | src/sksl/codegen/SkSLRasterPipelineCodeGenerator.cpp:168-194 | adding the next fresh range keeps all allocated ranges disjoint and below the slot count |
| RPCodeGen.Generator.CreateSlots | src/sksl/codegen/SkSLRasterPipelineCodeGenerator.cpp:168-181 | returns {old fSlotCount, n} and adds n to fSlotCount; the slot map and builder are unchanged |
| RPCodeGen.Generator.GetSlots | src/sksl/codegen/SkSLRasterPipelineCodeGenerator.cpp:183-194 | a variable already in the map gets its range back with nothing allocated; a new one gets a fresh range that is recorded |
| RPCodeGen.Generator.GetFunctionSlots | src/sksl/codegen/SkSLRasterPipelineCodeGenerator.cpp:196-207 | the same memoisation, keyed by call site, sized by the return type |
| RPCodeGen.Generator.BinaryOp | src/sksl/codegen/SkSLRasterPipelineCodeGenerator.cpp:340-354 | returns false, emitting nothing, exactly when the op for the number kind is unsupported; otherwise emits binary_op(op, slots) |
| RPCodeGen.FoldCode | src/sksl/codegen/SkSLRasterPipelineCodeGenerator.cpp:361-366 | max(n-1, 0) single-slot ops (none if the op is not a binary op) |
| RPCodeGen.FoldNetUsage | src/sksl/codegen/SkSLRasterPipelineCodeGenerator.cpp:361-366 | folding n >= 1 elements shrinks the stack by n - 1 |
| RPCodeGen.Generator.FoldWithOp | src/sksl/codegen/SkSLRasterPipelineCodeGenerator.cpp:361-366 | the loop appends exactly the fold code |
| RPCodeGen.IfPairsConditionMasks | src/sksl/codegen/SkSLRasterPipelineCodeGenerator.cpp:266-292 | on success every push_condition_mask the if statement adds is matched by a pop_condition_mask |
| RPCodeGen.IfNetUsage | src/sksl/codegen/SkSLRasterPipelineCodeGenerator.cpp:266-292 | on success the if statement discards its test value: net stack usage is that of its parts minus one |
| RPCodeGen.IfCode | src/sksl/codegen/SkSLRasterPipelineCodeGenerator.cpp:266-292 | the code of an if statement; IfPairsConditionMasks, IfNetUsage and IfFailureStopsEarly state it |
| RPCodeGen.IfFailureStopsEarly | src/sksl/codegen/SkSLRasterPipelineCodeGenerator.cpp:267-285 | a failing part returns at once, leaving one unmatched push_condition_mask when it fails after the push |
| RPCodeGen.Generator.WriteIfStatement | src/sksl/codegen/SkSLRasterPipelineCodeGenerator.cpp:266-292 | succeeds iff test and branches succeed, and emits exactly the if code |
| RPCodeGen.Generator.WriteIfTrue | src/sksl/codegen/SkSLRasterPipelineCodeGenerator.cpp:267-276 | the test, push_condition_mask, the true branch and pop_condition_mask, stopping at the first failure |
| RPCodeGen.Generator.WriteIfFalse | src/sksl/codegen/SkSLRasterPipelineCodeGenerator.cpp:278-289 | negate the test, push the mask, the false branch, pop the mask and discard the test, stopping at a failure |
| ShaderCodeDictionary.MangledName | src/core/SkShaderCodeDictionary.cpp:39-41 | the base name, then "_", then a non-empty decimal suffix |
| ShaderCodeDictionary.MangledNameInjective | src/core/SkShaderCodeDictionary.cpp:39-41 | two suffixes give the same mangled name only if they are equal |
| ShaderCodeDictionary.MangledNames | src/core/SkShaderCodeDictionary.cpp:46-64 | the uniform and sampler names are each mangled with the entry index, in order, and read through the storage-buffer access when the shader has one |
| ShaderCodeDictionary.AppendArgument | src/core/SkShaderCodeDictionary.cpp:315-336 | appending one argument keeps the code equal to "(" plus the ", "-join of everything written so far |
| ShaderCodeDictionary.AppendMangledNames | src/core/SkShaderCodeDictionary.cpp:338-349 | the uniform and sampler loops append the (accessed) mangled names in order with the same invariant |
| ShaderCodeDictionary.AppendArguments | src/core/SkShaderCodeDictionary.cpp:351-356 | the child-output loop appends the child outputs in order with the same invariant |
| ShaderCodeDictionary.AppendDefaultSnippetArguments | src/core/SkShaderCodeDictionary.cpp:308-360 | "(" + ", "-join of [prior output?, dest colour?, coords?, uniforms (through the storage buffer if any), samplers, children] + ")" |
| ShaderCodeDictionary.DefaultArguments | src/core/SkShaderCodeDictionary.cpp:308-360 | the default call's arguments in order; AppendDefaultSnippetArguments states the code is "(" plus their ", "-join |
| ShaderCodeDictionary.Dictionary.constructor | src/core/SkShaderCodeDictionary.cpp:1112-1114 | the dictionary starts with index 0 reserved (null) and nothing else |
| ShaderCodeDictionary.Dictionary.FindOrCreate | src/core/SkShaderCodeDictionary.cpp:228-250 | an equal key returns the existing entry with nothing changed; a new key gets ID = entry-vector size, is appended and hashed; the result is what Lookup returns for its ID |
| ShaderCodeDictionary.Dictionary.DistinctKeysDistinctIDs | src/core/SkShaderCodeDictionary.cpp:228-250 | different keys never share an ID |
| ShaderCodeDictionary.FindOrCreateDedup | src/core/SkShaderCodeDictionary.cpp:228-250 | two calls with the same key give the same entry and add at most one entry |
| ShaderCodeDictionary.Dictionary.Lookup | src/core/SkShaderCodeDictionary.cpp:252-264 | the invalid ID 0 gives null; any other ID gives the entry registered under it |
| ShaderCodeDictionary.Dictionary.GetEntry | src/core/SkShaderCodeDictionary.cpp:276-291 | negative gives null, below the built-in count the built-in snippet, otherwise the user snippet if in range, else null |
| ShaderCodeDictionary.Dictionary.IsValidIDMatchesGetEntry | src/core/SkShaderCodeDictionary.cpp:927-938 | isValidID(id) holds iff getEntry(id) is non-null |
| ShaderCodeDictionary.Dictionary.AddUserDefinedSnippet | src/core/SkShaderCodeDictionary.cpp:942-966 | appends the snippet and returns kBuiltInCodeSnippetIDCount + new size - 1, an ID that is valid and names that snippet |
| ShaderCodeDictionary.Dictionary.AddNamedUserDefinedSnippet | src/core/SkShaderCodeDictionary.cpp:968-980 | appends a "UserDefined" snippet with no uniforms, samplers or children, with the same ID rule |
| ShaderCodeDictionary.Dictionary.FindOrCreateRuntimeEffectSnippet | src/core/SkShaderCodeDictionary.cpp:1077-1110 | a known {hash, uniform size} key returns its ID with nothing changed; a new key adds one runtime-effect snippet and records its ID |
| ShaderCodeDictionary.RuntimeEffectSnippet | src/core/SkShaderCodeDictionary.cpp:1077-1110 | the snippet registered for a runtime effect: its uniforms and child count, local coordinates required when it allows shaders and the destination colour when it allows blenders; Dictionary.FindOrCreateRuntimeEffectSnippet states its registration |
| ShaderCodeDictionary.RuntimeEffectDedup | src/core/SkShaderCodeDictionary.cpp:1077-1110 | two effects with the same hash and uniform size get the same ID, adding at most one snippet |
| PipelineDataCache.DataRefEquals | src/gpu/graphite/PipelineDataCache.h:53-60 | a null pointer equals only null; otherwise equality is content equality |
| PipelineDataCache.PipelineDataCache.constructor | src/gpu/graphite/PipelineDataCache.h:29 | an empty cache |
| PipelineDataCache.PipelineDataCache.Insert | src/gpu/graphite/PipelineDataCache.h:31-42 | an equal block returns the existing pointer and leaves the cache unchanged; a new block is copied, gets a new pointer and the count grows by one |
| PipelineDataCache.PipelineDataCache.Count | src/gpu/graphite/PipelineDataCache.h:45-47 | the number of distinct blocks stored |
| PipelineDataCache.PipelineDataCache.PointerEqualityIsContentEquality | src/gpu/graphite/PipelineDataCache.h:20-22 | two pointers from the cache are equal iff the blocks' contents are |
| PipelineDataCache.InsertEqualBlocks | src/gpu/graphite/PipelineDataCache.h:31-47 | inserting equal blocks twice gives the same pointer and grows the count by at most one |
| PipelineDataCache.InsertDifferentBlocks | src/gpu/graphite/PipelineDataCache.h:31-42 | different blocks get different pointers |
| Precompile.NumShaderCombinations | src/gpu/graphite/Precompile.cpp:78-86 | the sum of the shader options' counts, or 1 when that sum is 0; at least 1 when no count is negative |
| Precompile.NumColorFilterCombinations | src/gpu/graphite/Precompile.cpp:88-100 | the sum of the colour filters' counts, a null filter counting 1, or 1 when the sum is 0 |
| Precompile.NumBlendModeCombinations | src/gpu/graphite/Precompile.cpp:102-115 | the number of blend modes plus the blenders' child counts, or 1 when that is 0 |
| Precompile.NumClipShaderCombinations | src/gpu/graphite/Precompile.cpp:117-129 | the sum of the clip shaders' child counts, a null clip shader counting 1, or 1 when the sum is 0 |
| Precompile.SumCounts | src/gpu/graphite/Precompile.cpp:78-129 | each counting loop computes the sum of its counts |
| Precompile.NullCountsOne | src/gpu/graphite/Precompile.cpp:90-95 | a null option contributes 1 and any other its own count |
| Precompile.OrOneAtLeastOne | src/gpu/graphite/Precompile.cpp:85 | a sum of non-negative counts with the zero case replaced by 1 is at least 1 |
| Precompile.NumCombinations | src/gpu/graphite/Precompile.cpp:132-138 | the product of the four counts, which is at least each of them when all are at least 1 |
| Precompile.SplitCombination | src/gpu/graphite/Precompile.cpp:371-386 | the mixed-radix split of the index: clip fastest, then blend, then colour filter, the rest the shader; each digit in range |
| Precompile.SplitThenIndex | src/gpu/graphite/Precompile.cpp:371-386 | the digits recombine into the index they were split from |
| Precompile.IndexThenSplit | src/gpu/graphite/Precompile.cpp:371-386 | splitting the index of in-range digits gives those digits back |
| Precompile.SplitInjective | src/gpu/graphite/Precompile.cpp:371-386 | different indices give different combinations |
| Precompile.SplitShaderInRange | src/gpu/graphite/Precompile.cpp:386-387 | an index below numCombinations gives a shader digit below the shader count (the assertion holds) |
| Precompile.ClipShaderOptionsShape | src/gpu/graphite/Precompile.cpp:61-76 | two options per input clip shader: its CTM wrapper and that wrapper with the blend colour filter, both null for a null input |
| Precompile.ClipShaderOptions | src/gpu/graphite/Precompile.cpp:61-76 | the clip-shader options, two per input clip shader; ClipShaderOptionsShape states them |
| Precompile.PaintOptions.constructor | src/gpu/graphite/Precompile.cpp:61-63 | no clip shader options yet |
| Precompile.PaintOptions.SetClipShaders | src/gpu/graphite/Precompile.cpp:61-76 | appends exactly the two options per clip shader, in order |
| Precompile.ShouldDither | src/gpu/graphite/Precompile.cpp:273-290 | false when the dither flag is off or the colour type unknown; true for 565 and 4444 when dithering; otherwise true iff there is a shader and it is not constant |
| FontHostLegacy.FlipItalic | legacy/src/ports/SkFontHost_android.cpp:138 | flipping the italic bit of a style changes the style, toggles italic and keeps the weight |
| FontHostLegacy.FirstFace | legacy/src/ports/SkFontHost_android.cpp:147-151 | the first non-null face in slot order; null exactly when every slot of the family is empty |
| FontHostLegacy.BestFace | legacy/src/ports/SkFontHost_android.cpp:130-155 | the face findBestFaceLocked picks is one of the family's faces, and there is none exactly when the family is empty |
| FontHostLegacy.BestFaceOfMember | legacy/src/ports/SkFontHost_android.cpp:253-257 | a family holding a face always yields a best face from that family |
| FontHostLegacy.FindBestFaceLocked | legacy/src/ports/SkFontHost_android.cpp:130-155 | the loop computes BestFace: the exact style if present, else the same weight with italic flipped, else the plain face, else the first face present; null only for an empty family |
| FontHostLegacy.InsertionPoint | legacy/src/ports/SkFontHost_android.cpp:263 | the position of the first name not less than the lower-cased name: every name before it is smaller |
| FontHostLegacy.SearchNames | legacy/src/ports/SkFontHost_android.cpp:243-251 | on the sorted name list, a non-negative answer is an index holding the name, a negative one is the one's complement of the insertion point, and it is negative exactly when the name is absent |
| FontHostLegacy.AfterInsertionPoint | legacy/src/ports/SkFontHost_android.cpp:263-268 | when the name is absent, every name from the insertion point on is larger |
| FontHostLegacy.InsertKeepsSorted | legacy/src/ports/SkFontHost_android.cpp:266-267 | inserting at the insertion point keeps the name list strictly sorted |
| FontHostLegacy.WithoutFamily | legacy/src/ports/SkFontHost_android.cpp:272-287 | the name list with exactly the pairs naming one family taken out |
| FontHostLegacy.WithoutFamilySorted | legacy/src/ports/SkFontHost_android.cpp:272-287 | removing a family's names keeps the name list sorted |
| FontHostLegacy.WithoutFamilySplit | legacy/src/ports/SkFontHost_android.cpp:280-285 | removing from a suffix decides the first pair and removes from the rest, which is why the backward loop is correct |
| FontHostLegacy.TypefaceLookupCompare | legacy/src/ports/SkFontHost_android.cpp:1186-1198 | a three-way comparison that is 0 exactly on equal keys and orders by script, then style, then font variant |
| FontHostLegacy.TypefaceLookupOrder | legacy/src/ports/SkFontHost_android.cpp:1186-1198 | the comparison is antisymmetric and transitive, so the table can be binary-searched with it |
| FontHostLegacy.FontRegistry.constructor | legacy/src/ports/SkFontHost_android.cpp:117-119 | the family list and the name list start empty |
| FontHostLegacy.FontRegistry.FindFamilyLocked | legacy/src/ports/SkFontHost_android.cpp:163-174 | the first family in list order that holds the typeface in some slot, or none when no family does |
| FontHostLegacy.FontRegistry.FindFromUniqueIDLocked | legacy/src/ports/SkFontHost_android.cpp:179-191 | the nested loop finds FromUniqueID: the first face with the ID, family by family and slot by slot; none only when no face of any family has that ID |
| FontHostLegacy.FaceWithID | legacy/src/ports/SkFontHost_android.cpp:183-187 | the first slot from a position on holding a face with the ID; none exactly when no later slot does |
| FontHostLegacy.FromUniqueID | legacy/src/ports/SkFontHost_android.cpp:179-191 | the first face with the ID from a family on, held by one of those families; none exactly when none of them has a face with that ID |
| FontHostLegacy.FontRegistry.RemoveFromFamilyLocked | legacy/src/ports/SkFontHost_android.cpp:204-219 | the face's slot in its first family becomes null and nothing else changes; the family is returned exactly when it is now empty; an unknown face changes nothing |
| FontHostLegacy.FontRegistry.DetachAndDeleteFamilyLocked | legacy/src/ports/SkFontHost_android.cpp:222-241 | the family is unlinked from the list and the other families keep their order; an absent family changes nothing |
| FontHostLegacy.FontRegistry.AddTypefaceLocked | legacy/src/ports/SkFontHost_android.cpp:289-300 | without a family member a new family holding the typeface in its style slot goes at the head; with one the typeface fills its style slot in the member's family |
| FontHostLegacy.FontRegistry.AddNameLocked | legacy/src/ports/SkFontHost_android.cpp:259-270 | the lower-cased name is inserted at its sorted position when absent and the list is unchanged when present; afterwards the name is listed and the list stays sorted |
| FontHostLegacy.FontRegistry.RemoveFromNamesLocked | legacy/src/ports/SkFontHost_android.cpp:272-287 | the backward loop leaves exactly the pairs that do not name the family, in order |
| FontHostLegacy.FontRegistry.DeleteEmptiedFamilyLocked | legacy/src/ports/SkFontHost_android.cpp:308-311 | for an emptied family: the name list loses exactly the pairs naming it and the family list loses exactly that family, the others keeping their order |
| FontHostLegacy.FontRegistry.RemoveTypeface | legacy/src/ports/SkFontHost_android.cpp:302-312 | a face no family holds changes nothing; otherwise its slot in the first family holding it is cleared, and if that family is then empty its names are dropped and it is unlinked, the other families keeping their order; the registry stays well formed and no empty family is left behind |
| FontHostLegacy.FontRegistry.FindTypefaceByNameLocked | legacy/src/ports/SkFontHost_android.cpp:243-251 | the answer is NameFace: the best face of the family the lower-cased name points at, null for an unlisted name, and a face whenever the name is listed and no family is empty |
| FontHostLegacy.FontRegistry.FindTypefaceByMemberLocked | legacy/src/ports/SkFontHost_android.cpp:253-257 | the answer is MemberFace: the best face of the first family holding the member; null exactly when no family holds it |
| FontHostLegacy.MemberFace | legacy/src/ports/SkFontHost_android.cpp:253-257 | the best face of the member's first family is a face of that family, and there is one exactly when some family holds the member |
| FontHostLegacy.NameFace | legacy/src/ports/SkFontHost_android.cpp:243-251 | for every pair carrying the lower-cased name the answer is the best face of the family it points at; an unlisted name gives none |
| FontHostLegacy.NameListedOnce | legacy/src/ports/SkFontHost_android.cpp:245-246 | in the sorted name list a name sits at one position only, so the searched pair is the only one with that name |
| FontHostLegacy.FamilyIndex | legacy/src/ports/SkFontHost_android.cpp:225-238 | the position of the first family with the given identity |
| FontHostLegacy.FirstFamilyWith | legacy/src/ports/SkFontHost_android.cpp:163-174 | the index of the first family holding the typeface, or none when no family holds it |
| FontHostLegacy.EmptiedFamilyGone | legacy/src/ports/SkFontHost_android.cpp:302-312 | emptying one family's slot and then removing that family keeps the no-empty-family invariant |
| FontHostLegacy.StyleOf | legacy/src/ports/SkFontHost_android.cpp:1008-1009 | the style of the first face findFromUniqueIDLocked finds for the ID, a registered face |
| FontHostLegacy.FaceOfFamily | legacy/src/ports/SkFontHost_android.cpp:1043-1044 | the answer is BestFaceOfFamily: the best face in the asked style of the family of the first face with the ID, so from the same family as that font |
| FontHostLegacy.BestFaceOfFamily | legacy/src/ports/SkFontHost_android.cpp:1043-1044 | findTypefaceLocked(findFromUniqueIDLocked(id), style) has an answer exactly when some face has the ID |
| FontHostLegacyFallback.ParentTag | include/core/SkLanguage.h:41-44 | one step more general: a proper prefix of the tag ending just before a '-', or the default (empty) tag when the tag has no '-' |
| FontHostLegacyFallback.FirstListFor | legacy/src/ports/SkFontHost_android.cpp:527-538 | the first list whose language is the asked one, or none when no list has it |
| FontHostLegacyFallback.Resolve | legacy/src/ports/SkFontHost_android.cpp:542-583 | the memoised lookup's answer: the exact list, else the answer for the parent tag, else none; the result indexes a list |
| FontHostLegacyFallback.ResolveReachesDefault | legacy/src/ports/SkFontHost_android.cpp:562-575 | when a default list exists every language resolves to some list |
| FontHostLegacyFallback.ResolveSameLanguages | legacy/src/ports/SkFontHost_android.cpp:542-583 | resolution depends only on the lists' languages, so appending fonts to lists never changes which list a language resolves to |
| FontHostLegacyFallback.FirstListSameLanguages | legacy/src/ports/SkFontHost_android.cpp:527-538 | the direct search depends only on the lists' languages |
| FontHostLegacyFallback.PushTo | legacy/src/ports/SkFontHost_android.cpp:600-620 | the record is appended to the first list of the language, every other list unchanged; a missing list is created at the end holding just the record |
| FontHostLegacyFallback.PushToKeepsDistinct | legacy/src/ports/SkFontHost_android.cpp:586-620 | adding a record keeps every language on at most one list and keeps the existing lists' languages |
| FontHostLegacyFallback.ForeignFonts | legacy/src/ports/SkFontHost_android.cpp:646-653 | the default-list records whose font's language differs from the list's, in default-list order |
| FontHostLegacyFallback.ForeignFontsComplete | legacy/src/ports/SkFontHost_android.cpp:646-653 | every default-list record of another language is among them |
| FontHostLegacyFallback.FinalisedChains | legacy/src/ports/SkFontHost_android.cpp:634-660 | after finalising, a language list keeps its own fonts first and then holds a default-list font exactly when that font's language is not the list's |
| FontHostLegacyFallback.PartlyFinalised | legacy/src/ports/SkFontHost_android.cpp:640-656 | after some default fonts have been handed out, the default list is unchanged and every list keeps its language |
| FontHostLegacyFallback.PartlyFinalisedAll | legacy/src/ports/SkFontHost_android.cpp:640-656 | handing out every default font is the finalised state |
| FontHostLegacyFallback.FirstEligible | legacy/src/ports/SkFontHost_android.cpp:1037-1048 | the first entry from the start position whose variant is the default or the preferred one, or none when no later entry qualifies |
| FontHostLegacyFallback.FindFallbackFontIndex | legacy/src/ports/SkFontHost_android.cpp:815-822 | the index of the first entry with the font ID, or -1 exactly when no entry has it |
| FontHostLegacyFallback.FallbackState.constructor | legacy/src/ports/SkFontHost_android.cpp:522-523 | no fallback lists, an empty memo, and the memo not yet usable |
| FontHostLegacyFallback.FallbackState.GetFallbackFontListNoCacheLocked | legacy/src/ports/SkFontHost_android.cpp:527-538 | the first list with the asked language, by direct search |
| FontHostLegacyFallback.FallbackState.GetFallbackFontListLocked | legacy/src/ports/SkFontHost_android.cpp:542-583 | answers the resolved list (memo hit, direct search, or parent fallback), leaves the lists unchanged and only adds memo entries, each agreeing with resolution |
| FontHostLegacyFallback.FallbackState.CreateFallbackFontListLocked | legacy/src/ports/SkFontHost_android.cpp:586-592 | appends an empty list for the language and answers its index |
| FontHostLegacyFallback.FallbackState.AddFallbackFontLocked | legacy/src/ports/SkFontHost_android.cpp:596-621 | the record goes to the default list (created if missing) and, for a non-empty language, also to that language's list (created if missing) |
| FontHostLegacyFallback.FallbackState.FinaliseFallbackFontListsLocked | legacy/src/ports/SkFontHost_android.cpp:634-660 | with more than one list every non-default list receives the default fonts of other languages; the memo becomes usable |
| FontHostLegacyFallback.FallbackState.ResetFallbackFontListsLocked | legacy/src/ports/SkFontHost_android.cpp:662-672 | the memo and the lists are cleared and the memo is no longer usable |
| FontHostLegacyFallback.FinaliseLists | legacy/src/ports/SkFontHost_android.cpp:640-656 | the nested loop computes the finalised lists and keeps each list's language |
| FontHostLegacyFallback.AppendToOtherLanguages | legacy/src/ports/SkFontHost_android.cpp:648-655 | the inner loop hands one default font to every other-language list |
| FontHostLegacyFallback.NextLogicalFontLocked | legacy/src/ports/SkFontHost_android.cpp:1005-1055 | the current font's plain face is located in the language's chain, the first later entry of the default or preferred variant is chosen, and the answer is a face of that entry's family in the original style, or 0 when none |
| FontHostLegacyFallback.NextLogicalFontInChain | legacy/src/ports/SkFontHost_android.cpp:1020-1048 | the same answer once the language's chain is known |
| FontHostLegacyFallback.CurrentFallbackList | legacy/src/ports/SkFontHost_android.cpp:1011-1013 | the chain the language resolves to |
| FontHostLegacyFallback.NextInChain | legacy/src/ports/SkFontHost_android.cpp:1037-1048 | the loop stops at the first eligible entry and answers the best face in the given style of that entry's family, or 0 past the end |
| FontHostLegacyFallback.FindNextEligible | legacy/src/ports/SkFontHost_android.cpp:1037-1047 | the first eligible entry from the start position |
| FontHost.FirstRecordNames | src/ports/SkFontHost_android.cpp:503-522 | a family's first file always gets a names list, the fallback marker exactly when the family has no names |
| FontHost.RecordFor | src/ports/SkFontHost_android.cpp:501-526 | the record for a family's j-th file holds that file, and a names list exactly for the first file |
| FontHost.FirstNamed | src/ports/SkFontHost_android.cpp:514-516 | the first record that carries a family's own names, which is what becomes the default names |
| FontHost.FirstNamedSnoc | src/ports/SkFontHost_android.cpp:514-516 | appending a record changes the first named record only when there was none and the new one is named |
| FontHost.AddFamilyFilesGrows | src/ports/SkFontHost_android.cpp:492-527 | adding a family's files only appends to the table and keeps its files distinct |
| FontHost.AddFamilyFilesComplete | src/ports/SkFontHost_android.cpp:492-527 | every file of the family is in the table afterwards |
| FontHost.AddFamiliesProperties | src/ports/SkFontHost_android.cpp:490-528 | the whole pass keeps files distinct and every named record carries the names of a family whose first file it is |
| FontHost.AddFamiliesComplete | src/ports/SkFontHost_android.cpp:490-528 | every file of every family ends up in the table |
| FontHost.AddFamiliesKeeps | src/ports/SkFontHost_android.cpp:490-528 | a file already in the table stays there |
| FontHost.LoadedRecordsProperties | src/ports/SkFontHost_android.cpp:485-536 | the loaded table has each file of the configuration exactly once, and its names come from the families' first files |
| FontHost.LoadedRecords | src/ports/SkFontHost_android.cpp:485-536 | the system-font table loaded from the families; LoadedRecordsProperties states it |
| FontHost.DuplicateFirstFileLeavesFamilyUnnamed | src/ports/SkFontHost_android.cpp:494-499 | a family whose first file was already loaded by an earlier family contributes its later files with no names list, so its names are lost |
| FontHost.UniqueIDOf | src/ports/SkFontHost_android.cpp:620-630 | the one-based position of the first record with the file, 0 exactly when the file is not in the table |
| FontHost.UniqueIDOfPosition | src/ports/SkFontHost_android.cpp:620-630 | in a table without duplicates the k-th record's file has ID k+1 |
| FontHost.ReloadFamilyProperties | src/ports/SkFontHost_android.cpp:651-683 | one fallback family adds at most one ID to the chain, keeps what was there, keeps IDs distinct and adds only IDs of loaded, loadable system files |
| FontHost.ReloadFamily | src/ports/SkFontHost_android.cpp:651-683 | one fallback family's pass over its files; ReloadFamilyProperties states it |
| FontHost.ReloadFamiliesProperties | src/ports/SkFontHost_android.cpp:648-684 | the pass over the fallback families adds at most one ID per family, distinct and valid |
| FontHost.ReloadedFallbacksProperties | src/ports/SkFontHost_android.cpp:641-688 | the rebuilt chain has distinct IDs, at most one per fallback family, each the ID of a loaded system file that can be opened |
| FontHost.ReloadedFallbacks | src/ports/SkFontHost_android.cpp:641-688 | the rebuilt fallback chain; ReloadedFallbacksProperties states it |
| FontHost.MaskStyle | src/ports/SkFontHost_android.cpp:826 | clipping to the legal style bits keeps the style modulo 4 and leaves a legal style unchanged |
| FontHost.MaskStyleProperties | src/ports/SkFontHost_android.cpp:826 | clipping is idempotent and ignores the bits above the two style bits |
| FontHost.SystemFonts.constructor | src/ports/SkFontHost_android.cpp:409-415 | the system-font table and the fallback chain start empty and there are no default names |
| FontHost.SystemFonts.HaveSystemFont | src/ports/SkFontHost_android.cpp:474-481 | true exactly when some record of the table has the file |
| FontHost.SystemFonts.LoadFontInfoLocked | src/ports/SkFontHost_android.cpp:485-536 | the table becomes the loaded records of the configuration; the default names, once set, stay, and otherwise become the first named record's |
| FontHost.SystemFonts.LoadFamilyLocked | src/ports/SkFontHost_android.cpp:492-527 | one family's pass appends its new files and keeps the default names consistent with the first named record |
| FontHost.SystemFonts.AddFamilyFileLocked | src/ports/SkFontHost_android.cpp:493-526 | a duplicate file is skipped; otherwise its record is appended, and the first names seen become the default names |
| FontHost.SystemFonts.FindUniqueIDLocked | src/ports/SkFontHost_android.cpp:620-630 | the one-based position of the first record with the file, or 0 |
| FontHost.SystemFonts.FindFallbackFontIndex | src/ports/SkFontHost_android.cpp:632-639 | the index of the first occurrence of the ID in the chain, -1 exactly when it is absent |
| FontHost.SystemFonts.ReloadFallbackFontsLocked | src/ports/SkFontHost_android.cpp:641-688 | the chain becomes the rebuilt chain of the fallback families; the table and default names are unchanged |
| FontHost.SystemFonts.ReloadFamilyLocked | src/ports/SkFontHost_android.cpp:651-683 | one family's pass: the first loaded, loadable file not already in the chain is appended and the rest of the family skipped |
| FontHost.SystemFonts.NextLogicalFontLocked | src/ports/SkFontHost_android.cpp:891-926 | the plain face is the best normal-style face of the current font's family and is located in the chain (or absent, -1); past the last entry the answer is 0, otherwise the best face of the next entry's family in the original font's style |
| FontHost.CreateTypefaceLocked | src/ports/SkFontHost_android.cpp:820-844 | with the style masked to two bits: the best face of the given face's family, else of the named family, else of the default family; always a registered face |
| GLUtil.Append | src/gpu/gl/GrGLUtil.cpp:72 | the format of one format followed by another has the conversions of both |
| GLUtil.SkipSpace | src/gpu/gl/GrGLUtil.cpp:72 | a white-space directive consumes the longest leading run of white space, leaving a suffix that does not start with one |
| GLUtil.DigitRun | src/gpu/gl/GrGLUtil.cpp:35 | the longest leading run of decimal digits |
| GLUtil.ReadInt | src/gpu/gl/GrGLUtil.cpp:35 | a successful %d read consumes at least one character and stops before the next digit |
| GLUtil.Scan | src/gpu/gl/GrGLUtil.cpp:35 | sscanf assigns at most as many values as the format has conversions, and all of them when nothing fails |
| GLUtil.Count | src/gpu/gl/GrGLUtil.cpp:35-36 | sscanf's return value: EOF (-1) exactly when input ends before the first conversion, otherwise the number of values assigned |
| GLUtil.ScanAppend | src/gpu/gl/GrGLUtil.cpp:72-80 | scanning with a longer format is scanning with its prefix and continuing with the rest, so a Mesa match implies the shorter desktop match |
| GLUtil.ScanIntMismatch | src/gpu/gl/GrGLUtil.cpp:35 | %d on a character that is not white space, a sign or a digit is a matching failure with nothing assigned |
| GLUtil.StandardFromString | src/gpu/gl/GrGLUtil.cpp:27-62 | a null version string gives no standard |
| GLUtil.VersionFromString | src/gpu/gl/GrGLUtil.cpp:64-103 | a null version string gives the invalid version |
| GLUtil.ScanVersionForms | src/gpu/gl/GrGLUtil.cpp:27-103 | the five sscanf calls of the standard and version parsers, each on the whole string; ScansAgree and VersionScansMesa state what they decide |
| GLUtil.StandardOf | src/gpu/gl/GrGLUtil.cpp:27-62 | the standard of the first form scanned in full, in the source's order: desktop, WebGL, ES 1 (no standard), ES; ScansAgree ties it to VersionOf |
| GLUtil.VersionOf | src/gpu/gl/GrGLUtil.cpp:64-103 | the version from the Mesa form first, then from the form that decides the standard; ScansAgree states the correspondence |
| GLUtil.GLSLVersionFromString | src/gpu/gl/GrGLUtil.cpp:111-134 | a desktop "%d.%d" match gives its version; a valid version comes from the desktop form, the "OpenGL ES GLSL ES" form, or, on Android only, the "OpenGL ES GLSL" form |
| GLUtil.MesaAgreesWithDesktop | src/gpu/gl/GrGLUtil.cpp:72-80 | a string that matches the Mesa form also matches the plain desktop form with the same version, so the Mesa test never changes the answer |
| GLUtil.MesaNeedsDesktop | src/gpu/gl/GrGLUtil.cpp:72-80 | a string that fails the desktop form fails the Mesa form |
| GLUtil.WebGLExtendsES | src/gpu/gl/GrGLUtil.cpp:41-44 | a string matching the WebGL form also matches the ES form with the same leading version |
| GLUtil.ScansAgree | src/gpu/gl/GrGLUtil.cpp:27-103 | the standard and the version are read from the same match: GL with the desktop numbers, WebGL with the WebGL numbers, GLES with the ES numbers, and a valid version with no standard comes from the ES-xx form |
| GLUtil.DesktopVersionString | src/gpu/gl/GrGLUtil.cpp:35-37 | "major.minor..." is the GL standard with that version |
| GLUtil.ESVersionString | src/gpu/gl/GrGLUtil.cpp:43-59 | "OpenGL ES major.minor" followed by anything that does not continue " (WebGL M.m" is the GLES standard with that version |
| GLUtil.NoWebGLMarker | src/gpu/gl/GrGLUtil.cpp:43-45 | a rest without "(WebGL" after its leading white space (as in "OpenGL ES 3.2 V@415.0") cannot make the string WebGL |
| GLUtil.ContinuesWebGLScan | src/gpu/gl/GrGLUtil.cpp:43-45 | the WebGL scan of "OpenGL ES M.m" plus a rest assigns all four values exactly when the rest continues " (WebGL M.m" |
| GLUtil.WebGLVersionString | src/gpu/gl/GrGLUtil.cpp:41-45 | "OpenGL ES a.b (WebGL major.minor..." is the WebGL standard with the WebGL version |
| GLUtil.ES1VersionString | src/gpu/gl/GrGLUtil.cpp:48-53 | "OpenGL ES-xx major.minor..." has no standard (ES1 is unsupported) but still has its version |
| GLUtil.UnrecognisedVersionString | src/gpu/gl/GrGLUtil.cpp:27-103 | a string that starts with neither a number nor "OpenGL" has no standard and the invalid version |
| GLUtil.EmptyVersionString | src/gpu/gl/GrGLUtil.cpp:27-103 | the empty string ends input before any conversion: no standard, invalid version |
| GLUtil.VendorFromString | src/gpu/gl/GrGLUtil.cpp:136-160 | each vendor is chosen exactly for its strings (Intel also for any "Intel " prefix, Qualcomm also for "freedreno"); otherwise Other |
| GLUtil.AdrenoFromNumber | src/gpu/gl/GrGLUtil.cpp:207-232 | an Adreno number is recognised exactly in 300-599 and at 615, 620, 630 and 640, with its series being the hundreds digit; 430 exactly for 430-499, 530 exactly for 530 |
| GLUtil.IntelFromNumber | src/gpu/gl/GrGLUtil.cpp:257-300 | a recognised number gives an Intel generation; 610 and 630 give CoffeeLake with "UHD" and KabyLake without |
| GLUtil.IntelUHDMattersOnlyFor610And630 | src/gpu/gl/GrGLUtil.cpp:286-289 | the "UHD" test changes the answer exactly for 610 and 630 |
| GLUtil.IntelNumbersRecognised | src/gpu/gl/GrGLUtil.cpp:257-300 | exactly the listed numbers and ranges name an Intel generation |
| GLUtil.TegraRenderer | src/gpu/gl/GrGLUtil.cpp:171-177 | the Tegra test fires exactly on the "NVIDIA Tegra" prefix, and the modern Tegra exactly when path rendering is present |
| GLUtil.PowerVRRenderer | src/gpu/gl/GrGLUtil.cpp:178-198 | an answer is a PowerVR generation; Rogue only for the Rogue or Apple A7/A8 prefixes, 54x for any Apple A4/A5/A6 prefix |
| GLUtil.AdrenoRenderer | src/gpu/gl/GrGLUtil.cpp:199-232 | an answer is an Adreno generation |
| GLUtil.IntelNumberAsWrittenOnEOF | src/gpu/gl/GrGLUtil.cpp:257-259 | as written, when both scans hit end of input the condition is true and the uninitialised number is classified |
| GLUtil.IntelNumberAsWritten | src/gpu/gl/GrGLUtil.cpp:257-259 | as written: any scan result other than 0 counts as a read, so the end-of-input result -1 yields the uninitialised number (IntelNumberAsWrittenOnEOF, IntelNumberAgreesWhenRead) |
| GLUtil.IntelNumberReadsUninitialised | src/gpu/gl/GrGLUtil.cpp:257-259 | "...Intel ... Graphics" with nothing after it is classified by an uninitialised number |
| GLUtil.IntelNumber | src/gpu/gl/GrGLUtil.cpp:257-259 | the corrected read: a number only when one of the two formats actually assigned it, and none exactly when neither did |
| GLUtil.IntelNumberNeedsANumber | src/gpu/gl/GrGLUtil.cpp:257-259 | the corrected read of a bare "Graphics" gives no number |
| GLUtil.IntelNumberAgreesWhenRead | src/gpu/gl/GrGLUtil.cpp:257-259 | when a scan assigns the number the as-written and the corrected reads agree |
| GLUtil.IntelRenderer | src/gpu/gl/GrGLUtil.cpp:236-302 | corrected (uses the corrected IntelNumber, see Findings): an Intel answer needs "Intel" in the string |
| GLUtil.AMDRenderer | src/gpu/gl/GrGLUtil.cpp:305-340 | an AMD answer needs "Radeon " in the string |
| GLUtil.LateRenderer | src/gpu/gl/GrGLUtil.cpp:342-361 | the last tests: llvmpipe exactly on "llvmpipe", Mali-G on its prefix otherwise, and ANGLE only for the "ANGLE " prefix |
| GLUtil.IsRendererAngle | src/gpu/gl/GrGLUtil.cpp:162-167 | the "ANGLE " prefix test; LateRenderer and AngleRenderer state where it decides the renderer |
| GLUtil.Recognise | src/gpu/gl/GrGLUtil.cpp:169-362 | corrected (its Intel test uses the corrected IntelNumber, see Findings): the outcome of each family's test, each test answering a renderer of its own family |
| GLUtil.FirstRecognisedFamily | src/gpu/gl/GrGLUtil.cpp:169-362 | the renderer is of a family exactly when that family's test fires and no earlier family's does |
| GLUtil.RendererTegra | src/gpu/gl/GrGLUtil.cpp:171-177 | get_renderer answers Tegra (either kind) exactly for the "NVIDIA Tegra" prefix |
| GLUtil.RendererFromString | src/gpu/gl/GrGLUtil.cpp:169-362 | corrected (through Recognise): get_renderer's answer is the first family test that recognises the string; RendererTegra and the Renderer lemmas after it state its answers |
| GLUtil.RendererPowerVRRogue | src/gpu/gl/GrGLUtil.cpp:192-198 | Rogue only for the Rogue or Apple A7/A8 prefixes |
| GLUtil.RendererSwiftShader | src/gpu/gl/GrGLUtil.cpp:233-235 | SwiftShader only for that exact string |
| GLUtil.RendererIntelAMD | src/gpu/gl/GrGLUtil.cpp:236-340 | Intel answers need "Intel", AMD answers need "Radeon " |
| GLUtil.RendererLate | src/gpu/gl/GrGLUtil.cpp:342-360 | GalliumLLVM needs "llvmpipe"; ANGLE needs the "ANGLE " prefix |
| GLUtil.AngleRenderer | src/gpu/gl/GrGLUtil.cpp:162-167 | an "ANGLE " string without Intel, Radeon or llvmpipe text is classified ANGLE |
| GLUtil.AdrenoRendererString | src/gpu/gl/GrGLUtil.cpp:199-232 | "Adreno (TM) n..." with a recognised n is the Adreno generation of n |
| GLUtil.StencilTestIndex | src/gpu/gl/GrGLUtil.cpp:593-615 | each stencil test has its own slot among the eight |
| GLUtil.ToGLStencilFunc | src/gpu/gl/GrGLUtil.cpp:593-615 | the table answers a GL comparison function |
| GLUtil.StencilFuncMeansTheSame | src/gpu/gl/GrGLUtil.cpp:593-615 | the GL function chosen passes for exactly the reference and stored values the stencil test passes for |
| GLUtil.StencilFuncInjective | src/gpu/gl/GrGLUtil.cpp:593-615 | distinct stencil tests map to distinct GL functions |
| GLUtil.FormatIsCompressed | src/gpu/gl/GrGLUtil.cpp:617-651 | true exactly for the ETC1, ETC2 and the two BC1 formats |
| SkSLString.LetterDigit | src/sksl/SkSLString.cpp:73 | the digit value strtoull gives a character: its decimal value for a digit, at most 36 |
| SkSLString.SkipSpace | src/sksl/SkSLString.cpp:73 | strtoull skips exactly the leading white space |
| SkSLString.RunEnd | src/sksl/SkSLString.cpp:73 | the end of the longest run of digits valid in the base |
| SkSLString.BaseAt | src/sksl/SkSLString.cpp:73 | base 0 picks 8, 10 or 16 from the prefix and says where the digits start |
| SkSLString.StrToULL | src/sksl/SkSLString.cpp:73 | the end pointer stays within the string and the result within unsigned long long; an out-of-range value saturates to the maximum with the range error set |
| SkSLString.ToInt64 | src/sksl/SkSLString.cpp:74 | the cast to a 64-bit signed integer keeps the value modulo 2^64 and leaves values below 2^63 unchanged |
| SkSLString.WithoutSuffix | src/sksl/SkSLString.cpp:65-68 | a trailing u or U is dropped, nothing else |
| SkSLString.Stoi | src/sksl/SkSLString.cpp:61-76 | the empty string fails with the value untouched; otherwise the value is strtoull's result cast to 64 bits, and success means the whole string was consumed, no range error, and the result fits in 32 bits |
| SkSLString.StoiDecimal | src/sksl/SkSLString.cpp:61-76 | a decimal numeral succeeds exactly when it fits in 32 bits, and then yields its value |
| SkSLString.StoiWritesPrefix | src/sksl/SkSLString.cpp:72-75 | a numeral followed by a stray letter fails but still writes the numeral's value |
| SkSLString.StoiSuffix | src/sksl/SkSLString.cpp:65-68 | one unsigned suffix does not change the answer |
| SkSLString.StoiDoubleSuffix | src/sksl/SkSLString.cpp:65-75 | two unsigned suffixes fail |
| SkSLString.StoiAcceptsBareSuffix | src/sksl/SkSLString.cpp:65-75 | as written, "u" and "U" alone are accepted as the literal 0 |
| SkSLString.StoiChecked | src/sksl/SkSLString.cpp:61-76 | the corrected conversion: success yields a 32-bit value |
| SkSLString.StoiCheckedNeedsDigits | src/sksl/SkSLString.cpp:61-76 | the corrected conversion succeeds only on a string holding a digit, differs from the original only on a bare suffix, and always writes the same value |
| SkSLString.StoiCheckedDecimal | src/sksl/SkSLString.cpp:61-76 | the correction keeps the behaviour on decimal numerals |
| Minify.CodeValue | tools/sksl-minify/SkSLMinify.cpp:42-47 | each result code's number; 0 exactly for success |
| Minify.BaseName | tools/sksl-minify/SkSLMinify.cpp:49-52 | the part of the path after the last slash or backslash, which holds neither |
| Minify.RemoveExtension | tools/sksl-minify/SkSLMinify.cpp:54-57 | the path up to its last dot, or the whole path when it has none |
| Minify.BaseNameOf | tools/sksl-minify/SkSLMinify.cpp:49-52 | the base name of dir/name is name |
| Minify.RemoveExtensionOf | tools/sksl-minify/SkSLMinify.cpp:54-57 | removing the extension of stem.ext gives stem |
| Minify.TrimTrailingZeros | tools/sksl-minify/SkSLMinify.cpp:172-174 | trailing zeros are stripped while more than two characters remain: a prefix of the text, only zeros removed, stopping at two characters or a non-zero |
| Minify.MaybeIdentifier | tools/sksl-minify/SkSLMinify.cpp:70-72 | a letter, digit, `$` or `_`; the whitespace contract of the minified text is stated with it |
| Minify.Trimmed | tools/sksl-minify/SkSLMinify.cpp:172-174 | the trimmed text is never empty |
| Minify.TrimmedIsLoop | tools/sksl-minify/SkSLMinify.cpp:172-174 | the trimmed text is the only prefix meeting the loop's stopping conditions |
| Minify.Shortened | tools/sksl-minify/SkSLMinify.cpp:166-177 | the text written for a token is never empty |
| Minify.Kept | tools/sksl-minify/SkSLMinify.cpp:150-165 | the token texts written, each non-empty |
| Minify.FirstInvalid | tools/sksl-minify/SkSLMinify.cpp:156-162 | the position of the first invalid token, or the end |
| Minify.Emit | tools/sksl-minify/SkSLMinify.cpp:178-192 | after writing a token it becomes the last token |
| Minify.EmitAll | tools/sksl-minify/SkSLMinify.cpp:143-193 | the last token text stays non-empty through the whole loop |
| Minify.EmitAllLayout | tools/sksl-minify/SkSLMinify.cpp:143-193 | the output denotes the kept tokens joined with a space exactly where two identifier characters would meet; a line is wrapped only once it is wider than 75; the tracked width is the current line's |
| Minify.EmitAllWraps | tools/sksl-minify/SkSLMinify.cpp:178-192 | the converse of the break rule: every token begins on a line no wider than 75, so a line past 75 columns is always broken before the next token |
| Minify.EmitStep | tools/sksl-minify/SkSLMinify.cpp:178-192 | one token adds a space when two identifier characters would touch, then the token, and keeps the layout invariants |
| Minify.SpacedSpaces | tools/sksl-minify/SkSLMinify.cpp:184-189 | every space the minifier inserts sits between two identifier characters |
| Minify.WriteTokens | tools/sksl-minify/SkSLMinify.cpp:139-193 | the loop stops at the first invalid token, reports success exactly when there is none, and writes the layout of the kept tokens before it |
| Minify.WriteToken | tools/sksl-minify/SkSLMinify.cpp:178-192 | writing one token extends the output and the width as the layout step says |
| Minify.ProcessCommand | tools/sksl-minify/SkSLMinify.cpp:103-202 | fewer than two arguments or a failed compile is an input error, an unwritable output an output error; otherwise the header is written, a failed re-read returns a success code, an invalid token is an input error after the tokens before it, and a full run ends the literal and succeeds unless closing fails |
| Minify.RereadFailureReportsSuccess | tools/sksl-minify/SkSLMinify.cpp:132-137 | as written, a failed re-read of the input returns the value-initialised code, which is success |
| Minify.ProcessCommandChecked | tools/sksl-minify/SkSLMinify.cpp:103-202 | corrected: success only after a complete, valid run whose output is the header, the minified tokens and the closing, and a failed re-read is an input error |
| MinifyDriver.LastIndex | gn/minify_sksl.py:31 | the last position of the character, or -1 |
| MinifyDriver.LastIndexFound | gn/minify_sksl.py:31 | the last position holds the character and none after it does |
| MinifyDriver.StemLength | gn/minify_sksl.py:31 | splitext keeps at most the whole path |
| MinifyDriver.StripTrailingSlashes | gn/minify_sksl.py:31 | stripping slashes never lengthens the head |
| MinifyDriver.PartsOf | gn/minify_sksl.py:31 | dir/name.ext splits into the directory and the bare module name |
| MinifyDriver.StripExtensionOf | gn/minify_sksl.py:31 | splitext drops the extension of name.ext |
| MinifyDriver.SplitPathOf | gn/minify_sksl.py:31 | split of dir/name is (dir, name) |
| MinifyDriver.DependenciesClosed | gn/minify_sksl.py:17-27 | every dependency named in the table has its own entry, and each entry lists the dependencies of its dependencies |
| MinifyDriver.ModuleList | gn/minify_sksl.py:38-43 | the module itself, then one path per dependency |
| MinifyDriver.ModuleListElements | gn/minify_sksl.py:42-43 | the k-th dependency's path is the module's directory joined with that dependency plus ".sksl" |
| MinifyDriver.OptimizedArgs | gn/minify_sksl.py:46 | the tool, the minified output, then the module list |
| MinifyDriver.UnoptimizedArgs | gn/minify_sksl.py:50 | the tool, the --unoptimized flag, the unoptimized output, then the module list |
| MinifyDriver.ModuleBody | gn/minify_sksl.py:34-56 | a module's body never creates the directory and can only exit with status 1 |
| MinifyDriver.Runs | gn/minify_sksl.py:45-56 | the optimized run comes first, the unoptimized run only after it succeeds, and a failure prints the module and stops with status 1 |
| MinifyDriver.ModuleStep | gn/minify_sksl.py:32-33 | after a module's turn the target directory exists |
| MinifyDriver.Steps | gn/minify_sksl.py:29 | one turn per module |
| MinifyDriver.FoldStatus | gn/minify_sksl.py:29-56 | the script stops at the first failing turn; the status is 0 exactly when no turn fails, else 1 |
| MinifyDriver.ScriptStatus | gn/minify_sksl.py:29-56 | the exit status is 0 or 1, and 0 exactly when every module's body succeeds |
| MinifyDriver.MakeDirAtMostOnce | gn/minify_sksl.py:32-33 | the directory is created at most once, and never when it already exists |
| MinifyDriver.StepMakeDirs | gn/minify_sksl.py:32-33 | a turn creates the directory exactly when it is missing |
| MinifyDriver.UnknownModuleStops | gn/minify_sksl.py:39-41 | a module without a dependency entry stops the script with status 1 before any run |
| MinifyDriver.KnownModuleRuns | gn/minify_sksl.py:42-51 | a known module runs the optimized build with its module list first, then the unoptimized one if that succeeded |
| MinifyDriver.MinifyModules | gn/minify_sksl.py:29-56 | the loop performs exactly the script's actions and returns its status |
| MinifyDriver.Turn | gn/minify_sksl.py:30-56 | one iteration appends that module's actions and either stops with its status or continues |
| MinifyDriver.MinifySksl | gn/minify_sksl.py:12-56 | the script on its command line, with the fixed dependency table |
| MinifyDriver.Script | gn/minify_sksl.py:29-56 | the script's actions and exit status; FoldStatus, ScriptStatus and MakeDirAtMostOnce state them |
| MinifyDriver.ProcessModule | gn/minify_sksl.py:30-56 | one module's actions and exit, directory check included |
| MinifyDriver.BuildModuleList | gn/minify_sksl.py:38-43 | the module list loop builds the module list |
| MinifyDriver.ProcessBody | gn/minify_sksl.py:34-56 | the body of one turn after the directory check |
| ImageDecoder.PrefIndex | src/images/SkImageDecoder.cpp:129-144 | the preference-table slot: the depth picks the pair of slots (index, 16-bit, 32-bit) and alpha picks the odd one |
| ImageDecoder.PrefIndexOneToOne | src/images/SkImageDecoder.cpp:129-144 | different depth and alpha combinations use different slots, and every one of the six slots is used |
| ImageDecoder.CDiv | src/images/SkImageDecoder.cpp:209-210 | C's integer division, truncating toward zero for negative operands |
| ImageDecoder.CDivZero | src/images/SkImageDecoder.cpp:212 | an offset divides to zero exactly when it is strictly within one sample of zero |
| ImageDecoder.CropBitmap | src/images/SkImageDecoder.cpp:206-224 | the decoded bitmap is swapped in exactly when its size is the sampled size and both offsets divide to zero; otherwise a bitmap of the source's config and opacity and the sampled size receives the source drawn at the sampled offset |
| ImageDecoder.DecodeMemory | src/images/SkImageDecoder.cpp:243-252 | an empty buffer fails; otherwise the stream decode's answer |
| ImageDecoder.Decoder.constructor | src/images/SkImageDecoder.cpp:53-57 | sample size 1, no default config, dithering on, no preference table, no chooser |
| ImageDecoder.Decoder.SetSampleSize | src/images/SkImageDecoder.cpp:90-95 | the sample size becomes the argument, raised to 1 if smaller; nothing else changes |
| ImageDecoder.Decoder.SetChooser | src/images/SkImageDecoder.cpp:75-78 | installs the chooser and changes nothing else |
| ImageDecoder.Decoder.SetPrefConfigTable | src/images/SkImageDecoder.cpp:116-123 | a null table turns the table off and keeps the old contents; a table is copied and turned on, after which the preferred config is the table's slot, or the device config for an empty slot |
| ImageDecoder.Decoder.GetPrefConfig | src/images/SkImageDecoder.cpp:125-154 | the table's slot when the table is on, the default otherwise, replaced by the device config when it is no-config |
| ImageDecoder.Decoder.ChooseFromOneChoice | src/images/SkImageDecoder.cpp:97-107 | yes without a chooser, otherwise yes exactly when the chooser picks choice 0 |
| ImageDecoder.Decoder.Decode | src/images/SkImageDecoder.cpp:156-178 | cancellation is reset and the default config set; a reused bitmap with pixels is decoded in place; otherwise the caller's bitmap is replaced only when the decode succeeds and is untouched on failure |
| PixelRef.Wrap32 | src/core/SkPixelRef.cpp:42 | the 32-bit two's-complement wrap of a value: in range, equal modulo 2^32, identity on 32-bit values |
| PixelRef.NextID | src/core/SkPixelRef.cpp:36-45 | the next generation ID is a 32-bit value, never 0, never the last one, and the plain successor unless that wraps to 0 |
| PixelRef.GenerationIDs.constructor | src/core/SkPixelRef.cpp:37 | the global counter starts at 0 |
| PixelRef.GenerationIDs.Increment | src/core/SkPixelRef.cpp:42 | the atomic increment wraps the counter and returns the new value |
| PixelRef.GenerationIDs.Next | src/core/SkPixelRef.cpp:36-45 | the loop retries past 0 and returns the next generation ID, which the counter now holds |
| PixelRef.PixelRef.constructor | src/core/SkPixelRef.cpp:59-67 | no pixels or color table, unlocked, generation 0 (rebuild on demand), mutable, not pre-locked |
| PixelRef.PixelRef.SetPreLocked | src/core/SkPixelRef.cpp:79-86 | installs the pixels and color table, sets the pre-locked lock count and marks the reference pre-locked |
| PixelRef.PixelRef.LockPixels | src/core/SkPixelRef.cpp:92-102 | a pre-locked reference is untouched; otherwise the count goes up and only the first lock calls the hook and takes its pixels and color table |
| PixelRef.PixelRef.UnlockPixels | src/core/SkPixelRef.cpp:104-117 | a pre-locked reference is untouched; otherwise the count goes down and only the last unlock calls the hook and clears the pixels and color table |
| PixelRef.PixelRef.GetGenerationID | src/core/SkPixelRef.cpp:127-132 | an assigned ID is returned unchanged; a 0 ID is replaced by the next global ID; the answer is never 0 |
| PixelRef.PixelRef.NotifyPixelsChanged | src/core/SkPixelRef.cpp:134-142 | the generation ID is reset to 0 so the next query assigns a fresh one |
| PixelRef.PixelRef.SetImmutable | src/core/SkPixelRef.cpp:144-146 | marks the reference immutable and changes nothing else |
| PixelRef.GenerationIDStable | src/core/SkPixelRef.cpp:127-132 | asking twice without a change gives the same non-zero ID |
| PixelRef.GenerationIDRenewed | src/core/SkPixelRef.cpp:127-142 | after a change notification the next request draws the counter's next ID, which differs from the one before when that was freshly drawn or the last one issued |
| PixelRef.Registry.constructor | src/core/SkPixelRef.cpp:165-166 | no pairs and the first-use flag unset |
| PixelRef.Registry.Register | src/core/SkPixelRef.cpp:168-183 | the first registration resets the table; the pair is appended after the earlier ones |
| PixelRef.Registry.NameToFactory | src/core/SkPixelRef.cpp:195-206 | the factory of the last pair registered under the name, or none when no pair has it |
| PixelRef.Registry.FactoryToName | src/core/SkPixelRef.cpp:208-219 | the name of the last pair registered with the factory, or none when no pair has it |
| PixelRef.RegisterThenLookUp | src/core/SkPixelRef.cpp:168-219 | right after registering a pair, both lookups find it |
| MeshUtils.CellOrigin | src/utils/SkMeshUtils.cpp:60-74 | the vertex index of a cell's top-left corner, skipping one vertex per finished row |
| MeshUtils.LineCell | src/utils/SkMeshUtils.cpp:60-74 | cell x of line y starts at vertex y*(rows+1)+x |
| MeshUtils.OriginBound | src/utils/SkMeshUtils.cpp:60-74 | every cell's top-left corner lies strictly inside the vertex grid |
| MeshUtils.CornerOfCell | src/utils/SkMeshUtils.cpp:63-71 | index j of a cell's six is that cell's j-th triangle corner |
| MeshUtils.CornersInRange | src/utils/SkMeshUtils.cpp:60-74 | every index names a vertex of the (rows+1) by (cols+1) grid |
| MeshUtils.StoredIndicesExact | src/utils/SkMeshUtils.cpp:60-74 | when the grid has at most 65536 vertices no index is changed by the 16-bit store |
| MeshUtils.CellTrianglesShareDiagonal | src/utils/SkMeshUtils.cpp:63-69 | the two triangles of a cell share the diagonal, and the last corner is the cell's bottom-right vertex |
| MeshUtils.WriteCell | src/utils/SkMeshUtils.cpp:63-69 | the six indices of one cell are stored after 16-bit truncation and nothing else changes |
| MeshUtils.FillCell | src/utils/SkMeshUtils.cpp:62-72 | the indices of one more cell are in place |
| MeshUtils.FillLine | src/utils/SkMeshUtils.cpp:61-74 | a line of cells is filled and the running vertex index has advanced by one line |
| MeshUtils.FillIndices | src/utils/SkMeshUtils.cpp:58-76 | the whole index array holds every cell's two triangles, as 16-bit values |
| MeshUtils.MeshIndices.constructor | src/utils/SkMeshUtils.cpp:21-23 | no storage, no texture coordinates and no indices |
| MeshUtils.MeshIndices.Init | src/utils/SkMeshUtils.cpp:29-91 | fewer than two rows or columns clears everything and fails; otherwise rows*cols texture coordinates and 6*(rows-1)*(cols-1) indices, in the caller's arrays or freshly owned storage, holding each cell's two triangles |
| EmojiFont.IndexOf | emoji/EmojiFont.cpp:150-151 | the first position holding the key, or -1 exactly when none does |
| EmojiFont.Search | emoji/EmojiFont.cpp:150-151 | the binary search over the ascending table finds a position holding the key, and answers negative exactly when the key is absent |
| EmojiFont.IndexOfAscending | emoji/EmojiFont.cpp:150-151 | in an ascending table the i-th entry is found at i |
| EmojiFont.UnicharToGlyph | emoji/EmojiFont.cpp:145-160 | the range check, the relative 16-bit value and the search give the table's glyph for the character |
| EmojiFont.GlyphOfTable | emoji/EmojiFont.cpp:145-160 | a glyph is non-zero exactly for characters of the table within its range; such a glyph is an emoji glyph whose entry is the character |
| EmojiFont.GlyphOf | emoji/EmojiFont.cpp:145-160 | UnicharToGlyph's answer; GlyphOfTable and GlyphOfEntry state it |
| EmojiFont.IsEmojiGlyph | emoji/EmojiFont.h:52-54 | glyph IDs from the glyph base up; GlyphOfTable states every non-zero glyph is one |
| EmojiFont.GeneratedGlyphs | emoji/EmojiFont.cpp:145-160 | with the table the generator emits, the character on line k of its input gets glyph base plus k |
| EmojiFont.GlyphOfEntry | emoji/EmojiFont.cpp:149-155 | the k-th table entry maps to glyph base plus k |
| EmojiFont.ShiftJisConverterName | emoji/EmojiFont.cpp:131-143 | "kddi-emoji" for the kddi factory, "softbank-emoji" for softbank, "docomo-emoji" otherwise, including with no factory |
| EmojiFont.ConverterNameDistinguishes | emoji/EmojiFont.cpp:131-143 | the converter name tells apart kddi, softbank and the rest |
| EmojiFont.EncodeCache.constructor | emoji/EmojiFont.cpp:62 | every record starts uninitialised with no data or bitmap |
| EmojiFont.EncodeCache.GetEncodeRec | emoji/EmojiFont.cpp:68-96 | a bad index or an unavailable record gives null; a filled record is returned as is; an uninitialised one asks the factory once, keeping the data or marking the record unavailable |
| EmojiFont.EncodeCache.GetBitmap | emoji/EmojiFont.cpp:102-123 | a bad index or an entry get_encoderec cannot give yields null; a cached bitmap is returned; otherwise the bitmap is the decoder's answer on the entry's data and size, cached when there is one and marking the entry unavailable when not; no other entry changes |
| EmojiFont.EncodeCache.GetAdvanceWidth | emoji/EmojiFont.cpp:162-176 | 0 for a glyph below the emoji base or without a bitmap; the text size when the glyph has a bitmap |
| GmojiMaker.HexCharToInt | legacy/emoji/GmojiMaker.cpp:36-47 | a hex digit's value, -1 for anything else |
| GmojiMaker.UpperDigitValue | legacy/emoji/GmojiMaker.cpp:36-47 | each upper-case hex digit reads back as its value |
| GmojiMaker.LowerDigitValue | legacy/emoji/GmojiMaker.cpp:36-47 | each lower-case hex digit reads back as its value |
| GmojiMaker.HexCharToIntOnlyDigits | legacy/emoji/GmojiMaker.cpp:36-47 | only the hex digits have a value |
| GmojiMaker.ParseFromOutcome | legacy/emoji/GmojiMaker.cpp:71-79 | the five-character read succeeds exactly when all five are hex digits, and otherwise reports the first column that is not |
| GmojiMaker.ParseFromBound | legacy/emoji/GmojiMaker.cpp:71-79 | five hex digits make a value below 0x100000 |
| GmojiMaker.ParseHex5RoundTrip | legacy/emoji/GmojiMaker.cpp:71-79 | a value written as five hex digits reads back as itself, whatever follows |
| GmojiMaker.ParseHex5 | legacy/emoji/GmojiMaker.cpp:71-79 | the five-digit read of a line; ParseFromOutcome, ParseFromBound and ParseHex5RoundTrip state it |
| GmojiMaker.ReadHex5 | legacy/emoji/GmojiMaker.cpp:71-79 | the shift-and-or loop computes the five-digit read |
| GmojiMaker.ExitCode | legacy/emoji/GmojiMaker.cpp:51-128 | the tool exits 0 exactly when it emits a table and -1 otherwise |
| GmojiMaker.Parsed | legacy/emoji/GmojiMaker.cpp:63-93 | one read per input line |
| GmojiMaker.Scan | legacy/emoji/GmojiMaker.cpp:63-93 | a failure is a bad hex digit, an out-of-range value or an order violation, on some line of the input |
| GmojiMaker.AsWrittenNeverNotAscending | legacy/emoji/GmojiMaker.cpp:68-89 | as written, with prevPua reset to 0 for every line, the ascending check never fires |
| GmojiMaker.ScanAsWritten | legacy/emoji/GmojiMaker.cpp:68-89 | the line loop as written, prevPua 0 on every line; AsWrittenNeverNotAscending and AsWrittenAcceptsDescending state its flaw (see Findings) |
| GmojiMaker.Collect | legacy/emoji/GmojiMaker.cpp:63-93 | corrected (prevPua kept across lines, see Findings): the line loop; ScanAccepts and CollectAscending state it |
| GmojiMaker.AsWrittenAcceptsDescending | legacy/emoji/GmojiMaker.cpp:68-89 | as written, FE001 then FE000 is accepted, while the corrected check rejects it at line 1 |
| GmojiMaker.ScanAccepts | legacy/emoji/GmojiMaker.cpp:63-93 | the corrected loop succeeds exactly when the lines are accepted and then collects every line's value in order |
| GmojiMaker.CollectAscending | legacy/emoji/GmojiMaker.cpp:63-93 | corrected: the input is accepted exactly when every line is in range and above the previous, and then the values are the lines' values, strictly ascending |
| GmojiMaker.EmitTable | legacy/emoji/GmojiMaker.cpp:95-123 | the emitted table starts at 0, is strictly ascending, fits in 12 bits, and min plus each entry is the input value; max is min plus the last entry |
| GmojiMaker.GeneratedTable | legacy/emoji/GmojiMaker.cpp:51-128 | corrected (prevPua kept across lines, see Findings): a table is generated exactly when the input opens, is non-empty and is accepted, and then it describes every input line |
| GmojiMaker.Run | legacy/emoji/GmojiMaker.cpp:51-128 | corrected (prevPua kept across lines, see Findings): the tool's outcome on a given input |
| Ints.Truncate16 | emoji/EmojiFont.cpp:147-154 | storing an int into a `uint16_t` keeps it when it fits and always keeps its value modulo 2^16 |
| Ints.Pow2 | src/sksl/codegen/SkSLDSLCPPCodeGenerator.cpp:1194 | the value of `1u << bits` before wrap-around is at least one |
| DSLCPPCodeGen.Pow2Add | src/sksl/codegen/SkSLDSLCPPCodeGenerator.cpp:1194 | shifting by a then by b is shifting by a + b: 2^(a+b) = 2^a * 2^b |
| DSLCPPCodeGen.Width | src/sksl/codegen/SkSLDSLCPPCodeGenerator.cpp:1192-1198 | the number of bits needed for a value is at least one |
| DSLCPPCodeGen.WidthBounds | src/sksl/codegen/SkSLDSLCPPCodeGenerator.cpp:1192-1198 | the width fits the value (v < 2^w) and is the least that does (2^(w-1) <= v when w > 1) |
| DSLCPPCodeGen.WidthIs | src/sksl/codegen/SkSLDSLCPPCodeGenerator.cpp:1192-1198 | any b of at least one with v < 2^b, minimal in that sense, is the width: the width is unique |
| DSLCPPCodeGen.WidthOfU32 | src/sksl/codegen/SkSLDSLCPPCodeGenerator.cpp:1192 | every 32-bit unsigned value needs at most 32 bits |
| DSLCPPCodeGen.BitsNeededAsWrittenNeverStops | src/sksl/codegen/SkSLDSLCPPCodeGenerator.cpp:1192-1198 | with the shift amount taken modulo 32, every value from 2^31 on stays at or above `1u << bits` for every bits, so the loop as written never ends |
| DSLCPPCodeGen.MaskedShift | src/sksl/codegen/SkSLDSLCPPCodeGenerator.cpp:1192-1198 | `1u << bits` with the shift amount taken modulo 32, as the hardware does; the two BitsNeededAsWritten lemmas use it |
| DSLCPPCodeGen.BitsNeededAsWrittenOn2To31 | src/sksl/codegen/SkSLDSLCPPCodeGenerator.cpp:1192-1198 | for v = 2^31 the loop test still holds at bits 31 and at bits 32, a concrete input that shows it |
| DSLCPPCodeGen.BitsNeeded | src/sksl/codegen/SkSLDSLCPPCodeGenerator.cpp:1192-1198 | the loop, with the shift carried out without wrap-around, returns the width: between 1 and 32, v < 2^bits and minimal |
| DSLCPPCodeGen.MinWithZero | src/sksl/codegen/SkSLDSLCPPCodeGenerator.cpp:1206-1210 | the minimum starting from zero is at most zero, at most every value and either zero or one of the values |
| DSLCPPCodeGen.MaxWithZero | src/sksl/codegen/SkSLDSLCPPCodeGenerator.cpp:1206-1210 | the maximum starting from zero is at least zero, at least every value and either zero or one of the values |
| DSLCPPCodeGen.EnumWidthBounds | src/sksl/codegen/SkSLDSLCPPCodeGenerator.cpp:1212-1217 | an enum key takes 1 to 32 bits, exactly 32 when some value is negative, and otherwise enough bits for every value |
| DSLCPPCodeGen.EnumWidth | src/sksl/codegen/SkSLDSLCPPCodeGenerator.cpp:1212-1217 | 32 bits for an enum with a negative value, else the bits its largest value needs; EnumWidthBounds states it |
| DSLCPPCodeGen.GatherEnumRange | src/sksl/codegen/SkSLDSLCPPCodeGenerator.cpp:1206-1211 | the loop over the enum's values yields the minimum and the maximum, both starting at zero |
| DSLCPPCodeGen.RangeStep | src/sksl/codegen/SkSLDSLCPPCodeGenerator.cpp:1207-1210 | one more value updates the running minimum and maximum as std::min and std::max do |
| DSLCPPCodeGen.FindEnum | src/sksl/codegen/SkSLDSLCPPCodeGenerator.cpp:1202-1205 | returns the first element that declares an enum of the type's name, or nothing when none does |
| DSLCPPCodeGen.BitsForEnum | src/sksl/codegen/SkSLDSLCPPCodeGenerator.cpp:1201-1222 | no answer exactly when no element declares the enum (the abort); otherwise the bits of the first declaration's value range |
| DSLCPPCodeGen.ModifierNamesRecoverFlags | src/sksl/codegen/SkSLDSLCPPCodeGenerator.cpp:710-727 | the listed modifier names determine the flags, except that `in` is dropped under `uniform` |
| DSLCPPCodeGen.TerminatedIsJoin | src/sksl/codegen/SkSLDSLCPPCodeGenerator.cpp:712-727 | appending each name followed by " \| " gives the names joined by the separator, plus one trailing separator |
| DSLCPPCodeGen.AppendIf | src/sksl/codegen/SkSLDSLCPPCodeGenerator.cpp:718-720 | one `if (flag) text += ...` step keeps the text equal to the names so far, each followed by the separator |
| DSLCPPCodeGen.GetDSLModifiers | src/sksl/codegen/SkSLDSLCPPCodeGenerator.cpp:707-739 | the text is the modifier description: the enabled names joined by " \| ", or "kNo_Modifier" when none is |
| DSLCPPCodeGen.AppendNames | src/sksl/codegen/SkSLDSLCPPCodeGenerator.cpp:710-727 | the appending steps leave every enabled modifier name, in order, each followed by the separator |
| DSLCPPCodeGen.AppendLeading | src/sksl/codegen/SkSLDSLCPPCodeGenerator.cpp:710-715 | the first step writes `uniform` when set, else `in` when set, else nothing |
| DSLCPPCodeGen.TextOfNames | src/sksl/codegen/SkSLDSLCPPCodeGenerator.cpp:729-739 | the early return and the trimmed text together are the modifier description |
| DSLCPPCodeGen.DropSeparator | src/sksl/codegen/SkSLDSLCPPCodeGenerator.cpp:729-738 | the text is empty exactly when no name was written; otherwise removing its last three characters leaves the joined names |
| DSLCPPCodeGen.NoModifierText | src/sksl/codegen/SkSLDSLCPPCodeGenerator.cpp:729-732 | "kNo_Modifier" is produced exactly when none of the six flags is set |
| DSLCPPCodeGen.Prefixed | src/sksl/codegen/SkSLDSLCPPCodeGenerator.cpp:523-524 | a disambiguated name "_<prefix>_<name>" is never empty |
| DSLCPPCodeGen.PrefixedInjective | src/sksl/codegen/SkSLDSLCPPCodeGenerator.cpp:523-524 | different prefixes give different names for the same variable name |
| DSLCPPCodeGen.CppNames.constructor | src/sksl/codegen/SkSLDSLCPPCodeGenerator.cpp:511-512 | the name table starts empty |
| DSLCPPCodeGen.CppNames.ExistsWithName | src/sksl/codegen/SkSLDSLCPPCodeGenerator.cpp:501-509 | the scan over the table finds the trial name exactly when some variable already carries it |
| DSLCPPCodeGen.CppNames.Disambiguate | src/sksl/codegen/SkSLDSLCPPCodeGenerator.cpp:522-529 | the loop returns the prefixed name with the least prefix that no variable carries |
| DSLCPPCodeGen.CppNames.GetVariableCppName | src/sksl/codegen/SkSLDSLCPPCodeGenerator.cpp:511-535 | a variable with a name keeps it; otherwise it gets its own name when free, else the least free prefixed name, and the table records it; names that were distinct stay distinct |
| ProgramDesc.TextureTypeKeyFits | src/gpu/GrProgramDesc.cpp:26-45 | each keyed texture type has a four-bit key and different types have different keys |
| ProgramDesc.TextureTypeKey | src/gpu/GrProgramDesc.cpp:26-45 | the key of each keyed texture type; TextureTypeKeyFits states it fits four bits and is injective |
| ProgramDesc.SamplerKey | src/gpu/GrProgramDesc.cpp:47-54 | the type key in the low four bits and the swizzle key above; SamplerKeyDecodes and SamplerKeyInjective state it |
| ProgramDesc.SamplerKeyDecodes | src/gpu/GrProgramDesc.cpp:47-54 | the low four bits of a sampler key are the texture type key, the bits above are the swizzle key, and the whole fits in 20 bits |
| ProgramDesc.OrLowHigh | src/gpu/GrProgramDesc.cpp:52-53 | or-ing a four-bit value with a 16-bit value shifted by four loses neither part |
| ProgramDesc.SamplerKeyInjective | src/gpu/GrProgramDesc.cpp:47-54 | two sampler keys are equal only for the same texture type and the same swizzle |
| ProgramDesc.SizeInBitsAppend | src/gpu/GrProgramDesc.cpp:95-97 | the bit length of a key is additive over concatenation |
| ProgramDesc.MetaKeyOutcome | src/gpu/GrProgramDesc.cpp:78-143 | the meta key is written exactly when the class ID fits 8 bits and the processor key's size fits 24 bits; it lies after the key and the sampler keys as an 8-bit class ID and a 24-bit size, followed by the rest |
| ProgramDesc.MetaKey | src/gpu/GrProgramDesc.cpp:91-143 | the processor key, its sampler keys and the meta key, or failure when the meta data does not fit; MetaKeyOutcome states both cases |
| ProgramDesc.MetaDataFits | src/gpu/GrProgramDesc.cpp:78-80 | the class ID within 8 bits and the key size within 24; MetaKeyOutcome states its effect on the key |
| ProgramDesc.FragKeysExtend | src/gpu/GrProgramDesc.cpp:145-163 | a successful fragment-processor key only appends to the key built so far |
| ProgramDesc.FragKeys | src/gpu/GrProgramDesc.cpp:145-163 | the children's keys first (kNull_ClassID for a missing child), then the processor's own GLSL key and its meta key with the coord-transforms word last; FragKeysExtend states it only appends |
| ProgramDesc.ChildKeysExtend | src/gpu/GrProgramDesc.cpp:148-158 | the child loop, null children writing kNull_ClassID, only appends to the key |
| ProgramDesc.ChildKeys | src/gpu/GrProgramDesc.cpp:148-158 | the children's keys in order, kNull_ClassID for a null child; ChildKeysExtend states it only appends |
| ProgramDesc.PrefixSize | src/gpu/GrProgramDesc.cpp:95-97 | a key that extends another is at least as long in bits |
| ProgramDesc.FullKeyFailsFrag | src/gpu/GrProgramDesc.cpp:91-113 | once the key so far holds 2^24 bits or more, every fragment processor's meta key fails |
| ProgramDesc.BuiltKeyShape | src/gpu/GrProgramDesc.cpp:165-245 | a built key starts with the primitive processor's GLSL and attribute keys and ends with the sample-pattern word when sample locations are requested and then the header fields: write swizzle, color and coverage processor counts, origin, requested features, vertex snapping and the points flag |
| ProgramDesc.BuildKey | src/gpu/GrProgramDesc.cpp:165-245 | the whole key, or failure when any processor's meta data does not fit; BuiltKeyShape and Desc.Build state it |
| ProgramDesc.FragsKeyExtend | src/gpu/GrProgramDesc.cpp:193-205 | the loop over fragment processors only appends to the key |
| ProgramDesc.PrimKey | src/gpu/GrProgramDesc.cpp:183-190 | the primitive processor's meta key over its GLSL and attribute keys; OversizedPrimFails states when it fails |
| ProgramDesc.XferKey | src/gpu/GrProgramDesc.cpp:206-218 | the transfer processor's key and meta key appended to the key so far, or failure when its meta data does not fit |
| ProgramDesc.Trailer | src/gpu/GrProgramDesc.cpp:220-236 | the sample-pattern word when sample locations are requested, then the header fields |
| ProgramDesc.OversizedPrimFails | src/gpu/GrProgramDesc.cpp:183-190 | a primitive processor whose key reaches 2^24 bits makes Build fail |
| ProgramDesc.FragsWithBigRootFail | src/gpu/GrProgramDesc.cpp:193-205 | a fragment processor whose class ID needs more than 8 bits makes the loop fail |
| ProgramDesc.NoneStaysNone | src/gpu/GrProgramDesc.cpp:193-205 | failure at one fragment processor is the failure of the whole loop |
| ProgramDesc.Desc.Build | src/gpu/GrProgramDesc.cpp:165-245 | Build succeeds exactly when every processor's key fits, and the descriptor then holds the full key; on failure the key is reset to empty |
| DeadGlobals.Survivors | src/sksl/transform/SkSLEliminateDeadGlobalVariables.cpp:27-42 | no more elements survive than there were, and none of the survivors is a dead variable |
| DeadGlobals.IsDeadVariable | src/sksl/transform/SkSLEliminateDeadGlobalVariables.cpp:27-42 | a global variable declaration, `$`-named when only private globals go, whose variable is dead; Survivors and SurvivorsCount state what it removes |
| DeadGlobals.SurvivorsAppend | src/sksl/transform/SkSLEliminateDeadGlobalVariables.cpp:54-59 | removal works piecewise: the survivors of a concatenation are the survivors of each part, in order |
| DeadGlobals.SurvivorsCount | src/sksl/transform/SkSLEliminateDeadGlobalVariables.cpp:54-59 | every element that is not dead survives as often as it occurred; a dead one does not survive |
| DeadGlobals.SurvivorsShrink | src/sksl/transform/SkSLEliminateDeadGlobalVariables.cpp:54-61 | the list gets shorter exactly when one of its elements is dead |
| DeadGlobals.PrivateOnlyRemovesLess | src/sksl/transform/SkSLEliminateDeadGlobalVariables.cpp:35-37 | removing only `$`-named globals never removes more than removing every dead global |
| DeadGlobals.RemoveDead | src/sksl/transform/SkSLEliminateDeadGlobalVariables.cpp:54-59 | the loop leaves exactly the survivors, in order |
| DeadGlobals.LoadedModule.EliminateDeadGlobalVariables | src/sksl/transform/SkSLEliminateDeadGlobalVariables.cpp:44-62 | with removal on, the dead (and, if asked, private) globals go and the rest keep order; the result is true exactly when some element was dead |
| DeadGlobals.Program.constructor | src/sksl/transform/SkSLEliminateDeadGlobalVariables.cpp:64-70 | a program holds the given owned and shared elements |
| DeadGlobals.Program.EliminateDeadGlobalVariables | src/sksl/transform/SkSLEliminateDeadGlobalVariables.cpp:64-87 | with removal on, every dead global goes from both lists; the result is true exactly when either list held a dead one |

## Left out

- File, stream and memory-map I/O, `getenv`, FreeType, the emoji image factory, the format-specific decoders, subprocess calls and the compiler runs of the minifier: each enters the model as a parameter carrying its outcome.
- Mutexes, atomics and spinlocks in the font hosts, the pixel ref and the dictionary: the model is the sequential state they protect.
- Hash-map and hash-set iteration order (the temporary-stack depth maps, the DSL variable-name map): an explicit order is given as a sequence.
- `std::remove_if` with `erase` in dead-global removal: modelled on sequences, so the in-place move of the surviving pointers is not modelled.
- The usage analysis that decides whether a variable is dead: a set of dead variables is given.
- The key builder of the program descriptor is not part of this model; processors' own keys are given as fields, `addString` labels carry no bits, and `flush` and the initial key length are not modelled. Two inputs are given rather than derived: `ProgramInfo.sampleLocations` stands for `requestedFeatures & kSampleLocations` (src/gpu/GrProgramDesc.cpp:221), whose flag value lives in GrProcessor.h, which is not part of this model; and `FragProc.textureEffects` is the list `visitTextureEffects` walks (src/gpu/GrProgramDesc.cpp:102), which the model takes as given.
- `texture_type_key` aborts on a texture type without a key: the model requires a keyed type (`ProgramDesc.Keyed`).
- The abort of `bitsForEnum` when no element declares the enum: the model answers None.
- SkSL modifiers: the flag word is six booleans.
- SkSLRasterPipelineBuilder.h is older than SkSLRasterPipelineBuilder.cpp (it lacks `fImmB` and the uniform-slot argument): the fields the .cpp uses are modelled.
- RPCodeGen.IfCode: the `if` lowering negates its test with `unary_op(BuilderOp::bitwise_not, 1)` (src/sksl/codegen/SkSLRasterPipelineCodeGenerator.cpp:281). `bitwise_not` is a native stage (src/core/SkRasterPipeline.h:133) and so a `BuilderOp`, but the builder's `unary_op` accepts only the ops listed at src/sksl/codegen/SkSLRasterPipelineBuilder.cpp:32-41, where the bitwise not is `bitwise_not_int`. As written, that call reaches the `SkDEBUGFAIL` default and appends nothing. The model emits `bitwise_not_int` instead. tests/RasterPipelineBuilderTest.cpp:292 is written for a builder version whose unary list holds `bitwise_not` itself, so in that version the call appends the one-slot bitwise not.
- RPCodeGen.Generator.FoldWithOp: the `==` and `!=` lowerings fold with `bitwise_and` and `bitwise_or` (src/sksl/codegen/SkSLRasterPipelineCodeGenerator.cpp:443 and 454), which are also outside the builder's binary list. The model takes any op, and for an op outside that list it appends nothing, as the source does. The comparison lowering itself is modelled only through its op tables.
- The `Program::dump` printer, apart from `AsRange`.
- The SkTSearch header is not part of this model: the emoji lookup's binary search is modelled on an ascending table.
- SkLanguage.cpp is not part of this model: the parent of a language tag follows BCP 47 (drop the last `-` subtag).
- The generated code-point table that emoji/EmojiFont.cpp includes is not part of this model: the table and its bounds are parameters.
- GmojiMaker reads its input with `fgets` into a fixed buffer: lines are whole strings, and the exact layout of the printed C array is not modelled, only its values.
- `EmojiFont::Draw` and the factory lookup in `IsAvailable`: drawing and the factory are outside the model.
- `EmojiFont.EncodeCache.GetAdvanceWidth` takes the text size as a real number, not a floating-point value, and its contract gives the result as one of the two cases without repeating how the cache changed (that is the contract of `GetBitmap`).
- MeshUtils: the texture coordinates `init` fills are floating-point and are not modelled; the index array is.
- Floating point in the Raster Pipeline builder: float immediates are their 32-bit patterns.
- gn/minify_sksl.py calls the tool with "--unoptimized" before the output path, but the SkSLMinify.cpp shown reads its first argument as the output path and has no such flag. The model follows each file as written.
- ImageDecoder.Decoder.ChooseFromOneChoice: the chooser is a callback that the source shows the config, width and height before asking for its choice; the model fixes its answer when it is installed, so an answer that depends on the candidate is not modelled.
- GmojiMaker.ExitCode: an input with no code points makes the tool read `unichars[0]` from an empty array, which is undefined behaviour in C++; the model reports that case as the separate outcome `NoEntries` and gives it no exit status.
- GLUtil: `%d` stores the number it reads into an `int`; a number outside the 32-bit range is undefined behaviour in C, and the model keeps the unbounded value.
- Precompile: the combination counts are sums and products of C `int`s, where overflow is undefined behaviour; the model's counts are unbounded. PixelRef.PixelRef.GetGenerationID: the source returns the ID as `uint32_t`; the model returns the counter's signed 32-bit value, which has the same bit pattern.
- MinifyDriver.MinifySksl: a command line with fewer than two arguments after the script name makes Python raise `IndexError` before anything runs; the model requires both.

## Findings

| source | as written | input that shows it | evidently intended | confidence | as-written member | corrected member |
|---|---|---|---|---|---|---|
| src/gpu/gl/GrGLUtil.cpp:257-259 | `sscanf(...) \|\| sscanf(...)` treats the end-of-input result -1 as success | a renderer string that ends right after "Intel(R) ... Graphics": both scans return -1 and the uninitialised `intelNumber` is classified | classify only when a scan assigned the number (`== 1`) | not executed | GLUtil.IntelNumberReadsUninitialised | GLUtil.IntelNumberNeedsANumber |
| src/sksl/SkSLString.cpp:65-75 | after the `u`/`U` suffix is stripped, an empty rest is parsed by `strtoull` and accepted | "u" or "U" alone gives true with the value 0 | reject a literal with no digits | not executed | SkSLString.StoiAcceptsBareSuffix | SkSLString.StoiCheckedNeedsDigits |
| tools/sksl-minify/SkSLMinify.cpp:132-137 | a failed re-read of the input returns `{}`, the value-initialised result code | an input that compiles but cannot be re-read: the tool prints an error and still reports success | report an input error | not executed | Minify.RereadFailureReportsSuccess | Minify.ProcessCommandChecked |
| legacy/emoji/GmojiMaker.cpp:68-89 | `prevPua` is reset to 0 on every line, so the ascending-order check never fires for in-range values | the lines FE001 then FE000 are accepted and emitted out of order | keep the previous value across lines and reject a value not above it | not executed | GmojiMaker.AsWrittenAcceptsDescending | GmojiMaker.CollectAscending |
| src/sksl/codegen/SkSLDSLCPPCodeGenerator.cpp:1192-1198 | `1u << bits` with `bits` reaching 32 is undefined; taken modulo 32 the loop test never fails | `bits_needed(0x80000000)` | stop at 32 bits for values from 2^31 on | not executed | DSLCPPCodeGen.BitsNeededAsWrittenNeverStops | DSLCPPCodeGen.BitsNeeded |
