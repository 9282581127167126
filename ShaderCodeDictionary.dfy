// The shader code dictionary: paint-key entries found or created by content, code
// snippet IDs split into built-in and user-defined ranges, runtime-effect snippets
// deduplicated by key, and the default argument list of a snippet call
// (src/core/SkShaderCodeDictionary.cpp, src/core/SkBuiltInCodeSnippetID.h).
module ShaderCodeDictionary {
  import opened Wrappers
  import opened Text

  /** SkBuiltInCodeSnippetID::kLast + 1: kError through kShaderBasedBlender. */
  const BUILT_IN_CODE_SNIPPET_ID_COUNT := 24

  /** The serialized bytes of a paint-params key; entries are keyed by content. */
  type PaintParamsKey = seq<int>

  /** A dictionary entry; its unique ID is its index in the entry vector. */
  datatype Entry = Entry(key: PaintParamsKey, uniqueID: nat)

  /** Which inputs a snippet's function takes ahead of its uniforms. */
  datatype Requirements = Requirements(priorStageOutput: bool, destColor: bool, localCoords: bool)

  const NO_REQUIREMENTS := Requirements(false, false, false)

  /** A code snippet, with its uniforms and samplers given by name. */
  datatype Snippet = Snippet(name: string, uniforms: seq<string>, requirements: Requirements,
                             samplers: seq<string>, functionName: string, numChildren: int)

  /** What getEntry points to: a built-in snippet or a user-defined one, by index. */
  datatype SnippetRef = BuiltIn(index: nat) | UserDefined(index: nat)

  /** What the dictionary reads from a runtime effect. */
  datatype RuntimeEffect = RuntimeEffect(hash: int, uniformSize: int, allowShader: bool, allowBlender: bool,
                                         numChildren: int, uniforms: seq<string>)

  datatype RuntimeEffectKey = RuntimeEffectKey(hash: int, uniformSize: int)

  /** The snippet findOrCreateRuntimeEffectSnippet registers for an effect. */
  function RuntimeEffectSnippet(effect: RuntimeEffect): Snippet {
    Snippet("RuntimeEffect", effect.uniforms,
            Requirements(false, effect.allowBlender, effect.allowShader), [], "RuntimeEffect",
            effect.numChildren)
  }

  /** get_mangled_name, and the uniform and sampler names mangled the same way. */
  function MangledName(baseName: string, suffix: int): (r: string)
    ensures |r| > |baseName| + 1 && r[..|baseName|] == baseName && r[|baseName|] == '_'
  {
    baseName + "_" + IntToString(suffix)
  }

  /** Two different suffixes never mangle a name to the same text. */
  lemma MangledNameInjective(baseName: string, a: int, b: int)
    requires MangledName(baseName, a) == MangledName(baseName, b)
    ensures a == b
  {
    assert MangledName(baseName, a)[|baseName| + 1..] == IntToString(a);
    assert MangledName(baseName, b)[|baseName| + 1..] == IntToString(b);
    IntToStringInjective(a, b);
  }

  /** The inputs a default snippet call passes. */
  datatype Args = Args(priorStageOutput: string, destColor: string, fragCoord: string)

  /**
   * How a shader with a storage buffer reads a uniform: EmitStorageBufferAccess's
   * text for the mangled name, or none for a shader without one (ssboIndex 0).
   */
  type StorageAccess = Option<string -> string>

  /** A mangled name as the snippet call reads it: through the storage buffer when there is one. */
  function Accessed(name: string, access: StorageAccess): string {
    if access.Some? then access.value(name) else name
  }

  /**
   * The arguments of a default snippet call, in order; the uniforms are read
   * through the shader's storage buffer when it has one, the samplers never are.
   */
  function DefaultArguments(entry: Snippet, entryIndex: int, args: Args, childOutputs: seq<string>,
                            storageAccess: StorageAccess): seq<string> {
    (if entry.requirements.priorStageOutput then [args.priorStageOutput] else []) +
    (if entry.requirements.destColor then [args.destColor] else []) +
    (if entry.requirements.localCoords then [args.fragCoord] else []) +
    MangledNames(entry.uniforms, entryIndex, storageAccess) + MangledNames(entry.samplers, entryIndex, None) + childOutputs
  }

  /**
   * getMangledUniformName and getMangledSamplerName over a snippet's names: each name
   * mangled with the entry index, then read through the storage access if any.
   */
  function MangledNames(names: seq<string>, entryIndex: int, access: StorageAccess): (r: seq<string>)
    ensures |r| == |names|
    ensures access.None? ==> forall i :: 0 <= i < |names| ==> r[i] == MangledName(names[i], entryIndex)
    ensures access.Some? ==> forall i :: 0 <= i < |names| ==> r[i] == access.value(MangledName(names[i], entryIndex))
  {
    seq(|names|, i requires 0 <= i < |names| => Accessed(MangledName(names[i], entryIndex), access))
  }

  /** The separator the argument loops keep: empty before the first argument. */
  function Separator(written: seq<string>): string {
    if |written| == 0 then "" else ", "
  }

  /** Appends one argument after the separator. */
  method AppendArgument(code: string, separator: string, ghost written: seq<string>, arg: string)
    returns (code': string, separator': string, ghost written': seq<string>)
    requires code == "(" + Join(written, ", ") && separator == Separator(written)
    ensures written' == written + [arg]
    ensures code' == "(" + Join(written', ", ") && separator' == Separator(written')
  {
    JoinSnoc(written, arg, ", ");
    code' := code + separator + arg;
    separator' := ", ";
    written' := written + [arg];
  }

  /** The uniform and sampler loops: each name mangled with the entry index. */
  method AppendMangledNames(code: string, separator: string, ghost written: seq<string>, names: seq<string>,
                            entryIndex: int, access: StorageAccess)
    returns (code': string, separator': string, ghost written': seq<string>)
    requires code == "(" + Join(written, ", ") && separator == Separator(written)
    ensures written' == written + MangledNames(names, entryIndex, access)
    ensures code' == "(" + Join(written', ", ") && separator' == Separator(written')
  {
    code', separator', written' := code, separator, written;
    var i := 0;
    while i < |names|
      invariant 0 <= i <= |names|
      invariant written' == written + MangledNames(names[..i], entryIndex, access)
      invariant code' == "(" + Join(written', ", ") && separator' == Separator(written')
    {
      MangledNamesSnoc(names, i, entryIndex, access);
      var name := MangledName(names[i], entryIndex);
      if access.Some? {
        name := access.value(name);
      }
      code', separator', written' := AppendArgument(code', separator', written', name);
      i := i + 1;
    }
    assert names[..i] == names;
  }

  lemma MangledNamesSnoc(names: seq<string>, i: nat, entryIndex: int, access: StorageAccess)
    requires i < |names|
    ensures MangledNames(names[..i + 1], entryIndex, access) ==
      MangledNames(names[..i], entryIndex, access) + [Accessed(MangledName(names[i], entryIndex), access)]
  {
    var a, b := MangledNames(names[..i + 1], entryIndex, access),
      MangledNames(names[..i], entryIndex, access) + [Accessed(MangledName(names[i], entryIndex), access)];
    assert |a| == |b|;
    forall k | 0 <= k < |a| ensures a[k] == b[k] {
      if k < i {
        assert names[..i + 1][k] == names[..i][k];
      }
    }
  }

  /** The child-output loop. */
  method AppendArguments(code: string, separator: string, ghost written: seq<string>, items: seq<string>)
    returns (code': string, separator': string, ghost written': seq<string>)
    requires code == "(" + Join(written, ", ") && separator == Separator(written)
    ensures written' == written + items
    ensures code' == "(" + Join(written', ", ") && separator' == Separator(written')
  {
    code', separator', written' := code, separator, written;
    var i := 0;
    while i < |items|
      invariant 0 <= i <= |items|
      invariant written' == written + items[..i]
      invariant code' == "(" + Join(written', ", ") && separator' == Separator(written')
    {
      assert items[..i + 1] == items[..i] + [items[i]];
      code', separator', written' := AppendArgument(code', separator', written', items[i]);
      i := i + 1;
    }
    assert items[..i] == items;
  }

  /**
   * append_default_snippet_arguments: "(" then the prior-stage output, the dest
   * colour and the coordinates where the snippet needs them, then its mangled
   * uniform names (read through the storage buffer when the shader has one) and
   * sampler names, then the child outputs, separated by ", ", then ")".
   */
  method AppendDefaultSnippetArguments(entry: Snippet, entryIndex: int, args: Args, childOutputs: seq<string>,
                                       storageAccess: StorageAccess)
    returns (code: string)
    ensures code == "(" + Join(DefaultArguments(entry, entryIndex, args, childOutputs, storageAccess), ", ") + ")"
  {
    code := "(";
    var separator := "";
    ghost var written: seq<string> := [];
    if entry.requirements.priorStageOutput {
      code, separator, written := AppendArgument(code, separator, written, args.priorStageOutput);
    }
    if entry.requirements.destColor {
      code, separator, written := AppendArgument(code, separator, written, args.destColor);
    }
    if entry.requirements.localCoords {
      code, separator, written := AppendArgument(code, separator, written, args.fragCoord);
    }
    assert written == (if entry.requirements.priorStageOutput then [args.priorStageOutput] else []) +
      (if entry.requirements.destColor then [args.destColor] else []) +
      (if entry.requirements.localCoords then [args.fragCoord] else []);
    code, separator, written := AppendMangledNames(code, separator, written, entry.uniforms, entryIndex, storageAccess);
    code, separator, written := AppendMangledNames(code, separator, written, entry.samplers, entryIndex, None);
    code, separator, written := AppendArguments(code, separator, written, childOutputs);
    code := code + ")";
  }

  class Dictionary {
    /** Entry vector: slot 0 is reserved as the invalid ID. */
    var entryVector: seq<Option<Entry>>
    /** Content lookup: key to the index of its entry. */
    var hash: map<PaintParamsKey, nat>
    var userDefinedCodeSnippets: seq<Snippet>
    var runtimeEffectMap: map<RuntimeEffectKey, int>

    ghost predicate Valid()
      reads this
    {
      |entryVector| >= 1 && entryVector[0].None? &&
      (forall i :: 1 <= i < |entryVector| ==> entryVector[i].Some? && entryVector[i].value.uniqueID == i) &&
      (forall k :: k in hash ==> 1 <= hash[k] < |entryVector| && entryVector[hash[k]] == Some(Entry(k, hash[k]))) &&
      (forall i :: 1 <= i < |entryVector| ==>
        entryVector[i].Some? && entryVector[i].value.key in hash && hash[entryVector[i].value.key] == i) &&
      (forall k :: k in runtimeEffectMap ==>
        BUILT_IN_CODE_SNIPPET_ID_COUNT <= runtimeEffectMap[k] < BUILT_IN_CODE_SNIPPET_ID_COUNT + |userDefinedCodeSnippets|)
    }

    constructor ()
      ensures Valid() && entryVector == [None] && hash == map[]
      ensures userDefinedCodeSnippets == [] && runtimeEffectMap == map[]
    {
      entryVector := [None];
      hash := map[];
      userDefinedCodeSnippets := [];
      runtimeEffectMap := map[];
    }

    /**
     * The entry for `key`: the existing one when an equal key was seen, otherwise a
     * new entry whose ID is the entry-vector size, appended to the vector.
     */
    method FindOrCreate(key: PaintParamsKey) returns (e: Entry)
      requires Valid()
      modifies this
      ensures Valid() && e.key == key
      ensures userDefinedCodeSnippets == old(userDefinedCodeSnippets) && runtimeEffectMap == old(runtimeEffectMap)
      ensures key in old(hash) ==> e.uniqueID == old(hash)[key] && entryVector == old(entryVector) && hash == old(hash)
      ensures key !in old(hash) ==>
        e.uniqueID == |old(entryVector)| && entryVector == old(entryVector) + [Some(e)] && hash == old(hash)[key := e.uniqueID]
      ensures 0 < e.uniqueID < |entryVector| && Lookup(e.uniqueID) == Some(e)
    {
      if key in hash {
        return entryVector[hash[key]].value;
      }
      e := Entry(key, |entryVector|);
      hash := hash[key := e.uniqueID];
      entryVector := entryVector + [Some(e)];
      assert entryVector[e.uniqueID] == Some(e);
    }

    /** Entries are found by content: two different keys never share a unique ID. */
    lemma DistinctKeysDistinctIDs(a: PaintParamsKey, b: PaintParamsKey)
      requires Valid() && a in hash && b in hash && a != b
      ensures hash[a] != hash[b]
    {
      assert entryVector[hash[a]] == Some(Entry(a, hash[a]));
      assert entryVector[hash[b]] == Some(Entry(b, hash[b]));
    }

    /** The entry with a unique ID; the invalid ID 0 finds nothing. */
    function Lookup(codeID: nat): (r: Option<Entry>)
      reads this
      requires Valid() && (codeID != 0 ==> codeID < |entryVector|)
      ensures codeID == 0 ==> r.None?
      ensures codeID != 0 ==> r.Some? && r.value.uniqueID == codeID && r.value.key in hash && hash[r.value.key] == codeID
    {
      if codeID == 0 then None else entryVector[codeID]
    }

    /**
     * The snippet with a code snippet ID: none for a negative ID, a built-in one
     * below the built-in count, then the user-defined ones in order, else none.
     */
    function GetEntry(codeSnippetID: int): (r: Option<SnippetRef>)
      reads this
      ensures codeSnippetID < 0 ==> r.None?
      ensures 0 <= codeSnippetID < BUILT_IN_CODE_SNIPPET_ID_COUNT ==> r == Some(BuiltIn(codeSnippetID))
      ensures codeSnippetID >= BUILT_IN_CODE_SNIPPET_ID_COUNT ==>
        r == (if codeSnippetID - BUILT_IN_CODE_SNIPPET_ID_COUNT < |userDefinedCodeSnippets|
              then Some(UserDefined(codeSnippetID - BUILT_IN_CODE_SNIPPET_ID_COUNT)) else None)
    {
      if codeSnippetID < 0 then None
      else if codeSnippetID < BUILT_IN_CODE_SNIPPET_ID_COUNT then Some(BuiltIn(codeSnippetID))
      else
        var userDefinedCodeSnippetID := codeSnippetID - BUILT_IN_CODE_SNIPPET_ID_COUNT;
        if userDefinedCodeSnippetID < |userDefinedCodeSnippets| then Some(UserDefined(userDefinedCodeSnippetID)) else None
    }

    /** Whether a code snippet ID names a built-in or a registered user-defined snippet. */
    predicate IsValidID(snippetID: int)
      reads this
    {
      if snippetID < 0 then false
      else if snippetID < BUILT_IN_CODE_SNIPPET_ID_COUNT then true
      else snippetID - BUILT_IN_CODE_SNIPPET_ID_COUNT < |userDefinedCodeSnippets|
    }

    /** isValidID and getEntry agree: an ID is valid exactly when it finds a snippet. */
    lemma IsValidIDMatchesGetEntry(snippetID: int)
      ensures IsValidID(snippetID) <==> GetEntry(snippetID).Some?
    {
    }

    /** The snippet a valid ID names. */
    function SnippetFor(ref: SnippetRef): Option<Snippet>
      reads this
    {
      match ref
      case BuiltIn(_) => None
      case UserDefined(i) => if i < |userDefinedCodeSnippets| then Some(userDefinedCodeSnippets[i]) else None
    }

    /** Registers a user-defined snippet; its ID is the built-in count plus its index. */
    method AddUserDefinedSnippet(snippet: Snippet) returns (id: int)
      requires Valid()
      modifies this
      ensures Valid()
      ensures userDefinedCodeSnippets == old(userDefinedCodeSnippets) + [snippet]
      ensures entryVector == old(entryVector) && hash == old(hash) && runtimeEffectMap == old(runtimeEffectMap)
      ensures id == BUILT_IN_CODE_SNIPPET_ID_COUNT + |userDefinedCodeSnippets| - 1
      ensures IsValidID(id) && GetEntry(id) == Some(UserDefined(|old(userDefinedCodeSnippets)|))
      ensures SnippetFor(GetEntry(id).value) == Some(snippet)
    {
      userDefinedCodeSnippets := userDefinedCodeSnippets + [snippet];
      id := BUILT_IN_CODE_SNIPPET_ID_COUNT + |userDefinedCodeSnippets| - 1;
    }

    /** The older overload: a named snippet with no uniforms, samplers, requirements or children. */
    method AddNamedUserDefinedSnippet(name: string) returns (id: int)
      requires Valid()
      modifies this
      ensures Valid()
      ensures userDefinedCodeSnippets == old(userDefinedCodeSnippets) + [Snippet("UserDefined", [], NO_REQUIREMENTS, [], name, 0)]
      ensures entryVector == old(entryVector) && hash == old(hash) && runtimeEffectMap == old(runtimeEffectMap)
      ensures id == BUILT_IN_CODE_SNIPPET_ID_COUNT + |userDefinedCodeSnippets| - 1
    {
      id := AddUserDefinedSnippet(Snippet("UserDefined", [], NO_REQUIREMENTS, [], name, 0));
    }

    /**
     * The snippet ID of a runtime effect, keyed by its hash and uniform size: the ID
     * already registered for that key, or a newly added snippet's.
     */
    method FindOrCreateRuntimeEffectSnippet(effect: RuntimeEffect) returns (id: int)
      requires Valid()
      modifies this
      ensures Valid() && entryVector == old(entryVector) && hash == old(hash)
      ensures IsValidID(id)
      ensures var key := RuntimeEffectKey(effect.hash, effect.uniformSize);
        key in runtimeEffectMap && runtimeEffectMap[key] == id &&
        (key in old(runtimeEffectMap) ==>
          id == old(runtimeEffectMap)[key] && runtimeEffectMap == old(runtimeEffectMap) &&
          userDefinedCodeSnippets == old(userDefinedCodeSnippets)) &&
        (key !in old(runtimeEffectMap) ==>
          id == BUILT_IN_CODE_SNIPPET_ID_COUNT + |old(userDefinedCodeSnippets)| &&
          userDefinedCodeSnippets == old(userDefinedCodeSnippets) + [RuntimeEffectSnippet(effect)] &&
          runtimeEffectMap == old(runtimeEffectMap)[key := id])
    {
      var key := RuntimeEffectKey(effect.hash, effect.uniformSize);
      if key in runtimeEffectMap {
        return runtimeEffectMap[key];
      }
      id := AddUserDefinedSnippet(RuntimeEffectSnippet(effect));
      runtimeEffectMap := runtimeEffectMap[key := id];
    }
  }

  /** Two effects with the same key get one snippet: the second call adds nothing. */
  method RuntimeEffectDedup(d: Dictionary, a: RuntimeEffect, b: RuntimeEffect) returns (idA: int, idB: int)
    requires d.Valid() && a.hash == b.hash && a.uniformSize == b.uniformSize
    modifies d
    ensures idA == idB
    ensures |d.userDefinedCodeSnippets| <= |old(d.userDefinedCodeSnippets)| + 1
  {
    idA := d.FindOrCreateRuntimeEffectSnippet(a);
    idB := d.FindOrCreateRuntimeEffectSnippet(b);
  }

  /** Looking a key up twice finds the same entry, and the vector grows by at most one. */
  method FindOrCreateDedup(d: Dictionary, key: PaintParamsKey) returns (first: Entry, second: Entry)
    requires d.Valid()
    modifies d
    ensures first == second && first.key == key
    ensures |old(d.entryVector)| <= |d.entryVector| <= |old(d.entryVector)| + 1
  {
    first := d.FindOrCreate(key);
    second := d.FindOrCreate(key);
  }
}
