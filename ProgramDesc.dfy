// The program descriptor's processor key (src/gpu/GrProgramDesc.cpp): sampler
// keys, the per-processor meta keys with their class-ID and key-size fields,
// and `Build`, which writes the whole key or leaves it empty on failure.
module ProgramDesc {
  import opened Wrappers
  import opened Ints

  /** The texture types; the key knows only the last three, and aborts on the first. */
  datatype TextureType = NoTexture | Texture2D | Rectangle | External

  /** A texture type with a key. */
  predicate Keyed(t: TextureType) { t != NoTexture }

  /** `texture_type_key`: 2D, external and rectangle textures get 0, 1 and 2. */
  function TextureTypeKey(t: TextureType): (k: bv16)
    requires Keyed(t)
  {
    match t
    case Texture2D => 0
    case External => 1
    case Rectangle => 2
  }

  /** The type key fits the 4 bits set aside for it, and tells the types apart. */
  lemma TextureTypeKeyFits(s: TextureType, t: TextureType)
    requires Keyed(s) && Keyed(t)
    ensures TextureTypeKey(t) < 16
    ensures TextureTypeKey(s) == TextureTypeKey(t) <==> s == t
  {
  }

  /** `sampler_key`: the type key in the low 4 bits, the 16-bit swizzle key above it. */
  function SamplerKey(t: TextureType, swizzleKey: bv16): bv32
    requires Keyed(t)
  {
    (TextureTypeKey(t) as bv32) | ((swizzleKey as bv32) << 4)
  }

  /** The sampler key gives back both of its parts. */
  lemma SamplerKeyDecodes(t: TextureType, swizzleKey: bv16)
    requires Keyed(t)
    ensures SamplerKey(t, swizzleKey) & 0xF == TextureTypeKey(t) as bv32
    ensures SamplerKey(t, swizzleKey) >> 4 == swizzleKey as bv32
    ensures SamplerKey(t, swizzleKey) < 0x10_0000
  {
    OrLowHigh(TextureTypeKey(t) as bv32, swizzleKey as bv32);
  }

  /** Four low bits OR'ed under a 16-bit value shifted by 4 stay apart. */
  lemma OrLowHigh(k: bv32, w: bv32)
    requires k < 16 && w < 0x1_0000
    ensures (k | (w << 4)) & 0xF == k && (k | (w << 4)) >> 4 == w && (k | (w << 4)) < 0x10_0000
  {
  }

  /** Two samplers have the same key only when type and swizzle agree. */
  lemma SamplerKeyInjective(s: TextureType, a: bv16, t: TextureType, b: bv16)
    requires Keyed(s) && Keyed(t)
    requires SamplerKey(s, a) == SamplerKey(t, b)
    ensures s == t && a == b
  {
    SamplerKeyDecodes(s, a);
    SamplerKeyDecodes(t, b);
    TextureTypeKeyFits(s, t);
  }

  /** `processor_meta_data_fits`: the class ID within 8 bits and the key size within 24. */
  function MetaDataFits(classID: nat, keySize: nat): bool {
    classID < 0x100 && keySize < 0x100_0000
  }

  /** A field of the processor key: a value written into `bits` bits. */
  datatype Field = Field(bits: nat, value: int)

  /** The key's length in bits. */
  function SizeInBits(key: seq<Field>): nat {
    if |key| == 0 then 0 else SizeInBits(key[..|key| - 1]) + key[|key| - 1].bits
  }

  /** Appending fields adds their bits. */
  lemma {:induction false} SizeInBitsAppend(a: seq<Field>, b: seq<Field>)
    ensures SizeInBits(a + b) == SizeInBits(a) + SizeInBits(b)
    decreases |b|
  {
    if |b| > 0 {
      var b' := b[..|b| - 1];
      assert (a + b)[..|a + b| - 1] == a + b';
      SizeInBitsAppend(a, b');
    } else {
      assert a + b == a;
    }
  }

  /** A texture a processor samples: its type, its swizzle key and the fields the caps add for it. */
  datatype Sampler = Sampler(textureType: TextureType, swizzleKey: bv16, extra: seq<Field>)

  /** The sampler key as a 32-bit field, followed by the caps' extra fields. */
  function SamplerFields(s: Sampler): seq<Field>
    requires Keyed(s.textureType)
  {
    [Field(32, SamplerKey(s.textureType, s.swizzleKey) as int)] + s.extra
  }

  predicate AllKeyed(ss: seq<Sampler>) {
    forall i :: 0 <= i < |ss| ==> Keyed(ss[i].textureType)
  }

  /** The fields of each sampler in turn. */
  function SamplersFields(ss: seq<Sampler>): seq<Field>
    requires AllKeyed(ss)
  {
    if |ss| == 0 then [] else SamplersFields(ss[..|ss| - 1]) + SamplerFields(ss[|ss| - 1])
  }

  /**
   * The meta key of one processor written after `key`: fails when the class
   * ID or the key size so far does not fit; otherwise the sampler fields,
   * then the class ID in 8 bits and the size in 24 bits.
   */
  function MetaKey(key: seq<Field>, classID: nat, samplers: seq<Sampler>, tail: seq<Field>): (r: Option<seq<Field>>)
    requires AllKeyed(samplers)
  {
    var size := SizeInBits(key);
    if !MetaDataFits(classID, size) then None
    else Some(key + SamplersFields(samplers) + [Field(8, classID), Field(24, size)] + tail)
  }

  /** A meta key is written exactly when the processor's data fits, and then records the size the key had. */
  lemma MetaKeyOutcome(key: seq<Field>, classID: nat, samplers: seq<Sampler>, tail: seq<Field>)
    requires AllKeyed(samplers)
    ensures MetaKey(key, classID, samplers, tail).Some? <==> classID < 0x100 && SizeInBits(key) < 0x100_0000
    ensures MetaKey(key, classID, samplers, tail).Some? ==>
      (var r := MetaKey(key, classID, samplers, tail).value;
       var n := |key| + |SamplersFields(samplers)|;
       |r| == n + 2 + |tail| && r[..|key|] == key && r[n] == Field(8, classID) &&
       r[n + 1] == Field(24, SizeInBits(key)) && r[n + 2..] == tail)
  {
  }

  /** The geometry processor: its own key, its attribute key, its class ID and its samplers. */
  datatype PrimProc = PrimProc(classID: nat, glslKey: seq<Field>, attributeKey: seq<Field>, samplers: seq<Sampler>)

  /** A fragment processor with its children, some of which may be missing. */
  datatype FragProc = FragProc(classID: nat, glslKey: seq<Field>, transformsKey: nat,
                               textureEffects: seq<Sampler>, children: seq<Option<FragProc>>)

  /** The transfer processor. */
  datatype XferProc = XferProc(classID: nat, glslKey: seq<Field>)

  /** The class ID folded in for a missing child: the reserved null ID, the first of the IDs. */
  const NullClassID := 0

  /** Every texture a fragment processor tree samples has a keyed type. */
  predicate ValidFP(fp: FragProc)
    decreases fp, 1
  {
    AllKeyed(fp.textureEffects) && ValidChildren(fp, 0)
  }

  predicate ValidChildren(fp: FragProc, i: nat)
    decreases fp, 0, |fp.children| - i
  {
    i >= |fp.children| ||
    ((fp.children[i].None? || ValidFP(fp.children[i].value)) && ValidChildren(fp, i + 1))
  }

  /**
   * `gen_frag_proc_and_meta_keys`: the children first (a missing one as the
   * null class ID), then the processor's own key, then its meta key with its
   * coord-transforms key last. Failure anywhere fails the whole tree.
   */
  function FragKeys(fp: FragProc, key: seq<Field>): Option<seq<Field>>
    requires ValidFP(fp)
    decreases fp, 1
  {
    match ChildKeys(fp, 0, key)
    case None => None
    case Some(k) => MetaKey(k + fp.glslKey, fp.classID, fp.textureEffects, [Field(32, fp.transformsKey)])
  }

  /** The keys of children `i..` of `fp`. */
  function ChildKeys(fp: FragProc, i: nat, key: seq<Field>): Option<seq<Field>>
    requires ValidChildren(fp, i)
    decreases fp, 0, |fp.children| - i
  {
    if i >= |fp.children| then Some(key)
    else match fp.children[i]
      case None => ChildKeys(fp, i + 1, key + [Field(32, NullClassID)])
      case Some(child) =>
        match FragKeys(child, key)
        case None => None
        case Some(k) => ChildKeys(fp, i + 1, k)
  }

  /** A key only grows: whatever a tree writes comes after what was there. */
  lemma {:induction false} FragKeysExtend(fp: FragProc, key: seq<Field>)
    requires ValidFP(fp)
    ensures FragKeys(fp, key).Some? ==>
      |FragKeys(fp, key).value| >= |key| && FragKeys(fp, key).value[..|key|] == key
    decreases fp, 1
  {
    ChildKeysExtend(fp, 0, key);
    match ChildKeys(fp, 0, key)
    case None =>
    case Some(k) =>
      if FragKeys(fp, key).Some? {
        var r := FragKeys(fp, key).value;
        assert r[..|k|] == k;
        assert r[..|key|] == k[..|key|];
      }
  }

  lemma {:induction false} ChildKeysExtend(fp: FragProc, i: nat, key: seq<Field>)
    requires ValidChildren(fp, i)
    ensures ChildKeys(fp, i, key).Some? ==>
      |ChildKeys(fp, i, key).value| >= |key| && ChildKeys(fp, i, key).value[..|key|] == key
    decreases fp, 0, |fp.children| - i
  {
    if i < |fp.children| {
      match fp.children[i]
      case None =>
        var key' := key + [Field(32, NullClassID)];
        ChildKeysExtend(fp, i + 1, key');
        if ChildKeys(fp, i, key).Some? {
          var r := ChildKeys(fp, i, key).value;
          assert r[..|key|] == r[..|key'|][..|key|];
        }
      case Some(child) =>
        FragKeysExtend(child, key);
        match FragKeys(child, key)
        case None =>
        case Some(k) =>
          ChildKeysExtend(fp, i + 1, k);
          if ChildKeys(fp, i, key).Some? {
            var r := ChildKeys(fp, i, key).value;
            assert r[..|key|] == r[..|k|][..|key|];
          }
    }
  }

  /** A key is never shorter in bits than any prefix of it. */
  lemma PrefixSize(a: seq<Field>, b: seq<Field>)
    requires |b| >= |a| && b[..|a|] == a
    ensures SizeInBits(b) >= SizeInBits(a)
  {
    assert b == a + b[|a|..];
    SizeInBitsAppend(a, b[|a|..]);
  }

  /**
   * Once the key holds 2^24 bits or more, every fragment processor tree fails:
   * its meta key would see a size that does not fit.
   */
  lemma {:induction false} FullKeyFailsFrag(fp: FragProc, key: seq<Field>)
    requires ValidFP(fp) && SizeInBits(key) >= 0x100_0000
    ensures FragKeys(fp, key).None?
    decreases fp, 1
  {
    ChildKeysExtend(fp, 0, key);
    match ChildKeys(fp, 0, key)
    case None =>
    case Some(k) =>
      PrefixSize(key, k);
      SizeInBitsAppend(k, fp.glslKey);
  }

  /** The pipeline's role for each fragment processor. */
  datatype Role = ColorRole | CoverageRole | OtherRole

  /** What a program is built from; the processors' own keys and the caps' contributions are given. */
  datatype ProgramInfo = ProgramInfo(
    primProc: PrimProc,
    fragProcs: seq<FragProc>,
    roles: seq<Role>,
    xferProc: XferProc,
    xferKey: seq<Field>,
    sampleLocations: bool,
    samplePatternKey: nat,
    writeSwizzleKey: u16,
    originKey: nat,
    requestedFeatures: nat,
    snapVertices: bool,
    isPoints: bool)

  predicate ValidInfo(info: ProgramInfo) {
    AllKeyed(info.primProc.samplers) && |info.roles| == |info.fragProcs| &&
    forall i :: 0 <= i < |info.fragProcs| ==> ValidFP(info.fragProcs[i])
  }

  /** The number of processors among the first `n` with role `r`. */
  function CountRole(roles: seq<Role>, n: nat, r: Role): nat
    requires n <= |roles|
  {
    if n == 0 then 0 else CountRole(roles, n - 1, r) + (if roles[n - 1] == r then 1 else 0)
  }

  /** The key after the first `n` fragment processors, starting from `key`. */
  function FragsKey(fps: seq<FragProc>, n: nat, key: seq<Field>): Option<seq<Field>>
    requires n <= |fps| && forall i :: 0 <= i < |fps| ==> ValidFP(fps[i])
  {
    if n == 0 then Some(key)
    else match FragsKey(fps, n - 1, key)
      case None => None
      case Some(k) => FragKeys(fps[n - 1], k)
  }

  /** The geometry processor's part: its key, its attribute key, then its meta key. */
  function PrimKey(info: ProgramInfo): Option<seq<Field>>
    requires ValidInfo(info)
  {
    var pp := info.primProc;
    MetaKey(pp.glslKey + pp.attributeKey, pp.classID, pp.samplers, [])
  }

  /** The transfer processor's part, written after `key`. */
  function XferKey(info: ProgramInfo, key: seq<Field>): Option<seq<Field>> {
    MetaKey(key + info.xferKey, info.xferProc.classID, [], [])
  }

  /** The sample-pattern word, then the header: write swizzle, FP counts, origin, features, snapping, points. */
  function Trailer(info: ProgramInfo, numColor: nat, numCoverage: nat): seq<Field> {
    (if info.sampleLocations then [Field(32, info.samplePatternKey)] else []) +
    [Field(16, info.writeSwizzleKey as int), Field(1, numColor), Field(2, numCoverage), Field(2, info.originKey),
     Field(1, info.requestedFeatures), Field(1, if info.snapVertices then 1 else 0),
     Field(1, if info.isPoints then 1 else 0)]
  }

  /** The whole key `Build` writes, or None when a processor's meta data does not fit. */
  function BuildKey(info: ProgramInfo): (r: Option<seq<Field>>)
    requires ValidInfo(info)
  {
    match PrimKey(info)
    case None => None
    case Some(k1) =>
      match FragsKey(info.fragProcs, |info.fragProcs|, k1)
      case None => None
      case Some(k2) =>
        match XferKey(info, k2)
        case None => None
        case Some(k3) =>
          var n := |info.fragProcs|;
          Some(k3 + Trailer(info, CountRole(info.roles, n, ColorRole), CountRole(info.roles, n, CoverageRole)))
  }

  /**
   * A built key starts with the geometry processor's keys and ends with the
   * header, whose counts are those of the color and coverage processors.
   */
  lemma BuiltKeyShape(info: ProgramInfo)
    requires ValidInfo(info) && BuildKey(info).Some?
    ensures var r := BuildKey(info).value;
      var pp := info.primProc;
      var n := |info.fragProcs|;
      var t := Trailer(info, CountRole(info.roles, n, ColorRole), CountRole(info.roles, n, CoverageRole));
      |r| >= |pp.glslKey + pp.attributeKey| + |t| &&
      r[..|pp.glslKey + pp.attributeKey|] == pp.glslKey + pp.attributeKey &&
      r[|r| - |t|..] == t
  {
    var pp := info.primProc;
    var k0 := pp.glslKey + pp.attributeKey;
    var k1 := PrimKey(info).value;
    var k2 := FragsKey(info.fragProcs, |info.fragProcs|, k1).value;
    var k3 := XferKey(info, k2).value;
    FragsKeyExtend(info.fragProcs, |info.fragProcs|, k1);
    assert k1[..|k0|] == k0;
    assert k3[..|k2|] == k2;
    var r := BuildKey(info).value;
    assert r[..|k3|] == k3;
    assert r[..|k0|] == k3[..|k0|] == k2[..|k0|] == k1[..|k0|];
  }

  /** The processors after the first only ever add to the key. */
  lemma {:induction false} FragsKeyExtend(fps: seq<FragProc>, n: nat, key: seq<Field>)
    requires n <= |fps| && forall i :: 0 <= i < |fps| ==> ValidFP(fps[i])
    ensures FragsKey(fps, n, key).Some? ==> |FragsKey(fps, n, key).value| >= |key| && FragsKey(fps, n, key).value[..|key|] == key
  {
    if n > 0 {
      FragsKeyExtend(fps, n - 1, key);
      match FragsKey(fps, n - 1, key)
      case None =>
      case Some(k) =>
        FragKeysExtend(fps[n - 1], k);
        if FragsKey(fps, n, key).Some? {
          var r := FragsKey(fps, n, key).value;
          assert r[..|key|] == r[..|k|][..|key|];
        }
    }
  }

  /** A geometry processor whose own keys already take 2^24 bits fails the build. */
  lemma OversizedPrimFails(info: ProgramInfo)
    requires ValidInfo(info)
    requires SizeInBits(info.primProc.glslKey + info.primProc.attributeKey) >= 0x100_0000
    ensures BuildKey(info).None?
  {
  }

  /** A fragment processor class ID of 256 or more fails the build, wherever the processor sits. */
  lemma {:induction false} FragsWithBigRootFail(fps: seq<FragProc>, n: nat, key: seq<Field>, j: nat)
    requires n <= |fps| && forall i :: 0 <= i < |fps| ==> ValidFP(fps[i])
    requires j < n && fps[j].classID >= 0x100
    ensures FragsKey(fps, n, key).None?
  {
    if j < n - 1 {
      FragsWithBigRootFail(fps, n - 1, key, j);
    } else {
      match FragsKey(fps, n - 1, key)
      case None =>
      case Some(k) =>
        match ChildKeys(fps[j], 0, k)
        case None =>
        case Some(_) =>
    }
  }

  /** The descriptor whose key `Build` writes. */
  class Desc {
    var key: seq<Field>

    constructor()
      ensures key == []
    {
      key := [];
    }

    /**
     * `Build`: resets the key, writes the geometry processor's part, each
     * fragment processor's part while counting color and coverage processors,
     * the transfer processor's part and the header; any meta key that does not
     * fit resets the key again and fails.
     */
    method Build(info: ProgramInfo) returns (ok: bool)
      requires ValidInfo(info)
      modifies this
      ensures ok == BuildKey(info).Some?
      ensures key == if ok then BuildKey(info).value else []
    {
      key := [];
      var pp := PrimKey(info);
      if pp.None? {
        key := [];
        return false;
      }
      key := pp.value;
      var numColor, numCoverage := 0, 0;
      var i := 0;
      while i < |info.fragProcs|
        invariant 0 <= i <= |info.fragProcs|
        invariant FragsKey(info.fragProcs, i, pp.value) == Some(key)
        invariant numColor == CountRole(info.roles, i, ColorRole)
        invariant numCoverage == CountRole(info.roles, i, CoverageRole)
      {
        var next := FragKeys(info.fragProcs[i], key);
        if next.None? {
          NoneStaysNone(info.fragProcs, i + 1, pp.value);
          key := [];
          return false;
        }
        key := next.value;
        if info.roles[i] == ColorRole {
          numColor := numColor + 1;
        } else if info.roles[i] == CoverageRole {
          numCoverage := numCoverage + 1;
        }
        i := i + 1;
      }
      var xp := XferKey(info, key);
      if xp.None? {
        key := [];
        return false;
      }
      key := xp.value + Trailer(info, numColor, numCoverage);
      ok := true;
    }
  }

  /** A failure among the first `n` processors fails all of them. */
  lemma {:induction false} NoneStaysNone(fps: seq<FragProc>, n: nat, key: seq<Field>)
    requires n <= |fps| && forall i :: 0 <= i < |fps| ==> ValidFP(fps[i])
    requires FragsKey(fps, n, key).None?
    ensures FragsKey(fps, |fps|, key).None?
    decreases |fps| - n
  {
    if n < |fps| {
      NoneStaysNone(fps, n + 1, key);
    }
  }
}
