// Precompilation of paint options: how many pipeline combinations a set of paint
// options expands to, how one combination index is split into the index of each
// option, the clip-shader options a set of clip shaders expands to, and when a
// combination dithers (src/gpu/graphite/Precompile.cpp).
module Precompile {
  import opened Wrappers

  /** Sum of the counts, added front to back as the counting loops do. */
  function Sum(s: seq<int>): int
    decreases |s|
  {
    if |s| == 0 then 0 else Sum(s[..|s| - 1]) + s[|s| - 1]
  }

  /** A count of zero falls back to the single default option. */
  function OrOne(n: int): int {
    if n != 0 then n else 1
  }

  /** A null option contributes one combination, any other its own count. */
  function NullCountsOne(opts: seq<Option<int>>): (r: seq<int>)
    ensures |r| == |opts|
    ensures forall i :: 0 <= i < |opts| ==> r[i] == (if opts[i].None? then 1 else opts[i].value)
  {
    seq(|opts|, i requires 0 <= i < |opts| => if opts[i].None? then 1 else opts[i].value)
  }

  lemma {:induction false} SumNonNegative(s: seq<int>)
    requires forall i :: 0 <= i < |s| ==> s[i] >= 0
    ensures Sum(s) >= 0
    decreases |s|
  {
    if |s| > 0 {
      SumNonNegative(s[..|s| - 1]);
    }
  }

  /** With the option counts never negative, each counter reports at least one combination. */
  lemma OrOneAtLeastOne(s: seq<int>)
    requires forall i :: 0 <= i < |s| ==> s[i] >= 0
    ensures OrOne(Sum(s)) >= 1
  {
    SumNonNegative(s);
  }

  /** The sum loop shared by the four counters. */
  method SumCounts(counts: seq<int>) returns (total: int)
    ensures total == Sum(counts)
  {
    total := 0;
    var i := 0;
    while i < |counts|
      invariant 0 <= i <= |counts|
      invariant total == Sum(counts[..i])
    {
      assert counts[..i + 1][..i] == counts[..i];
      total := total + counts[i];
      i := i + 1;
    }
    assert counts[..i] == counts;
  }

  /**
   * numShaderCombinations: the combinations of every shader option added up, or
   * one (the solid-colour shader) when that comes to zero.
   */
  method NumShaderCombinations(shaderCombinations: seq<int>) returns (n: int)
    ensures n == OrOne(Sum(shaderCombinations))
    ensures (forall i :: 0 <= i < |shaderCombinations| ==> shaderCombinations[i] >= 0) ==> n >= 1
  {
    var total := SumCounts(shaderCombinations);
    n := if total != 0 then total else 1;
    if forall i :: 0 <= i < |shaderCombinations| ==> shaderCombinations[i] >= 0 {
      OrOneAtLeastOne(shaderCombinations);
    }
  }

  /**
   * numColorFilterCombinations: a null colour filter counts once, any other adds its
   * combinations; one (the unmodified colour) when that comes to zero.
   */
  method NumColorFilterCombinations(colorFilters: seq<Option<int>>) returns (n: int)
    ensures n == OrOne(Sum(NullCountsOne(colorFilters)))
    ensures (forall i :: 0 <= i < |colorFilters| && colorFilters[i].Some? ==> colorFilters[i].value >= 0) ==> n >= 1
  {
    var total := SumCounts(NullCountsOne(colorFilters));
    n := if total != 0 then total else 1;
    if forall i :: 0 <= i < |colorFilters| && colorFilters[i].Some? ==> colorFilters[i].value >= 0 {
      OrOneAtLeastOne(NullCountsOne(colorFilters));
    }
  }

  /**
   * numBlendModeCombinations: one per blend mode plus the child combinations of each
   * blender; one (kSrcOver) when that comes to zero.
   */
  method NumBlendModeCombinations(numBlendModes: nat, blenderChildCombinations: seq<int>) returns (n: int)
    ensures n == OrOne(numBlendModes + Sum(blenderChildCombinations))
    ensures (forall i :: 0 <= i < |blenderChildCombinations| ==> blenderChildCombinations[i] >= 0) ==> n >= 1
  {
    var total := SumCounts(blenderChildCombinations);
    n := numBlendModes + total;
    if n == 0 {
      n := 1;
    }
    if forall i :: 0 <= i < |blenderChildCombinations| ==> blenderChildCombinations[i] >= 0 {
      SumNonNegative(blenderChildCombinations);
    }
  }

  /**
   * numClipShaderCombinations: a null clip shader counts once, any other adds its
   * child combinations; one (unclipped) when that comes to zero.
   */
  method NumClipShaderCombinations(clipShaders: seq<Option<int>>) returns (n: int)
    ensures n == OrOne(Sum(NullCountsOne(clipShaders)))
    ensures (forall i :: 0 <= i < |clipShaders| && clipShaders[i].Some? ==> clipShaders[i].value >= 0) ==> n >= 1
  {
    var total := SumCounts(NullCountsOne(clipShaders));
    n := if total != 0 then total else 1;
    if forall i :: 0 <= i < |clipShaders| && clipShaders[i].Some? ==> clipShaders[i].value >= 0 {
      OrOneAtLeastOne(NullCountsOne(clipShaders));
    }
  }

  /** numCombinations: every shader with every colour filter, blend and clip option. */
  function NumCombinations(numShader: int, numColorFilter: int, numBlend: int, numClip: int): (r: int)
    ensures numShader >= 1 && numColorFilter >= 1 && numBlend >= 1 && numClip >= 1 ==>
      r >= numShader && r >= numColorFilter && r >= numBlend && r >= numClip
  {
    ProductAtLeastFactors(numShader, numColorFilter, numBlend, numClip);
    numShader * numColorFilter * numBlend * numClip
  }

  lemma MulNonNegative(x: int, y: int)
    requires x >= 0 && y >= 0
    ensures x * y >= 0
  {
  }

  /** A product of positive factors is at least each factor. */
  lemma MulAtLeastFactors(a: int, b: int)
    requires a >= 1 && b >= 1
    ensures a * b >= a && a * b >= b && a * b >= 1
  {
    MulNonNegative(a, b - 1);
    MulNonNegative(a - 1, b);
    assert a * b == a * (b - 1) + a;
    assert a * b == (a - 1) * b + b;
  }

  lemma ProductAtLeastFactors(a: int, b: int, c: int, d: int)
    ensures a >= 1 && b >= 1 && c >= 1 && d >= 1 ==> a * b * c * d >= a && a * b * c * d >= b && a * b * c * d >= c && a * b * c * d >= d
  {
    if a >= 1 && b >= 1 && c >= 1 && d >= 1 {
      MulAtLeastFactors(a, b);
      MulAtLeastFactors(a * b, c);
      MulAtLeastFactors(a * b * c, d);
    }
  }

  /** The option each part of the paint takes in one combination. */
  datatype Combination = Combination(clip: int, blend: int, colorFilter: int, shader: int)

  /**
   * createKey's index split: the clip-shader option varies fastest, then the blend,
   * then the colour filter, and what remains picks the shader.
   */
  function SplitCombination(desired: nat, numClip: int, numBlend: int, numColorFilter: int): (r: Combination)
    requires numClip >= 1 && numBlend >= 1 && numColorFilter >= 1
    ensures 0 <= r.clip < numClip && 0 <= r.blend < numBlend && 0 <= r.colorFilter < numColorFilter && r.shader >= 0
  {
    var clip := desired % numClip;
    var remaining := desired / numClip;
    var blend := remaining % numBlend;
    var remaining' := remaining / numBlend;
    var colorFilter := remaining' % numColorFilter;
    Combination(clip, blend, colorFilter, remaining' / numColorFilter)
  }

  /** The combination index of one choice of options: the inverse of the split. */
  function CombinationIndex(c: Combination, numClip: int, numBlend: int, numColorFilter: int): int {
    ((c.shader * numColorFilter + c.colorFilter) * numBlend + c.blend) * numClip + c.clip
  }

  /** Mixed-radix digits: `a` is recovered from its quotient and remainder by `n`. */
  lemma DivModRecombine(a: nat, n: int)
    requires n >= 1
    ensures a == (a / n) * n + a % n
  {
  }

  /** Splitting an index and recombining the digits gives the index back. */
  lemma {:induction false} SplitThenIndex(desired: nat, numClip: int, numBlend: int, numColorFilter: int)
    requires numClip >= 1 && numBlend >= 1 && numColorFilter >= 1
    ensures CombinationIndex(SplitCombination(desired, numClip, numBlend, numColorFilter), numClip, numBlend, numColorFilter) == desired
  {
    var r1 := desired / numClip;
    var r2 := r1 / numBlend;
    DivModRecombine(desired, numClip);
    DivModRecombine(r1, numBlend);
    DivModRecombine(r2, numColorFilter);
  }

  /** Unique digits: the remainder and quotient of q * n + d are d and q. */
  lemma DigitUnique(q: int, d: int, n: int)
    requires n >= 1 && 0 <= d < n && q >= 0
    ensures (q * n + d) % n == d && (q * n + d) / n == q
  {
    var x := q * n + d;
    var q', d' := x / n, x % n;
    assert x == q' * n + d' && 0 <= d' < n;
    assert (q - q') * n == d' - d;
    assert (q' - q) * n == d - d';
    if q - q' >= 1 {
      MulAtLeastFactors(q - q', n);
      assert false;
    } else if q' - q >= 1 {
      MulAtLeastFactors(q' - q, n);
      assert false;
    }
  }

  /** Every choice of in-range options has an index whose split is that choice. */
  lemma {:induction false} IndexThenSplit(c: Combination, numClip: int, numBlend: int, numColorFilter: int)
    requires numClip >= 1 && numBlend >= 1 && numColorFilter >= 1
    requires 0 <= c.clip < numClip && 0 <= c.blend < numBlend && 0 <= c.colorFilter < numColorFilter && c.shader >= 0
    ensures CombinationIndex(c, numClip, numBlend, numColorFilter) >= 0
    ensures SplitCombination(CombinationIndex(c, numClip, numBlend, numColorFilter), numClip, numBlend, numColorFilter) == c
  {
    var r2 := c.shader * numColorFilter + c.colorFilter;
    var r1 := r2 * numBlend + c.blend;
    assert r2 >= 0 && r1 >= 0;
    DigitUnique(c.shader, c.colorFilter, numColorFilter);
    DigitUnique(r2, c.blend, numBlend);
    DigitUnique(r1, c.clip, numClip);
  }

  /** An index below numCombinations picks a shader below the shader count. */
  lemma {:induction false} SplitShaderInRange(desired: nat, numShader: int, numColorFilter: int, numBlend: int, numClip: int)
    requires numShader >= 1 && numClip >= 1 && numBlend >= 1 && numColorFilter >= 1
    requires desired < NumCombinations(numShader, numColorFilter, numBlend, numClip)
    ensures SplitCombination(desired, numClip, numBlend, numColorFilter).shader < numShader
  {
    var c := SplitCombination(desired, numClip, numBlend, numColorFilter);
    SplitThenIndex(desired, numClip, numBlend, numColorFilter);
    var r2 := desired / numClip / numBlend;
    assert c.shader == r2 / numColorFilter;
    // desired >= r2 * numClip * numBlend >= shader * numColorFilter * numClip * numBlend
    QuotientBound(desired, numClip * numBlend * numColorFilter, numClip, numBlend, numColorFilter);
    assert numShader * numColorFilter * numBlend * numClip == numShader * (numClip * numBlend * numColorFilter);
    if c.shader >= numShader {
      MulMonotone(numShader, c.shader, numClip * numBlend * numColorFilter);
      assert false;
    }
  }

  lemma MulMonotone(a: int, b: int, m: int)
    requires a <= b && m >= 0
    ensures a * m <= b * m
  {
    MulNonNegative(b - a, m);
    assert b * m - a * m == (b - a) * m;
  }

  /** The shader digit times the product of the other radices never exceeds the index. */
  lemma QuotientBound(desired: nat, p: int, numClip: int, numBlend: int, numColorFilter: int)
    requires numClip >= 1 && numBlend >= 1 && numColorFilter >= 1 && p == numClip * numBlend * numColorFilter
    ensures SplitCombination(desired, numClip, numBlend, numColorFilter).shader * p <= desired
  {
    var r1 := desired / numClip;
    var r2 := r1 / numBlend;
    var sh := r2 / numColorFilter;
    DivModRecombine(desired, numClip);
    DivModRecombine(r1, numBlend);
    DivModRecombine(r2, numColorFilter);
    assert sh * numColorFilter <= r2;
    MulMonotone(sh * numColorFilter, r2, numBlend);
    assert r2 * numBlend <= r1;
    MulMonotone(sh * numColorFilter * numBlend, r1, numClip);
    assert r1 * numClip <= desired;
    assert sh * p == sh * numColorFilter * numBlend * numClip;
  }

  /** Two different indices never pick the same options. */
  lemma SplitInjective(a: nat, b: nat, numClip: int, numBlend: int, numColorFilter: int)
    requires numClip >= 1 && numBlend >= 1 && numColorFilter >= 1
    requires SplitCombination(a, numClip, numBlend, numColorFilter) == SplitCombination(b, numClip, numBlend, numColorFilter)
    ensures a == b
  {
    SplitThenIndex(a, numClip, numBlend, numColorFilter);
    SplitThenIndex(b, numClip, numBlend, numColorFilter);
  }

  /** The precompile shader (and colour filter) graphs a clip shader becomes. */
  datatype ColorFilter = BlendColorFilter
  datatype PrecompileShader =
    | Shader(id: int)
    | CTMShader(wrapped: PrecompileShader)
    | ColorFilterShader(shader: PrecompileShader, colorFilter: ColorFilter)

  /** makeWithColorFilter with a non-null filter: the shader wrapped with it. */
  function MakeWithColorFilter(s: PrecompileShader, cf: ColorFilter): PrecompileShader {
    ColorFilterShader(s, cf)
  }

  /**
   * The two options a clip shader adds: itself under a CTM shader, and that shader
   * again inverted (for a difference clip) by a blend colour filter; both null for a
   * null clip shader.
   */
  function ClipShaderPair(cs: Option<PrecompileShader>): seq<Option<PrecompileShader>> {
    match cs
    case None => [None, None]
    case Some(s) => [Some(CTMShader(s)), Some(MakeWithColorFilter(CTMShader(s), BlendColorFilter))]
  }

  function ClipShaderOptions(clipShaders: seq<Option<PrecompileShader>>): (r: seq<Option<PrecompileShader>>)
    decreases |clipShaders|
  {
    if |clipShaders| == 0 then []
    else ClipShaderOptions(clipShaders[..|clipShaders| - 1]) + ClipShaderPair(clipShaders[|clipShaders| - 1])
  }

  /**
   * Exactly two options per clip shader: option 2i is clip shader i under a CTM shader
   * and option 2i+1 is that one inverted; a null clip shader gives two nulls.
   */
  lemma {:induction false} ClipShaderOptionsShape(clipShaders: seq<Option<PrecompileShader>>)
    ensures |ClipShaderOptions(clipShaders)| == 2 * |clipShaders|
    ensures forall i :: 0 <= i < |clipShaders| ==>
      ClipShaderOptions(clipShaders)[2 * i] == (if clipShaders[i].None? then None else Some(CTMShader(clipShaders[i].value))) &&
      ClipShaderOptions(clipShaders)[2 * i + 1] ==
        (if clipShaders[i].None? then None else Some(ColorFilterShader(CTMShader(clipShaders[i].value), BlendColorFilter)))
    decreases |clipShaders|
  {
    if |clipShaders| > 0 {
      var init := clipShaders[..|clipShaders| - 1];
      ClipShaderOptionsShape(init);
      forall i | 0 <= i < |clipShaders|
        ensures ClipShaderOptions(clipShaders)[2 * i] == (if clipShaders[i].None? then None else Some(CTMShader(clipShaders[i].value)))
        ensures ClipShaderOptions(clipShaders)[2 * i + 1] ==
          (if clipShaders[i].None? then None else Some(ColorFilterShader(CTMShader(clipShaders[i].value), BlendColorFilter)))
      {
        if i < |init| {
          assert clipShaders[i] == init[i];
        }
      }
    }
  }

  /** The paint options precompilation expands; only the clip-shader options are kept. */
  class PaintOptions {
    var clipShaderOptions: seq<Option<PrecompileShader>>

    constructor ()
      ensures clipShaderOptions == []
    {
      clipShaderOptions := [];
    }

    /** setClipShaders: appends the two options of each clip shader, in order. */
    method SetClipShaders(clipShaders: seq<Option<PrecompileShader>>)
      modifies this
      ensures clipShaderOptions == old(clipShaderOptions) + ClipShaderOptions(clipShaders)
    {
      var i := 0;
      ghost var start := clipShaderOptions;
      while i < |clipShaders|
        invariant 0 <= i <= |clipShaders|
        invariant clipShaderOptions == start + ClipShaderOptions(clipShaders[..i])
      {
        var withCTM: Option<PrecompileShader> := None;
        var inverted: Option<PrecompileShader> := None;
        if clipShaders[i].Some? {
          withCTM := Some(CTMShader(clipShaders[i].value));
          inverted := Some(MakeWithColorFilter(withCTM.value, BlendColorFilter));
        }
        assert clipShaders[..i + 1][..i] == clipShaders[..i];
        clipShaderOptions := clipShaderOptions + [withCTM] + [inverted];
        i := i + 1;
      }
      assert clipShaders[..i] == clipShaders;
    }
  }

  /** The destination colour types shouldDither tells apart. */
  datatype ColorType = UnknownColorType | RGB565 | ARGB4444 | OtherColorType(id: int)

  /**
   * shouldDither: the paint's dither flag can veto, an unknown destination never
   * dithers, 565 and 4444 always do, and otherwise only a non-constant shader does.
   * `shaderIsConstant` is None when the combination has no shader.
   */
  function ShouldDither(dither: bool, dstCT: ColorType, shaderIsConstant: Option<bool>): (r: bool)
    ensures r ==> dither && dstCT != UnknownColorType
    ensures dither && (dstCT == RGB565 || dstCT == ARGB4444) ==> r
    ensures dstCT.OtherColorType? ==> (r <==> dither && shaderIsConstant == Some(false))
  {
    if !dither then false
    else if dstCT == UnknownColorType then false
    else if dstCT == RGB565 || dstCT == ARGB4444 then true
    else shaderIsConstant.Some? && !shaderIsConstant.value
  }
}
