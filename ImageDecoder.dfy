// The image decoder's own state: sample size, preferred-config table, the
// chooser's verdict, and the decode entry points that protect the caller's
// bitmap (src/images/SkImageDecoder.cpp). The format-specific decoding is a
// subclass hook and enters here as the outcome it produced.
module ImageDecoder {
  import opened Wrappers

  /** The bitmap configurations of this era. */
  datatype Config = NoConfig | A1 | A8 | Index8 | RGB565 | ARGB4444 | ARGB8888 | RLEIndex8

  /** The source image's depth as the decoder reports it. */
  datatype SrcDepth = IndexDepth | Depth16 | Depth32

  /** A bitmap as the decoder sees it: its shape and whether it owns pixels. */
  datatype Bitmap = Bitmap(config: Config, width: int, height: int, isOpaque: bool, hasPixels: bool)

  const EmptyBitmap := Bitmap(NoConfig, 0, 0, false, false)

  /**
   * The slot of the preferred-config table: two per depth (index, 16-bit,
   * 32-bit), the second of each pair for sources with alpha.
   */
  function PrefIndex(depth: SrcDepth, hasAlpha: bool): (r: int)
    ensures 0 <= r < 6
    ensures (r % 2 == 1) == hasAlpha
    ensures r / 2 == match depth case IndexDepth => 0 case Depth16 => 1 case Depth32 => 2
  {
    (match depth case IndexDepth => 0 case Depth16 => 2 case Depth32 => 4) + (if hasAlpha then 1 else 0)
  }

  /** The depth whose pair holds table slot `k`. */
  function SlotDepth(k: int): SrcDepth {
    if k < 2 then IndexDepth else if k < 4 then Depth16 else Depth32
  }

  /** Every pair of depth and alpha has its own slot, and every slot belongs to one pair. */
  lemma PrefIndexOneToOne()
    ensures forall d1, a1, d2, a2 :: PrefIndex(d1, a1) == PrefIndex(d2, a2) ==> d1 == d2 && a1 == a2
    ensures forall k :: 0 <= k < 6 ==> PrefIndex(SlotDepth(k), k % 2 == 1) == k
  {
  }

  /** C's `/` on int: the quotient truncated toward zero. */
  function CDiv(a: int, b: int): (q: int)
    requires b > 0
    ensures a >= 0 ==> q == a / b
    ensures a < 0 ==> -q == (-a) / b
  {
    if a >= 0 then a / b else -((-a) / b)
  }

  /** The truncated quotient vanishes exactly for dividends strictly inside (-b, b). */
  lemma CDivZero(a: int, b: int)
    requires b > 0
    ensures (CDiv(a, b) == 0) <==> -b < a < b
  {
    var n := if a >= 0 then a else -a;
    assert n == b * (n / b) + n % b && 0 <= n % b < b;
    if n / b != 0 {
      assert n / b >= 1;
      assert b * (n / b) >= b;
    }
  }

  /** What cropping a decoded bitmap does. */
  datatype CropPlan =
    | SwapWithSource
    | DrawInto(config: Config, width: int, height: int, isOpaque: bool, dx: int, dy: int)

  /**
   * `cropBitmap`: when the sampled output rectangle already is the decode
   * result and the offsets vanish under sampling, the bitmaps are swapped;
   * otherwise a new bitmap of the sampled size receives the source drawn at the
   * sampled offset.
   */
  function CropBitmap(src: Bitmap, sampleSize: int, destX: int, destY: int, width: int, height: int, srcX: int, srcY: int): (r: CropPlan)
    requires sampleSize > 0
    ensures r.SwapWithSource? <==>
      (CDiv(width, sampleSize) == src.width && CDiv(height, sampleSize) == src.height &&
       -sampleSize < srcX - destX < sampleSize && -sampleSize < srcY - destY < sampleSize)
    ensures r.DrawInto? ==>
      (r.config == src.config && r.isOpaque == src.isOpaque &&
       r.width == CDiv(width, sampleSize) && r.height == CDiv(height, sampleSize) &&
       r.dx == CDiv(srcX - destX, sampleSize) && r.dy == CDiv(srcY - destY, sampleSize))
  {
    CDivZero(srcX - destX, sampleSize);
    CDivZero(srcY - destY, sampleSize);
    var w := CDiv(width, sampleSize);
    var h := CDiv(height, sampleSize);
    if w == src.width && h == src.height && CDiv(srcX - destX, sampleSize) == 0 && CDiv(srcY - destY, sampleSize) == 0 then
      SwapWithSource
    else
      DrawInto(src.config, w, h, src.isOpaque, CDiv(srcX - destX, sampleSize), CDiv(srcY - destY, sampleSize))
  }

  /**
   * `DecodeMemory`: an empty buffer fails without looking for a decoder;
   * otherwise the outcome is that of decoding the buffer as a stream.
   */
  function DecodeMemory(size: nat, streamDecodes: bool): (r: bool)
    ensures size == 0 ==> !r
    ensures size > 0 ==> r == streamDecodes
  {
    if size == 0 then false else streamDecodes
  }

  class Decoder {
    var sampleSize: int
    var defaultPref: Config
    var usePrefTable: bool
    var prefTable: seq<Config>
    var ditherImage: bool
    var shouldCancelDecode: bool
    /** The installed chooser's answer to `choose()`, or None when there is none. */
    var chooser: Option<int>

    predicate Valid()
      reads this
    {
      sampleSize >= 1 && |prefTable| == 6
    }

    /** A new decoder: sample size 1, no default preference, dithering on, no table, no chooser. */
    constructor()
      ensures Valid()
      ensures sampleSize == 1 && defaultPref == NoConfig && ditherImage && !usePrefTable && chooser == None
    {
      sampleSize := 1;
      defaultPref := NoConfig;
      ditherImage := true;
      usePrefTable := false;
      prefTable := [NoConfig, NoConfig, NoConfig, NoConfig, NoConfig, NoConfig];
      shouldCancelDecode := false;
      chooser := None;
    }

    /** Sizes below 1 are raised to 1; nothing else changes. */
    method SetSampleSize(size: int)
      requires Valid()
      modifies this
      ensures Valid()
      ensures sampleSize == (if size < 1 then 1 else size)
      ensures defaultPref == old(defaultPref) && usePrefTable == old(usePrefTable) && prefTable == old(prefTable)
      ensures ditherImage == old(ditherImage) && shouldCancelDecode == old(shouldCancelDecode) && chooser == old(chooser)
    {
      if size < 1 {
        sampleSize := 1;
      } else {
        sampleSize := size;
      }
    }

    /** Installs (or removes) the chooser; its answer is what `choose()` will return. */
    method SetChooser(answer: Option<int>)
      requires Valid()
      modifies this
      ensures Valid()
      ensures chooser == answer
      ensures sampleSize == old(sampleSize) && defaultPref == old(defaultPref) && usePrefTable == old(usePrefTable)
      ensures prefTable == old(prefTable) && ditherImage == old(ditherImage) && shouldCancelDecode == old(shouldCancelDecode)
    {
      chooser := answer;
    }

    /** With no table the table is switched off and kept; otherwise its six entries are copied in. */
    method SetPrefConfigTable(pref: Option<seq<Config>>)
      requires Valid()
      requires pref.Some? ==> |pref.value| == 6
      modifies this
      ensures Valid()
      ensures usePrefTable == pref.Some?
      ensures prefTable == (if pref.Some? then pref.value else old(prefTable))
      ensures sampleSize == old(sampleSize) && defaultPref == old(defaultPref) && chooser == old(chooser)
      ensures ditherImage == old(ditherImage) && shouldCancelDecode == old(shouldCancelDecode)
      ensures pref.Some? ==>
        (forall d, a, device :: GetPrefConfig(d, a, device) ==
          (if pref.value[PrefIndex(d, a)] == NoConfig then device else pref.value[PrefIndex(d, a)]))
    {
      if pref.None? {
        usePrefTable := false;
      } else {
        usePrefTable := true;
        prefTable := pref.value;
      }
    }

    /**
     * The config to decode into: the table's slot for this depth and alpha when
     * the table is on, else the default preference; no config at all falls back
     * to the device config.
     */
    function GetPrefConfig(depth: SrcDepth, hasAlpha: bool, deviceConfig: Config): (r: Config)
      requires Valid()
      reads this
      ensures var chosen := if usePrefTable then prefTable[PrefIndex(depth, hasAlpha)] else defaultPref;
        (chosen != NoConfig ==> r == chosen) && (chosen == NoConfig ==> r == deviceConfig)
      ensures r == NoConfig ==> deviceConfig == NoConfig
    {
      var config := if usePrefTable then prefTable[PrefIndex(depth, hasAlpha)] else defaultPref;
      if config == NoConfig then deviceConfig else config
    }

    /** With no chooser decoding goes ahead; otherwise only when the chooser picks the one choice offered. */
    function ChooseFromOneChoice(config: Config, width: int, height: int): (r: bool)
      reads this
      ensures r <==> chooser.None? || chooser.value == 0
    {
      match chooser
      case None => true
      case Some(choice) => choice == 0
    }

    /**
     * `decode`: records the preference and clears the cancel flag, then decodes
     * into the caller's bitmap when reusing one that has pixels, and otherwise
     * into a temporary that replaces the caller's bitmap only on success.
     * `inPlace` is what the subclass produces when writing into the caller's
     * bitmap (it may alter it even when failing); `decoded` is what it produces
     * into an empty temporary, None on failure.
     */
    method Decode(bm: Bitmap, pref: Config, reuseBitmap: bool, inPlace: (bool, Bitmap), decoded: Option<Bitmap>)
      returns (ok: bool, result: Bitmap)
      requires Valid()
      modifies this
      ensures Valid()
      ensures defaultPref == pref && !shouldCancelDecode
      ensures sampleSize == old(sampleSize) && usePrefTable == old(usePrefTable) && prefTable == old(prefTable)
      ensures ditherImage == old(ditherImage) && chooser == old(chooser)
      ensures reuseBitmap && bm.hasPixels ==> (ok, result) == inPlace
      ensures !(reuseBitmap && bm.hasPixels) ==> ok == decoded.Some?
      ensures !(reuseBitmap && bm.hasPixels) && !ok ==> result == bm
      ensures !(reuseBitmap && bm.hasPixels) && ok ==> result == decoded.value
    {
      shouldCancelDecode := false;
      defaultPref := pref;
      if reuseBitmap {
        if bm.hasPixels {
          return inPlace.0, inPlace.1;
        }
      }
      var tmp := EmptyBitmap;
      if decoded.None? {
        return false, bm;
      }
      tmp := decoded.value;
      ok, result := true, tmp;
    }
  }

}
