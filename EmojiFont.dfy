// The emoji font (emoji/EmojiFont.cpp): code points of the private use area
// map to glyph IDs from 64000 up through the generated table, and each glyph's
// encoded image is fetched from the platform's emoji factory once, then cached.
module EmojiFont {
  import opened Wrappers
  import opened Ints
  import GmojiMaker

  /** The first emoji glyph ID; real fonts are assumed never to reach it. */
  const GlyphBase := 64000

  /** The generated table: code points relative to `min`, ascending, with its bounds. */
  datatype PuaTable = PuaTable(entries: seq<int>, min: int, max: int)

  /** The first position holding `key`, or -1. */
  function IndexOf(s: seq<int>, key: int): (r: int)
    ensures -1 <= r < |s|
    ensures r >= 0 ==> s[r] == key && forall j :: 0 <= j < r ==> s[j] != key
    ensures r < 0 ==> forall j :: 0 <= j < |s| ==> s[j] != key
  {
    if |s| == 0 then -1
    else if s[0] == key then 0
    else
      var r := IndexOf(s[1..], key);
      if r < 0 then -1 else r + 1
  }

  /**
   * The binary search the lookup uses (`SkTSearch`, whose header is not part of
   * this model): a non-negative result is a position holding the key, a
   * negative one says the key is absent.
   */
  method Search(s: seq<int>, key: int) returns (index: int)
    requires GmojiMaker.StrictlyAscending(s)
    ensures index >= 0 ==> index < |s| && s[index] == key
    ensures index < 0 ==> forall j :: 0 <= j < |s| ==> s[j] != key
  {
    var lo, hi := 0, |s|;
    while lo < hi
      invariant 0 <= lo <= hi <= |s|
      invariant forall j :: 0 <= j < lo ==> s[j] < key
      invariant forall j :: hi <= j < |s| ==> s[j] > key
    {
      var mid := (lo + hi) / 2;
      if s[mid] < key {
        lo := mid + 1;
      } else if s[mid] > key {
        hi := mid;
      } else {
        return mid;
      }
    }
    return -(lo + 1);
  }

  /** In a strictly ascending table a key sits at one position only. */
  lemma IndexOfAscending(s: seq<int>, i: int)
    requires GmojiMaker.StrictlyAscending(s) && 0 <= i < |s|
    ensures IndexOf(s, s[i]) == i
  {
  }

  /** The glyph of a code point: its table position above `GlyphBase`, 0 outside the range or the table. */
  function GlyphOf(t: PuaTable, unichar: int): u16 {
    if t.min <= unichar <= t.max then
      var i := IndexOf(t.entries, Truncate16(unichar - t.min) as int);
      if i >= 0 then Truncate16(i + GlyphBase) else 0
    else 0
  }

  /** `UnicharToGlyph`: the range check, then the search for the code point relative to `min`. */
  method UnicharToGlyph(t: PuaTable, unichar: int) returns (glyph: u16)
    requires GmojiMaker.StrictlyAscending(t.entries)
    ensures glyph == GlyphOf(t, unichar)
  {
    if t.min <= unichar <= t.max {
      var relative := Truncate16(unichar - t.min);
      var index := Search(t.entries, relative as int);
      if index >= 0 {
        IndexOfAscending(t.entries, index);
        return Truncate16(index + GlyphBase);
      }
    }
    return 0;
  }

  /** `IsEmojiGlyph`: glyph IDs from `GlyphBase` up are emoji. */
  predicate IsEmojiGlyph(glyph: u16) {
    glyph as int >= GlyphBase
  }

  /**
   * With at most 1536 entries spanning less than 2^16, the glyph of a code
   * point is nonzero exactly when the code point is `min` plus an entry, and it
   * is then that entry's position above `GlyphBase`, an emoji glyph.
   */
  lemma GlyphOfTable(t: PuaTable, unichar: int)
    requires GmojiMaker.StrictlyAscending(t.entries) && |t.entries| <= 0x1_0000 - GlyphBase
    requires 0 <= t.max - t.min < 0x1_0000
    ensures GlyphOf(t, unichar) != 0 <==>
      t.min <= unichar <= t.max && exists k :: 0 <= k < |t.entries| && t.min + t.entries[k] == unichar
    ensures GlyphOf(t, unichar) != 0 ==>
      (IsEmojiGlyph(GlyphOf(t, unichar)) && t.min + t.entries[GlyphOf(t, unichar) as int - GlyphBase] == unichar)
  {
    if t.min <= unichar <= t.max {
      var i := IndexOf(t.entries, unichar - t.min);
      if i >= 0 {
        assert t.min + t.entries[i] == unichar;
      }
    }
  }

  /**
   * The tables the generator writes fit that lookup: every input line's code
   * point has the glyph of its line number above `GlyphBase`.
   */
  lemma GeneratedGlyphs(readable: bool, lines: seq<string>, k: int)
    requires GmojiMaker.Generate(readable, lines).Table? && |lines| <= 0x1_0000 - GlyphBase
    requires 0 <= k < |lines|
    ensures
      var g := GmojiMaker.Generate(readable, lines);
      GlyphOf(PuaTable(g.entries, g.min, g.max), GmojiMaker.ValueOf(GmojiMaker.ParseHex5(lines[k]))) as int == GlyphBase + k
  {
    GmojiMaker.GeneratedTable(readable, lines);
    var g := GmojiMaker.Generate(readable, lines);
    GlyphOfEntry(PuaTable(g.entries, g.min, g.max), k);
  }

  /** In an ascending table within 16 bits, entry `k` above `min` has glyph `GlyphBase + k`. */
  lemma GlyphOfEntry(t: PuaTable, k: int)
    requires GmojiMaker.StrictlyAscending(t.entries) && |t.entries| <= 0x1_0000 - GlyphBase
    requires 0 <= k < |t.entries| && 0 <= t.entries[k] <= t.max - t.min < 0x1_0000
    ensures GlyphOf(t, t.min + t.entries[k]) as int == GlyphBase + k
  {
    IndexOfAscending(t.entries, k);
  }

  /** `GetShiftJisConverterName`: the kddi and softbank factories have their own tables; anything else uses DoCoMo's. */
  function ShiftJisConverterName(factoryName: Option<string>): (name: string)
    ensures factoryName == Some("kddi") ==> name == "kddi-emoji"
    ensures factoryName == Some("softbank") ==> name == "softbank-emoji"
    ensures factoryName != Some("kddi") && factoryName != Some("softbank") ==> name == "docomo-emoji"
  {
    if factoryName.Some? && factoryName.value == "kddi" then "kddi-emoji"
    else if factoryName.Some? && factoryName.value == "softbank" then "softbank-emoji"
    else "docomo-emoji"
  }

  /** The converter name tells the three cases apart: each name comes from one case only. */
  lemma ConverterNameDistinguishes(a: Option<string>, b: Option<string>)
    requires ShiftJisConverterName(a) == ShiftJisConverterName(b)
    ensures a == Some("kddi") <==> b == Some("kddi")
    ensures a == Some("softbank") <==> b == Some("softbank")
  {
    assert "kddi-emoji" != "softbank-emoji" && "kddi-emoji" != "docomo-emoji" && "softbank-emoji" != "docomo-emoji" by {
      assert "kddi-emoji"[0] != "softbank-emoji"[0] && "kddi-emoji"[0] != "docomo-emoji"[0];
      assert "softbank-emoji"[0] != "docomo-emoji"[0];
    }
  }

  /** The platform's emoji factory: its name, and the encoded image it gives for a code point (no data, and a size). */
  datatype Factory = Factory(name: string, images: int -> (Option<int>, int))

  /** A cache entry: the decoded bitmap, the encoded data and its size. */
  datatype EncodeDataRec = EncodeDataRec(bitmap: Option<int>, data: Option<int>, size: int)

  /** A size of 0 marks an entry not yet fetched; -1 one the factory or decoder could not provide. */
  const Uninitialized := 0
  const NotAvailable := -1

  const EmptyRec := EncodeDataRec(None, None, Uninitialized)

  /** The per-glyph cache `gGmojiEncodeData`, with the table and the factory it is filled from. */
  class EncodeCache {
    const table: PuaTable
    /** What locating the factory gives: None when there is no implementation. */
    const factory: Option<Factory>
    var recs: seq<EncodeDataRec>

    /** One entry per table entry; without a factory every entry stays empty. */
    predicate Valid()
      reads this
    {
      |recs| == |table.entries| &&
      (factory.None? ==> forall j :: 0 <= j < |recs| ==> recs[j] == EmptyRec)
    }

    /** A cache of empty entries. */
    constructor(t: PuaTable, f: Option<Factory>)
      ensures Valid()
      ensures table == t && factory == f
      ensures recs == seq(|t.entries|, _ => EmptyRec)
    {
      table := t;
      factory := f;
      recs := seq(|t.entries|, _ => EmptyRec);
    }

    /**
     * `get_encoderec`: out-of-range indices and entries marked unavailable
     * give nothing; an entry not yet fetched is filled from the factory with
     * the image of code point `min + entries[index]`, and marked unavailable
     * when the factory has none; only that entry changes.
     */
    method GetEncodeRec(index: int) returns (rec: Option<int>)
      requires Valid()
      modifies this
      ensures Valid()
      ensures rec.Some? ==> rec.value == index && 0 <= index < |recs| && factory.Some?
      ensures !(0 <= index < |old(recs)|) ==> rec.None? && recs == old(recs)
      ensures 0 <= index < |old(recs)| && old(recs[index].size) == NotAvailable ==> rec.None? && recs == old(recs)
      ensures (0 <= index < |old(recs)| && old(recs[index].size) != NotAvailable && old(recs[index].size) != Uninitialized ==>
        rec == Some(index) && recs == old(recs))
      ensures (0 <= index < |old(recs)| && old(recs[index].size) == Uninitialized && factory.None? ==>
        rec.None? && recs == old(recs))
      ensures (0 <= index < |old(recs)| && old(recs[index].size) == Uninitialized && factory.Some? ==>
        var fetched := factory.value.images(table.min + table.entries[index]);
        if fetched.0.None? then
          rec.None? && recs == old(recs)[index := old(recs[index]).(data := None, size := NotAvailable)]
        else
          rec == Some(index) && recs == old(recs)[index := old(recs[index]).(data := fetched.0, size := fetched.1)])
    {
      if index < 0 || index >= |recs| {
        return None;
      }
      var r := recs[index];
      if r.size == NotAvailable {
        return None;
      }
      if r.size == Uninitialized {
        if factory.None? {
          return None;
        }
        var pua := table.min + table.entries[index];
        var fetched := factory.value.images(pua);
        if fetched.0.None? {
          recs := recs[index := r.(data := None, size := NotAvailable)];
          return None;
        }
        recs := recs[index := r.(data := fetched.0, size := fetched.1)];
      }
      return Some(index);
    }

    /**
     * The entry `get_encoderec` hands back for an index in range: the entry as
     * it is once fetched, or none when it is unavailable or cannot be fetched.
     */
    ghost function FetchedRec(index: int): Option<EncodeDataRec>
      reads this
      requires 0 <= index < |recs| && 0 <= index < |table.entries|
    {
      var r := recs[index];
      if r.size == NotAvailable then None
      else if r.size != Uninitialized then Some(r)
      else if factory.None? then None
      else
        var fetched := factory.value.images(table.min + table.entries[index]);
        if fetched.0.None? then None else Some(r.(data := fetched.0, size := fetched.1))
    }

    /**
     * `get_bitmap`: the cached bitmap of an available entry, decoding and
     * caching it on first use; a failed decode marks the entry unavailable.
     * A bitmap that comes back is the one the entry then holds; when none does,
     * the entry holds none or is marked unavailable. No other entry changes.
     */
    method GetBitmap(index: int, decode: (Option<int>, int) -> Option<int>) returns (bitmap: Option<int>)
      requires Valid()
      modifies this
      ensures Valid() && |recs| == |old(recs)|
      ensures !(0 <= index < |old(recs)|) ==> bitmap.None? && recs == old(recs)
      ensures 0 <= index < |old(recs)| && old(FetchedRec(index)).None? ==> bitmap.None?
      ensures (0 <= index < |old(recs)| && old(FetchedRec(index)).Some? ==>
        var e := old(FetchedRec(index)).value;
        if e.bitmap.Some? then
          bitmap == e.bitmap && recs == old(recs)[index := e]
        else
          var decoded := decode(e.data, e.size);
          bitmap == decoded &&
          recs == old(recs)[index := if decoded.None? then e.(size := NotAvailable) else e.(bitmap := decoded)])
      ensures bitmap.Some? ==> 0 <= index < |recs| && bitmap == recs[index].bitmap
      ensures bitmap.None? && 0 <= index < |recs| ==> recs[index].bitmap.None? || recs[index].size == NotAvailable
      ensures forall j :: 0 <= j < |recs| && j != index ==> recs[j] == old(recs[j])
      ensures (0 <= index < |old(recs)| && old(recs[index]).bitmap.Some? &&
               old(recs[index].size) != NotAvailable && old(recs[index].size) != Uninitialized) ==>
        (bitmap == old(recs[index].bitmap) && recs == old(recs))
    {
      var rec := GetEncodeRec(index);
      if rec.None? {
        return None;
      }
      var r := recs[index];
      if r.bitmap.Some? {
        return r.bitmap;
      }
      var decoded := decode(r.data, r.size);
      if decoded.None? {
        recs := recs[index := r.(size := NotAvailable)];
        return None;
      }
      recs := recs[index := r.(bitmap := decoded)];
      return decoded;
    }

    /**
     * `GetAdvanceWidth`: 0 for glyphs below `GlyphBase`, leaving the cache
     * alone; otherwise the text size when the glyph's bitmap is available, and
     * 0 when the glyph has no entry, or its entry no bitmap or is unavailable.
     */
    method GetAdvanceWidth(glyph: u16, textSize: real, decode: (Option<int>, int) -> Option<int>) returns (width: real)
      requires Valid()
      modifies this
      ensures Valid()
      ensures (glyph as int) < GlyphBase ==> width == 0.0 && recs == old(recs)
      ensures (glyph as int >= GlyphBase ==>
        var g := glyph as int - GlyphBase;
        (width == textSize && g < |recs| && recs[g].bitmap.Some?) ||
        (width == 0.0 && (g >= |recs| || recs[g].bitmap.None? || recs[g].size == NotAvailable)))
    {
      if (glyph as int) < GlyphBase {
        return 0.0;
      }
      var bitmap := GetBitmap(glyph as int - GlyphBase, decode);
      if bitmap.None? {
        return 0.0;
      }
      return textSize;
    }
  }
}
