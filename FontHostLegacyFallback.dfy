// The older Android font host's fallback chains: one list of fallback fonts per
// language plus the default list, built while the system fonts load, finalised so
// every language list ends with the other fallback fonts, looked up by language
// with a memo and BCP 47 parent fallback, and walked to pick the next font for a
// missing glyph (legacy/src/ports/SkFontHost_android.cpp).
module FontHostLegacyFallback {
  import opened Wrappers
  import opened Text
  import opened FontHostLegacy

  /** SkPaint::FontVariant. */
  datatype FontVariant = DefaultVariant | CompactVariant | ElegantVariant

  datatype FallbackFontRec = FallbackFontRec(fontID: nat, variant: FontVariant)

  /** A fallback chain and the language (by its BCP 47 tag) it belongs to. */
  datatype FallbackFontList = FallbackFontList(language: string, list: seq<FallbackFontRec>)

  /**
   * SkLanguage::getParent, one step more general: the tag up to its last '-', or the
   * empty (default) tag. SkLanguage.cpp is not part of this model; this is BCP 47's
   * truncation rule.
   */
  function ParentTag(tag: string): (r: string)
    ensures |tag| > 0 ==> |r| < |tag| && r == tag[..|r|]
    ensures |tag| == 0 ==> r == ""
    ensures r != "" ==> tag[|r|] == '-'
    ensures (forall i :: 0 <= i < |tag| ==> tag[i] != '-') ==> r == ""
  {
    var dash := FindLastOf(tag, {'-'});
    if dash >= 0 then tag[..dash] else ""
  }

  /** The first list for a language: what getFallbackFontListNoCacheLocked finds. */
  function FirstListFor(lists: seq<FallbackFontList>, lang: string): (r: Option<nat>)
    ensures r.Some? ==>
      r.value < |lists| && lists[r.value].language == lang &&
      (forall j :: 0 <= j < r.value ==> lists[j].language != lang)
    ensures r.None? ==> forall j :: 0 <= j < |lists| ==> lists[j].language != lang
  {
    if |lists| == 0 then None
    else if lists[0].language == lang then Some(0)
    else
      var r := FirstListFor(lists[1..], lang);
      if r.Some? then Some(r.value + 1)
      else
        assert forall j :: 1 <= j < |lists| ==> lists[j] == lists[1..][j - 1];
        None
  }

  /**
   * The list getFallbackFontListLocked settles on: the language's own list, else its
   * parent's, and so on up to the default tag; none when even that has no list.
   */
  function Resolve(lists: seq<FallbackFontList>, lang: string): (r: Option<nat>)
    ensures r.Some? ==> r.value < |lists|
    decreases |lang|
  {
    match FirstListFor(lists, lang)
    case Some(i) => Some(i)
    case None => if lang == "" then None else Resolve(lists, ParentTag(lang))
  }

  /** With a default chain, every language resolves to some chain. */
  lemma {:induction false} ResolveReachesDefault(lists: seq<FallbackFontList>, lang: string)
    requires FirstListFor(lists, "").Some?
    ensures Resolve(lists, lang).Some?
    decreases |lang|
  {
    if FirstListFor(lists, lang).None? && lang != "" {
      ResolveReachesDefault(lists, ParentTag(lang));
    }
  }

  /** A language's resolution depends only on the lists' languages, not their fonts. */
  lemma {:induction false} ResolveSameLanguages(a: seq<FallbackFontList>, b: seq<FallbackFontList>, lang: string)
    requires |a| == |b| && forall j :: 0 <= j < |a| ==> a[j].language == b[j].language
    ensures Resolve(a, lang) == Resolve(b, lang)
    decreases |lang|
  {
    FirstListSameLanguages(a, b, lang);
    if FirstListFor(a, lang).None? && lang != "" {
      ResolveSameLanguages(a, b, ParentTag(lang));
    }
  }

  lemma FirstListSameLanguages(a: seq<FallbackFontList>, b: seq<FallbackFontList>, lang: string)
    requires |a| == |b| && forall j :: 0 <= j < |a| ==> a[j].language == b[j].language
    ensures FirstListFor(a, lang) == FirstListFor(b, lang)
  {
    var ra, rb := FirstListFor(a, lang), FirstListFor(b, lang);
    if ra.Some? && rb.Some? {
      assert !(ra.value < rb.value) && !(rb.value < ra.value);
    }
  }

  /** A list of the language with none of it before is the first. */
  lemma FirstListIs(lists: seq<FallbackFontList>, lang: string, i: nat)
    requires i < |lists| && lists[i].language == lang
    requires forall j :: 0 <= j < i ==> lists[j].language != lang
    ensures FirstListFor(lists, lang) == Some(i)
  {
    var r := FirstListFor(lists, lang);
    if r.Some? {
      assert !(r.value < i) && !(i < r.value);
    }
  }

  /** The list for `lang` with `rec` appended, or a new list holding just `rec` at the end. */
  function PushTo(lists: seq<FallbackFontList>, lang: string, rec: FallbackFontRec): (r: seq<FallbackFontList>)
    ensures FirstListFor(lists, lang).Some? ==>
      (var i := FirstListFor(lists, lang).value;
       |r| == |lists| && FirstListFor(r, lang) == Some(i) && r[i] == lists[i].(list := lists[i].list + [rec]) &&
       forall j :: 0 <= j < |lists| && j != i ==> r[j] == lists[j])
    ensures FirstListFor(lists, lang).None? ==>
      r == lists + [FallbackFontList(lang, [rec])] && FirstListFor(r, lang) == Some(|lists|)
  {
    match FirstListFor(lists, lang)
    case Some(i) =>
      var r := lists[i := lists[i].(list := lists[i].list + [rec])];
      FirstListIs(r, lang, i);
      r
    case None =>
      var r := lists + [FallbackFontList(lang, [rec])];
      FirstListIs(r, lang, |lists|);
      r
  }

  /** No two lists share a language: lists are only created for a language that has none. */
  ghost predicate DistinctLanguages(lists: seq<FallbackFontList>) {
    forall i, j :: 0 <= i < j < |lists| ==> lists[i].language != lists[j].language
  }

  lemma PushToKeepsDistinct(lists: seq<FallbackFontList>, lang: string, rec: FallbackFontRec)
    requires DistinctLanguages(lists)
    ensures DistinctLanguages(PushTo(lists, lang, rec))
    ensures |PushTo(lists, lang, rec)| >= |lists|
    ensures forall j :: 0 <= j < |lists| ==> PushTo(lists, lang, rec)[j].language == lists[j].language
  {
  }

  /** The lists finalisation produces: each default font appended to every other list of a different language. */
  function Finalised(lists: seq<FallbackFontList>, defaultIndex: nat, langOf: seq<string>): (r: seq<FallbackFontList>)
    requires defaultIndex < |lists|
    requires forall f :: 0 <= f < |lists[defaultIndex].list| ==> 1 <= lists[defaultIndex].list[f].fontID <= |langOf|
    ensures |r| == |lists|
  {
    seq(|lists|, k requires 0 <= k < |lists| =>
      if k == defaultIndex then lists[k]
      else lists[k].(list := lists[k].list + ForeignFonts(lists[defaultIndex].list, lists[k].language, langOf)))
  }

  /** The fonts of a default chain whose language (by the system-font table) differs from `lang`. */
  function ForeignFonts(defaults: seq<FallbackFontRec>, lang: string, langOf: seq<string>): (r: seq<FallbackFontRec>)
    requires forall f :: 0 <= f < |defaults| ==> 1 <= defaults[f].fontID <= |langOf|
    ensures |r| <= |defaults|
    ensures forall x :: x in r ==> x in defaults && langOf[x.fontID - 1] != lang
    decreases |defaults|
  {
    if |defaults| == 0 then []
    else
      var init := defaults[..|defaults| - 1];
      var last := defaults[|defaults| - 1];
      ForeignFonts(init, lang, langOf) + (if langOf[last.fontID - 1] != lang then [last] else [])
  }

  /** Every default font of another language reaches the chain. */
  lemma {:induction false} ForeignFontsComplete(defaults: seq<FallbackFontRec>, lang: string, langOf: seq<string>, x: FallbackFontRec)
    requires forall f :: 0 <= f < |defaults| ==> 1 <= defaults[f].fontID <= |langOf|
    requires x in defaults && langOf[x.fontID - 1] != lang
    ensures x in ForeignFonts(defaults, lang, langOf)
    decreases |defaults|
  {
    var init := defaults[..|defaults| - 1];
    if x != defaults[|defaults| - 1] {
      assert defaults == init + [defaults[|defaults| - 1]];
      assert x in init;
      ForeignFontsComplete(init, lang, langOf, x);
    }
  }

  /**
   * After finalisation a non-default chain starts with its own fonts and holds a
   * default font exactly when that font's language differs from the chain's.
   */
  lemma FinalisedChains(lists: seq<FallbackFontList>, d: nat, langOf: seq<string>, k: nat, x: FallbackFontRec)
    requires d < |lists| && k < |lists| && k != d
    requires forall f :: 0 <= f < |lists[d].list| ==> 1 <= lists[d].list[f].fontID <= |langOf|
    requires x in lists[d].list && x !in lists[k].list
    ensures var r := Finalised(lists, d, langOf);
      r[k].language == lists[k].language &&
      r[k].list[..|lists[k].list|] == lists[k].list &&
      (x in r[k].list <==> langOf[x.fontID - 1] != lists[k].language)
  {
    var r := Finalised(lists, d, langOf);
    var foreign := ForeignFonts(lists[d].list, lists[k].language, langOf);
    assert r[k].list == lists[k].list + foreign;
    assert r[k].list[..|lists[k].list|] == lists[k].list;
    if langOf[x.fontID - 1] != lists[k].language {
      ForeignFontsComplete(lists[d].list, lists[k].language, langOf, x);
    }
  }

  /** List `k` once the first `f` default fonts were handed out. */
  function PartlyFinalisedList(lists: seq<FallbackFontList>, d: nat, langOf: seq<string>, f: nat, k: nat): FallbackFontList
    requires d < |lists| && f <= |lists[d].list| && k < |lists|
    requires forall g :: 0 <= g < |lists[d].list| ==> 1 <= lists[d].list[g].fontID <= |langOf|
  {
    if k == d then lists[k]
    else lists[k].(list := lists[k].list + ForeignFonts(lists[d].list[..f], lists[k].language, langOf))
  }

  /** Steps outer `f` of finalisation have run: lists hold the foreign fonts of the first `f` defaults. */
  function PartlyFinalised(lists: seq<FallbackFontList>, defaultIndex: nat, langOf: seq<string>, f: nat): (r: seq<FallbackFontList>)
    requires defaultIndex < |lists| && f <= |lists[defaultIndex].list|
    requires forall g :: 0 <= g < |lists[defaultIndex].list| ==> 1 <= lists[defaultIndex].list[g].fontID <= |langOf|
    ensures |r| == |lists| && r[defaultIndex] == lists[defaultIndex]
    ensures forall k :: 0 <= k < |lists| ==> r[k].language == lists[k].language
  {
    seq(|lists|, k requires 0 <= k < |lists| => PartlyFinalisedList(lists, defaultIndex, langOf, f, k))
  }

  /** Before the first outer step nothing was handed out. */
  lemma PartlyFinalisedNone(lists: seq<FallbackFontList>, d: nat, langOf: seq<string>)
    requires d < |lists|
    requires forall g :: 0 <= g < |lists[d].list| ==> 1 <= lists[d].list[g].fontID <= |langOf|
    ensures PartlyFinalised(lists, d, langOf, 0) == lists
  {
    assert lists[d].list[..0] == [];
    forall k | 0 <= k < |lists| ensures PartlyFinalised(lists, d, langOf, 0)[k] == lists[k] {
      assert lists[k].list + [] == lists[k].list;
    }
  }

  /** After the last outer step the lists are finalised. */
  lemma PartlyFinalisedAll(lists: seq<FallbackFontList>, d: nat, langOf: seq<string>)
    requires d < |lists|
    requires forall g :: 0 <= g < |lists[d].list| ==> 1 <= lists[d].list[g].fontID <= |langOf|
    ensures PartlyFinalised(lists, d, langOf, |lists[d].list|) == Finalised(lists, d, langOf)
  {
    assert lists[d].list[..|lists[d].list|] == lists[d].list;
  }

  /** Lists with the same languages as distinct ones are distinct. */
  lemma SameLanguagesDistinct(a: seq<FallbackFontList>, b: seq<FallbackFontList>)
    requires DistinctLanguages(a)
    requires |a| == |b| && forall j :: 0 <= j < |a| ==> a[j].language == b[j].language
    ensures DistinctLanguages(b)
  {
  }

  /** Outer step `f` of finalisation appends default `f` to each list of another language. */
  lemma PartlyFinalisedStep(lists: seq<FallbackFontList>, d: nat, langOf: seq<string>, f: nat, k: nat)
    requires d < |lists| && f < |lists[d].list| && k < |lists|
    requires forall g :: 0 <= g < |lists[d].list| ==> 1 <= lists[d].list[g].fontID <= |langOf|
    ensures var rec := lists[d].list[f];
      var before := PartlyFinalisedList(lists, d, langOf, f, k);
      PartlyFinalisedList(lists, d, langOf, f + 1, k) ==
        if k != d && before.language != langOf[rec.fontID - 1] then before.(list := before.list + [rec]) else before
  {
    if k != d {
      AppendForeignStep(lists[k], lists[d].list, f, langOf);
    }
  }

  /** A list of another language gains default `f` exactly when that font's language differs. */
  lemma AppendForeignStep(l: FallbackFontList, defaults: seq<FallbackFontRec>, f: nat, langOf: seq<string>)
    requires f < |defaults| && forall g :: 0 <= g < |defaults| ==> 1 <= defaults[g].fontID <= |langOf|
    ensures var rec := defaults[f];
      var before := l.(list := l.list + ForeignFonts(defaults[..f], l.language, langOf));
      l.(list := l.list + ForeignFonts(defaults[..f + 1], l.language, langOf)) ==
        if before.language != langOf[rec.fontID - 1] then before.(list := before.list + [rec]) else before
  {
    ForeignFontsSnoc(defaults, f, l.language, langOf);
    var foreign := ForeignFonts(defaults[..f], l.language, langOf);
    var add := if langOf[defaults[f].fontID - 1] != l.language then [defaults[f]] else [];
    assert l.list + (foreign + add) == (l.list + foreign) + add;
  }

  /** One more default font considered: it is appended when its language differs. */
  lemma ForeignFontsSnoc(defaults: seq<FallbackFontRec>, f: nat, lang: string, langOf: seq<string>)
    requires f < |defaults| && forall g :: 0 <= g < |defaults| ==> 1 <= defaults[g].fontID <= |langOf|
    ensures ForeignFonts(defaults[..f + 1], lang, langOf) ==
      ForeignFonts(defaults[..f], lang, langOf) + (if langOf[defaults[f].fontID - 1] != lang then [defaults[f]] else [])
  {
    assert defaults[..f + 1][..f] == defaults[..f];
    assert defaults[..f + 1][f] == defaults[f];
  }

  /** The first entry from `from` on whose variant is the default or the preferred one. */
  function FirstEligible(list: seq<FallbackFontRec>, from: int, preference: FontVariant): (r: Option<nat>)
    requires from >= 0
    ensures r.Some? ==>
      from <= r.value < |list| &&
      (list[r.value].variant == DefaultVariant || list[r.value].variant == preference) &&
      (forall j :: from <= j < r.value ==> list[j].variant != DefaultVariant && list[j].variant != preference)
    ensures r.None? ==> forall j :: from <= j < |list| ==> list[j].variant != DefaultVariant && list[j].variant != preference
    decreases |list| - from
  {
    if from >= |list| then None
    else if list[from].variant == DefaultVariant || list[from].variant == preference then Some(from)
    else FirstEligible(list, from + 1, preference)
  }

  /**
   * findFallbackFontIndex: the first position of the font in the chain, or -1.
   */
  method FindFallbackFontIndex(fontId: nat, list: seq<FallbackFontRec>) returns (r: int)
    ensures -1 <= r < |list|
    ensures r >= 0 ==> list[r].fontID == fontId && forall j :: 0 <= j < r ==> list[j].fontID != fontId
    ensures r == -1 ==> forall j :: 0 <= j < |list| ==> list[j].fontID != fontId
  {
    var i := 0;
    while i < |list|
      invariant 0 <= i <= |list|
      invariant forall j :: 0 <= j < i ==> list[j].fontID != fontId
    {
      if list[i].fontID == fontId {
        return i;
      }
      i := i + 1;
    }
    return -1;
  }

  /** The fallback chains, their memo and the languages of the system fonts (by font ID - 1). */
  class FallbackState {
    var fallbackLists: seq<FallbackFontList>
    /** gLangTagToFallbackFontList: tag to the index of the list it resolved to. */
    var cache: map<string, nat>
    var okToUseCache: bool
    /** gSystemFonts[i].fLanguage, for the font with unique ID i + 1. */
    var systemFontLanguages: seq<string>

    ghost predicate Valid()
      reads this
    {
      DistinctLanguages(fallbackLists) &&
      (!okToUseCache ==> cache == map[]) &&
      (forall tag :: tag in cache ==> Resolve(fallbackLists, tag) == Some(cache[tag]))
    }

    constructor (languages: seq<string>)
      ensures Valid() && fallbackLists == [] && cache == map[] && !okToUseCache
      ensures systemFontLanguages == languages
    {
      fallbackLists := [];
      cache := map[];
      okToUseCache := false;
      systemFontLanguages := languages;
    }

    /** getFallbackFontListNoCacheLocked: the first list of exactly that language. */
    method GetFallbackFontListNoCacheLocked(lang: string) returns (r: Option<nat>)
      ensures r == FirstListFor(fallbackLists, lang)
    {
      var listIdx := 0;
      while listIdx < |fallbackLists|
        invariant 0 <= listIdx <= |fallbackLists|
        invariant forall j :: 0 <= j < listIdx ==> fallbackLists[j].language != lang
      {
        if fallbackLists[listIdx].language == lang {
          return Some(listIdx);
        }
        listIdx := listIdx + 1;
      }
      return None;
    }

    /**
     * getFallbackFontListLocked: a memoised answer, else the language's own list,
     * else (for a non-empty tag) its parent's; each answer found is memoised.
     */
    method GetFallbackFontListLocked(lang: string) returns (r: Option<nat>)
      requires Valid() && okToUseCache
      modifies this
      ensures Valid() && r == Resolve(fallbackLists, lang)
      ensures fallbackLists == old(fallbackLists) && okToUseCache && systemFontLanguages == old(systemFontLanguages)
      ensures forall tag :: tag in old(cache) ==> tag in cache
      decreases |lang|
    {
      if lang in cache {
        return Some(cache[lang]);
      }
      r := GetFallbackFontListNoCacheLocked(lang);
      if r.Some? {
        cache := cache[lang := r.value];
        return;
      }
      if lang == "" {
        return None;
      }
      r := GetFallbackFontListLocked(ParentTag(lang));
      if r.Some? {
        cache := cache[lang := r.value];
      }
    }

    /** createFallbackFontListLocked: a new empty list for the language, at the end. */
    method CreateFallbackFontListLocked(lang: string) returns (idx: nat)
      requires !okToUseCache
      modifies this
      ensures fallbackLists == old(fallbackLists) + [FallbackFontList(lang, [])] && idx == |old(fallbackLists)|
      ensures cache == old(cache) && okToUseCache == old(okToUseCache) && systemFontLanguages == old(systemFontLanguages)
    {
      fallbackLists := fallbackLists + [FallbackFontList(lang, [])];
      idx := |fallbackLists| - 1;
    }

    /**
     * addFallbackFontLocked: the font goes at the end of the default chain (created if
     * missing) and, for a non-empty language, at the end of that language's chain too.
     */
    method AddFallbackFontLocked(fallbackRec: FallbackFontRec, lang: string)
      requires Valid() && !okToUseCache
      modifies this
      ensures Valid() && !okToUseCache && systemFontLanguages == old(systemFontLanguages)
      ensures fallbackLists ==
        if lang == "" then PushTo(old(fallbackLists), "", fallbackRec)
        else PushTo(PushTo(old(fallbackLists), "", fallbackRec), lang, fallbackRec)
    {
      PushToKeepsDistinct(fallbackLists, "", fallbackRec);
      PushToKeepsDistinct(PushTo(fallbackLists, "", fallbackRec), lang, fallbackRec);
      fallbackLists := PushOne(fallbackLists, "", fallbackRec);
      if lang == "" {
        return;
      }
      fallbackLists := PushOne(fallbackLists, lang, fallbackRec);
    }

    /** One push: find the language's list, create it when missing, append the font. */
    method PushOne(lists: seq<FallbackFontList>, lang: string, fallbackRec: FallbackFontRec) returns (r: seq<FallbackFontList>)
      requires !okToUseCache && lists == fallbackLists
      ensures r == PushTo(lists, lang, fallbackRec)
    {
      var found := GetFallbackFontListNoCacheLocked(lang);
      if found.None? {
        var created := lists + [FallbackFontList(lang, [])];
        r := created[|lists| := created[|lists|].(list := created[|lists|].list + [fallbackRec])];
        assert r == lists + [FallbackFontList(lang, [fallbackRec])] by {
          assert [] + [fallbackRec] == [fallbackRec];
          assert forall j :: 0 <= j < |lists| ==> r[j] == lists[j];
        }
      } else {
        var i := found.value;
        r := lists[i := lists[i].(list := lists[i].list + [fallbackRec])];
      }
    }

    /**
     * finaliseFallbackFontListsLocked: with more than one chain, every font of the
     * default chain is appended to each other chain whose language differs from the
     * font's; then the memo may be used.
     */
    method FinaliseFallbackFontListsLocked()
      requires Valid() && !okToUseCache
      requires FirstListFor(fallbackLists, "").Some? || |fallbackLists| <= 1
      requires FirstListFor(fallbackLists, "").Some? ==>
        var d := fallbackLists[FirstListFor(fallbackLists, "").value].list;
        forall f :: 0 <= f < |d| ==> 1 <= d[f].fontID <= |systemFontLanguages|
      modifies this
      ensures Valid() && okToUseCache && systemFontLanguages == old(systemFontLanguages)
      ensures |old(fallbackLists)| <= 1 ==> fallbackLists == old(fallbackLists)
      ensures |old(fallbackLists)| > 1 ==>
        fallbackLists == Finalised(old(fallbackLists), FirstListFor(old(fallbackLists), "").value, systemFontLanguages)
    {
      var numLists := |fallbackLists|;
      if numLists > 1 {
        var found := GetFallbackFontListNoCacheLocked("");
        var d := found.value;
        var lists := FinaliseLists(fallbackLists, d, systemFontLanguages);
        SameLanguagesDistinct(fallbackLists, lists);
        fallbackLists := lists;
      }
      okToUseCache := true;
    }

    /** resetFallbackFontListsLocked: no chains, an empty memo, and the memo off. */
    method ResetFallbackFontListsLocked()
      modifies this
      ensures Valid() && fallbackLists == [] && cache == map[] && !okToUseCache
      ensures systemFontLanguages == old(systemFontLanguages)
    {
      cache := map[];
      fallbackLists := [];
      okToUseCache := false;
    }
  }

  /** The outer loop of finalisation: every default font handed to the lists of other languages. */
  method FinaliseLists(start: seq<FallbackFontList>, d: nat, langOf: seq<string>) returns (lists: seq<FallbackFontList>)
    requires d < |start|
    requires forall g :: 0 <= g < |start[d].list| ==> 1 <= start[d].list[g].fontID <= |langOf|
    ensures lists == Finalised(start, d, langOf)
    ensures |lists| == |start| && forall k :: 0 <= k < |start| ==> lists[k].language == start[k].language
  {
    var defaults := start[d].list;
    lists := start;
    var fontIdx := 0;
    PartlyFinalisedNone(start, d, langOf);
    while fontIdx < |defaults|
      invariant 0 <= fontIdx <= |defaults|
      invariant lists == PartlyFinalised(start, d, langOf, fontIdx)
    {
      var lang := langOf[defaults[fontIdx].fontID - 1];
      lists := AppendToOtherLanguages(lists, d, defaults[fontIdx], lang, langOf, start, fontIdx);
      fontIdx := fontIdx + 1;
    }
    PartlyFinalisedAll(start, d, langOf);
  }

  /** The inner loop of finalisation: one default font appended to each list of another language. */
  method AppendToOtherLanguages(lists: seq<FallbackFontList>, d: nat, rec: FallbackFontRec, lang: string,
                                ghost langOf: seq<string>, ghost start: seq<FallbackFontList>, ghost f: nat)
    returns (r: seq<FallbackFontList>)
    requires d < |start| && f < |start[d].list| && rec == start[d].list[f]
    requires forall g :: 0 <= g < |start[d].list| ==> 1 <= start[d].list[g].fontID <= |langOf|
    requires lang == langOf[rec.fontID - 1]
    requires lists == PartlyFinalised(start, d, langOf, f)
    ensures r == PartlyFinalised(start, d, langOf, f + 1)
  {
    ghost var target := PartlyFinalised(start, d, langOf, f + 1);
    r := lists;
    var listIdx := 0;
    while listIdx < |r|
      invariant |r| == |lists| == |target| && 0 <= listIdx <= |r|
      invariant forall k :: 0 <= k < listIdx ==> r[k] == target[k]
      invariant forall k :: listIdx <= k < |r| ==> r[k] == lists[k]
    {
      assert target[listIdx] ==
        if listIdx != d && r[listIdx].language != lang then r[listIdx].(list := r[listIdx].list + [rec]) else r[listIdx]
      by {
        PartlyFinalisedStep(start, d, langOf, f, listIdx);
      }
      if listIdx != d && r[listIdx].language != lang {
        r := r[listIdx := r[listIdx].(list := r[listIdx].list + [rec])];
      }
      listIdx := listIdx + 1;
    }
  }

  /** The chain a language resolves to. */
  function ChainFor(lists: seq<FallbackFontList>, language: string): (r: seq<FallbackFontRec>)
    requires Resolve(lists, language).Some?
  {
    lists[Resolve(lists, language).value].list
  }

  /** Every font of the chain has a face in the registry. */
  ghost predicate ChainHasFaces(reg: FontRegistry, chain: seq<FallbackFontRec>)
    reads reg
  {
    forall rec :: rec in chain ==> HasFaceWithID(reg, rec.fontID)
  }

  lemma ChainFace(reg: FontRegistry, chain: seq<FallbackFontRec>, j: nat)
    requires ChainHasFaces(reg, chain) && j < |chain|
    ensures HasFaceWithID(reg, chain[j].fontID)
  {
    assert chain[j] in chain;
  }

  /**
   * nextLogicalFontLocked: the plain face of the current font's family is looked up
   * in the chain for the language; the answer is the face, in the original font's
   * style, of the first later entry whose variant is the default or the preferred one
   * (a default preference meaning compact), or 0 when there is none. A plain face
   * missing from the chain makes the search start at the chain's head.
   */
  method NextLogicalFontLocked(reg: FontRegistry, fb: FallbackState, origFontID: nat, fontID: nat,
                               language: string, fontVariant: FontVariant)
    returns (nextFontID: nat, ghost plainFontID: nat, ghost plainIndex: int, ghost chosen: Option<nat>)
    requires reg.Valid() && fb.Valid() && fb.okToUseCache
    requires HasFaceWithID(reg, origFontID) && HasFaceWithID(reg, fontID)
    requires Resolve(fb.fallbackLists, language).Some?
    requires ChainHasFaces(reg, ChainFor(fb.fallbackLists, language))
    modifies fb
    ensures fb.Valid() && fb.okToUseCache && fb.fallbackLists == old(fb.fallbackLists)
    ensures NextInChainSpec(reg, ChainFor(fb.fallbackLists, language), origFontID, fontID, fontVariant,
                            nextFontID, plainFontID, plainIndex, chosen)
  {
    var list := CurrentFallbackList(fb, language);
    nextFontID, plainFontID, plainIndex, chosen := NextLogicalFontInChain(reg, list, origFontID, fontID, fontVariant);
  }

  /**
   * What nextLogicalFontLocked answers for a chain: the current font's plain face (the
   * best plain face of its family) is found at `plainIndex` (or is absent, -1), `chosen`
   * is the first entry after it of the default or the preferred variant, and the
   * answer is the best face of the chosen entry's family in the original font's style,
   * or 0 when nothing is chosen.
   */
  ghost predicate NextInChainSpec(reg: FontRegistry, list: seq<FallbackFontRec>, origFontID: nat, fontID: nat,
                                  fontVariant: FontVariant, nextFontID: nat, plainFontID: nat, plainIndex: int,
                                  chosen: Option<nat>)
    reads reg
  {
    FourSlots(reg.families) &&
    FromUniqueID(reg.families, origFontID, 0).Some? &&
    BestFaceOfFamily(reg.families, fontID, NORMAL).Some? &&
    plainFontID == BestFaceOfFamily(reg.families, fontID, NORMAL).value.uniqueID &&
    SameFamily(reg, fontID, plainFontID) &&
    -1 <= plainIndex < |list| &&
    (plainIndex >= 0 ==> list[plainIndex].fontID == plainFontID) &&
    (forall j :: 0 <= j < plainIndex ==> list[j].fontID != plainFontID) &&
    (plainIndex == -1 ==> forall j :: 0 <= j < |list| ==> list[j].fontID != plainFontID) &&
    chosen == FirstEligible(list, plainIndex + 1, if fontVariant == DefaultVariant then CompactVariant else fontVariant) &&
    (chosen.None? ==> nextFontID == 0) &&
    (chosen.Some? ==> chosen.value < |list| && SameFamily(reg, list[chosen.value].fontID, nextFontID)) &&
    (chosen.Some? ==>
       var next := BestFaceOfFamily(reg.families, list[chosen.value].fontID, FromUniqueID(reg.families, origFontID, 0).value.style);
       next.Some? && nextFontID == next.value.uniqueID)
  }

  /** nextLogicalFontLocked once the chain for the language is known. */
  method NextLogicalFontInChain(reg: FontRegistry, list: seq<FallbackFontRec>, origFontID: nat, fontID: nat,
                                fontVariant: FontVariant)
    returns (nextFontID: nat, ghost plainFontID: nat, ghost plainIndex: int, ghost chosen: Option<nat>)
    requires reg.Valid() && HasFaceWithID(reg, origFontID) && HasFaceWithID(reg, fontID)
    requires ChainHasFaces(reg, list)
    ensures NextInChainSpec(reg, list, origFontID, fontID, fontVariant, nextFontID, plainFontID, plainIndex, chosen)
  {
    var origStyle := StyleOf(reg, origFontID);
    var plain := FaceOfFamily(reg, fontID, NORMAL);
    plainFontID := plain.uniqueID;
    var plainFallbackFontIndex := FindFallbackFontIndex(plain.uniqueID, list);
    plainIndex := plainFallbackFontIndex;
    var nextFallbackFontIndex := plainFallbackFontIndex + 1;
    var recPreference := fontVariant;
    if recPreference == DefaultVariant {
      recPreference := CompactVariant;
    }
    nextFontID, chosen := NextInChain(reg, list, nextFallbackFontIndex, recPreference, origStyle);
  }

  /** The chain for a language, through the memo. */
  method CurrentFallbackList(fb: FallbackState, language: string) returns (list: seq<FallbackFontRec>)
    requires fb.Valid() && fb.okToUseCache && Resolve(fb.fallbackLists, language).Some?
    modifies fb
    ensures fb.Valid() && fb.okToUseCache && fb.fallbackLists == old(fb.fallbackLists)
    ensures list == ChainFor(fb.fallbackLists, language)
  {
    var found := fb.GetFallbackFontListLocked(language);
    list := fb.fallbackLists[found.value].list;
  }

  /** The search of nextLogicalFontLocked: the face, in the given style, of the first eligible entry from `from` on, or 0. */
  method NextInChain(reg: FontRegistry, list: seq<FallbackFontRec>, from: nat, recPreference: FontVariant, style: Style)
    returns (nextFontID: nat, ghost chosen: Option<nat>)
    requires reg.Valid() && ChainHasFaces(reg, list)
    ensures chosen == FirstEligible(list, from, recPreference)
    ensures chosen.Some? ==> from <= chosen.value < |list|
    ensures chosen.None? ==> nextFontID == 0
    ensures chosen.Some? ==> SameFamily(reg, list[chosen.value].fontID, nextFontID)
    ensures chosen.Some? ==>
              var next := BestFaceOfFamily(reg.families, list[chosen.value].fontID, style);
              next.Some? && nextFontID == next.value.uniqueID
  {
    var next := FindNextEligible(list, from, recPreference);
    chosen := next;
    nextFontID := 0;
    if next.Some? {
      ChainFace(reg, list, next.value);
      var nextFace := FaceOfFamily(reg, list[next.value].fontID, style);
      nextFontID := nextFace.uniqueID;
    }
  }

  /** The search loop of nextLogicalFontLocked: the first entry from `from` on of the default or the preferred variant. */
  method FindNextEligible(list: seq<FallbackFontRec>, from: nat, recPreference: FontVariant) returns (r: Option<nat>)
    ensures r == FirstEligible(list, from, recPreference)
  {
    var nextFallbackFontIndex := from;
    while nextFallbackFontIndex < |list|
      invariant from <= nextFallbackFontIndex
      invariant FirstEligible(list, from, recPreference) == FirstEligible(list, nextFallbackFontIndex, recPreference)
      decreases |list| - nextFallbackFontIndex
    {
      var normalFont := list[nextFallbackFontIndex].variant == DefaultVariant;
      var fontChosen := list[nextFallbackFontIndex].variant == recPreference;
      if normalFont || fontChosen {
        return Some(nextFallbackFontIndex);
      }
      nextFallbackFontIndex := nextFallbackFontIndex + 1;
    }
    return None;
  }
}
