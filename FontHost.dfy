// The newer Android font host's system-font table and fallback chain: the table of
// system font files built from the font configuration (a font's unique ID is its
// position in the table plus one), the chain of fallback fonts rebuilt from the
// fallback families, the walk along that chain for a missing glyph, and typeface
// creation with its style clipped to the legal bits (src/ports/SkFontHost_android.cpp).
// The family and name registry of this file is the same code as the older host's
// and is modelled once, as FontHostLegacy.FontRegistry.
module FontHost {
  import opened Wrappers
  import opened FontHostLegacy

  /** A family of the font configuration: its files, and its names (none for a fallback family). */
  datatype FontFamily = FontFamily(fileNames: seq<string>, names: seq<string>)

  /**
   * The names list of a system-font record: none for a family's later files, the
   * shared empty list that marks a fallback family, or the family's own names.
   */
  datatype NamesRef = NoNames | FallbackNames | NameList(names: seq<string>)

  /** FontInitRec. */
  datatype FontInitRec = FontInitRec(fileName: string, names: NamesRef)

  predicate HasFile(recs: seq<FontInitRec>, filename: string) {
    exists i :: 0 <= i < |recs| && recs[i].fileName == filename
  }

  /** No file appears twice in the table. */
  predicate DistinctFiles(recs: seq<FontInitRec>) {
    forall i, j :: 0 <= i < j < |recs| ==> recs[i].fileName != recs[j].fileName
  }

  /** The names list a family's first file gets: the fallback marker when the family has no names. */
  function FirstRecordNames(family: FontFamily): (r: NamesRef)
    ensures r != NoNames
    ensures r == FallbackNames <==> |family.names| == 0
  {
    if |family.names| == 0 then FallbackNames else NameList(family.names)
  }

  /** The record for file `j` of a family: only file 0 carries a names list. */
  function RecordFor(family: FontFamily, j: nat): (r: FontInitRec)
    requires j < |family.fileNames|
    ensures r.fileName == family.fileNames[j]
    ensures r.names != NoNames <==> j == 0
  {
    FontInitRec(family.fileNames[j], if j == 0 then FirstRecordNames(family) else NoNames)
  }

  /** The table after the files of `family` from `j` on: each file not already present is appended. */
  function AddFamilyFiles(recs: seq<FontInitRec>, family: FontFamily, j: nat): (r: seq<FontInitRec>)
    decreases |family.fileNames| - j
  {
    if j >= |family.fileNames| then recs
    else
      var next := if HasFile(recs, family.fileNames[j]) then recs else recs + [RecordFor(family, j)];
      AddFamilyFiles(next, family, j + 1)
  }

  /** The table after the families from `i` on. */
  function AddFamilies(recs: seq<FontInitRec>, families: seq<FontFamily>, i: nat): (r: seq<FontInitRec>)
    decreases |families| - i
  {
    if i >= |families| then recs else AddFamilies(AddFamilyFiles(recs, families[i], 0), families, i + 1)
  }

  /** What loadFontInfoLocked builds from the configuration's families. */
  function LoadedRecords(families: seq<FontFamily>): seq<FontInitRec> {
    AddFamilies([], families, 0)
  }

  /** The first record whose names list is a family's own names. */
  function FirstNamed(recs: seq<FontInitRec>): (r: Option<nat>)
    ensures r.Some? ==> r.value < |recs| && recs[r.value].names.NameList? && forall j :: 0 <= j < r.value ==> !recs[j].names.NameList?
    ensures r.None? ==> forall j :: 0 <= j < |recs| ==> !recs[j].names.NameList?
  {
    if |recs| == 0 then None
    else
      var r := FirstNamed(recs[..|recs| - 1]);
      if r.Some? then r
      else if recs[|recs| - 1].names.NameList? then Some(|recs| - 1)
      else None
  }

  lemma FirstNamedSnoc(recs: seq<FontInitRec>, rec: FontInitRec)
    ensures FirstNamed(recs + [rec]) == if FirstNamed(recs).Some? then FirstNamed(recs) else if rec.names.NameList? then Some(|recs|) else None
  {
    assert (recs + [rec])[..|recs|] == recs;
  }

  /** Adding a family's files only appends, and appends only files not yet present. */
  lemma {:induction false} AddFamilyFilesGrows(recs: seq<FontInitRec>, family: FontFamily, j: nat)
    ensures |AddFamilyFiles(recs, family, j)| >= |recs| && AddFamilyFiles(recs, family, j)[..|recs|] == recs
    ensures DistinctFiles(recs) ==> DistinctFiles(AddFamilyFiles(recs, family, j))
    decreases |family.fileNames| - j
  {
    if j < |family.fileNames| {
      var next := if HasFile(recs, family.fileNames[j]) then recs else recs + [RecordFor(family, j)];
      AddFamilyFilesGrows(next, family, j + 1);
      assert next[..|recs|] == recs;
      var r := AddFamilyFiles(next, family, j + 1);
      assert r[..|recs|] == r[..|next|][..|recs|];
    }
  }

  /** Every file of the family from `j` on is in the table afterwards. */
  lemma {:induction false} AddFamilyFilesComplete(recs: seq<FontInitRec>, family: FontFamily, j: nat, f: nat)
    requires j <= f < |family.fileNames|
    ensures HasFile(AddFamilyFiles(recs, family, j), family.fileNames[f])
    decreases |family.fileNames| - j
  {
    var next := if HasFile(recs, family.fileNames[j]) then recs else recs + [RecordFor(family, j)];
    AddFamilyFilesGrows(next, family, j + 1);
    var r := AddFamilyFiles(next, family, j + 1);
    if f == j {
      var i :| 0 <= i < |next| && next[i].fileName == family.fileNames[j];
      assert r[i] == r[..|next|][i];
    } else {
      AddFamilyFilesComplete(next, family, j + 1, f);
    }
  }

  /**
   * Each record with a names list is the first file of a family, and carries that
   * family's names (or the fallback marker).
   */
  ghost predicate NamesFromFirstFiles(recs: seq<FontInitRec>, families: seq<FontFamily>) {
    forall k :: 0 <= k < |recs| && recs[k].names != NoNames ==>
      exists i :: 0 <= i < |families| && IsFirstFileOf(recs[k], families[i])
  }

  predicate IsFirstFileOf(rec: FontInitRec, family: FontFamily) {
    |family.fileNames| > 0 && family.fileNames[0] == rec.fileName && rec.names == FirstRecordNames(family)
  }

  lemma {:induction false} AddFamilyFilesNames(recs: seq<FontInitRec>, families: seq<FontFamily>, i: nat, j: nat)
    requires i < |families| && NamesFromFirstFiles(recs, families)
    ensures NamesFromFirstFiles(AddFamilyFiles(recs, families[i], j), families)
    decreases |families[i].fileNames| - j
  {
    var family := families[i];
    if j < |family.fileNames| {
      var next := if HasFile(recs, family.fileNames[j]) then recs else recs + [RecordFor(family, j)];
      forall k | 0 <= k < |next| && next[k].names != NoNames
        ensures exists i' :: 0 <= i' < |families| && IsFirstFileOf(next[k], families[i'])
      {
        if k == |recs| {
          assert IsFirstFileOf(next[k], families[i]);
        } else {
          assert next[k] == recs[k];
        }
      }
      AddFamilyFilesNames(next, families, i, j + 1);
    }
  }

  lemma {:induction false} AddFamiliesProperties(recs: seq<FontInitRec>, families: seq<FontFamily>, i: nat)
    requires DistinctFiles(recs) && NamesFromFirstFiles(recs, families)
    ensures DistinctFiles(AddFamilies(recs, families, i))
    ensures NamesFromFirstFiles(AddFamilies(recs, families, i), families)
    decreases |families| - i
  {
    if i < |families| {
      AddFamilyFilesGrows(recs, families[i], 0);
      AddFamilyFilesNames(recs, families, i, 0);
      AddFamiliesProperties(AddFamilyFiles(recs, families[i], 0), families, i + 1);
    }
  }

  lemma {:induction false} AddFamiliesComplete(recs: seq<FontInitRec>, families: seq<FontFamily>, i: nat, m: nat, f: nat)
    requires i <= m < |families| && f < |families[m].fileNames|
    ensures HasFile(AddFamilies(recs, families, i), families[m].fileNames[f])
    decreases |families| - i
  {
    var next := AddFamilyFiles(recs, families[i], 0);
    if m == i {
      AddFamilyFilesComplete(recs, families[i], 0, f);
      AddFamiliesKeeps(next, families, i + 1, families[m].fileNames[f]);
    } else {
      AddFamiliesComplete(next, families, i + 1, m, f);
    }
  }

  lemma {:induction false} AddFamiliesKeeps(recs: seq<FontInitRec>, families: seq<FontFamily>, i: nat, filename: string)
    requires HasFile(recs, filename)
    ensures HasFile(AddFamilies(recs, families, i), filename)
    decreases |families| - i
  {
    if i < |families| {
      var next := AddFamilyFiles(recs, families[i], 0);
      AddFamilyFilesGrows(recs, families[i], 0);
      var k :| 0 <= k < |recs| && recs[k].fileName == filename;
      assert next[k] == next[..|recs|][k];
      AddFamiliesKeeps(next, families, i + 1, filename);
    }
  }

  /**
   * The table loadFontInfoLocked builds lists no file twice, lists every file of
   * every family, and gives a names list only to the first file of a family.
   */
  lemma LoadedRecordsProperties(families: seq<FontFamily>)
    ensures DistinctFiles(LoadedRecords(families))
    ensures forall m, f :: 0 <= m < |families| && 0 <= f < |families[m].fileNames| ==>
      HasFile(LoadedRecords(families), families[m].fileNames[f])
    ensures NamesFromFirstFiles(LoadedRecords(families), families)
  {
    AddFamiliesProperties([], families, 0);
    forall m, f | 0 <= m < |families| && 0 <= f < |families[m].fileNames|
      ensures HasFile(LoadedRecords(families), families[m].fileNames[f])
    {
      AddFamiliesComplete([], families, 0, m, f);
    }
  }

  /**
   * Only file 0 of a family is offered a names list, so when that file repeats an
   * earlier one, the family's remaining files are recorded without names and join
   * the family loaded before it.
   */
  lemma DuplicateFirstFileLeavesFamilyUnnamed()
    ensures LoadedRecords([FontFamily(["a.ttf"], ["sans"]), FontFamily(["a.ttf", "b.ttf"], ["serif"])]) ==
      [FontInitRec("a.ttf", NameList(["sans"])), FontInitRec("b.ttf", NoNames)]
  {
    var sans := FontFamily(["a.ttf"], ["sans"]);
    var serif := FontFamily(["a.ttf", "b.ttf"], ["serif"]);
    var one := [FontInitRec("a.ttf", NameList(["sans"]))];
    assert AddFamilyFiles([], sans, 0) == one by {
      assert !HasFile([], "a.ttf");
    }
    assert HasFile(one, "a.ttf") by {
      assert one[0].fileName == "a.ttf";
    }
    assert !HasFile(one, "b.ttf") by {
      assert "a.ttf" != "b.ttf" by { assert "a.ttf"[0] != "b.ttf"[0]; }
    }
    assert AddFamilyFiles(one, serif, 0) == one + [FontInitRec("b.ttf", NoNames)];
  }

  /** The unique ID findUniqueIDLocked gives a file: one plus its first position in the table, or 0. */
  function UniqueIDOf(recs: seq<FontInitRec>, filename: string): (id: nat)
    ensures id == 0 <==> !HasFile(recs, filename)
    ensures id > 0 ==> id <= |recs| && recs[id - 1].fileName == filename && forall j :: 0 <= j < id - 1 ==> recs[j].fileName != filename
  {
    if |recs| == 0 then 0
    else if recs[0].fileName == filename then 1
    else
      var id := UniqueIDOf(recs[1..], filename);
      assert forall j :: 1 <= j < |recs| ==> recs[j] == recs[1..][j - 1];
      if id == 0 then 0 else id + 1
  }

  /** In a table with no repeated file, a record's position determines its unique ID. */
  lemma UniqueIDOfPosition(recs: seq<FontInitRec>, k: nat)
    requires DistinctFiles(recs) && k < |recs|
    ensures UniqueIDOf(recs, recs[k].fileName) == k + 1
  {
    var id := UniqueIDOf(recs, recs[k].fileName);
    assert !(id - 1 < k) && !(k < id - 1);
  }

  /**
   * The fallback chain after the files of a fallback family from `j` on: the first
   * loaded system file whose ID is not yet in the chain is appended, and the rest of
   * the family is skipped.
   */
  function ReloadFamily(recs: seq<FontInitRec>, family: FontFamily, loadable: set<string>, chain: seq<nat>, j: nat): (r: seq<nat>)
    decreases |family.fileNames| - j
  {
    if j >= |family.fileNames| then chain
    else
      var filename := family.fileNames[j];
      if !HasFile(recs, filename) || filename !in loadable || UniqueIDOf(recs, filename) in chain then
        ReloadFamily(recs, family, loadable, chain, j + 1)
      else
        chain + [UniqueIDOf(recs, filename)]
  }

  function ReloadFamilies(recs: seq<FontInitRec>, families: seq<FontFamily>, loadable: set<string>, chain: seq<nat>, i: nat): (r: seq<nat>)
    decreases |families| - i
  {
    if i >= |families| then chain
    else ReloadFamilies(recs, families, loadable, ReloadFamily(recs, families[i], loadable, chain, 0), i + 1)
  }

  /** What reloadFallbackFontsLocked builds from the fallback families. */
  function ReloadedFallbacks(recs: seq<FontInitRec>, families: seq<FontFamily>, loadable: set<string>): seq<nat> {
    ReloadFamilies(recs, families, loadable, [], 0)
  }

  predicate DistinctIDs(chain: seq<nat>) {
    forall i, j :: 0 <= i < j < |chain| ==> chain[i] != chain[j]
  }

  /** A chain entry is the ID of a loadable system font. */
  predicate ValidEntry(recs: seq<FontInitRec>, loadable: set<string>, id: nat) {
    1 <= id <= |recs| && recs[id - 1].fileName in loadable
  }

  lemma {:induction false} ReloadFamilyProperties(recs: seq<FontInitRec>, family: FontFamily, loadable: set<string>, chain: seq<nat>, j: nat)
    ensures var r := ReloadFamily(recs, family, loadable, chain, j);
      |chain| <= |r| <= |chain| + 1 && r[..|chain|] == chain &&
      (DistinctIDs(chain) ==> DistinctIDs(r)) &&
      ((forall x :: x in chain ==> ValidEntry(recs, loadable, x)) ==> forall x :: x in r ==> ValidEntry(recs, loadable, x))
    decreases |family.fileNames| - j
  {
    if j < |family.fileNames| {
      var filename := family.fileNames[j];
      if !HasFile(recs, filename) || filename !in loadable || UniqueIDOf(recs, filename) in chain {
        ReloadFamilyProperties(recs, family, loadable, chain, j + 1);
      } else {
        var id := UniqueIDOf(recs, filename);
        assert (chain + [id])[|chain|] == id;
      }
    }
  }

  lemma {:induction false} ReloadFamiliesProperties(recs: seq<FontInitRec>, families: seq<FontFamily>, loadable: set<string>, chain: seq<nat>, i: nat)
    requires i <= |families|
    ensures var r := ReloadFamilies(recs, families, loadable, chain, i);
      |r| <= |chain| + (|families| - i) &&
      (DistinctIDs(chain) ==> DistinctIDs(r)) &&
      ((forall x :: x in chain ==> ValidEntry(recs, loadable, x)) ==> forall x :: x in r ==> ValidEntry(recs, loadable, x))
    decreases |families| - i
  {
    if i < |families| {
      ReloadFamilyProperties(recs, families[i], loadable, chain, 0);
      ReloadFamiliesProperties(recs, families, loadable, ReloadFamily(recs, families[i], loadable, chain, 0), i + 1);
    }
  }

  /**
   * The rebuilt fallback chain holds no ID twice, at most one font per fallback
   * family, and only IDs of system fonts whose files load.
   */
  lemma ReloadedFallbacksProperties(recs: seq<FontInitRec>, families: seq<FontFamily>, loadable: set<string>)
    ensures DistinctIDs(ReloadedFallbacks(recs, families, loadable))
    ensures |ReloadedFallbacks(recs, families, loadable)| <= |families|
    ensures forall x :: x in ReloadedFallbacks(recs, families, loadable) ==> ValidEntry(recs, loadable, x)
  {
    ReloadFamiliesProperties(recs, families, loadable, [], 0);
  }

  /**
   * SkTypeface::Style clipped to kBoldItalic: the low two bits of the value, which in
   * two's complement is the remainder modulo 4 that is never negative.
   */
  function MaskStyle(style: int): (r: Style)
    ensures (style - r) % 4 == 0
    ensures 0 <= style < 4 ==> r == style
  {
    style % 4
  }

  /** Clipping a clipped style changes nothing, and styles four apart clip alike. */
  lemma MaskStyleProperties(style: int, k: int)
    ensures MaskStyle(MaskStyle(style)) == MaskStyle(style)
    ensures MaskStyle(style + 4 * k) == MaskStyle(style)
  {
  }

  /** The system-font table, the fallback chain and the default names list. */
  class SystemFonts {
    /** gSystemFonts: the font with unique ID i + 1 is file systemFonts[i]. */
    var systemFonts: seq<FontInitRec>
    /** gFallbackFonts: unique IDs of the plain faces of the fallback families, in order. */
    var fallbackFonts: seq<nat>
    /** gDefaultNames, as the position of the record whose names list it is. */
    var defaultNames: Option<nat>

    constructor ()
      ensures systemFonts == [] && fallbackFonts == [] && defaultNames == None
    {
      systemFonts := [];
      fallbackFonts := [];
      defaultNames := None;
    }

    /** haveSystemFont: the file is in the table. */
    method HaveSystemFont(filename: string) returns (b: bool)
      ensures b == HasFile(systemFonts, filename)
    {
      var i := 0;
      while i < |systemFonts|
        invariant 0 <= i <= |systemFonts|
        invariant forall j :: 0 <= j < i ==> systemFonts[j].fileName != filename
      {
        if systemFonts[i].fileName == filename {
          return true;
        }
        i := i + 1;
      }
      return false;
    }

    /**
     * loadFontInfoLocked: the table is rebuilt from the configuration's families,
     * skipping files already present; the first named list seen becomes the default
     * names unless a default is already recorded.
     */
    method LoadFontInfoLocked(fontFamilies: seq<FontFamily>)
      modifies this
      ensures systemFonts == LoadedRecords(fontFamilies)
      ensures fallbackFonts == old(fallbackFonts)
      ensures old(defaultNames).Some? ==> defaultNames == old(defaultNames)
      ensures old(defaultNames).None? ==> defaultNames == FirstNamed(systemFonts)
    {
      systemFonts := [];
      var i := 0;
      while i < |fontFamilies|
        invariant 0 <= i <= |fontFamilies|
        invariant AddFamilies(systemFonts, fontFamilies, i) == LoadedRecords(fontFamilies)
        invariant fallbackFonts == old(fallbackFonts)
        invariant old(defaultNames).Some? ==> defaultNames == old(defaultNames)
        invariant old(defaultNames).None? ==> defaultNames == FirstNamed(systemFonts)
        invariant defaultNames.None? ==> FirstNamed(systemFonts).None?
      {
        LoadFamilyLocked(fontFamilies[i]);
        i := i + 1;
      }
    }

    /** One family of loadFontInfoLocked: its files in order, each not yet in the table appended. */
    method LoadFamilyLocked(family: FontFamily)
      requires defaultNames.None? ==> FirstNamed(systemFonts).None?
      modifies this
      ensures systemFonts == AddFamilyFiles(old(systemFonts), family, 0)
      ensures fallbackFonts == old(fallbackFonts)
      ensures old(defaultNames).Some? ==> defaultNames == old(defaultNames)
      ensures old(defaultNames).None? ==> defaultNames == FirstNamed(systemFonts)
      ensures FirstNamed(old(systemFonts)).Some? ==> FirstNamed(systemFonts) == FirstNamed(old(systemFonts))
      ensures defaultNames.None? ==> FirstNamed(systemFonts).None?
    {
      ghost var start, names0 := systemFonts, defaultNames;
      var j := 0;
      while j < |family.fileNames|
        invariant 0 <= j <= |family.fileNames|
        invariant AddFamilyFiles(systemFonts, family, j) == AddFamilyFiles(start, family, 0)
        invariant fallbackFonts == old(fallbackFonts)
        invariant names0.Some? ==> defaultNames == names0
        invariant names0.None? ==> defaultNames == FirstNamed(systemFonts)
        invariant FirstNamed(start).Some? ==> FirstNamed(systemFonts) == FirstNamed(start)
        invariant defaultNames.None? ==> FirstNamed(systemFonts).None?
      {
        ghost var before := systemFonts;
        AddFamilyFileLocked(family, j);
        assert AddFamilyFiles(before, family, j) == AddFamilyFiles(systemFonts, family, j + 1);
        j := j + 1;
      }
    }

    /** One file of loadFontInfoLocked's inner loop: appended unless the table already has it. */
    method AddFamilyFileLocked(family: FontFamily, j: nat)
      requires j < |family.fileNames|
      requires defaultNames.None? ==> FirstNamed(systemFonts).None?
      modifies this
      ensures systemFonts ==
        if HasFile(old(systemFonts), family.fileNames[j]) then old(systemFonts) else old(systemFonts) + [RecordFor(family, j)]
      ensures fallbackFonts == old(fallbackFonts)
      ensures old(defaultNames).Some? ==> defaultNames == old(defaultNames)
      ensures old(defaultNames).None? ==> defaultNames == FirstNamed(systemFonts)
      ensures FirstNamed(old(systemFonts)).Some? ==> FirstNamed(systemFonts) == FirstNamed(old(systemFonts))
      ensures defaultNames.None? ==> FirstNamed(systemFonts).None?
    {
      var filename := family.fileNames[j];
      var duplicate := HaveSystemFont(filename);
      if !duplicate {
        var rec := RecordFor(family, j);
        if rec.names.NameList? && defaultNames.None? {
          defaultNames := Some(|systemFonts|);
        }
        FirstNamedSnoc(systemFonts, rec);
        systemFonts := systemFonts + [rec];
      }
    }

    /** findUniqueIDLocked: one plus the first position of the file in the table, or 0. */
    method FindUniqueIDLocked(filename: string) returns (id: nat)
      ensures id == UniqueIDOf(systemFonts, filename)
    {
      var i := 0;
      while i < |systemFonts|
        invariant 0 <= i <= |systemFonts|
        invariant forall j :: 0 <= j < i ==> systemFonts[j].fileName != filename
      {
        if systemFonts[i].fileName == filename {
          return i + 1;
        }
        i := i + 1;
      }
      return 0;
    }

    /** findFallbackFontIndex: the first position of the ID in the fallback chain, or -1. */
    method FindFallbackFontIndex(fontId: nat) returns (r: int)
      ensures -1 <= r < |fallbackFonts|
      ensures r >= 0 ==> fallbackFonts[r] == fontId && forall j :: 0 <= j < r ==> fallbackFonts[j] != fontId
      ensures r == -1 <==> fontId !in fallbackFonts
    {
      var i := 0;
      while i < |fallbackFonts|
        invariant 0 <= i <= |fallbackFonts|
        invariant forall j :: 0 <= j < i ==> fallbackFonts[j] != fontId
      {
        if fallbackFonts[i] == fontId {
          return i;
        }
        i := i + 1;
      }
      return -1;
    }

    /**
     * reloadFallbackFontsLocked: the chain is rebuilt from the fallback families;
     * `loadable` is the set of files whose name and style can be read.
     */
    method ReloadFallbackFontsLocked(fallbackFamilies: seq<FontFamily>, loadable: set<string>)
      modifies this
      ensures fallbackFonts == ReloadedFallbacks(systemFonts, fallbackFamilies, loadable)
      ensures systemFonts == old(systemFonts) && defaultNames == old(defaultNames)
    {
      fallbackFonts := [];
      var i := 0;
      while i < |fallbackFamilies|
        invariant 0 <= i <= |fallbackFamilies|
        invariant ReloadFamilies(systemFonts, fallbackFamilies, loadable, fallbackFonts, i) == ReloadedFallbacks(systemFonts, fallbackFamilies, loadable)
        invariant systemFonts == old(systemFonts) && defaultNames == old(defaultNames)
      {
        ReloadFamilyLocked(fallbackFamilies[i], loadable);
        i := i + 1;
      }
    }

    /** One fallback family: its first usable file not already in the chain is appended. */
    method ReloadFamilyLocked(family: FontFamily, loadable: set<string>)
      modifies this
      ensures fallbackFonts == ReloadFamily(systemFonts, family, loadable, old(fallbackFonts), 0)
      ensures systemFonts == old(systemFonts) && defaultNames == old(defaultNames)
    {
      ghost var start := fallbackFonts;
      var j := 0;
      while j < |family.fileNames|
        invariant 0 <= j <= |family.fileNames|
        invariant fallbackFonts == start
        invariant ReloadFamily(systemFonts, family, loadable, start, j) == ReloadFamily(systemFonts, family, loadable, start, 0)
        invariant systemFonts == old(systemFonts) && defaultNames == old(defaultNames)
      {
        var filename := family.fileNames[j];
        var known := HaveSystemFont(filename);
        if !known {
          j := j + 1;
          continue;
        }
        if filename !in loadable {
          j := j + 1;
          continue;
        }
        var uniqueID := FindUniqueIDLocked(filename);
        var index := FindFallbackFontIndex(uniqueID);
        if index >= 0 {
          j := j + 1;
          continue;
        }
        fallbackFonts := fallbackFonts + [uniqueID];
        return;
      }
    }

    /**
     * nextLogicalFontLocked: the plain face of the current font's family is looked up
     * in the chain; the answer is the face, in the original font's style, of the
     * family of the next entry, or 0 when the plain face is the chain's last entry
     * (a plain face missing from the chain means the chain's first entry, or 0 for
     * an empty chain).
     */
    method NextLogicalFontLocked(reg: FontRegistry, currFontID: nat, origFontID: nat)
      returns (nextFontID: nat, ghost plainFontID: nat, ghost plainIndex: int)
      requires reg.Valid() && HasFaceWithID(reg, origFontID) && HasFaceWithID(reg, currFontID)
      requires forall id :: id in fallbackFonts ==> HasFaceWithID(reg, id)
      ensures BestFaceOfFamily(reg.families, currFontID, NORMAL).Some?
      ensures plainFontID == BestFaceOfFamily(reg.families, currFontID, NORMAL).value.uniqueID
      ensures SameFamily(reg, currFontID, plainFontID)
      ensures -1 <= plainIndex < |fallbackFonts|
      ensures plainIndex >= 0 ==> fallbackFonts[plainIndex] == plainFontID && forall j :: 0 <= j < plainIndex ==> fallbackFonts[j] != plainFontID
      ensures plainIndex == -1 <==> plainFontID !in fallbackFonts
      ensures plainIndex + 1 == |fallbackFonts| ==> nextFontID == 0
      ensures plainIndex + 1 < |fallbackFonts| ==> SameFamily(reg, fallbackFonts[plainIndex + 1], nextFontID)
      ensures plainIndex + 1 < |fallbackFonts| ==>
                FromUniqueID(reg.families, origFontID, 0).Some? &&
                var next := BestFaceOfFamily(reg.families, fallbackFonts[plainIndex + 1], FromUniqueID(reg.families, origFontID, 0).value.style);
                next.Some? && nextFontID == next.value.uniqueID
    {
      var origStyle := StyleOf(reg, origFontID);
      var plain := FaceOfFamily(reg, currFontID, NORMAL);
      plainFontID := plain.uniqueID;
      var plainFallbackFontIndex := FindFallbackFontIndex(plain.uniqueID);
      plainIndex := plainFallbackFontIndex;
      var nextFallbackFontIndex := plainFallbackFontIndex + 1;
      if nextFallbackFontIndex == |fallbackFonts| {
        nextFontID := 0;
      } else {
        assert fallbackFonts[nextFallbackFontIndex] in fallbackFonts;
        var next := FaceOfFamily(reg, fallbackFonts[nextFallbackFontIndex], origStyle);
        nextFontID := next.uniqueID;
      }
    }
  }

  /**
   * createTypefaceLocked: the style is clipped to its legal bits; the face is the best
   * face in that style of the given face's family, else of the named family, else of
   * the default family.
   */
  method CreateTypefaceLocked(reg: FontRegistry, familyFace: Option<Typeface>, familyName: Option<string>,
                              style: int, defaultFamily: nat) returns (tf: Typeface)
    requires reg.Valid() && FamilyIsLive(reg.families, defaultFamily)
    requires !AllEmpty(reg.families[FamilyIndex(reg.families, defaultFamily)].faces)
    ensures var clipped := MaskStyle(style);
      var found := if familyFace.Some? then MemberFace(reg.families, familyFace.value, clipped)
                   else if familyName.Some? then NameFace(reg.families, reg.nameList, familyName.value, clipped)
                   else None;
      Some(tf) == if found.Some? then found
                  else BestFace(reg.families[FamilyIndex(reg.families, defaultFamily)].faces, clipped)
    ensures exists k :: 0 <= k < |reg.families| && HasFace(reg.families[k], tf)
    ensures familyFace.Some? && (exists k :: 0 <= k < |reg.families| && HasFace(reg.families[k], familyFace.value)) ==>
      exists k :: 0 <= k < |reg.families| && HasFace(reg.families[k], familyFace.value) && HasFace(reg.families[k], tf)
  {
    var clipped := MaskStyle(style);
    var found: Option<Typeface> := None;
    if familyFace.Some? {
      found := reg.FindTypefaceByMemberLocked(familyFace.value, clipped);
    } else if familyName.Some? {
      found := reg.FindTypefaceByNameLocked(familyName.value, clipped);
    }
    if found.None? {
      var k := FamilyIndex(reg.families, defaultFamily);
      found := FindBestFaceLocked(reg.families[k].faces, clipped);
      var i :| 0 <= i < 4 && reg.families[k].faces[i] == found;
      assert HasFace(reg.families[k], found.value);
    }
    tf := found.value;
  }
}
