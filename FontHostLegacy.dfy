// The older Android font host's family bookkeeping: families of up to four styled
// faces kept in a list, a name list sorted by lower-cased name pointing at the
// families, best-face selection within a family, and the order of the
// script-typeface table (legacy/src/ports/SkFontHost_android.cpp).
module FontHostLegacy {
  import opened Wrappers
  import opened Text

  /** SkTypeface::Style: kNormal, kBold, kItalic, kBoldItalic. */
  type Style = s: int | 0 <= s < 4
  const NORMAL: Style := 0
  const ITALIC_BIT: bv8 := 2

  /** style ^ SkTypeface::kItalic: the same weight with the italic bit flipped. */
  function FlipItalic(style: Style): (r: Style)
    ensures r != style && (r >= 2) != (style >= 2) && r % 2 == style % 2
  {
    var flipped := ((style as bv8) ^ ITALIC_BIT) as int;
    assert flipped == if style >= 2 then style - 2 else style + 2 by {
      assert style == 0 || style == 1 || style == 2 || style == 3;
    }
    flipped
  }

  /** A typeface: its unique ID and style. */
  datatype Typeface = Typeface(uniqueID: nat, style: Style)

  /** A family: an identity standing for the FamilyRec's address, and one face slot per style. */
  datatype FamilyRec = FamilyRec(id: nat, faces: seq<Option<Typeface>>)

  predicate HasFace(f: FamilyRec, t: Typeface) {
    exists i :: 0 <= i < |f.faces| && f.faces[i] == Some(t)
  }

  predicate AllEmpty(faces: seq<Option<Typeface>>) {
    forall i :: 0 <= i < |faces| ==> faces[i].None?
  }

  /** The first non-null face, in slot order. */
  function FirstFace(faces: seq<Option<Typeface>>): (r: Option<Typeface>)
    ensures r.None? <==> AllEmpty(faces)
    ensures r.Some? ==> exists i :: 0 <= i < |faces| && faces[i] == r && forall j :: 0 <= j < i ==> faces[j].None?
  {
    if |faces| == 0 then None
    else if faces[0].Some? then faces[0]
    else
      var r := FirstFace(faces[1..]);
      if r.Some? then
        var i :| 0 <= i < |faces[1..]| && faces[1..][i] == r && forall j :: 0 <= j < i ==> faces[1..][j].None?;
        assert faces[i + 1] == r && forall j :: 0 <= j < i + 1 ==> faces[j].None?;
        r
      else r
  }

  /**
   * The face findBestFaceLocked picks: the exact style, else the italic bit flipped,
   * else the plain face, else the first face present. It is one of the family's faces,
   * and there is none only when the family has no faces.
   */
  function BestFace(faces: seq<Option<Typeface>>, style: Style): (r: Option<Typeface>)
    requires |faces| == 4
    ensures r.None? <==> AllEmpty(faces)
    ensures r.Some? ==> exists i :: 0 <= i < 4 && faces[i] == r
  {
    if faces[style].Some? then faces[style]
    else if faces[FlipItalic(style)].Some? then faces[FlipItalic(style)]
    else if faces[NORMAL].Some? then faces[NORMAL]
    else FirstFace(faces)
  }

  /** A family holding a face always yields a best face, and that face is in the family. */
  lemma BestFaceOfMember(f: FamilyRec, member: Typeface, style: Style)
    requires |f.faces| == 4 && HasFace(f, member)
    ensures BestFace(f.faces, style).Some? && HasFace(f, BestFace(f.faces, style).value)
  {
    var r := BestFace(f.faces, style);
    var m :| 0 <= m < 4 && f.faces[m] == Some(member);
    assert !AllEmpty(f.faces);
    var i :| 0 <= i < 4 && f.faces[i] == r;
    assert f.faces[i] == Some(r.value);
  }

  /**
   * findBestFaceLocked: the face of the exact style, else the one with the italic bit
   * flipped, else the plain face, else the first face present; none (the debug
   * failure case) only for a family with no faces.
   */
  method FindBestFaceLocked(faces: seq<Option<Typeface>>, style: Style) returns (r: Option<Typeface>)
    requires |faces| == 4
    ensures r == BestFace(faces, style)
    ensures faces[style].Some? ==> r == faces[style]
    ensures faces[style].None? && faces[FlipItalic(style)].Some? ==> r == faces[FlipItalic(style)]
    ensures faces[style].None? && faces[FlipItalic(style)].None? && faces[NORMAL].Some? ==> r == faces[NORMAL]
    ensures faces[style].None? && faces[FlipItalic(style)].None? && faces[NORMAL].None? ==> r == FirstFace(faces)
    ensures r.None? <==> AllEmpty(faces)
  {
    if faces[style].Some? {
      return faces[style];
    }
    var flipped := FlipItalic(style);
    if faces[flipped].Some? {
      return faces[flipped];
    }
    if faces[NORMAL].Some? {
      return faces[NORMAL];
    }
    var i := 0;
    while i < 4
      invariant 0 <= i <= 4
      invariant forall j :: 0 <= j < i ==> faces[j].None?
    {
      if faces[i].Some? {
        FirstFaceAfterEmpty(faces, i);
        return faces[i];
      }
      i := i + 1;
    }
    return None;
  }

  /** The first face is the first slot holding one. */
  lemma FirstFaceAfterEmpty(faces: seq<Option<Typeface>>, i: nat)
    requires i < |faces| && faces[i].Some? && forall j :: 0 <= j < i ==> faces[j].None?
    ensures FirstFace(faces) == faces[i]
  {
    var r := FirstFace(faces);
    var k :| 0 <= k < |faces| && faces[k] == r && forall j :: 0 <= j < k ==> faces[j].None?;
    assert k == i;
  }

  /** A name and the family it points at (by the family's identity). */
  datatype NameFamilyPair = NameFamilyPair(name: string, family: nat)

  /** SkStrSearch's precondition: names strictly increasing, so no name twice. */
  ghost predicate NamesSorted(list: seq<NameFamilyPair>) {
    forall i, j :: 0 <= i < j < |list| ==> Compare(list[i].name, list[j].name) < 0
  }

  /** The first position whose name is not smaller than `name`. */
  function InsertionPoint(list: seq<NameFamilyPair>, name: string): (p: nat)
    ensures p <= |list|
    ensures forall i :: 0 <= i < p ==> Compare(list[i].name, name) < 0
    ensures p < |list| ==> Compare(list[p].name, name) >= 0
  {
    if |list| == 0 then 0
    else if Compare(list[0].name, name) >= 0 then 0
    else 1 + InsertionPoint(list[1..], name)
  }

  /**
   * SkStrSearch on the sorted name list: the index of `name`, or the bitwise
   * complement of the position where it would be inserted.
   */
  function SearchNames(list: seq<NameFamilyPair>, name: string): (r: int)
    requires NamesSorted(list)
    ensures r >= 0 ==> r < |list| && list[r].name == name
    ensures r < 0 ==> (0 <= -(r + 1) <= |list| &&
      (forall i :: 0 <= i < -(r + 1) ==> Compare(list[i].name, name) < 0) &&
      (forall i :: -(r + 1) <= i < |list| ==> Compare(list[i].name, name) > 0))
    ensures r < 0 <==> forall i :: 0 <= i < |list| ==> list[i].name != name
  {
    var p := InsertionPoint(list, name);
    if p < |list| && list[p].name == name then p
    else
      AfterInsertionPoint(list, name, p);
      -(p + 1)
  }

  /** Past the insertion point of an absent name, every name is larger. */
  lemma AfterInsertionPoint(list: seq<NameFamilyPair>, name: string, p: nat)
    requires NamesSorted(list) && p == InsertionPoint(list, name)
    requires !(p < |list| && list[p].name == name)
    ensures forall i :: p <= i < |list| ==> Compare(list[i].name, name) > 0
  {
    forall i | p <= i < |list|
      ensures Compare(list[i].name, name) > 0
    {
      CompareAntisymmetric(list[p].name, name);
      if i > p {
        CompareAntisymmetric(name, list[i].name);
        CompareTransitive(name, list[p].name, list[i].name);
      }
    }
  }

  /** Inserting a name at its insertion point keeps the list sorted. */
  lemma InsertKeepsSorted(list: seq<NameFamilyPair>, pair: NameFamilyPair, p: nat)
    requires NamesSorted(list) && p <= |list|
    requires forall i :: 0 <= i < p ==> Compare(list[i].name, pair.name) < 0
    requires forall i :: p <= i < |list| ==> Compare(list[i].name, pair.name) > 0
    ensures NamesSorted(list[..p] + [pair] + list[p..])
  {
    var l := list[..p] + [pair] + list[p..];
    forall i, j | 0 <= i < j < |l|
      ensures Compare(l[i].name, l[j].name) < 0
    {
      if j == p {
        assert l[i] == list[i];
      } else if i == p {
        assert l[j] == list[j - 1];
        CompareAntisymmetric(list[j - 1].name, pair.name);
      } else {
        var i' := if i < p then i else i - 1;
        var j' := if j < p then j else j - 1;
        assert l[i] == list[i'] && l[j] == list[j'];
      }
    }
  }

  /** The name pairs that do not point at `family`, in order. */
  function WithoutFamily(list: seq<NameFamilyPair>, family: nat): (r: seq<NameFamilyPair>)
    ensures |r| <= |list|
    ensures forall x :: x in r <==> x in list && x.family != family
  {
    if |list| == 0 then []
    else (if list[0].family == family then [] else [list[0]]) + WithoutFamily(list[1..], family)
  }

  lemma SortedTail(list: seq<NameFamilyPair>)
    requires NamesSorted(list) && |list| > 0
    ensures NamesSorted(list[1..])
    ensures forall y :: y in list[1..] ==> Compare(list[0].name, y.name) < 0
  {
    forall i, j | 0 <= i < j < |list[1..]|
      ensures Compare(list[1..][i].name, list[1..][j].name) < 0
    {
      assert list[1..][i] == list[i + 1] && list[1..][j] == list[j + 1];
    }
  }

  lemma SortedCons(x: NameFamilyPair, rest: seq<NameFamilyPair>)
    requires NamesSorted(rest) && forall y :: y in rest ==> Compare(x.name, y.name) < 0
    ensures NamesSorted([x] + rest)
  {
    var l := [x] + rest;
    forall i, j | 0 <= i < j < |l|
      ensures Compare(l[i].name, l[j].name) < 0
    {
      assert l[j] == rest[j - 1];
      if i > 0 {
        assert l[i] == rest[i - 1];
      }
    }
  }

  /** Dropping pairs keeps the list sorted. */
  lemma {:induction false} WithoutFamilySorted(list: seq<NameFamilyPair>, family: nat)
    requires NamesSorted(list)
    ensures NamesSorted(WithoutFamily(list, family))
    decreases |list|
  {
    if |list| > 0 {
      SortedTail(list);
      WithoutFamilySorted(list[1..], family);
      if list[0].family != family {
        SortedCons(list[0], WithoutFamily(list[1..], family));
      }
    }
  }

  lemma WithoutFamilySplit(list: seq<NameFamilyPair>, i: nat, family: nat)
    requires i < |list|
    ensures WithoutFamily(list[i..], family) ==
      (if list[i].family == family then [] else [list[i]]) + WithoutFamily(list[i + 1..], family)
  {
    assert list[i..][1..] == list[i + 1..];
  }

  /** The script-typeface table's key. */
  datatype TypefaceLookup = TypefaceLookup(script: int, style: Style, fontVariant: int)

  /** typefaceLookupCompare: script first, then style, then font variant. */
  function TypefaceLookupCompare(first: TypefaceLookup, second: TypefaceLookup): (r: int)
    ensures -1 <= r <= 1
    ensures r == 0 <==> first == second
    ensures first.script != second.script ==> (r < 0 <==> first.script < second.script)
    ensures first.script == second.script && first.style != second.style ==> (r < 0 <==> first.style < second.style)
  {
    if first.script != second.script then (if first.script > second.script then 1 else -1)
    else if first.style != second.style then (if first.style > second.style then 1 else -1)
    else if first.fontVariant != second.fontVariant then (if first.fontVariant > second.fontVariant then 1 else -1)
    else 0
  }

  /** The order is antisymmetric and transitive: a total order the table can be searched by. */
  lemma TypefaceLookupOrder(a: TypefaceLookup, b: TypefaceLookup, c: TypefaceLookup)
    ensures TypefaceLookupCompare(b, a) == -TypefaceLookupCompare(a, b)
    ensures TypefaceLookupCompare(a, b) < 0 && TypefaceLookupCompare(b, c) < 0 ==> TypefaceLookupCompare(a, c) < 0
  {
  }

  /** The module's global family and name lists (the mutex that guards them is not modelled). */
  class FontRegistry {
    /** gFamilyHead's list, head first. */
    var families: seq<FamilyRec>
    /** gNameList, sorted by name. */
    var nameList: seq<NameFamilyPair>
    /** The identity the next new family gets. */
    var nextFamilyId: nat

    ghost predicate Valid()
      reads this
    {
      FamiliesWellFormed(families, nextFamilyId) && NamesSorted(nameList) && NamesLive(nameList, families)
    }

    constructor ()
      ensures Valid() && families == [] && nameList == []
    {
      families := [];
      nameList := [];
      nextFamilyId := 0;
    }

    /** findFamilyLocked: the first family holding the face, by position in the list. */
    method FindFamilyLocked(member: Typeface) returns (k: Option<nat>)
      ensures k == FirstFamilyWith(families, member)
      ensures k.Some? ==>
        k.value < |families| && HasFace(families[k.value], member) &&
        (forall j :: 0 <= j < k.value ==> !HasFace(families[j], member))
      ensures k.None? ==> forall j :: 0 <= j < |families| ==> !HasFace(families[j], member)
    {
      var curr := 0;
      while curr < |families|
        invariant 0 <= curr <= |families|
        invariant forall j :: 0 <= j < curr ==> !HasFace(families[j], member)
      {
        var faces := families[curr].faces;
        var i := 0;
        while i < |faces|
          invariant 0 <= i <= |faces|
          invariant forall j :: 0 <= j < i ==> faces[j] != Some(member)
        {
          if faces[i] == Some(member) {
            return Some(curr);
          }
          i := i + 1;
        }
        curr := curr + 1;
      }
      return None;
    }

    /** findFromUniqueIDLocked: the first face with that unique ID, family by family and slot by slot. */
    method FindFromUniqueIDLocked(uniqueID: nat) returns (r: Option<Typeface>)
      ensures r == FromUniqueID(families, uniqueID, 0)
      ensures r.Some? ==> r.value.uniqueID == uniqueID && exists k :: 0 <= k < |families| && HasFace(families[k], r.value)
      ensures r.None? ==> forall k, t :: 0 <= k < |families| && HasFace(families[k], t) ==> t.uniqueID != uniqueID
    {
      var curr := 0;
      while curr < |families|
        invariant 0 <= curr <= |families|
        invariant FromUniqueID(families, uniqueID, curr) == FromUniqueID(families, uniqueID, 0)
      {
        var faces := families[curr].faces;
        var i := 0;
        while i < |faces|
          invariant 0 <= i <= |faces|
          invariant FaceWithID(faces, uniqueID, i) == FaceWithID(faces, uniqueID, 0)
        {
          if faces[i].Some? && faces[i].value.uniqueID == uniqueID {
            return faces[i];
          }
          i := i + 1;
        }
        curr := curr + 1;
      }
      return None;
    }

    /**
     * removeFromFamilyLocked: clears the face's slot in its family and returns that
     * family's identity when no face is left in it, otherwise none.
     */
    method RemoveFromFamilyLocked(face: Typeface) returns (emptied: Option<nat>)
      requires Valid()
      modifies this
      ensures Valid() && nameList == old(nameList) && nextFamilyId == old(nextFamilyId)
      ensures FirstFamilyWith(old(families), face).None? ==> families == old(families) && emptied.None?
      ensures FirstFamilyWith(old(families), face).Some? ==>
        var k := FirstFamilyWith(old(families), face).value;
        families == old(families)[k := old(families)[k].(faces := old(families)[k].faces[face.style := None])] &&
        emptied == (if AllEmpty(families[k].faces) then Some(families[k].id) else None)
    {
      var k := FindFamilyLocked(face);
      if k.None? {
        return None;
      }
      var family := families[k.value];
      var faces := family.faces[face.style := None];
      ghost var before := families;
      families := families[k.value := family.(faces := faces)];
      forall n | 0 <= n < |nameList| ensures FamilyIsLive(families, nameList[n].family) {
        var j := FamilyIndex(before, nameList[n].family);
        assert families[j].id == before[j].id;
      }
      var i := 0;
      while i < 4
        invariant 0 <= i <= 4
        invariant forall j :: 0 <= j < i ==> faces[j].None?
      {
        if faces[i].Some? {
          return None;
        }
        i := i + 1;
      }
      return Some(family.id);
    }

    /**
     * detachAndDeleteFamilyLocked: unlinks the family with that identity, keeping the
     * order of the others; a family not in the list leaves it unchanged.
     */
    method DetachAndDeleteFamilyLocked(family: nat)
      requires Valid() && forall i :: 0 <= i < |nameList| ==> nameList[i].family != family
      modifies this
      ensures Valid() && nameList == old(nameList) && nextFamilyId == old(nextFamilyId)
      ensures !FamilyIsLive(families, family)
      ensures FamilyIsLive(old(families), family) ==>
        var k := FamilyIndex(old(families), family);
        families == old(families)[..k] + old(families)[k + 1..]
      ensures !FamilyIsLive(old(families), family) ==> families == old(families)
    {
      var curr := 0;
      while curr < |families|
        invariant 0 <= curr <= |families|
        invariant forall j :: 0 <= j < curr ==> families[j].id != family
      {
        if families[curr].id == family {
          FamilyIndexIs(families, family, curr);
          RemoveFamilyAt(families, curr, nameList, nextFamilyId);
          families := families[..curr] + families[curr + 1..];
          return;
        }
        curr := curr + 1;
      }
    }

    /**
     * addTypefaceLocked: the face goes into its style's slot of the family holding
     * `familyMember`, or into a new family at the head of the list.
     */
    method AddTypefaceLocked(typeface: Typeface, familyMember: Option<Typeface>)
      requires Valid()
      requires familyMember.Some? ==> exists j :: 0 <= j < |families| && HasFace(families[j], familyMember.value)
      modifies this
      ensures Valid() && nameList == old(nameList)
      ensures familyMember.None? ==>
        families == [FamilyRec(old(nextFamilyId), [None, None, None, None][typeface.style := Some(typeface)])] + old(families)
      ensures familyMember.Some? ==>
        exists k :: 0 <= k < |old(families)| && HasFace(old(families)[k], familyMember.value) &&
          families == old(families)[k := old(families)[k].(faces := old(families)[k].faces[typeface.style := Some(typeface)])]
    {
      if familyMember.Some? {
        var k := FindFamilyLocked(familyMember.value);
        var rec := families[k.value];
        SetFaceKeepsLists(families, k.value, typeface, nameList, nextFamilyId);
        families := families[k.value := rec.(faces := rec.faces[typeface.style := Some(typeface)])];
      } else {
        var rec := FamilyRec(nextFamilyId, [None, None, None, None][typeface.style := Some(typeface)]);
        NewFamilyKeepsLists(families, typeface, nameList, nextFamilyId);
        families := [rec] + families;
        nextFamilyId := nextFamilyId + 1;
      }
    }

    /**
     * addNameLocked: the lower-cased name goes into the sorted name list at its
     * place, pointing at the family, unless the name is already there.
     */
    method AddNameLocked(name: string, family: nat)
      requires Valid() && FamilyIsLive(families, family)
      modifies this
      ensures Valid() && families == old(families) && nextFamilyId == old(nextFamilyId)
      ensures (exists i :: 0 <= i < |old(nameList)| && old(nameList)[i].name == ToLower(name)) ==> nameList == old(nameList)
      ensures (forall i :: 0 <= i < |old(nameList)| ==> old(nameList)[i].name != ToLower(name)) ==>
        exists p :: 0 <= p <= |old(nameList)| &&
          nameList == old(nameList)[..p] + [NameFamilyPair(ToLower(name), family)] + old(nameList)[p..]
      ensures exists i :: 0 <= i < |nameList| && nameList[i].name == ToLower(name)
    {
      var lc := ToLower(name);
      var index := SearchNames(nameList, lc);
      if index < 0 {
        var p := -(index + 1);
        var pair := NameFamilyPair(lc, family);
        InsertKeepsSorted(nameList, pair, p);
        ghost var before := nameList;
        nameList := nameList[..p] + [pair] + nameList[p..];
        assert nameList[p] == pair;
        forall i | 0 <= i < |nameList| ensures FamilyIsLive(families, nameList[i].family) {
          if i < p { assert nameList[i] == before[i]; }
          else if i > p { assert nameList[i] == before[i - 1]; }
        }
      }
    }

    /** removeFromNamesLocked: drops every name pair pointing at the family, keeping the others in order. */
    method RemoveFromNamesLocked(emptyFamily: nat)
      requires Valid()
      modifies this
      ensures Valid() && families == old(families) && nextFamilyId == old(nextFamilyId)
      ensures nameList == WithoutFamily(old(nameList), emptyFamily)
    {
      ghost var start := nameList;
      var i := |nameList| - 1;
      assert start[i + 1..] == [];
      while i >= 0
        invariant -1 <= i < |start|
        invariant nameList == start[..i + 1] + WithoutFamily(start[i + 1..], emptyFamily)
        invariant families == old(families) && nextFamilyId == old(nextFamilyId)
      {
        RemoveNamesStep(start, nameList, i, emptyFamily);
        if nameList[i].family == emptyFamily {
          nameList := nameList[..i] + nameList[i + 1..];
        }
        i := i - 1;
      }
      assert start[..0] == [] && start[0..] == start;
      WithoutFamilySorted(start, emptyFamily);
      WithoutFamilyLive(start, emptyFamily, families);
    }

    /**
     * The second half of removeTypeface, for a family left empty: its names leave
     * the name list, then the family leaves the family list.
     */
    method DeleteEmptiedFamilyLocked(family: nat)
      requires Valid() && FamilyIsLive(families, family)
      modifies this
      ensures Valid() && nextFamilyId == old(nextFamilyId)
      ensures nameList == WithoutFamily(old(nameList), family)
      ensures families == old(families)[..FamilyIndex(old(families), family)] + old(families)[FamilyIndex(old(families), family) + 1..]
    {
      RemoveFromNamesLocked(family);
      NoNameLeft(nameList, family);
      DetachAndDeleteFamilyLocked(family);
    }

    /**
     * removeTypeface: the face's slot in the first family holding it is cleared; a
     * family left empty loses its names and leaves the list, so no empty family stays
     * behind. A face no family holds changes nothing.
     */
    method RemoveTypeface(typeface: Typeface)
      requires Valid()
      modifies this
      ensures Valid() && nextFamilyId == old(nextFamilyId)
      ensures FirstFamilyWith(old(families), typeface).None? ==> families == old(families) && nameList == old(nameList)
      ensures FirstFamilyWith(old(families), typeface).Some? ==>
        var k := FirstFamilyWith(old(families), typeface).value;
        var cleared := old(families)[k].(faces := old(families)[k].faces[typeface.style := None]);
        if AllEmpty(cleared.faces) then
          families == old(families)[..k] + old(families)[k + 1..] && nameList == WithoutFamily(old(nameList), cleared.id)
        else
          families == old(families)[k := cleared] && nameList == old(nameList)
      ensures NoEmptyFamily(old(families)) ==> NoEmptyFamily(families)
      ensures |old(families)| - 1 <= |families| <= |old(families)|
    {
      ghost var before, names := families, nameList;
      ghost var k := FirstFamilyWith(families, typeface);
      var family := RemoveFromFamilyLocked(typeface);
      if family.Some? {
        ghost var mid := families;
        FamilyIndexIs(mid, family.value, k.value);
        DeleteEmptiedFamilyLocked(family.value);
        RemovalOutcome(before, names, typeface, k.value, mid, families, nameList);
      } else if k.Some? {
        RemovalOutcome(before, names, typeface, k.value, families, families, nameList);
      }
    }

    /**
     * findTypefaceLocked by name: the best face of the family the lower-cased name
     * points at, or none for an unknown name.
     */
    method FindTypefaceByNameLocked(name: string, style: Style) returns (r: Option<Typeface>)
      requires Valid()
      ensures r == NameFace(families, nameList, name, style)
      ensures (forall i :: 0 <= i < |nameList| ==> nameList[i].name != ToLower(name)) ==> r.None?
      ensures NoEmptyFamily(families) && (exists i :: 0 <= i < |nameList| && nameList[i].name == ToLower(name)) ==> r.Some?
      ensures r.Some? ==> exists k :: 0 <= k < |families| && HasFace(families[k], r.value)
    {
      var index := SearchNames(nameList, ToLower(name));
      if index < 0 {
        return None;
      }
      var k := FamilyIndex(families, nameList[index].family);
      r := FindBestFaceLocked(families[k].faces, style);
      if r.Some? {
        var i :| 0 <= i < 4 && families[k].faces[i] == r;
        assert HasFace(families[k], r.value);
      }
    }

    /** findTypefaceLocked by member: the best face of the member's family, or none. */
    method FindTypefaceByMemberLocked(familyMember: Typeface, style: Style) returns (r: Option<Typeface>)
      requires Valid()
      ensures r == MemberFace(families, familyMember, style)
      ensures (forall j :: 0 <= j < |families| ==> !HasFace(families[j], familyMember)) ==> r.None?
      ensures (exists j :: 0 <= j < |families| && HasFace(families[j], familyMember)) ==> r.Some?
      ensures r.Some? ==> exists k :: 0 <= k < |families| && HasFace(families[k], familyMember) && HasFace(families[k], r.value)
    {
      var k := FindFamilyLocked(familyMember);
      if k.None? {
        return None;
      }
      r := FindBestFaceLocked(families[k.value].faces, style);
      BestFaceOfMember(families[k.value], familyMember, style);
    }
  }

  /**
   * What findTypefaceLocked by member answers: the best face of the first family
   * holding the member; none exactly when no family holds it.
   */
  ghost function MemberFace(families: seq<FamilyRec>, member: Typeface, style: Style): (r: Option<Typeface>)
    requires FourSlots(families)
    ensures r.Some? <==> exists j :: 0 <= j < |families| && HasFace(families[j], member)
    ensures r.Some? ==> HasFace(families[FirstFamilyWith(families, member).value], r.value)
  {
    var k := FirstFamilyWith(families, member);
    if k.None? then None
    else
      BestFaceOfMember(families[k.value], member, style);
      BestFace(families[k.value].faces, style)
  }

  /**
   * What findTypefaceLocked by name answers: the best face of the family the pair
   * carrying the lower-cased name points at (the list holds each name once), or none
   * for a name not in the list.
   */
  ghost function NameFace(families: seq<FamilyRec>, nameList: seq<NameFamilyPair>, name: string, style: Style): (r: Option<Typeface>)
    requires FourSlots(families) && NamesSorted(nameList) && NamesLive(nameList, families)
    ensures forall i :: 0 <= i < |nameList| && nameList[i].name == ToLower(name) ==>
      r == BestFace(families[FamilyIndex(families, nameList[i].family)].faces, style)
    ensures (forall i :: 0 <= i < |nameList| ==> nameList[i].name != ToLower(name)) ==> r.None?
  {
    var index := SearchNames(nameList, ToLower(name));
    if index < 0 then None
    else
      NameListedOnce(nameList, index);
      BestFace(families[FamilyIndex(families, nameList[index].family)].faces, style)
  }

  /** In a sorted name list a name sits at one position only. */
  lemma NameListedOnce(nameList: seq<NameFamilyPair>, index: nat)
    requires NamesSorted(nameList) && index < |nameList|
    ensures forall i :: 0 <= i < |nameList| && nameList[i].name == nameList[index].name ==> i == index
  {
    forall i | 0 <= i < |nameList| && nameList[i].name == nameList[index].name
      ensures i == index
    {
      CompareAntisymmetric(nameList[i].name, nameList[i].name);
    }
  }

  /** The first face with this unique ID among a family's slots from slot `i` on. */
  function FaceWithID(faces: seq<Option<Typeface>>, id: nat, i: nat): (r: Option<Typeface>)
    ensures r.Some? ==> r.value.uniqueID == id && exists j :: i <= j < |faces| && faces[j] == r
    ensures r.None? ==> forall j :: i <= j < |faces| && faces[j].Some? ==> faces[j].value.uniqueID != id
    decreases |faces| - i
  {
    if i >= |faces| then None
    else if faces[i].Some? && faces[i].value.uniqueID == id then faces[i]
    else FaceWithID(faces, id, i + 1)
  }

  /**
   * What findFromUniqueIDLocked finds searching from family `k` on: the first face
   * with this unique ID; none exactly when no family from `k` on has one.
   */
  function FromUniqueID(families: seq<FamilyRec>, id: nat, k: nat): (r: Option<Typeface>)
    ensures r.Some? ==> r.value.uniqueID == id && exists j :: k <= j < |families| && HasFace(families[j], r.value)
    ensures r.None? <==> forall j :: k <= j < |families| ==> !FamilyHasID(families[j], id)
    decreases |families| - k
  {
    if k >= |families| then None
    else
      var r := FaceWithID(families[k].faces, id, 0);
      if r.Some? then
        var i :| 0 <= i < |families[k].faces| && families[k].faces[i] == r;
        assert families[k].faces[i] == Some(r.value);
        r
      else FromUniqueID(families, id, k + 1)
  }

  /** Every family has its four style slots. */
  predicate FourSlots(families: seq<FamilyRec>) {
    forall k :: 0 <= k < |families| ==> |families[k].faces| == 4
  }

  predicate FamilyIsLive(families: seq<FamilyRec>, id: nat) {
    exists k :: 0 <= k < |families| && families[k].id == id
  }

  /** The position of a live family in the list. */
  function FamilyIndex(families: seq<FamilyRec>, id: nat): (k: nat)
    requires FamilyIsLive(families, id)
    ensures k < |families| && families[k].id == id
    ensures forall j :: 0 <= j < k ==> families[j].id != id
  {
    if families[0].id == id then 0
    else
      assert FamilyIsLive(families[1..], id) by {
        var k :| 0 <= k < |families| && families[k].id == id;
        assert families[1..][k - 1] == families[k];
      }
      1 + FamilyIndex(families[1..], id)
  }

  lemma FamilyIndexIs(families: seq<FamilyRec>, id: nat, k: nat)
    requires k < |families| && families[k].id == id && forall j :: 0 <= j < k ==> families[j].id != id
    ensures FamilyIsLive(families, id) && FamilyIndex(families, id) == k
  {
  }

  ghost predicate NoEmptyFamily(families: seq<FamilyRec>) {
    forall k :: 0 <= k < |families| ==> !AllEmpty(families[k].faces)
  }

  /** The position of the first family holding the face. */
  ghost function FirstFamilyWith(families: seq<FamilyRec>, t: Typeface): (r: Option<nat>)
    ensures r.Some? ==>
      r.value < |families| && HasFace(families[r.value], t) &&
      (forall j :: 0 <= j < r.value ==> !HasFace(families[j], t))
    ensures r.None? ==> forall j :: 0 <= j < |families| ==> !HasFace(families[j], t)
  {
    if |families| == 0 then None
    else if HasFace(families[0], t) then Some(0)
    else
      var r := FirstFamilyWith(families[1..], t);
      if r.Some? then Some(r.value + 1)
      else
        assert forall j :: 1 <= j < |families| ==> families[j] == families[1..][j - 1];
        None
  }

  ghost predicate FamiliesWellFormed(families: seq<FamilyRec>, nextFamilyId: nat) {
    (forall k :: 0 <= k < |families| ==> |families[k].faces| == 4 && families[k].id < nextFamilyId) &&
    (forall k, l :: 0 <= k < l < |families| ==> families[k].id != families[l].id)
  }

  /** Every name points at a family still in the list. */
  ghost predicate NamesLive(nameList: seq<NameFamilyPair>, families: seq<FamilyRec>) {
    forall i :: 0 <= i < |nameList| ==> FamilyIsLive(families, nameList[i].family)
  }

  /** Unlinking a family no name points at keeps the lists consistent. */
  lemma RemoveFamilyAt(families: seq<FamilyRec>, k: nat, nameList: seq<NameFamilyPair>, nextFamilyId: nat)
    requires k < |families| && FamiliesWellFormed(families, nextFamilyId) && NamesLive(nameList, families)
    requires forall i :: 0 <= i < |nameList| ==> nameList[i].family != families[k].id
    ensures var r := families[..k] + families[k + 1..];
      FamiliesWellFormed(r, nextFamilyId) && NamesLive(nameList, r) && !FamilyIsLive(r, families[k].id)
  {
    var r := families[..k] + families[k + 1..];
    assert forall j :: 0 <= j < |r| ==> r[j] == families[if j < k then j else j + 1];
    forall i | 0 <= i < |nameList| ensures FamilyIsLive(r, nameList[i].family) {
      var j := FamilyIndex(families, nameList[i].family);
      assert r[if j < k then j else j - 1] == families[j];
    }
  }

  /** Filling a slot of one family keeps the family list well formed and every name live. */
  lemma SetFaceKeepsLists(families: seq<FamilyRec>, k: nat, typeface: Typeface, nameList: seq<NameFamilyPair>, nextFamilyId: nat)
    requires k < |families| && FamiliesWellFormed(families, nextFamilyId) && NamesLive(nameList, families)
    ensures var r := families[k := families[k].(faces := families[k].faces[typeface.style := Some(typeface)])];
      FamiliesWellFormed(r, nextFamilyId) && NamesLive(nameList, r)
  {
    var r := families[k := families[k].(faces := families[k].faces[typeface.style := Some(typeface)])];
    forall i | 0 <= i < |nameList| ensures FamilyIsLive(r, nameList[i].family) {
      var j := FamilyIndex(families, nameList[i].family);
      assert r[j].id == families[j].id;
    }
  }

  /** A new family with a fresh ID at the head keeps the family list well formed and every name live. */
  lemma NewFamilyKeepsLists(families: seq<FamilyRec>, typeface: Typeface, nameList: seq<NameFamilyPair>, nextFamilyId: nat)
    requires FamiliesWellFormed(families, nextFamilyId) && NamesLive(nameList, families)
    ensures var r := [FamilyRec(nextFamilyId, [None, None, None, None][typeface.style := Some(typeface)])] + families;
      FamiliesWellFormed(r, nextFamilyId + 1) && NamesLive(nameList, r)
  {
    var r := [FamilyRec(nextFamilyId, [None, None, None, None][typeface.style := Some(typeface)])] + families;
    forall i | 0 <= i < |nameList| ensures FamilyIsLive(r, nameList[i].family) {
      var j := FamilyIndex(families, nameList[i].family);
      assert r[j + 1] == families[j];
    }
  }

  /** One backward step of removeFromNamesLocked. */
  lemma RemoveNamesStep(start: seq<NameFamilyPair>, cur: seq<NameFamilyPair>, i: nat, family: nat)
    requires i < |start| && cur == start[..i + 1] + WithoutFamily(start[i + 1..], family)
    ensures i < |cur| && cur[i] == start[i]
    ensures cur[i].family == family ==> cur[..i] + cur[i + 1..] == start[..i] + WithoutFamily(start[i..], family)
    ensures cur[i].family != family ==> cur == start[..i] + WithoutFamily(start[i..], family)
  {
    var before, x, after := start[..i], start[i], WithoutFamily(start[i + 1..], family);
    assert start[..i + 1] == before + [x];
    SnocSplit(before, x, after);
    WithoutFamilySplit(start, i, family);
    if x.family == family {
      assert [] + after == after;
    }
  }

  /** The pieces of a sequence built from a prefix, one element and a suffix. */
  lemma SnocSplit<T>(before: seq<T>, x: T, after: seq<T>)
    ensures var c := (before + [x]) + after;
      |c| == |before| + 1 + |after| && c[|before|] == x &&
      c[..|before|] == before && c[|before| + 1..] == after && c == before + ([x] + after)
  {
    var c := (before + [x]) + after;
    assert c[..|before|] == before;
    assert c[|before| + 1..] == after;
  }

  lemma WithoutFamilyLive(list: seq<NameFamilyPair>, family: nat, families: seq<FamilyRec>)
    requires NamesLive(list, families)
    ensures NamesLive(WithoutFamily(list, family), families)
  {
    var r := WithoutFamily(list, family);
    forall j | 0 <= j < |r| ensures FamilyIsLive(families, r[j].family) {
      assert r[j] in list;
    }
  }

  lemma NoNameLeft(list: seq<NameFamilyPair>, family: nat)
    requires forall x :: x in list ==> x.family != family
    ensures forall i :: 0 <= i < |list| ==> list[i].family != family
  {
    forall i | 0 <= i < |list| ensures list[i].family != family {
      assert list[i] in list;
    }
  }

  /** The family removeTypeface emptied was its only change, so no empty family remains. */
  lemma EmptiedFamilyGone(before: seq<FamilyRec>, mid: seq<FamilyRec>, after: seq<FamilyRec>, k: nat)
    requires k < |before| && |mid| == |before| && after == mid[..k] + mid[k + 1..]
    requires forall j :: 0 <= j < |before| && j != k ==> mid[j] == before[j]
    ensures NoEmptyFamily(before) ==> NoEmptyFamily(after)
  {
    assert forall j :: 0 <= j < |after| ==> after[j] == before[if j < k then j else j + 1];
  }

  /**
   * The lists removeTypeface leaves: the cleared family in place, or, when it is
   * empty, the list without it and the names without those pointing at it.
   */
  lemma RemovalOutcome(before: seq<FamilyRec>, names: seq<NameFamilyPair>, t: Typeface, k: nat,
                       mid: seq<FamilyRec>, after: seq<FamilyRec>, afterNames: seq<NameFamilyPair>)
    requires FirstFamilyWith(before, t) == Some(k) && |before[k].faces| == 4
    requires mid == before[k := before[k].(faces := before[k].faces[t.style := None])]
    requires AllEmpty(mid[k].faces) ==> after == mid[..k] + mid[k + 1..] && afterNames == WithoutFamily(names, mid[k].id)
    requires !AllEmpty(mid[k].faces) ==> after == mid && afterNames == names
    ensures var cleared := before[k].(faces := before[k].faces[t.style := None]);
      if AllEmpty(cleared.faces) then
        after == before[..k] + before[k + 1..] && afterNames == WithoutFamily(names, cleared.id)
      else
        after == before[k := cleared] && afterNames == names
    ensures NoEmptyFamily(before) ==> NoEmptyFamily(after)
    ensures |before| - 1 <= |after| <= |before|
  {
    if AllEmpty(mid[k].faces) {
      assert mid[..k] == before[..k] && mid[k + 1..] == before[k + 1..];
      EmptiedFamilyGone(before, mid, after, k);
    }
  }

  /** The family holds a face with this unique ID. */
  predicate FamilyHasID(f: FamilyRec, id: nat) {
    exists i :: 0 <= i < |f.faces| && f.faces[i].Some? && f.faces[i].value.uniqueID == id
  }

  /** A face with this unique ID is held by some family. */
  ghost predicate HasFaceWithID(reg: FontRegistry, id: nat)
    reads reg
  {
    exists k :: 0 <= k < |reg.families| && FamilyHasID(reg.families[k], id)
  }

  /** Faces with these two unique IDs are held by one family. */
  ghost predicate SameFamily(reg: FontRegistry, a: nat, b: nat)
    reads reg
  {
    exists k :: 0 <= k < |reg.families| && FamilyHasID(reg.families[k], a) && FamilyHasID(reg.families[k], b)
  }

  lemma FaceHasID(f: FamilyRec, t: Typeface)
    requires HasFace(f, t)
    ensures FamilyHasID(f, t.uniqueID)
  {
  }

  /**
   * findTypefaceLocked(findFromUniqueIDLocked(id), style): the best face in the style of
   * the family holding the first face with that ID; none exactly when no face has it.
   */
  ghost function BestFaceOfFamily(families: seq<FamilyRec>, id: nat, style: Style): (r: Option<Typeface>)
    requires FourSlots(families)
    ensures r.Some? <==> FromUniqueID(families, id, 0).Some?
  {
    var member := FromUniqueID(families, id, 0);
    if member.None? then None else MemberFace(families, member.value, style)
  }

  /** The style of a font, looked up by its unique ID: the style of the first face findFromUniqueIDLocked finds. */
  method StyleOf(reg: FontRegistry, id: nat) returns (style: Style)
    requires reg.Valid() && HasFaceWithID(reg, id)
    ensures FromUniqueID(reg.families, id, 0).Some? && style == FromUniqueID(reg.families, id, 0).value.style
    ensures exists k :: 0 <= k < |reg.families| && HasFace(reg.families[k], Typeface(id, style))
  {
    var face := reg.FindFromUniqueIDLocked(id);
    style := face.value.style;
  }

  /** findTypefaceLocked(findFromUniqueIDLocked(id), style), for a font the registry holds. */
  method FaceOfFamily(reg: FontRegistry, id: nat, style: Style) returns (face: Typeface)
    requires reg.Valid() && HasFaceWithID(reg, id)
    ensures BestFaceOfFamily(reg.families, id, style) == Some(face)
    ensures SameFamily(reg, id, face.uniqueID)
  {
    var member := reg.FindFromUniqueIDLocked(id);
    var r := reg.FindTypefaceByMemberLocked(member.value, style);
    face := r.value;
    ghost var k :| 0 <= k < |reg.families| && HasFace(reg.families[k], member.value) && HasFace(reg.families[k], face);
    FaceHasID(reg.families[k], member.value);
    FaceHasID(reg.families[k], face);
  }
}
