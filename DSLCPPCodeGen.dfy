// Pieces of the DSL C++ code generator (src/sksl/codegen/SkSLDSLCPPCodeGenerator.cpp):
// the C++ names given to SkSL variables, the modifier text of a declaration,
// and the number of key bits an enum needs.
module DSLCPPCodeGen {
  import opened Wrappers
  import opened Text
  import opened Ints

  // ---------------------------------------------------------------------
  // bits_needed and the enum key width


  /** Exponents add under multiplication. */
  lemma {:induction false} Pow2Add(a: nat, b: nat)
    ensures Pow2(a + b) == Pow2(a) * Pow2(b)
    decreases a
  {
    if a > 0 {
      Pow2Add(a - 1, b);
      assert Pow2(a + b) == 2 * Pow2(a - 1 + b);
    }
  }

  /** The two powers the 32-bit loop meets at its end. */
  lemma Pow2Top()
    ensures Pow2(31) == 0x8000_0000 && Pow2(32) == 0x1_0000_0000
  {
    assert Pow2(2) == 4;
    Pow2Add(2, 2);
    assert Pow2(4) == 16;
    Pow2Add(4, 4);
    assert Pow2(8) == 256;
    Pow2Add(8, 8);
    assert Pow2(16) == 0x1_0000;
    Pow2Add(16, 16);
    assert Pow2(32) == 2 * Pow2(31);
  }

  /** The number of binary digits of `v`, counting 0 as one digit. */
  function Width(v: nat): (w: nat)
    ensures w >= 1
  {
    if v < 2 then 1 else 1 + Width(v / 2)
  }

  /** `Width(v)` is the least `b >= 1` with `v < 2^b`. */
  lemma {:induction false} WidthBounds(v: nat)
    ensures v < Pow2(Width(v))
    ensures Width(v) > 1 ==> Pow2(Width(v) - 1) <= v
    decreases v
  {
    if v >= 2 {
      WidthBounds(v / 2);
    }
  }

  /** The only `b >= 1` with `2^(b-1) <= v < 2^b` (or `b == 1` and `v < 2`) is `Width(v)`. */
  lemma {:induction false} WidthIs(v: nat, b: nat)
    requires b >= 1 && v < Pow2(b)
    requires b == 1 || Pow2(b - 1) <= v
    ensures Width(v) == b
    decreases v
  {
    if b == 1 {
      assert v < 2;
    } else {
      assert v >= 2 by {
        if b == 2 {
        } else {
          PowMonotone(1, b - 1);
        }
      }
      WidthIs(v / 2, b - 1);
    }
  }

  /** Powers of two grow with the exponent. */
  lemma {:induction false} PowMonotone(a: nat, b: nat)
    requires a <= b
    ensures Pow2(a) <= Pow2(b)
    decreases b
  {
    if a < b {
      PowMonotone(a, b - 1);
    }
  }

  /** A 32-bit value has at most 32 binary digits. */
  lemma WidthOfU32(v: nat)
    requires v < 0x1_0000_0000
    ensures Width(v) <= 32
  {
    WidthBounds(v);
    if Width(v) > 32 {
      PowMonotone(32, Width(v) - 1);
      Pow2Top();
      assert false;
    }
  }

  /**
   * `1u << bits` as the hardware computes it: the shift count is taken
   * modulo 32, so a count of 32 or more shifts by what is left.
   */
  function MaskedShift(bits: nat): nat {
    Pow2(bits % 32)
  }

  /**
   * `bits_needed` as written: for a value of 2^31 or more the loop condition
   * `v >= (1u << bits)` holds for every count the loop can reach, so the
   * loop never stops (in C the shift by 32 is undefined behaviour; the
   * hardware's masked shift is shown).
   */
  lemma BitsNeededAsWrittenNeverStops(v: nat)
    requires 0x8000_0000 <= v < 0x1_0000_0000
    ensures forall bits: nat :: bits >= 1 ==> v >= MaskedShift(bits)
  {
    forall bits: nat | bits >= 1
      ensures v >= MaskedShift(bits)
    {
      PowMonotone(bits % 32, 31);
      Pow2Top();
    }
  }

  /** The as-written loop on the smallest such value, 2^31: even count 32 shifts by 0 and keeps going. */
  lemma BitsNeededAsWrittenOn2To31()
    ensures 0x8000_0000 >= MaskedShift(31) && 0x8000_0000 >= MaskedShift(32)
  {
    Pow2Top();
  }

  /**
   * `bits_needed` with the loop stopped at 32 bits (the width of its
   * `uint32_t` argument, which every such value fits in): the number of bits
   * needed to hold `v`.
   */
  method BitsNeeded(v: nat) returns (bits: nat)
    requires v < 0x1_0000_0000
    ensures bits == Width(v)
    ensures 1 <= bits <= 32 && v < Pow2(bits) && (bits == 1 || Pow2(bits - 1) <= v)
  {
    bits := 1;
    while bits < 32 && v >= Pow2(bits)
      invariant 1 <= bits <= 32
      invariant bits == 1 || Pow2(bits - 1) <= v
      decreases 32 - bits
    {
      bits := bits + 1;
    }
    if bits == 32 {
      Pow2Top();
    }
    WidthIs(v, bits);
  }

  /** The smallest and largest of 0 and the values. */
  function MinWithZero(values: seq<int>): (m: int)
    ensures m <= 0 && forall i :: 0 <= i < |values| ==> m <= values[i]
    ensures m == 0 || exists i :: 0 <= i < |values| && values[i] == m
  {
    if |values| == 0 then 0
    else
      var m := MinWithZero(values[..|values| - 1]);
      var x := values[|values| - 1];
      assert forall i :: 0 <= i < |values| - 1 ==> values[i] == values[..|values| - 1][i];
      if x < m then x else m
  }

  function MaxWithZero(values: seq<int>): (m: int)
    ensures m >= 0 && forall i :: 0 <= i < |values| ==> values[i] <= m
    ensures m == 0 || exists i :: 0 <= i < |values| && values[i] == m
  {
    if |values| == 0 then 0
    else
      var m := MaxWithZero(values[..|values| - 1]);
      var x := values[|values| - 1];
      assert forall i :: 0 <= i < |values| - 1 ==> values[i] == values[..|values| - 1][i];
      if x > m then x else m
  }

  /** A program element: an enum declaration with its type name and its values, or anything else. */
  datatype Element = EnumDecl(typeName: string, values: seq<int>) | OtherElement

  /** The values gathered from a non-negative enum fit the `uint32_t` the key width is computed on. */
  predicate FitsWhenNonNegative(values: seq<int>) {
    (forall i :: 0 <= i < |values| ==> values[i] >= 0) ==>
      forall i :: 0 <= i < |values| ==> values[i] < 0x1_0000_0000
  }

  /** The key width of one enum: 32 bits if any value is negative, else the bits of its largest value. */
  function EnumWidth(values: seq<int>): (w: int)
    requires FitsWhenNonNegative(values)
  {
    if MinWithZero(values) < 0 then 32 else Width(MaxWithZero(values))
  }

  /** An enum's key width is 32 exactly when it has a negative value or one of 2^31 or more, and at most 32. */
  lemma EnumWidthBounds(values: seq<int>)
    requires FitsWhenNonNegative(values)
    ensures 1 <= EnumWidth(values) <= 32
    ensures (exists i :: 0 <= i < |values| && values[i] < 0) ==> EnumWidth(values) == 32
    ensures (forall i :: 0 <= i < |values| ==> values[i] >= 0) ==>
      (forall i :: 0 <= i < |values| ==> values[i] < Pow2(EnumWidth(values)))
  {
    if MinWithZero(values) >= 0 {
      var m := MaxWithZero(values);
      if m != 0 {
        var i :| 0 <= i < |values| && values[i] == m;
      }
      WidthOfU32(m);
      WidthBounds(m);
    }
  }

  /** The range-gathering callback over an enum's values: the least and greatest of 0 and the values. */
  method GatherEnumRange(values: seq<int>) returns (minVal: int, maxVal: int)
    ensures minVal == MinWithZero(values) && maxVal == MaxWithZero(values)
  {
    minVal, maxVal := 0, 0;
    var i := 0;
    while i < |values|
      invariant 0 <= i <= |values|
      invariant minVal == MinWithZero(values[..i]) && maxVal == MaxWithZero(values[..i])
    {
      RangeStep(values, i);
      minVal := if values[i] < minVal then values[i] else minVal;
      maxVal := if values[i] > maxVal then values[i] else maxVal;
      i := i + 1;
    }
    assert values[..i] == values;
  }

  /** One more value moves the range only if it lies outside it. */
  lemma RangeStep(values: seq<int>, i: int)
    requires 0 <= i < |values|
    ensures MinWithZero(values[..i + 1]) == if values[i] < MinWithZero(values[..i]) then values[i] else MinWithZero(values[..i])
    ensures MaxWithZero(values[..i + 1]) == if values[i] > MaxWithZero(values[..i]) then values[i] else MaxWithZero(values[..i])
  {
    assert values[..i + 1][..i] == values[..i];
  }

  /** The first enum declaration named `typeName`, if any. */
  function FindEnum(elements: seq<Element>, typeName: string): (r: Option<nat>)
    ensures r.Some? ==> r.value < |elements| && elements[r.value].EnumDecl? && elements[r.value].typeName == typeName
    ensures r.Some? ==> forall j :: 0 <= j < r.value ==> !(elements[j].EnumDecl? && elements[j].typeName == typeName)
    ensures r.None? ==> forall j :: 0 <= j < |elements| ==> !(elements[j].EnumDecl? && elements[j].typeName == typeName)
    decreases |elements|
  {
    if |elements| == 0 then None
    else if elements[0].EnumDecl? && elements[0].typeName == typeName then Some(0)
    else match FindEnum(elements[1..], typeName)
      case None => None
      case Some(k) => Some(k + 1)
  }

  /**
   * `bitsForEnum`: the width of the first enum declaring `typeName`; with no
   * such declaration the generator aborts, shown as None.
   */
  method BitsForEnum(elements: seq<Element>, typeName: string) returns (r: Option<int>)
    requires forall k :: 0 <= k < |elements| && elements[k].EnumDecl? ==> FitsWhenNonNegative(elements[k].values)
    ensures r.None? <==> FindEnum(elements, typeName).None?
    ensures r.Some? ==> r.value == EnumWidth(elements[FindEnum(elements, typeName).value].values)
  {
    var k := 0;
    while k < |elements|
      invariant 0 <= k <= |elements|
      invariant forall j :: 0 <= j < k ==> !(elements[j].EnumDecl? && elements[j].typeName == typeName)
    {
      var e := elements[k];
      if !e.EnumDecl? || e.typeName != typeName {
        k := k + 1;
        continue;
      }
      var minVal, maxVal := GatherEnumRange(e.values);
      if minVal < 0 {
        return Some(32);
      }
      if maxVal != 0 {
        ghost var i :| 0 <= i < |e.values| && e.values[i] == maxVal;
      }
      var bits := BitsNeeded(maxVal);
      return Some(bits);
    }
    return None;
  }

  // ---------------------------------------------------------------------
  // getDSLModifiers

  /** The modifier flags a declaration can carry. */
  datatype Modifiers = Modifiers(uniform: bool, isIn: bool, isConst: bool, out: bool, flat: bool, noPerspective: bool)

  const UniformName := "kUniform_Modifier"
  const InName := "kIn_Modifier"
  const ConstName := "kConst_Modifier"
  const OutName := "kOut_Modifier"
  const FlatName := "kFlat_Modifier"
  const NoPerspectiveName := "kNoPerspective_Modifier"

  /** The names so far, followed by a flag's name when it is set. */
  function AddIf(names: seq<string>, flag: bool, name: string): seq<string> {
    if flag then names + [name] else names
  }

  /** The first three names: `uniform` (which hides `in`), `in`, `const`. */
  function LeadingNames(m: Modifiers): seq<string> {
    AddIf(AddIf(AddIf([], m.uniform, UniformName), m.isIn && !m.uniform, InName), m.isConst, ConstName)
  }

  /** The DSL modifier names written for the flags, in order. */
  function ModifierNames(m: Modifiers): seq<string> {
    AddIf(AddIf(AddIf(LeadingNames(m), m.out, OutName), m.flat, FlatName), m.noPerspective, NoPerspectiveName)
  }

  /** The text of a declaration's modifiers: the names joined by " | ", or "kNo_Modifier" for none. */
  function ModifierText(m: Modifiers): string {
    var names := ModifierNames(m);
    if |names| == 0 then "kNo_Modifier" else Join(names, " | ")
  }

  /** The flags a list of names spells out. */
  function FlagsOf(names: seq<string>): Modifiers {
    Modifiers(UniformName in names, InName in names, ConstName in names,
              OutName in names, FlatName in names, NoPerspectiveName in names)
  }

  /** The names give back every flag, except `in` on a uniform, which the DSL form drops. */
  lemma ModifierNamesRecoverFlags(m: Modifiers)
    ensures FlagsOf(ModifierNames(m)) == m.(isIn := m.isIn && !m.uniform)
  {
    var names := ModifierNames(m);
    // The six names have six different lengths.
    assert |UniformName| == 17 && |InName| == 12 && |ConstName| == 15;
    assert |OutName| == 13 && |FlatName| == 14 && |NoPerspectiveName| == 23;
    forall x | x in names
      ensures (x == UniformName && m.uniform) || (x == InName && m.isIn && !m.uniform) ||
        (x == ConstName && m.isConst) || (x == OutName && m.out) ||
        (x == FlatName && m.flat) || (x == NoPerspectiveName && m.noPerspective)
    {
    }
    assert m.uniform ==> UniformName in names;
    assert m.isIn && !m.uniform ==> InName in names;
    assert m.isConst ==> ConstName in names;
    assert m.out ==> OutName in names;
    assert m.flat ==> FlatName in names;
    assert m.noPerspective ==> NoPerspectiveName in names;
  }

  /** Every separated part, each followed by the separator. */
  function Terminated(parts: seq<string>, sep: string): string {
    if |parts| == 0 then "" else Terminated(parts[..|parts| - 1], sep) + parts[|parts| - 1] + sep
  }

  /** Writing each part with its separator and dropping the last separator is joining. */
  lemma {:induction false} TerminatedIsJoin(parts: seq<string>, sep: string)
    requires |parts| > 0
    ensures Terminated(parts, sep) == Join(parts, sep) + sep
    decreases |parts|
  {
    var init := parts[..|parts| - 1];
    var x := parts[|parts| - 1];
    assert parts == init + [x];
    JoinSnoc(init, x, sep);
    if |init| > 0 {
      TerminatedIsJoin(init, sep);
    }
  }

  /** One `if (flags & ...) text += "name | ";` step. */
  method AppendIf(text: string, ghost parts: seq<string>, flag: bool, name: string)
    returns (text': string, ghost parts': seq<string>)
    requires text == Terminated(parts, " | ")
    ensures parts' == AddIf(parts, flag, name) && text' == Terminated(parts', " | ")
  {
    text', parts' := text, parts;
    if flag {
      text' := text + name + " | ";
      parts' := parts + [name];
      assert parts'[..|parts|] == parts;
    }
  }

  /** `getDSLModifiers`: each set flag appends its name and " | "; the final separator is removed. */
  method GetDSLModifiers(m: Modifiers) returns (text: string)
    ensures text == ModifierText(m)
  {
    ghost var parts;
    text, parts := AppendNames(m);
    DropSeparator(parts, text);
    if |text| == 0 {
      text := "kNo_Modifier";
    } else {
      text := text[..|text| - 3];
    }
    TextOfNames(m, parts, text);
  }

  /** The six flag tests, each appending its name and " | " when its flag is set. */
  method AppendNames(m: Modifiers) returns (text: string, ghost parts: seq<string>)
    ensures parts == ModifierNames(m) && text == Terminated(parts, " | ")
  {
    text, parts := AppendLeading(m);
    text, parts := AppendIf(text, parts, m.out, OutName);
    text, parts := AppendIf(text, parts, m.flat, FlatName);
    text, parts := AppendIf(text, parts, m.noPerspective, NoPerspectiveName);
  }

  /** The tests of `uniform`, `in` and `const`. */
  method AppendLeading(m: Modifiers) returns (text: string, ghost parts: seq<string>)
    ensures parts == LeadingNames(m) && text == Terminated(parts, " | ")
  {
    text := "";
    parts := [];
    text, parts := AppendIf(text, parts, m.uniform, UniformName);
    text, parts := AppendIf(text, parts, m.isIn && !m.uniform, InName);
    text, parts := AppendIf(text, parts, m.isConst, ConstName);
  }

  /** The text made from the flags' names is the modifier text. */
  lemma TextOfNames(m: Modifiers, names: seq<string>, text: string)
    requires names == ModifierNames(m)
    requires |names| == 0 ==> text == "kNo_Modifier"
    requires |names| > 0 ==> text == Join(names, " | ")
    ensures text == ModifierText(m)
  {
  }

  /** A terminated list is empty only for no parts; otherwise dropping its last " | " leaves the join. */
  lemma DropSeparator(parts: seq<string>, text: string)
    requires text == Terminated(parts, " | ")
    ensures |text| == 0 <==> |parts| == 0
    ensures |parts| > 0 ==> |text| >= 3 && text[..|text| - 3] == Join(parts, " | ")
  {
    if |parts| > 0 {
      TerminatedIsJoin(parts, " | ");
    }
  }

  /** A joined list starts with its first part. */
  lemma {:induction false} JoinStartsWithFirst(parts: seq<string>, sep: string)
    requires |parts| > 0
    ensures |Join(parts, sep)| >= |parts[0]| && Join(parts, sep)[..|parts[0]|] == parts[0]
  {
    if |parts| > 1 {
      assert Join(parts, sep) == parts[0] + (sep + Join(parts[1..], sep));
    }
  }

  /** The text says "kNo_Modifier" exactly when no flag is written. */
  lemma NoModifierText(m: Modifiers)
    ensures ModifierText(m) == "kNo_Modifier" <==>
      !m.uniform && !m.isIn && !m.isConst && !m.out && !m.flat && !m.noPerspective
  {
    var names := ModifierNames(m);
    if |names| > 0 {
      JoinStartsWithFirst(names, " | ");
      var t := Join(names, " | ");
      var first := if m.uniform then UniformName else if m.isIn then InName
        else if m.isConst then ConstName else if m.out then OutName
        else if m.flat then FlatName else NoPerspectiveName;
      assert names[0] == first;
      // The second character tells every name but "kNoPerspective_Modifier" apart from "kNo_Modifier"; the fourth tells that one.
      var j := if first == NoPerspectiveName then 3 else 1;
      assert UniformName[1] == 'U' && InName[1] == 'I' && ConstName[1] == 'C';
      assert OutName[1] == 'O' && FlatName[1] == 'F' && NoPerspectiveName[3] == 'P';
      assert t[j] == t[..|first|][j] == first[j];
      assert "kNo_Modifier"[1] == 'N' && "kNo_Modifier"[3] == '_';
    }
  }

  // ---------------------------------------------------------------------
  // getVariableCppName

  /** A variable, identified by its address. */
  type VarId = int

  /** The name given on a clash: the prefix number and the variable's name, as `"_%d_%s"` prints them. */
  function Prefixed(prefix: nat, name: string): (s: string)
    ensures |s| > 0
  {
    "_" + NatToString(prefix) + "_" + name
  }

  /** Different prefix numbers give different names. */
  lemma PrefixedInjective(p: nat, q: nat, name: string)
    requires Prefixed(p, name) == Prefixed(q, name)
    ensures p == q
  {
    var a, b := NatToString(p), NatToString(q);
    var t := Prefixed(p, name)[1..];
    assert t == a + ("_" + name);
    assert t == b + ("_" + name);
    if |a| != |b| {
      assert false;
    }
    assert a == t[..|a|] == b;
    NatToStringInjective(p, q);
  }

  /** Some variable's entry holds `s`. */
  predicate InUse(names: map<VarId, string>, s: string) {
    exists v :: v in names && names[v] == s
  }

  /** No two variables share a C++ name, and none is left empty. */
  predicate DistinctNames(names: map<VarId, string>) {
    (forall v :: v in names ==> names[v] != "") &&
    (forall v, w :: v in names && w in names && v != w ==> names[v] != names[w])
  }

  /** The generator's table of C++ names; `vars` lists its keys in the order the hash map is walked. */
  class CppNames {
    var vars: seq<VarId>
    var names: map<VarId, string>

    predicate Valid()
      reads this
    {
      (forall v :: v in names ==> v in vars) && (forall j :: 0 <= j < |vars| ==> vars[j] in names)
    }

    constructor()
      ensures Valid() && names == map[] && vars == []
    {
      vars := [];
      names := map[];
    }

    /** `variable_exists_with_name`: whether some variable's entry already holds `trial`. */
    method ExistsWithName(trial: string) returns (found: bool)
      requires Valid()
      ensures found <==> InUse(names, trial)
    {
      var i := 0;
      while i < |vars|
        invariant 0 <= i <= |vars|
        invariant forall j :: 0 <= j < i ==> names[vars[j]] != trial
      {
        if names[vars[i]] == trial {
          ghost var w := vars[i];
          assert w in names && names[w] == trial;
          assert InUse(names, trial);
          return true;
        }
        i := i + 1;
      }
      return false;
    }

    /** The numbered-prefix search: `"_N_name"` for the least N no entry holds. */
    method Disambiguate(name: string) returns (cppName: string)
      requires Valid()
      ensures exists n: nat :: (cppName == Prefixed(n, name) && !InUse(names, cppName) &&
        forall p: nat :: p < n ==> InUse(names, Prefixed(p, name)))
    {
      var prefix: nat := 0;
      ghost var pending := names.Keys;
      while true
        invariant pending <= names.Keys
        invariant forall p: nat :: p < prefix ==> InUse(names, Prefixed(p, name))
        invariant forall p: nat, k :: p >= prefix && k in names && names[k] == Prefixed(p, name) ==> k in pending
        decreases |pending|
      {
        var trial := Prefixed(prefix, name);
        var clash := ExistsWithName(trial);
        if !clash {
          return trial;
        }
        ghost var k :| k in names && names[k] == trial;
        forall p: nat, k' | p > prefix && k' in names && names[k'] == Prefixed(p, name)
          ensures k' in pending - {k}
        {
          if k' == k {
            PrefixedInjective(p, prefix, name);
          }
        }
        pending := pending - {k};
        prefix := prefix + 1;
      }
    }

    /**
     * `getVariableCppName`: a variable keeps the name it was first given.
     * A new variable (entered with an empty name first) takes its own name
     * when no entry holds it, and otherwise `"_N_name"` for the least N no
     * entry holds.
     */
    method GetVariableCppName(v: VarId, name: string) returns (cppName: string)
      requires Valid()
      modifies this
      ensures Valid()
      ensures v in old(names) && old(names)[v] != "" ==> cppName == old(names)[v] && names == old(names)
      ensures !(v in old(names) && old(names)[v] != "") ==>
        (var table := old(names)[v := ""];
         names == old(names)[v := cppName] &&
         (!InUse(table, name) ==> cppName == name) &&
         (InUse(table, name) ==>
           exists n: nat :: cppName == Prefixed(n, name) && !InUse(table, cppName) &&
             forall p: nat :: p < n ==> InUse(table, Prefixed(p, name))))
      ensures cppName != "" && v in names && names[v] == cppName
      ensures DistinctNames(old(names)) ==> DistinctNames(names)
    {
      if v in names && names[v] != "" {
        return names[v];
      }
      if v !in names {
        vars := vars + [v];
      }
      names := names[v := ""];
      assert v in names && names[v] == "";
      var taken := ExistsWithName(name);
      if !taken {
        cppName := name;
      } else {
        cppName := Disambiguate(name);
      }
      names := names[v := cppName];
    }
  }
}
