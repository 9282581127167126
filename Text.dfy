// Character and string helpers with the meaning of the C and C++ library calls
// the modelled sources use (std::to_string, strstr, strncmp, find_last_of, ...).
module Text {

  predicate IsDigit(c: char) { '0' <= c <= '9' }
  predicate IsUpper(c: char) { 'A' <= c <= 'Z' }
  predicate IsLower(c: char) { 'a' <= c <= 'z' }
  predicate IsAlpha(c: char) { IsUpper(c) || IsLower(c) }
  predicate IsAlnum(c: char) { IsAlpha(c) || IsDigit(c) }
  /** The C locale's isspace. */
  predicate IsSpace(c: char) { c == ' ' || c == '\t' || c == '\n' || c == '\r' || c == 11 as char || c == 12 as char }

  function DigitChar(d: int): (c: char)
    requires 0 <= d < 10
    ensures IsDigit(c) && c as int - '0' as int == d
  { ('0' as int + d) as char }

  /** The decimal text of a natural number, most significant digit first. */
  function NatToString(n: nat): (s: string)
    ensures |s| >= 1 && (forall i :: 0 <= i < |s| ==> IsDigit(s[i]))
    decreases n
  {
    if n < 10 then [DigitChar(n)] else NatToString(n / 10) + [DigitChar(n % 10)]
  }

  /** The value of a string of decimal digits. */
  function DigitsValue(s: string): nat
    requires forall i :: 0 <= i < |s| ==> IsDigit(s[i])
  {
    if |s| == 0 then 0
    else
      assert IsDigit(s[|s| - 1]);
      DigitsValue(s[..|s| - 1]) * 10 + (s[|s| - 1] as int - '0' as int)
  }

  lemma {:induction false} NatToStringValue(n: nat)
    ensures DigitsValue(NatToString(n)) == n
    decreases n
  {
    var s := NatToString(n);
    if n >= 10 {
      NatToStringValue(n / 10);
      assert s[..|s| - 1] == NatToString(n / 10);
    }
  }

  /** Decimal printing is injective: distinct numbers have distinct texts. */
  lemma NatToStringInjective(a: nat, b: nat)
    requires NatToString(a) == NatToString(b)
    ensures a == b
  {
    NatToStringValue(a);
    NatToStringValue(b);
  }

  /** std::to_string of a (signed) int. */
  function IntToString(n: int): (s: string)
    ensures |s| >= 1
    ensures n >= 0 ==> s == NatToString(n)
    ensures n < 0 ==> s == "-" + NatToString(-n)
  {
    if n >= 0 then NatToString(n) else "-" + NatToString(-n)
  }

  predicate NoDot(s: string) {
    forall i :: 0 <= i < |s| ==> s[i] != '.'
  }

  /** A printed int is a sign and digits, so it holds no '.'. */
  lemma IntToStringNoDot(n: int)
    ensures NoDot(IntToString(n))
  {
    var s := IntToString(n);
    if n < 0 {
      assert forall i :: 1 <= i < |s| ==> s[i] == NatToString(-n)[i - 1];
    }
  }

  /**
   * A text made of a dot-free head, "..", and a tail splits back into those two
   * parts, and a dot-free text is not of that shape.
   */
  lemma SplitAtDots(a: string, b: string, c: string, d: string)
    requires NoDot(a) && NoDot(c) && a + ".." + b == c + ".." + d
    ensures a == c && b == d
  {
    FirstDotAt(a, b);
    FirstDotAt(c, d);
    var t := a + ".." + b;
    assert |a| == |c|;
    assert a == t[..|a|] == c;
    assert b == t[|a| + 2..] == d;
  }

  /** In a dot-free head followed by "..", the first dot is right after the head. */
  lemma FirstDotAt(a: string, b: string)
    requires NoDot(a)
    ensures var t := a + ".." + b; t[|a|] == '.' && forall i :: 0 <= i < |a| ==> t[i] != '.'
  {
  }

  lemma DottedHasDot(c: string, d: string)
    ensures !NoDot(c + ".." + d)
  {
    assert (c + ".." + d)[|c|] == '.';
  }

  /** Signed printing is injective too: the leading character tells the sign apart. */
  lemma IntToStringInjective(a: int, b: int)
    requires IntToString(a) == IntToString(b)
    ensures a == b
  {
    var t := IntToString(a);
    assert IsDigit(t[0]) <==> a >= 0;
    assert IsDigit(t[0]) <==> b >= 0;
    if a >= 0 {
      NatToStringInjective(a, b);
    } else {
      assert t[1..] == NatToString(-a) && t[1..] == NatToString(-b);
      NatToStringInjective(-a, -b);
    }
  }

  /** Whether `s` begins with `prefix`: strncmp against the prefix's length. */
  predicate StartsWith(s: string, prefix: string) {
    |prefix| <= |s| && s[..|prefix|] == prefix
  }

  /** A string that starts with a prefix agrees with it at each of the prefix's positions. */
  lemma StartsWithAt(s: string, prefix: string, i: nat)
    ensures StartsWith(s, prefix) && i < |prefix| ==> i < |s| && s[i] == prefix[i]
  {
    if StartsWith(s, prefix) && i < |prefix| {
      assert s[..|prefix|][i] == s[i];
    }
  }

  /** Whether `sub` occurs in `s` at position `i`. */
  predicate OccursAt(s: string, sub: string, i: int) {
    0 <= i <= |s| && StartsWith(s[i..], sub)
  }

  /** strstr: the first position of `sub` in `s`, or -1 when it does not occur (see FindFirst). */
  function Find(s: string, sub: string): (r: int)
    ensures -1 <= r && (r >= 0 ==> r + |sub| <= |s|)
    decreases |s|
  {
    if |sub| > |s| then -1
    else if StartsWith(s, sub) then 0
    else
      var r := Find(s[1..], sub);
      if r == -1 then -1 else r + 1
  }

  /** Find gives the first occurrence, and -1 exactly when there is none. */
  lemma {:induction false} FindFirst(s: string, sub: string)
    ensures Find(s, sub) >= 0 ==> OccursAt(s, sub, Find(s, sub))
    ensures forall j :: 0 <= j < Find(s, sub) ==> !OccursAt(s, sub, j)
    ensures Find(s, sub) == -1 ==> forall j :: 0 <= j <= |s| ==> !OccursAt(s, sub, j)
    decreases |s|
  {
    if |sub| > |s| {
    } else if StartsWith(s, sub) {
      assert s[0..] == s;
    } else {
      FindFirst(s[1..], sub);
      forall j | 1 <= j <= |s| ensures OccursAt(s, sub, j) <==> OccursAt(s[1..], sub, j - 1) {
        assert s[1..][j - 1..] == s[j..];
      }
      assert s[0..] == s;
    }
  }

  function Contains(s: string, sub: string): bool { Find(s, sub) >= 0 }

  /** find_last_of: the last index holding a character of `chars`, or -1 (npos). */
  function FindLastOf(s: string, chars: set<char>): (r: int)
    ensures -1 <= r < |s|
    ensures r >= 0 ==> s[r] in chars
    ensures forall j :: r < j < |s| ==> s[j] !in chars
  {
    if |s| == 0 then -1
    else if s[|s| - 1] in chars then |s| - 1
    else FindLastOf(s[..|s| - 1], chars)
  }

  /** tolower in the C locale. */
  function ToLowerChar(c: char): (r: char)
    ensures !IsUpper(r)
    ensures !IsUpper(c) ==> r == c
  {
    if IsUpper(c) then (c as int + 32) as char else c
  }

  function ToLower(s: string): (r: string)
    ensures |r| == |s|
    ensures forall i :: 0 <= i < |s| ==> r[i] == ToLowerChar(s[i])
  {
    if |s| == 0 then [] else [ToLowerChar(s[0])] + ToLower(s[1..])
  }

  /** strcmp's sign: lexicographic order on character codes; a proper prefix sorts first. */
  function Compare(a: string, b: string): (r: int)
    ensures -1 <= r <= 1
    ensures r == 0 <==> a == b
  {
    if |a| == 0 && |b| == 0 then 0
    else if |a| == 0 then -1
    else if |b| == 0 then 1
    else if a[0] < b[0] then -1
    else if a[0] > b[0] then 1
    else
      var r := Compare(a[1..], b[1..]);
      assert a == [a[0]] + a[1..] && b == [b[0]] + b[1..];
      r
  }

  lemma {:induction false} CompareAntisymmetric(a: string, b: string)
    ensures Compare(b, a) == -Compare(a, b)
  {
    if |a| > 0 && |b| > 0 && a[0] == b[0] { CompareAntisymmetric(a[1..], b[1..]); }
  }

  /** strcmp order is transitive, so a list sorted pair by pair is sorted throughout. */
  lemma {:induction false} CompareTransitive(a: string, b: string, c: string)
    requires Compare(a, b) < 0 && Compare(b, c) < 0
    ensures Compare(a, c) < 0
    decreases |a|
  {
    if |a| > 0 && |b| > 0 && |c| > 0 && a[0] == b[0] && b[0] == c[0] {
      CompareTransitive(a[1..], b[1..], c[1..]);
    }
  }

  /** The strings joined with `sep` between neighbours. */
  function Join(parts: seq<string>, sep: string): string {
    if |parts| == 0 then ""
    else if |parts| == 1 then parts[0]
    else parts[0] + sep + Join(parts[1..], sep)
  }

  /** Joining one more part appends the separator and the part (or just the part to nothing). */
  lemma {:induction false} JoinSnoc(parts: seq<string>, x: string, sep: string)
    ensures Join(parts + [x], sep) == if |parts| == 0 then x else Join(parts, sep) + sep + x
    decreases |parts|
  {
    if |parts| == 0 {
      assert parts + [x] == [x];
    } else if |parts| == 1 {
      assert parts + [x] == [parts[0], x];
      assert [parts[0], x][1..] == [x];
    } else {
      assert (parts + [x])[1..] == parts[1..] + [x];
      JoinSnoc(parts[1..], x, sep);
    }
  }
}
