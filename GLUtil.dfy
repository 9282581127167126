// Classification of the GL driver strings (version, shading-language version,
// vendor, renderer), the stencil-test table and the compressed-format test of
// src/gpu/gl/GrGLUtil.cpp. The strings are read with sscanf; Scan below gives
// sscanf's meaning for the directives the file's formats use.
module GLUtil {
  import opened Wrappers
  import opened Text

  // ---------------------------------------------------------------------------
  // sscanf

  /**
   * One directive of a scanf format: a run of ordinary characters, a white-space
   * character (which matches any amount of white space, none included), `%d`
   * (also standing for `%i`, whose value the file never uses) and `%c`.
   */
  datatype Directive = Lit(w: string) | Space | Int | Char
  {
    /** `%d` and `%c` assign a value; text and white space do not. */
    predicate IsConversion() { Int? || Char? }
  }

  /** A format: its directives, first to last. */
  datatype Format = End | Cons(head: Directive, tail: Format)

  /** The number of conversions in a format. */
  function Conversions(fmt: Format): nat {
    match fmt
    case End => 0
    case Cons(d, tail) => (if d.IsConversion() then 1 else 0) + Conversions(tail)
  }

  /** The directives of `f1` followed by those of `f2`. */
  function Append(f1: Format, f2: Format): (f: Format)
    ensures Conversions(f) == Conversions(f1) + Conversions(f2)
  {
    match f1
    case End => f2
    case Cons(d, tail) => Cons(d, Append(tail, f2))
  }

  datatype Failure = NoFailure | MatchFailure | InputFailure

  /** What a scan assigned, how it stopped and what input it left unread. */
  datatype Scanned = Scanned(values: seq<int>, failure: Failure, rest: string)

  function SkipSpace(s: string): (t: string)
    ensures |t| <= |s| && t == s[|s| - |t|..]
    ensures |t| == 0 || !IsSpace(t[0])
  {
    if |s| > 0 && IsSpace(s[0]) then SkipSpace(s[1..]) else s
  }

  /** The number of leading decimal digits of `s`. */
  function DigitRun(s: string): (n: nat)
    ensures n <= |s| && (forall i :: 0 <= i < n ==> IsDigit(s[i])) && (n == |s| || !IsDigit(s[n]))
  {
    if |s| > 0 && IsDigit(s[0]) then 1 + DigitRun(s[1..]) else 0
  }

  /** A decimal integer with an optional sign, as `%d` reads it after white space. */
  function ReadInt(s: string): (r: Option<(int, string)>)
    ensures r.Some? ==> |r.value.1| < |s| && (r.value.1 == "" || !IsDigit(r.value.1[0]))
  {
    var signed := |s| > 0 && (s[0] == '+' || s[0] == '-');
    var digits := if signed then s[1..] else s;
    var k := DigitRun(digits);
    if k == 0 then None
    else
      var v: int := DigitsValue(digits[..k]);
      Some((if signed && s[0] == '-' then -v else v, digits[k..]))
  }

  /** One directive applied to the input: it reads on, maybe assigning a value, or stops the scan. */
  datatype Step = Go(value: Option<int>, next: string) | Stop(failure: Failure, at: string)

  /** A run of ordinary characters: matched in full, or a matching failure, or the input ends inside it. */
  function LitStep(s: string, w: string): Step {
    if StartsWith(s, w) then Go(None, s[|w|..])
    else if |s| < |w| && StartsWith(w, s) then Stop(InputFailure, s)
    else Stop(MatchFailure, s)
  }

  /** `%d`: white space, then a number; no input left is an input failure. */
  function IntStep(s: string): (r: Step)
    ensures r.Go? ==> r.value.Some?
  {
    var t := SkipSpace(s);
    if |t| == 0 then Stop(InputFailure, t)
    else match ReadInt(t)
      case None => Stop(MatchFailure, t)
      case Some(p) => Go(Some(p.0), p.1)
  }

  /** `%c`: any one character, white space included. */
  function CharStep(s: string): (r: Step)
    ensures r.Go? ==> r.value.Some?
  {
    if |s| == 0 then Stop(InputFailure, s) else Go(Some(s[0] as int), s[1..])
  }

  function StepOf(s: string, d: Directive): (r: Step)
    ensures r.Go? ==> (r.value.Some? <==> d.IsConversion())
  {
    match d
    case Space => Go(None, SkipSpace(s))
    case Lit(w) => LitStep(s, w)
    case Char => CharStep(s)
    case Int => IntStep(s)
  }

  function AddValue(v: Option<int>, r: Scanned): (q: Scanned)
    ensures q.failure == r.failure && q.rest == r.rest
    ensures |q.values| == |r.values| + (if v.Some? then 1 else 0)
  {
    match v
    case None => r
    case Some(x) => r.(values := [x] + r.values)
  }

  /**
   * sscanf: directives are matched left to right; `%d` and `%c` each assign one
   * value. A character that does not match stops the scan with a matching
   * failure, and running out of input with an input failure. A scan that goes
   * through the whole format assigns every conversion.
   */
  function Scan(s: string, fmt: Format): (r: Scanned)
    ensures |r.values| <= Conversions(fmt)
    ensures r.failure == NoFailure ==> |r.values| == Conversions(fmt)
    decreases fmt
  {
    match fmt
    case End => Scanned([], NoFailure, s)
    case Cons(d, tail) =>
      match StepOf(s, d)
      case Stop(f, at) => Scanned([], f, at)
      case Go(v, next) =>
        assert v.Some? <==> d.IsConversion();
        AddValue(v, Scan(next, tail))
  }

  /**
   * sscanf's return value: the number of values assigned, or EOF (-1) when the
   * input ran out before the first conversion.
   */
  function Count(r: Scanned): (n: int)
    ensures n == -1 <==> r.failure == InputFailure && |r.values| == 0
    ensures n != -1 ==> n == |r.values|
  {
    if r.failure == InputFailure && |r.values| == 0 then -1 else |r.values|
  }

  function Sscanf(s: string, fmt: Format): int {
    Count(Scan(s, fmt))
  }

  /** Scanning with `f2` after a scan with `f1` that went through. */
  function Continue(r: Scanned, f2: Format): Scanned {
    if r.failure == NoFailure then
      var r2 := Scan(r.rest, f2);
      r2.(values := r.values + r2.values)
    else r
  }

  lemma ContinueAddValue(v: Option<int>, r: Scanned, f2: Format)
    ensures Continue(AddValue(v, r), f2) == AddValue(v, Continue(r, f2))
  {
    if v.Some? && r.failure == NoFailure {
      var r2 := Scan(r.rest, f2);
      assert [v.value] + r.values + r2.values == [v.value] + (r.values + r2.values);
    }
  }

  /** A format can be scanned piecewise: the second part starts where the first stopped. */
  lemma {:induction false} ScanAppend(s: string, f1: Format, f2: Format)
    ensures Scan(s, Append(f1, f2)) == Continue(Scan(s, f1), f2)
    decreases f1
  {
    match f1
    case End =>
      var r2 := Scan(s, f2);
      assert [] + r2.values == r2.values;
    case Cons(d, tail) =>
      match StepOf(s, d)
      case Stop(f, at) =>
      case Go(v, next) =>
        ScanAppend(next, tail, f2);
        ContinueAddValue(v, Scan(next, tail), f2);
  }

  /** Two values assigned one after the other: kept apart from the scans, where it is expensive to prove. */
  lemma ValuesPair(a: int, b: int)
    ensures [a] + ([b] + []) == [a, b]
  {
  }

  lemma ValuesFour(a: int, b: int, c: int, d: int)
    ensures [a] + ([b] + [c, d]) == [a, b, c, d]
  {
  }

  /** A format without conversions assigns nothing. */
  lemma NoValues(s: string, fmt: Format)
    requires Conversions(fmt) == 0
    ensures Scan(s, fmt).values == []
  {
  }

  /** A directive that goes through is followed by the scan of the rest of the format. */
  lemma ScanGo(s: string, d: Directive, tail: Format)
    requires StepOf(s, d).Go?
    ensures Scan(s, Cons(d, tail)) == AddValue(StepOf(s, d).value, Scan(StepOf(s, d).next, tail))
  {
  }

  /** A directive that stops the scan ends it with no value assigned. */
  lemma ScanStop(s: string, d: Directive, tail: Format)
    requires StepOf(s, d).Stop?
    ensures Scan(s, Cons(d, tail)) == Scanned([], StepOf(s, d).failure, StepOf(s, d).at)
  {
  }

  lemma LitStepMatch(w: string, rest: string)
    ensures LitStep(w + rest, w) == Go(None, rest)
  {
    assert (w + rest)[..|w|] == w && (w + rest)[|w|..] == rest;
  }

  /** Text at the head of a format that the input starts with is consumed. */
  lemma ScanLit(w: string, rest: string, fmt: Format)
    ensures Scan(w + rest, Cons(Lit(w), fmt)) == Scan(rest, fmt)
  {
    LitStepMatch(w, rest);
    ScanGo(w + rest, Lit(w), fmt);
  }

  /** Text at the head of a format that the input does not start with stops the scan before any value. */
  lemma ScanLitMismatch(s: string, w: string, fmt: Format)
    requires !StartsWith(s, w)
    ensures Scan(s, Cons(Lit(w), fmt)).values == [] && Scan(s, Cons(Lit(w), fmt)).failure != NoFailure
  {
    assert LitStep(s, w).Stop?;
    ScanStop(s, Lit(w), fmt);
  }

  /** A white-space directive before a character that is not white space matches nothing. */
  lemma ScanNoSpace(s: string, fmt: Format)
    requires s == "" || !IsSpace(s[0])
    ensures Scan(s, Cons(Space, fmt)) == Scan(s, fmt)
  {
  }

  /** A white-space directive consumes one space before a character that is not white space. */
  lemma ScanSpace(rest: string, fmt: Format)
    requires rest == "" || !IsSpace(rest[0])
    ensures Scan(" " + rest, Cons(Space, fmt)) == Scan(rest, fmt)
  {
    var s := " " + rest;
    assert s[1..] == rest;
    assert SkipSpace(rest) == rest;
    assert SkipSpace(s) == rest;
    ScanGo(s, Space, fmt);
  }

  /** A printed natural number not followed by a digit is read back by ReadInt. */
  lemma ReadNat(n: nat, rest: string)
    requires rest == "" || !IsDigit(rest[0])
    ensures ReadInt(NatToString(n) + rest) == Some((n, rest))
  {
    var t := NatToString(n);
    var s := t + rest;
    assert s[0] == t[0] && !(s[0] == '+' || s[0] == '-');
    assert DigitRun(s) == |t| by {
      assert forall i :: 0 <= i < |t| ==> s[i] == t[i];
    }
    assert s[..|t|] == t && s[|t|..] == rest;
    NatToStringValue(n);
  }

  lemma IntStepNat(n: nat, rest: string)
    requires rest == "" || !IsDigit(rest[0])
    ensures IntStep(NatToString(n) + rest) == Go(Some(n), rest)
  {
    var s := NatToString(n) + rest;
    assert s[0] == NatToString(n)[0];
    assert SkipSpace(s) == s;
    ReadNat(n, rest);
  }

  /** A word followed by one space, against the word and a white-space directive. */
  lemma ScanLitSpace(w: string, rest: string, fmt: Format)
    requires rest == "" || !IsSpace(rest[0])
    ensures Scan(w + (" " + rest), Cons(Lit(w), Cons(Space, fmt))) == Scan(rest, fmt)
  {
    ScanLit(w, " " + rest, Cons(Space, fmt));
    ScanSpace(rest, fmt);
  }

  /** `%d` reads back a printed natural number that is not followed by a digit. */
  lemma ScanNat(n: nat, rest: string, fmt: Format)
    requires rest == "" || !IsDigit(rest[0])
    ensures Scan(NatToString(n) + rest, Cons(Int, fmt)) == AddValue(Some(n), Scan(rest, fmt))
  {
    IntStepNat(n, rest);
    ScanGo(NatToString(n) + rest, Int, fmt);
  }

  /** A format that is a single `%d`, on a printed natural number. */
  lemma ScanNatAlone(n: nat, rest: string)
    requires rest == "" || !IsDigit(rest[0])
    ensures Scan(NatToString(n) + rest, Cons(Int, End)) == Scanned([n], NoFailure, rest)
  {
    ScanNat(n, rest, End);
    assert [n] + [] == [n];
  }

  /** `%c` reads any character. */
  lemma ScanChar(c: char, rest: string, fmt: Format)
    ensures Scan([c] + rest, Cons(Char, fmt)) == AddValue(Some(c as int), Scan(rest, fmt))
  {
    assert CharStep([c] + rest) == Go(Some(c as int), rest) by {
      assert ([c] + rest)[0] == c && ([c] + rest)[1..] == rest;
    }
    ScanGo([c] + rest, Char, fmt);
  }

  /** `%d` stops with a matching failure on a character that cannot start a number. */
  lemma ScanIntMismatch(s: string, fmt: Format)
    requires |s| > 0 && !IsSpace(s[0]) && !IsDigit(s[0]) && s[0] != '+' && s[0] != '-'
    ensures Scan(s, Cons(Int, fmt)) == Scanned([], MatchFailure, s)
  {
    assert SkipSpace(s) == s;
    ScanStop(s, Int, fmt);
  }

  // ---------------------------------------------------------------------------
  // Versions

  /** A version as GR_GL_VER / GR_GLSL_VER build it from a major and a minor number. */
  datatype Version = Version(major: int, minor: int)

  /** GR_GL_INVALID_VER and GR_GLSL_INVALID_VER: the version 0.0. */
  const InvalidVersion := Version(0, 0)

  datatype GLStandard = NoStandard | GL | GLES | WebGL

  /** "%d.%d" followed by `tail`. */
  function VersionThen(tail: Format): Format {
    Cons(Int, Cons(Lit("."), Cons(Int, tail)))
  }

  /** "OpenGL ES " followed by `tail`. */
  function ESThen(tail: Format): Format {
    Cons(Lit("OpenGL"), Cons(Space, Cons(Lit("ES"), Cons(Space, tail))))
  }

  /** "%d.%d" */
  const DesktopForm: Format := VersionThen(End)
  /** The part of "%d.%d Mesa %d.%d" after the first "%d.%d". */
  const MesaTail: Format := Cons(Space, Cons(Lit("Mesa"), Cons(Space, DesktopForm)))
  /** "%d.%d Mesa %d.%d" */
  const MesaForm: Format := VersionThen(MesaTail)
  /** "OpenGL ES %d.%d" */
  const ESForm: Format := ESThen(DesktopForm)
  /** The part of "OpenGL ES %d.%d (WebGL %d.%d" after "OpenGL ES %d.%d". */
  const WebGLTail: Format := Cons(Space, Cons(Lit("(WebGL"), Cons(Space, DesktopForm)))
  /** "OpenGL ES %d.%d (WebGL %d.%d" */
  const WebGLForm: Format := ESThen(VersionThen(WebGLTail))
  /** The part of "OpenGL ES-%c%c %d.%d" after "OpenGL ES-". */
  const ES1Profile: Format := Cons(Char, Cons(Char, Cons(Space, DesktopForm)))
  /** The part of "OpenGL ES-%c%c %d.%d" after "OpenGL". */
  const ES1Tail: Format := Cons(Space, Cons(Lit("ES-"), ES1Profile))
  /** "OpenGL ES-%c%c %d.%d" */
  const ES1Form: Format := Cons(Lit("OpenGL"), ES1Tail)
  /** "OpenGL ES GLSL ES %d.%d" */
  const GLSLESForm: Format := ESThen(Cons(Lit("GLSL"), Cons(Space, Cons(Lit("ES"), Cons(Space, DesktopForm)))))
  /** "OpenGL ES GLSL %d.%d" */
  const AndroidGLSLForm: Format := ESThen(Cons(Lit("GLSL"), Cons(Space, DesktopForm)))

  /** The version made of the values at positions i and i + 1 of a scan. */
  function ValuesAt(r: Scanned, i: nat): Version
    requires i + 1 < |r.values|
  {
    Version(r.values[i], r.values[i + 1])
  }

  /** The version made of the values at positions i and i + 1 of scanning `s` with `fmt`. */
  function VersionAt(s: string, fmt: Format, i: nat): Version
    requires i + 1 < |Scan(s, fmt).values|
  {
    ValuesAt(Scan(s, fmt), i)
  }

  /** The scans of a GL_VERSION string that the standard and the version are read from. */
  datatype VersionScans = VersionScans(desktop: Scanned, mesa: Scanned, webGL: Scanned, es1: Scanned, es: Scanned)

  function ScanVersionForms(s: string): VersionScans {
    VersionScans(Scan(s, DesktopForm), Scan(s, MesaForm), Scan(s, WebGLForm), Scan(s, ES1Form), Scan(s, ESForm))
  }

  /** The standard the scans decide: the first form that matched in full, in the source's order. */
  function StandardOf(t: VersionScans): GLStandard {
    if Count(t.desktop) == 2 then GL
    else if Count(t.webGL) == 4 then WebGL
    else if Count(t.es1) == 4 then NoStandard
    else if Count(t.es) == 2 then GLES
    else NoStandard
  }

  /** The version the scans decide: the Mesa form is tried first, then as for the standard. */
  function VersionOf(t: VersionScans): Version {
    if Count(t.mesa) == 4 then ValuesAt(t.mesa, 0)
    else if Count(t.desktop) == 2 then ValuesAt(t.desktop, 0)
    else if Count(t.webGL) == 4 then ValuesAt(t.webGL, 2)
    else if Count(t.es1) == 4 then ValuesAt(t.es1, 2)
    else if Count(t.es) == 2 then ValuesAt(t.es, 0)
    else InvalidVersion
  }

  /**
   * GrGLGetStandardInUseFromString: the standard of a GL_VERSION string; the
   * string is absent when the driver returned a null pointer.
   */
  function StandardFromString(versionString: Option<string>): (r: GLStandard)
    ensures versionString.None? ==> r == NoStandard
  {
    match versionString
    case None => NoStandard
    case Some(s) => StandardOf(ScanVersionForms(s))
  }

  /** GrGLGetVersionFromString: the version in a GL_VERSION string. */
  function VersionFromString(versionString: Option<string>): (r: Version)
    ensures versionString.None? ==> r == InvalidVersion
  {
    match versionString
    case None => InvalidVersion
    case Some(s) => VersionOf(ScanVersionForms(s))
  }

  /**
   * get_glsl_version: "%d.%d", then "OpenGL ES GLSL ES %d.%d", then, on Android
   * builds only, "OpenGL ES GLSL %d.%d".
   */
  function GLSLVersionFromString(s: string, buildForAndroid: bool): (r: Version)
    ensures Sscanf(s, DesktopForm) == 2 ==> r == VersionAt(s, DesktopForm, 0)
    ensures r != InvalidVersion ==>
      Sscanf(s, DesktopForm) == 2 || Sscanf(s, GLSLESForm) == 2 || (buildForAndroid && Sscanf(s, AndroidGLSLForm) == 2)
  {
    if Sscanf(s, DesktopForm) == 2 then VersionAt(s, DesktopForm, 0)
    else if Sscanf(s, GLSLESForm) == 2 then VersionAt(s, GLSLESForm, 0)
    else if buildForAndroid && Sscanf(s, AndroidGLSLForm) == 2 then VersionAt(s, AndroidGLSLForm, 0)
    else InvalidVersion
  }

  /** Every format that starts with "%d.%d" starts by scanning "%d.%d". */
  lemma VersionPrefix(s: string, tail: Format)
    ensures Scan(s, VersionThen(tail)) == Continue(Scan(s, DesktopForm), tail)
  {
    assert Append(Cons(Int, End), tail) == Cons(Int, tail);
    assert Append(Cons(Lit("."), Cons(Int, End)), tail) == Cons(Lit("."), Cons(Int, tail));
    assert Append(DesktopForm, tail) == VersionThen(tail);
    ScanAppend(s, DesktopForm, tail);
  }

  /** Every format that starts with "OpenGL ES " starts by scanning those words, which assign nothing. */
  lemma ESPrefix(s: string, tail: Format)
    ensures Scan(s, ESThen(tail)) == Continue(Scan(s, ESThen(End)), tail)
    ensures Scan(s, ESThen(End)).values == []
  {
    var f := ESThen(End);
    assert Append(Cons(Space, End), tail) == Cons(Space, tail);
    assert Append(Cons(Lit("ES"), Cons(Space, End)), tail) == Cons(Lit("ES"), Cons(Space, tail));
    assert Append(Cons(Space, Cons(Lit("ES"), Cons(Space, End))), tail) == Cons(Space, Cons(Lit("ES"), Cons(Space, tail)));
    assert Append(f, tail) == ESThen(tail);
    ScanAppend(s, f, tail);
    NoValues(s, f);
  }

  /** The Mesa form extends the plain one, so a Mesa match reads the same version. */
  lemma MesaAgreesWithDesktop(s: string)
    requires Sscanf(s, MesaForm) == 4
    ensures Sscanf(s, DesktopForm) == 2 && VersionAt(s, MesaForm, 0) == VersionAt(s, DesktopForm, 0)
  {
    VersionPrefix(s, MesaTail);
  }

  /** The Mesa form matches only where the plain form does. */
  lemma MesaNeedsDesktop(s: string)
    requires Sscanf(s, DesktopForm) != 2
    ensures Sscanf(s, MesaForm) != 4
  {
    VersionPrefix(s, MesaTail);
  }

  /** The WebGL form extends the ES one: a WebGL match is also an ES match, so WebGL is tested first. */
  lemma WebGLExtendsES(s: string)
    requires Sscanf(s, WebGLForm) == 4
    ensures Sscanf(s, ESForm) == 2 && VersionAt(s, WebGLForm, 0) == VersionAt(s, ESForm, 0)
  {
    ESPrefix(s, VersionThen(WebGLTail));
    ESPrefix(s, DesktopForm);
    var head := Scan(s, ESThen(End));
    if head.failure == NoFailure {
      VersionPrefix(head.rest, WebGLTail);
    }
  }

  /** A full Mesa match is a full desktop match that read the same version. */
  predicate MesaExtendsDesktop(t: VersionScans) {
    Count(t.mesa) == 4 ==> Count(t.desktop) == 2 && ValuesAt(t.mesa, 0) == ValuesAt(t.desktop, 0)
  }

  /** Whichever scan decides the standard also decides the version. */
  lemma ScansAgree(t: VersionScans)
    requires MesaExtendsDesktop(t)
    ensures StandardOf(t) == GL ==> VersionOf(t) == ValuesAt(t.desktop, 0)
    ensures StandardOf(t) == WebGL ==> VersionOf(t) == ValuesAt(t.webGL, 2)
    ensures StandardOf(t) == GLES ==> VersionOf(t) == ValuesAt(t.es, 0)
    ensures StandardOf(t) == NoStandard && VersionOf(t) != InvalidVersion ==>
      Count(t.es1) == 4 && VersionOf(t) == ValuesAt(t.es1, 2)
  {
  }

  /** The scans of any string have the Mesa form extend the desktop one. */
  lemma VersionScansMesa(s: string)
    ensures MesaExtendsDesktop(ScanVersionForms(s))
  {
    if Sscanf(s, MesaForm) == 4 {
      MesaAgreesWithDesktop(s);
    }
  }

  /** The text "major.minor" followed by `rest`. */
  function VersionText(major: nat, minor: nat, rest: string): string {
    NatToString(major) + ("." + (NatToString(minor) + rest))
  }

  /** "%d.%d" reads back a printed version that is not followed by a digit. */
  lemma ScanVersionText(major: nat, minor: nat, rest: string, tail: Format)
    requires rest == "" || !IsDigit(rest[0])
    ensures Scan(VersionText(major, minor, rest), VersionThen(tail)) ==
      AddValue(Some(major), AddValue(Some(minor), Scan(rest, tail)))
  {
    var after := NatToString(minor) + rest;
    ScanNat(major, "." + after, Cons(Lit("."), Cons(Int, tail)));
    ScanLit(".", after, Cons(Int, tail));
    ScanNat(minor, rest, tail);
  }

  /** The same, with nothing after the version in the format. */
  lemma ScanVersionTextAlone(major: nat, minor: nat, rest: string)
    requires rest == "" || !IsDigit(rest[0])
    ensures Scan(VersionText(major, minor, rest), DesktopForm) == Scanned([major, minor], NoFailure, rest)
  {
    ScanVersionText(major, minor, rest, End);
    ValuesPair(major, minor);
  }

  /** A version text starts with a digit. */
  lemma VersionTextStart(major: nat, minor: nat, rest: string)
    ensures IsDigit(VersionText(major, minor, rest)[0])
  {
    assert VersionText(major, minor, rest)[0] == NatToString(major)[0];
  }

  /** A desktop version string "M.m…" is GL with version M.m. */
  lemma DesktopVersionString(major: nat, minor: nat, rest: string)
    requires rest == "" || !IsDigit(rest[0])
    ensures StandardFromString(Some(VersionText(major, minor, rest))) == GL
    ensures VersionFromString(Some(VersionText(major, minor, rest))) == Version(major, minor)
  {
    ScanVersionTextAlone(major, minor, rest);
    VersionScansMesa(VersionText(major, minor, rest));
    ScansAgree(ScanVersionForms(VersionText(major, minor, rest)));
  }

  lemma ScanESHeadPieces(rest: string, tail: Format)
    requires rest == "" || !IsSpace(rest[0])
    ensures Scan("OpenGL" + (" " + ("ES" + (" " + rest))), ESThen(tail)) == Scan(rest, tail)
  {
    assert ("ES" + (" " + rest))[0] == 'E';
    ScanLitSpace("OpenGL", "ES" + (" " + rest), Cons(Lit("ES"), Cons(Space, tail)));
    ScanLitSpace("ES", rest, tail);
  }

  lemma ESHeadText(rest: string)
    ensures "OpenGL ES " + rest == "OpenGL" + (" " + ("ES" + (" " + rest)))
  {
  }

  /** "OpenGL ES " before a character that is not white space. */
  lemma ScanESHead(rest: string, tail: Format)
    requires rest == "" || !IsSpace(rest[0])
    ensures Scan("OpenGL ES " + rest, ESThen(tail)) == Scan(rest, tail)
  {
    ESHeadText(rest);
    ScanESHeadPieces(rest, tail);
  }

  /** "OpenGL ES M.m…" scanned with a format that starts "OpenGL ES %d.%d". */
  lemma ScanESVersion(major: nat, minor: nat, rest: string, tail: Format)
    requires rest == "" || !IsDigit(rest[0])
    ensures Scan("OpenGL ES " + VersionText(major, minor, rest), ESThen(VersionThen(tail))) ==
      AddValue(Some(major), AddValue(Some(minor), Scan(rest, tail)))
  {
    VersionTextStart(major, minor, rest);
    ScanESHead(VersionText(major, minor, rest), VersionThen(tail));
    ScanVersionText(major, minor, rest, tail);
  }

  /** Strings that do not start with a number match neither the Mesa nor the plain form. */
  lemma NoLeadingNumber(s: string)
    requires |s| > 0 && !IsSpace(s[0]) && !IsDigit(s[0]) && s[0] != '+' && s[0] != '-'
    ensures Sscanf(s, DesktopForm) == 0 && Sscanf(s, MesaForm) != 4
  {
    ScanIntMismatch(s, Cons(Lit("."), Cons(Int, End)));
    MesaNeedsDesktop(s);
  }

  lemma ES1MismatchPieces(rest: string)
    requires |rest| > 0 && !IsSpace(rest[0])
    ensures Scan("OpenGL" + (" " + ("ES " + rest)), ES1Form).values == []
  {
    var afterSpace := "ES " + rest;
    ScanLit("OpenGL", " " + afterSpace, ES1Tail);
    assert afterSpace[0] == 'E';
    ScanSpace(afterSpace, ES1Tail.tail);
    assert !StartsWith(afterSpace, "ES-") by { assert afterSpace[2] == ' '; }
    ScanLitMismatch(afterSpace, "ES-", ES1Profile);
  }

  /** "OpenGL ES " split into its words. */
  lemma ESTextPieces(rest: string)
    ensures "OpenGL ES " + rest == "OpenGL" + (" " + ("ES " + rest))
  {
  }

  /** "OpenGL ES " followed by a non-space is not the ES 1 form "OpenGL ES-". */
  lemma ES1Mismatch(rest: string)
    requires |rest| > 0 && !IsSpace(rest[0])
    ensures Scan("OpenGL ES " + rest, ES1Form).values == []
  {
    ESTextPieces(rest);
    ES1MismatchPieces(rest);
  }

  /** What follows "OpenGL ES M.m" in a WebGL version string: " (WebGL M.m". */
  predicate ContinuesWebGL(rest: string) {
    |Scan(rest, WebGLTail).values| == 2
  }

  /** "OpenGL ES M.m…" is OpenGL ES with version M.m, unless the rest makes it WebGL. */
  lemma ESVersionString(major: nat, minor: nat, rest: string)
    requires rest == "" || !IsDigit(rest[0])
    requires !ContinuesWebGL(rest)
    ensures StandardFromString(Some("OpenGL ES " + VersionText(major, minor, rest))) == GLES
    ensures VersionFromString(Some("OpenGL ES " + VersionText(major, minor, rest))) == Version(major, minor)
  {
    var s := "OpenGL ES " + VersionText(major, minor, rest);
    ESStringIsNotDesktop(major, minor, rest);
    ESStringScansES(major, minor, rest);
    ESStringIsNotWebGL(major, minor, rest);
    ESStringIsNotES1(major, minor, rest);
    ESClassified(ScanVersionForms(s), major, minor, rest);
  }

  lemma ESStringIsNotDesktop(major: nat, minor: nat, rest: string)
    ensures var s := "OpenGL ES " + VersionText(major, minor, rest);
      Sscanf(s, DesktopForm) == 0 && Sscanf(s, MesaForm) != 4
  {
    var s := "OpenGL ES " + VersionText(major, minor, rest);
    assert s[0] == 'O';
    NoLeadingNumber(s);
  }

  lemma ESStringIsNotES1(major: nat, minor: nat, rest: string)
    ensures Scan("OpenGL ES " + VersionText(major, minor, rest), ES1Form).values == []
  {
    VersionTextStart(major, minor, rest);
    ES1Mismatch(VersionText(major, minor, rest));
  }

  lemma ESStringScansES(major: nat, minor: nat, rest: string)
    requires rest == "" || !IsDigit(rest[0])
    ensures Scan("OpenGL ES " + VersionText(major, minor, rest), ESForm) == Scanned([major, minor], NoFailure, rest)
  {
    ScanESVersion(major, minor, rest, End);
    ValuesPair(major, minor);
  }

  lemma ESStringIsNotWebGL(major: nat, minor: nat, rest: string)
    requires rest == "" || !IsDigit(rest[0])
    requires !ContinuesWebGL(rest)
    ensures |Scan("OpenGL ES " + VersionText(major, minor, rest), WebGLForm).values| != 4
  {
    ScanESVersion(major, minor, rest, WebGLTail);
  }

  /** A rest without "(WebGL" after its leading white space cannot make the string WebGL. */
  lemma NoWebGLMarker(rest: string)
    requires !StartsWith(SkipSpace(rest), "(WebGL")
    ensures !ContinuesWebGL(rest)
  {
    ScanGo(rest, Space, WebGLTail.tail);
    ScanLitMismatch(SkipSpace(rest), "(WebGL", WebGLTail.tail.tail);
  }

  /** A string that does continue " (WebGL M.m" would be WebGL: the predicate is the whole difference. */
  lemma ContinuesWebGLScan(major: nat, minor: nat, rest: string)
    requires rest == "" || !IsDigit(rest[0])
    ensures |Scan("OpenGL ES " + VersionText(major, minor, rest), WebGLForm).values| == 4 <==> ContinuesWebGL(rest)
  {
    ScanESVersion(major, minor, rest, WebGLTail);
  }

  /** Scans where only the ES form matched. */
  lemma ESClassified(t: VersionScans, major: int, minor: int, rest: string)
    requires Count(t.desktop) == 0 && Count(t.mesa) != 4
    requires |t.webGL.values| != 4 && t.es1.values == []
    requires t.es == Scanned([major, minor], NoFailure, rest)
    ensures StandardOf(t) == GLES && VersionOf(t) == Version(major, minor)
  {
  }

  /** A space and a version, scanned with " %d.%d". */
  lemma ScanSpaceVersion(major: nat, minor: nat, rest: string)
    requires rest == "" || !IsDigit(rest[0])
    ensures Scan(" " + VersionText(major, minor, rest), Cons(Space, DesktopForm)) == Scanned([major, minor], NoFailure, rest)
  {
    VersionTextStart(major, minor, rest);
    ScanSpace(VersionText(major, minor, rest), DesktopForm);
    ScanVersionTextAlone(major, minor, rest);
  }

  lemma ScanWebGLTailPieces(major: nat, minor: nat, rest: string)
    requires rest == "" || !IsDigit(rest[0])
    ensures Scan(" " + ("(WebGL" + (" " + VersionText(major, minor, rest))), WebGLTail) ==
      Scanned([major, minor], NoFailure, rest)
  {
    var v := VersionText(major, minor, rest);
    ScanWebGLWordVersion(major, minor, rest);
    ScanSpace("(WebGL" + (" " + v), WebGLTail.tail);
  }

  lemma ScanWebGLWordVersion(major: nat, minor: nat, rest: string)
    requires rest == "" || !IsDigit(rest[0])
    ensures Scan("(WebGL" + (" " + VersionText(major, minor, rest)), WebGLTail.tail) == Scanned([major, minor], NoFailure, rest)
  {
    ScanSpaceVersion(major, minor, rest);
    ScanLit("(WebGL", " " + VersionText(major, minor, rest), WebGLTail.tail.tail);
  }

  /** " (WebGL M.m…" scanned with the rest of the WebGL form. */
  lemma ScanWebGLTail(major: nat, minor: nat, rest: string)
    requires rest == "" || !IsDigit(rest[0])
    ensures Scan(" (WebGL " + VersionText(major, minor, rest), WebGLTail) == Scanned([major, minor], NoFailure, rest)
  {
    WebGLTextPieces(VersionText(major, minor, rest));
    ScanWebGLTailPieces(major, minor, rest);
  }

  /** " (WebGL " split into its words. */
  lemma WebGLTextPieces(v: string)
    ensures " (WebGL " + v == " " + ("(WebGL" + (" " + v))
  {
  }

  /** "OpenGL ES E.e (WebGL M.m…" is WebGL with version M.m. */
  lemma WebGLVersionString(esMajor: nat, esMinor: nat, major: nat, minor: nat, rest: string)
    requires rest == "" || !IsDigit(rest[0])
    ensures var s := "OpenGL ES " + VersionText(esMajor, esMinor, " (WebGL " + VersionText(major, minor, rest));
      StandardFromString(Some(s)) == WebGL && VersionFromString(Some(s)) == Version(major, minor)
  {
    var s := "OpenGL ES " + VersionText(esMajor, esMinor, " (WebGL " + VersionText(major, minor, rest));
    assert s[0] == 'O';
    NoLeadingNumber(s);
    ScanWebGLString(esMajor, esMinor, major, minor, rest);
    VersionScansMesa(s);
    ScansAgree(ScanVersionForms(s));
  }

  lemma ScanWebGLString(esMajor: nat, esMinor: nat, major: nat, minor: nat, rest: string)
    requires rest == "" || !IsDigit(rest[0])
    ensures Scan("OpenGL ES " + VersionText(esMajor, esMinor, " (WebGL " + VersionText(major, minor, rest)), WebGLForm) ==
      Scanned([esMajor, esMinor, major, minor], NoFailure, rest)
  {
    ScanWebGLTail(major, minor, rest);
    ScanESVersion(esMajor, esMinor, " (WebGL " + VersionText(major, minor, rest), WebGLTail);
    ValuesFour(esMajor, esMinor, major, minor);
  }

  /** The profile letters of the ES 1 form, before a space and what follows it. */
  lemma ScanES1Profile(c0: char, c1: char, v: string, values: seq<int>, rest: string)
    requires Scan(" " + v, Cons(Space, DesktopForm)) == Scanned(values, NoFailure, rest)
    ensures Scan([c0] + ([c1] + (" " + v)), ES1Profile) == Scanned([c0 as int] + ([c1 as int] + values), NoFailure, rest)
  {
    ScanChar(c1, " " + v, Cons(Space, DesktopForm));
    ScanChar(c0, [c1] + (" " + v), ES1Profile.tail);
  }

  lemma ScanES1Pieces(profile: string, values: seq<int>, rest: string)
    requires Scan(profile, ES1Profile) == Scanned(values, NoFailure, rest)
    ensures Scan("OpenGL" + (" " + ("ES-" + profile)), ES1Form) == Scanned(values, NoFailure, rest)
  {
    assert ("ES-" + profile)[0] == 'E';
    ScanLitSpace("OpenGL", "ES-" + profile, Cons(Lit("ES-"), ES1Profile));
    ScanLit("ES-", profile, ES1Profile);
  }

  /** A minus sign followed by a non-digit is not a number. */
  lemma ScanSignMismatch(dash: string, tail: Format)
    requires |dash| >= 2 && dash[0] == '-' && !IsDigit(dash[1])
    ensures Scan(dash, Cons(Int, tail)).values == []
  {
    assert SkipSpace(dash) == dash;
    assert dash[1..][0] == dash[1];
    assert DigitRun(dash[1..]) == 0;
    assert IntStep(dash).Stop?;
    ScanStop(dash, Int, tail);
  }

  /** After "OpenGL ES", a minus sign followed by a non-digit is not a number. */
  lemma ESNumberMismatch(dash: string, tail: Format)
    requires |dash| >= 2 && dash[0] == '-' && !IsDigit(dash[1])
    ensures Scan("OpenGL" + (" " + ("ES" + dash)), ESThen(Cons(Int, tail))).values == []
  {
    assert ("ES" + dash)[0] == 'E';
    ScanLitSpace("OpenGL", "ES" + dash, Cons(Lit("ES"), Cons(Space, Cons(Int, tail))));
    ScanLit("ES", dash, Cons(Space, Cons(Int, tail)));
    ScanNoSpace(dash, Cons(Int, tail));
    ScanSignMismatch(dash, tail);
  }

  /** The ES 1 text, split at the points where the ES and ES 1 forms part. */
  lemma ES1TextPieces(profile: string)
    ensures "OpenGL ES-" + profile == "OpenGL" + (" " + ("ES-" + profile))
    ensures "OpenGL ES-" + profile == "OpenGL" + (" " + ("ES" + ("-" + profile)))
  {
  }

  lemma ES1StringIsNotDesktop(profile: string)
    ensures Sscanf("OpenGL ES-" + profile, DesktopForm) == 0 && Sscanf("OpenGL ES-" + profile, MesaForm) != 4
  {
    assert ("OpenGL ES-" + profile)[0] == 'O';
    NoLeadingNumber("OpenGL ES-" + profile);
  }

  lemma ES1StringScansES1(c0: char, c1: char, major: nat, minor: nat, rest: string)
    requires rest == "" || !IsDigit(rest[0])
    ensures Scan("OpenGL ES-" + ([c0] + ([c1] + (" " + VersionText(major, minor, rest)))), ES1Form) ==
      Scanned([c0 as int, c1 as int, major, minor], NoFailure, rest)
  {
    var profile := [c0] + ([c1] + (" " + VersionText(major, minor, rest)));
    ES1TextPieces(profile);
    ScanSpaceVersion(major, minor, rest);
    ScanES1Profile(c0, c1, VersionText(major, minor, rest), [major, minor], rest);
    ValuesFour(c0 as int, c1 as int, major, minor);
    ScanES1Pieces(profile, [c0 as int, c1 as int, major, minor], rest);
  }

  lemma ES1StringIsNotWebGL(profile: string)
    requires |profile| > 0 && !IsDigit(profile[0])
    ensures Scan("OpenGL ES-" + profile, WebGLForm).values == []
  {
    ES1TextPieces(profile);
    assert ("-" + profile)[1] == profile[0];
    ESNumberMismatch("-" + profile, Cons(Lit("."), Cons(Int, WebGLTail)));
  }

  /** Scans where the ES 1 form matched and neither the desktop nor the WebGL form did. */
  lemma ES1Classified(t: VersionScans, values: seq<int>, major: int, minor: int, rest: string)
    requires Count(t.desktop) == 0 && Count(t.mesa) != 4 && t.webGL.values == []
    requires |values| == 4 && values[2] == major && values[3] == minor
    requires t.es1 == Scanned(values, NoFailure, rest)
    ensures StandardOf(t) == NoStandard && VersionOf(t) == Version(major, minor)
  {
  }

  /**
   * "OpenGL ES-xx M.m…", the OpenGL ES 1 form (the profile letters not starting
   * with a digit): no standard, but the version M.m.
   */
  lemma ES1VersionString(c0: char, c1: char, major: nat, minor: nat, rest: string)
    requires !IsDigit(c0)
    requires rest == "" || !IsDigit(rest[0])
    ensures var s := "OpenGL ES-" + ([c0] + ([c1] + (" " + VersionText(major, minor, rest))));
      StandardFromString(Some(s)) == NoStandard && VersionFromString(Some(s)) == Version(major, minor)
  {
    var profile := [c0] + ([c1] + (" " + VersionText(major, minor, rest)));
    ES1StringIsNotDesktop(profile);
    ES1StringScansES1(c0, c1, major, minor, rest);
    ES1StringIsNotWebGL(profile);
    ES1Classified(ScanVersionForms("OpenGL ES-" + profile), [c0 as int, c1 as int, major, minor], major, minor, rest);
  }

  /** An input that starts with neither white space, a digit, a sign nor "OpenGL" matches no form. */
  lemma UnrecognisedVersionString(s: string)
    requires |s| > 0 && !IsSpace(s[0]) && !IsDigit(s[0]) && s[0] != '+' && s[0] != '-'
    requires !StartsWith(s, "OpenGL")
    ensures StandardFromString(Some(s)) == NoStandard && VersionFromString(Some(s)) == InvalidVersion
  {
    NoLeadingNumber(s);
    ScanLitMismatch(s, "OpenGL", ESForm.tail);
    ScanLitMismatch(s, "OpenGL", WebGLForm.tail);
    ScanLitMismatch(s, "OpenGL", ES1Tail);
  }

  /** An empty version string: every sscanf returns EOF, so there is no standard and no version. */
  lemma EmptyVersionString()
    ensures StandardFromString(Some("")) == NoStandard && VersionFromString(Some("")) == InvalidVersion
    ensures Sscanf("", DesktopForm) == -1 && Sscanf("", ESForm) == -1
  {
    EmptyScans();
    NoFormMatched(ScanVersionForms(""));
  }

  /** Scans that all returned EOF decide neither a standard nor a version. */
  lemma NoFormMatched(t: VersionScans)
    requires Count(t.desktop) == -1 && Count(t.mesa) == -1 && Count(t.webGL) == -1
    requires Count(t.es1) == -1 && Count(t.es) == -1
    ensures StandardOf(t) == NoStandard && VersionOf(t) == InvalidVersion
  {
  }

  /** Every GL_VERSION form starts with `%d` or "OpenGL", and both need input that the empty string does not have. */
  lemma EmptyScans()
    ensures Scan("", DesktopForm) == Scanned([], InputFailure, "") && Scan("", MesaForm) == Scanned([], InputFailure, "")
    ensures Scan("", ESForm) == Scanned([], InputFailure, "") && Scan("", WebGLForm) == Scanned([], InputFailure, "")
    ensures Scan("", ES1Form) == Scanned([], InputFailure, "")
  {
    assert IntStep("") == Stop(InputFailure, "");
    ScanStop("", Int, DesktopForm.tail);
    ScanStop("", Int, MesaForm.tail);
    assert StartsWith("OpenGL", "");
    assert LitStep("", "OpenGL") == Stop(InputFailure, "");
    ScanStop("", Lit("OpenGL"), ESForm.tail);
    ScanStop("", Lit("OpenGL"), WebGLForm.tail);
    ScanStop("", Lit("OpenGL"), ES1Form.tail);
  }

  // ---------------------------------------------------------------------------
  // Vendor

  datatype GLVendor = ARM | Google | Imagination | Intel | Qualcomm | NVIDIA | ATI | OtherVendor

  /** get_vendor: exact names, and for Intel also any name starting with "Intel ". */
  function VendorFromString(vendorString: string): (r: GLVendor)
    ensures r == ARM <==> vendorString == "ARM"
    ensures r == Google <==> vendorString == "Google Inc."
    ensures r == Imagination <==> vendorString == "Imagination Technologies"
    ensures r == Intel <==> StartsWith(vendorString, "Intel ") || vendorString == "Intel"
    ensures r == Qualcomm <==> vendorString == "Qualcomm" || vendorString == "freedreno"
    ensures r == NVIDIA <==> vendorString == "NVIDIA Corporation"
    ensures r == ATI <==> vendorString == "ATI Technologies Inc."
  {
    StartsWithAt(vendorString, "Intel ", 1);
    if vendorString == "ARM" then ARM
    else if vendorString == "Google Inc." then Google
    else if vendorString == "Imagination Technologies" then Imagination
    else if StartsWith(vendorString, "Intel ") || vendorString == "Intel" then Intel
    else if vendorString == "Qualcomm" || vendorString == "freedreno" then Qualcomm
    else if vendorString == "NVIDIA Corporation" then NVIDIA
    else if vendorString == "ATI Technologies Inc." then ATI
    else OtherVendor
  }

  // ---------------------------------------------------------------------------
  // Renderer

  datatype GLRenderer =
    | Tegra_PreK1 | Tegra | PowerVR54x | PowerVRRogue
    | Adreno3xx | Adreno430 | Adreno4xx_other | Adreno530 | Adreno5xx_other
    | Adreno615 | Adreno620 | Adreno630 | Adreno640
    | GoogleSwiftShader
    | IntelSandyBridge | IntelIvyBridge | IntelValleyView | IntelHaswell | IntelCherryView
    | IntelBroadwell | IntelApolloLake | IntelSkyLake | IntelGeminiLake | IntelKabyLake
    | IntelCoffeeLake | IntelIceLake
    | AMDRadeonHD7xxx | AMDRadeonR9M3xx | AMDRadeonR9M4xx | AMDRadeonPro5xxx | AMDRadeonProVegaxx
    | GalliumLLVM | MaliG | MaliT | Mali4xx | ANGLE | OtherRenderer
  {
    predicate IsAdreno() {
      Adreno3xx? || Adreno430? || Adreno4xx_other? || Adreno530? || Adreno5xx_other? ||
      Adreno615? || Adreno620? || Adreno630? || Adreno640?
    }
    predicate IsIntel() {
      IntelSandyBridge? || IntelIvyBridge? || IntelValleyView? || IntelHaswell? || IntelCherryView? ||
      IntelBroadwell? || IntelApolloLake? || IntelSkyLake? || IntelGeminiLake? || IntelKabyLake? ||
      IntelCoffeeLake? || IntelIceLake?
    }
    predicate IsAMD() {
      AMDRadeonHD7xxx? || AMDRadeonR9M3xx? || AMDRadeonR9M4xx? || AMDRadeonPro5xxx? || AMDRadeonProVegaxx?
    }
    predicate IsLate() {
      GalliumLLVM? || MaliG? || MaliT? || Mali4xx? || ANGLE? || OtherRenderer?
    }
    /** The hundreds of an Adreno model number. */
    function AdrenoSeries(): int
      requires IsAdreno()
    {
      match this
      case Adreno3xx => 3
      case Adreno430 => 4
      case Adreno4xx_other => 4
      case Adreno530 => 5
      case Adreno5xx_other => 5
      case _ => 6
    }
  }

  /** is_renderer_angle. */
  predicate IsRendererAngle(rendererString: string) {
    StartsWith(rendererString, "ANGLE ")
  }

  /** The Adreno model number ranges of get_renderer. */
  function AdrenoFromNumber(n: int): (r: Option<GLRenderer>)
    ensures r.Some? <==> (300 <= n < 600 || n == 615 || n == 620 || n == 630 || n == 640)
    ensures r.Some? ==> r.value.IsAdreno() && r.value.AdrenoSeries() == n / 100
    ensures r == Some(Adreno430) <==> 430 <= n < 500
    ensures r == Some(Adreno530) <==> n == 530
  {
    if n >= 300 then
      if n < 400 then Some(Adreno3xx)
      else if n < 500 then (if n >= 430 then Some(Adreno430) else Some(Adreno4xx_other))
      else if n < 600 then (if n == 530 then Some(Adreno530) else Some(Adreno5xx_other))
      else if n == 615 then Some(Adreno615)
      else if n == 620 then Some(Adreno620)
      else if n == 630 then Some(Adreno630)
      else if n == 640 then Some(Adreno640)
      else None
    else None
  }

  /**
   * The Intel graphics number ranges of get_renderer; `uhd` is whether the text
   * from "Intel" on mentions "UHD".
   */
  function IntelFromNumber(n: int, uhd: bool): (r: Option<GLRenderer>)
    ensures r.Some? ==> r.value.IsIntel()
    ensures n == 610 || n == 630 ==> r == Some(if uhd then IntelCoffeeLake else IntelKabyLake)
  {
    if n == 2000 || n == 3000 then Some(IntelSandyBridge)
    else if n == 2500 || n == 4000 then Some(IntelIvyBridge)
    else if 4200 <= n <= 5200 then Some(IntelHaswell)
    else if 400 <= n <= 405 then Some(IntelCherryView)
    else if 5300 <= n <= 6300 then Some(IntelBroadwell)
    else if 500 <= n <= 505 then Some(IntelApolloLake)
    else if 510 <= n <= 580 then Some(IntelSkyLake)
    else if 600 <= n <= 605 then Some(IntelGeminiLake)
    else if n == 610 || n == 630 then Some(if uhd then IntelCoffeeLake else IntelKabyLake)
    else if 610 <= n <= 650 then Some(IntelKabyLake)
    else if n == 655 then Some(IntelCoffeeLake)
    else if 910 <= n <= 950 then Some(IntelIceLake)
    else None
  }

  /** "UHD" changes the generation for the numbers 610 and 630 only. */
  lemma IntelUHDMattersOnlyFor610And630(n: int)
    ensures IntelFromNumber(n, true) != IntelFromNumber(n, false) <==> n == 610 || n == 630
  {
  }

  /** Which numbers name an Intel generation at all. */
  lemma IntelNumbersRecognised(n: int, uhd: bool)
    ensures IntelFromNumber(n, uhd).Some? <==>
      n == 2000 || n == 3000 || n == 2500 || n == 4000 || n == 655 || 4200 <= n <= 5200 || 5300 <= n <= 6300 ||
      400 <= n <= 405 || 500 <= n <= 505 || 510 <= n <= 580 || 600 <= n <= 605 || 610 <= n <= 650 || 910 <= n <= 950
  {
  }

  /** "PowerVR SGX 54%d" */
  const PowerVRSGXForm: Format := Cons(Lit("PowerVR"), Cons(Space, Cons(Lit("SGX"), Cons(Space, Cons(Lit("54"), Cons(Int, End))))))
  /** "Adreno (TM) %d" */
  const AdrenoForm: Format := Cons(Lit("Adreno"), Cons(Space, Cons(Lit("(TM)"), Cons(Space, Cons(Int, End)))))
  /** "FD%d" */
  const FreedrenoForm: Format := Cons(Lit("FD"), Cons(Int, End))
  /** "Graphics %d" */
  const IntelGraphicsForm: Format := Cons(Lit("Graphics"), Cons(Space, Cons(Int, End)))
  /** "Graphics P%d" */
  const IntelGraphicsPForm: Format := Cons(Lit("Graphics"), Cons(Space, Cons(Lit("P"), Cons(Int, End))))
  /** "R9 M3%c%c" */
  const R9M3Form: Format := Cons(Lit("R9"), Cons(Space, Cons(Lit("M3"), Cons(Char, Cons(Char, End)))))
  /** "R9 M4%c%c" */
  const R9M4Form: Format := Cons(Lit("R9"), Cons(Space, Cons(Lit("M4"), Cons(Char, Cons(Char, End)))))
  /** "HD 7%c%c%c Series" */
  const HD7Form: Format := Cons(Lit("HD"), Cons(Space, Cons(Lit("7"), Cons(Char, Cons(Char, Cons(Char, Cons(Space, Cons(Lit("Series"), End))))))))
  /** "Pro 5%c%c%c" */
  const Pro5Form: Format := Cons(Lit("Pro"), Cons(Space, Cons(Lit("5"), Cons(Char, Cons(Char, Cons(Char, End))))))
  /** "Pro Vega %i" */
  const ProVegaForm: Format := Cons(Lit("Pro"), Cons(Space, Cons(Lit("Vega"), Cons(Space, Cons(Int, End)))))
  /** "Mali-%d" */
  const MaliForm: Format := Cons(Lit("Mali-"), Cons(Int, End))

  /** isdigit of a character read by `%c`. */
  predicate IsDigitCode(v: int) { '0' as int <= v <= '9' as int }

  predicate AllDigitCodes(r: Scanned) {
    forall i :: 0 <= i < |r.values| ==> IsDigitCode(r.values[i])
  }

  /** The Tegra test: "NVIDIA Tegra", told apart by NV_path_rendering. */
  function TegraRenderer(s: string, extensions: set<string>): (r: Option<GLRenderer>)
    ensures r.Some? <==> StartsWith(s, "NVIDIA Tegra")
    ensures r.Some? ==> r.value.Tegra? || r.value.Tegra_PreK1?
    ensures r == Some(Tegra) <==> StartsWith(s, "NVIDIA Tegra") && "GL_NV_path_rendering" in extensions
  {
    if StartsWith(s, "NVIDIA Tegra") then
      Some(if "GL_NV_path_rendering" in extensions then Tegra else Tegra_PreK1)
    else None
  }

  /** The PowerVR tests: "PowerVR SGX 54" and a digit, Apple A4-A6, then Rogue and Apple A7-A8. */
  function PowerVRRenderer(s: string): (r: Option<GLRenderer>)
    ensures r.Some? ==> r.value.PowerVR54x? || r.value.PowerVRRogue?
    ensures r == Some(PowerVRRogue) ==>
      StartsWith(s, "PowerVR Rogue") || StartsWith(s, "Apple A7") || StartsWith(s, "Apple A8")
    ensures StartsWith(s, "Apple A4") || StartsWith(s, "Apple A5") || StartsWith(s, "Apple A6") ==>
      r == Some(PowerVR54x)
  {
    var sgx := Scan(s, PowerVRSGXForm);
    if Count(sgx) == 1 && 0 <= sgx.values[0] <= 9 then Some(PowerVR54x)
    else if StartsWith(s, "Apple A4") || StartsWith(s, "Apple A5") || StartsWith(s, "Apple A6") then Some(PowerVR54x)
    else if StartsWith(s, "PowerVR Rogue") || StartsWith(s, "Apple A7") || StartsWith(s, "Apple A8") then Some(PowerVRRogue)
    else None
  }

  /** The Adreno test: "Adreno (TM) %d", retried as "FD%d" when nothing was read. */
  function AdrenoRenderer(s: string): (r: Option<GLRenderer>)
    ensures r.Some? ==> r.value.IsAdreno()
  {
    var first := Scan(s, AdrenoForm);
    var scanned := if Count(first) < 1 then Scan(s, FreedrenoForm) else first;
    if Count(scanned) == 1 then AdrenoFromNumber(scanned.values[0]) else None
  }

  /**
   * The Intel graphics number after "Graphics" as written:
   * `sscanf(.., "Graphics %d", ..) || sscanf(.., "Graphics P%d", ..)`, where an
   * EOF (-1) counts as true and the number is then the uninitialised variable,
   * here `uninitialised`.
   */
  function IntelNumberAsWritten(gfx: string, uninitialised: int): Option<int> {
    var plain := Scan(gfx, IntelGraphicsForm);
    if Count(plain) != 0 then
      Some(if Count(plain) == 1 then plain.values[0] else uninitialised)
    else
      var withP := Scan(gfx, IntelGraphicsPForm);
      if Count(withP) != 0 then Some(if Count(withP) == 1 then withP.values[0] else uninitialised)
      else None
  }

  /** Both Intel scans of "Graphics" alone run out of input before any value: sscanf returns EOF. */
  lemma GraphicsAloneIsEOF()
    ensures Sscanf("Graphics", IntelGraphicsForm) == -1 && Sscanf("Graphics", IntelGraphicsPForm) == -1
  {
    WordAloneIsEOF("Graphics");
  }

  /** A word alone, against "<word> %d" and "<word> P%d". */
  lemma WordAloneIsEOF(w: string)
    ensures Sscanf(w, Cons(Lit(w), Cons(Space, Cons(Int, End)))) == -1
    ensures Sscanf(w, Cons(Lit(w), Cons(Space, Cons(Lit("P"), Cons(Int, End))))) == -1
  {
    assert StartsWith("P", "");
    ScanWordAlone(w, Int, End);
    ScanWordAlone(w, Lit("P"), Cons(Int, End));
  }

  /** A word alone, against the word, white space and a directive that needs more input. */
  lemma ScanWordAlone(w: string, d: Directive, tail: Format)
    requires StepOf("", d) == Stop(InputFailure, "")
    ensures Scan(w, Cons(Lit(w), Cons(Space, Cons(d, tail)))) == Scanned([], InputFailure, "")
    ensures Sscanf(w, Cons(Lit(w), Cons(Space, Cons(d, tail)))) == -1
  {
    assert w == w + "";
    ScanLit(w, "", Cons(Space, Cons(d, tail)));
    ScanNoSpace("", Cons(d, tail));
    ScanStop("", d, tail);
  }

  /** As written, both scans returning EOF (-1, which is true in C) reads the uninitialised number. */
  lemma IntelNumberAsWrittenOnEOF(gfx: string, uninitialised: int)
    requires Sscanf(gfx, IntelGraphicsForm) == -1 && Sscanf(gfx, IntelGraphicsPForm) == -1
    ensures IntelNumberAsWritten(gfx, uninitialised) == Some(uninitialised)
  {
  }

  /** As written, the renderer text "Graphics" with no number is read as the uninitialised number. */
  lemma IntelNumberReadsUninitialised(uninitialised: int)
    ensures IntelNumberAsWritten("Graphics", uninitialised) == Some(uninitialised)
  {
    GraphicsAloneIsEOF();
    IntelNumberAsWrittenOnEOF("Graphics", uninitialised);
  }

  /** The same pattern with each sscanf compared to 1, as get_angle_info writes it. */
  function IntelNumber(gfx: string): (r: Option<int>)
    ensures r.Some? ==>
      (Sscanf(gfx, IntelGraphicsForm) == 1 && r.value == Scan(gfx, IntelGraphicsForm).values[0]) ||
      (Sscanf(gfx, IntelGraphicsPForm) == 1 && r.value == Scan(gfx, IntelGraphicsPForm).values[0])
    ensures r.None? <==> Sscanf(gfx, IntelGraphicsForm) != 1 && Sscanf(gfx, IntelGraphicsPForm) != 1
  {
    var plain := Scan(gfx, IntelGraphicsForm);
    if Count(plain) == 1 then Some(plain.values[0])
    else
      var withP := Scan(gfx, IntelGraphicsPForm);
      if Count(withP) == 1 then Some(withP.values[0]) else None
  }

  /** Corrected, "Graphics" with no number names no Intel generation. */
  lemma IntelNumberNeedsANumber()
    ensures IntelNumber("Graphics") == None
  {
    GraphicsAloneIsEOF();
  }

  /** Where a number is read, both definitions use it. */
  lemma IntelNumberAgreesWhenRead(gfx: string, uninitialised: int)
    requires Sscanf(gfx, IntelGraphicsForm) == 1 ||
             (Sscanf(gfx, IntelGraphicsForm) == 0 && Sscanf(gfx, IntelGraphicsPForm) == 1)
    ensures IntelNumberAsWritten(gfx, uninitialised) == IntelNumber(gfx)
  {
  }

  /**
   * The Intel tests on the text from the first "Intel" on: the generic Haswell
   * names, Sandybridge, Bay Trail, then the number after "Graphics".
   */
  function IntelRenderer(s: string): (r: Option<GLRenderer>)
    ensures r.Some? ==> r.value.IsIntel() && Contains(s, "Intel")
  {
    var i := Find(s, "Intel");
    if i < 0 then None
    else
      var intel := s[i..];
      if intel == "Intel Iris OpenGL Engine" || intel == "Intel Iris Pro OpenGL Engine" then Some(IntelHaswell)
      else if Contains(intel, "Sandybridge") then Some(IntelSandyBridge)
      else if Contains(intel, "Bay Trail") then Some(IntelValleyView)
      else
        var g := Find(intel, "Graphics");
        if g < 0 then None
        else match IntelNumber(intel[g..])
          case None => None
          case Some(n) => IntelFromNumber(n, Contains(intel, "UHD"))
  }

  /** The AMD tests on the text after the first "Radeon " and an optional "(TM) ". */
  function AMDRenderer(s: string): (r: Option<GLRenderer>)
    ensures r.Some? ==> r.value.IsAMD() && Contains(s, "Radeon ")
  {
    var i := Find(s, "Radeon ");
    if i < 0 then None
    else
      var afterRadeon := s[i + 7..];
      var amd := if StartsWith(afterRadeon, "(TM) ") then afterRadeon[5..] else afterRadeon;
      var m3 := Scan(amd, R9M3Form);
      var m4 := Scan(amd, R9M4Form);
      var hd7 := Scan(amd, HD7Form);
      var pro5 := Scan(amd, Pro5Form);
      if Count(m3) == 2 && AllDigitCodes(m3) then Some(AMDRadeonR9M3xx)
      else if Count(m4) == 2 && AllDigitCodes(m4) then Some(AMDRadeonR9M4xx)
      else if Count(hd7) == 3 && AllDigitCodes(hd7) then Some(AMDRadeonHD7xxx)
      else if Count(pro5) == 3 && AllDigitCodes(pro5) then Some(AMDRadeonPro5xxx)
      else if Sscanf(amd, ProVegaForm) == 1 then Some(AMDRadeonProVegaxx)
      else None
  }

  /** The remaining tests: llvmpipe, the Mali families, ANGLE, else other. */
  function LateRenderer(s: string): (r: GLRenderer)
    ensures r.IsLate()
    ensures r == ANGLE ==> IsRendererAngle(s)
    ensures r == GalliumLLVM <==> Contains(s, "llvmpipe")
    ensures r == MaliG <==> !Contains(s, "llvmpipe") && StartsWith(s, "Mali-G")
  {
    var mali := Scan(s, MaliForm);
    if Contains(s, "llvmpipe") then GalliumLLVM
    else if StartsWith(s, "Mali-G") then MaliG
    else if StartsWith(s, "Mali-T") then MaliT
    else if Count(mali) == 1 && 400 <= mali.values[0] < 500 then Mali4xx
    else if IsRendererAngle(s) then ANGLE
    else OtherRenderer
  }

  /** What each of get_renderer's tests makes of a string, in the order the tests run. */
  datatype Recognised = Recognised(
    tegra: Option<GLRenderer>, powerVR: Option<GLRenderer>, adreno: Option<GLRenderer>,
    swiftShader: bool, intel: Option<GLRenderer>, amd: Option<GLRenderer>, late: GLRenderer)

  /** Each test answers only with renderers of its own family. */
  predicate Families(t: Recognised) {
    (t.tegra.Some? ==> t.tegra.value.Tegra? || t.tegra.value.Tegra_PreK1?) &&
    (t.powerVR.Some? ==> t.powerVR.value.PowerVR54x? || t.powerVR.value.PowerVRRogue?) &&
    (t.adreno.Some? ==> t.adreno.value.IsAdreno()) &&
    (t.intel.Some? ==> t.intel.value.IsIntel()) &&
    (t.amd.Some? ==> t.amd.value.IsAMD()) &&
    t.late.IsLate()
  }

  function Recognise(s: string, extensions: set<string>): (t: Recognised)
    ensures Families(t)
  {
    Recognised(TegraRenderer(s, extensions), PowerVRRenderer(s), AdrenoRenderer(s),
      s == "Google SwiftShader", IntelRenderer(s), AMDRenderer(s), LateRenderer(s))
  }

  /** The answer of the first test that recognises the string. */
  function FirstRecognised(t: Recognised): GLRenderer {
    match t.tegra
    case Some(r) => r
    case None =>
      match t.powerVR
      case Some(r) => r
      case None =>
        match t.adreno
        case Some(r) => r
        case None =>
          if t.swiftShader then GoogleSwiftShader
          else match t.intel
            case Some(r) => r
            case None =>
              match t.amd
              case Some(r) => r
              case None => t.late
  }

  /** The family of the answer tells which test decided: the first one, in order, that answered. */
  lemma FirstRecognisedFamily(t: Recognised)
    requires Families(t)
    ensures var r := FirstRecognised(t);
      (r.Tegra? || r.Tegra_PreK1? <==> t.tegra.Some?) &&
      (r.PowerVR54x? || r.PowerVRRogue? <==> t.tegra.None? && t.powerVR.Some?) &&
      (r.IsAdreno() <==> t.tegra.None? && t.powerVR.None? && t.adreno.Some?) &&
      (r.GoogleSwiftShader? <==> t.tegra.None? && t.powerVR.None? && t.adreno.None? && t.swiftShader) &&
      (r.IsIntel() <==> t.tegra.None? && t.powerVR.None? && t.adreno.None? && !t.swiftShader && t.intel.Some?) &&
      (r.IsAMD() <==> t.tegra.None? && t.powerVR.None? && t.adreno.None? && !t.swiftShader && t.intel.None? && t.amd.Some?) &&
      (r.IsLate() <==> t.tegra.None? && t.powerVR.None? && t.adreno.None? && !t.swiftShader && t.intel.None? && t.amd.None?)
  {
  }

  /** The answer is that of the first test that answered. */
  lemma FirstRecognisedValue(t: Recognised)
    ensures t.tegra.Some? ==> FirstRecognised(t) == t.tegra.value
    ensures t.tegra.None? && t.powerVR.None? && t.adreno.Some? ==> FirstRecognised(t) == t.adreno.value
    ensures t.tegra.None? && t.powerVR.None? && t.adreno.None? && !t.swiftShader && t.intel.None? && t.amd.None? ==>
      FirstRecognised(t) == t.late
  {
  }

  /** get_renderer: the tests in the source's order; the first that recognises the string wins. */
  function RendererFromString(s: string, extensions: set<string>): GLRenderer {
    FirstRecognised(Recognise(s, extensions))
  }

  /** Exactly the strings starting "NVIDIA Tegra" are Tegra chips, told apart by the path-rendering extension. */
  lemma RendererTegra(s: string, extensions: set<string>)
    ensures var r := RendererFromString(s, extensions);
      (r.Tegra? || r.Tegra_PreK1? <==> StartsWith(s, "NVIDIA Tegra")) &&
      (r.Tegra? <==> StartsWith(s, "NVIDIA Tegra") && "GL_NV_path_rendering" in extensions)
  {
    FirstRecognisedFamily(Recognise(s, extensions));
  }

  /** A Rogue-class PowerVR is named by its prefix. */
  lemma RendererPowerVRRogue(s: string, extensions: set<string>)
    ensures RendererFromString(s, extensions).PowerVRRogue? ==>
      StartsWith(s, "PowerVR Rogue") || StartsWith(s, "Apple A7") || StartsWith(s, "Apple A8")
  {
    FirstRecognisedFamily(Recognise(s, extensions));
  }

  /** SwiftShader is recognised by its exact name only. */
  lemma RendererSwiftShader(s: string, extensions: set<string>)
    ensures RendererFromString(s, extensions).GoogleSwiftShader? ==> s == "Google SwiftShader"
  {
    FirstRecognisedFamily(Recognise(s, extensions));
  }

  /** An Intel result needs "Intel" in the string, and an AMD result "Radeon ". */
  lemma RendererIntelAMD(s: string, extensions: set<string>)
    ensures RendererFromString(s, extensions).IsIntel() ==> Contains(s, "Intel")
    ensures RendererFromString(s, extensions).IsAMD() ==> Contains(s, "Radeon ")
  {
    FirstRecognisedFamily(Recognise(s, extensions));
  }

  /** llvmpipe and ANGLE results have their markers. */
  lemma RendererLate(s: string, extensions: set<string>)
    ensures RendererFromString(s, extensions).GalliumLLVM? ==> Contains(s, "llvmpipe")
    ensures RendererFromString(s, extensions).ANGLE? ==> IsRendererAngle(s)
  {
    FirstRecognisedFamily(Recognise(s, extensions));
  }

  /** An ANGLE renderer that names no Intel, Radeon or llvmpipe device is classified as ANGLE. */
  lemma AngleRenderer(s: string, extensions: set<string>)
    requires IsRendererAngle(s)
    requires !Contains(s, "Intel") && !Contains(s, "Radeon ") && !Contains(s, "llvmpipe")
    ensures RendererFromString(s, extensions) == ANGLE
  {
    StartsWithAt(s, "ANGLE ", 0);
    StartsWithAt(s, "ANGLE ", 1);
    StartsWithAt(s, "NVIDIA Tegra", 0);
    NotPowerVR(s);
    NotAdreno(s);
    NotMali(s);
    FirstRecognisedValue(Recognise(s, extensions));
  }

  lemma NotPowerVR(s: string)
    requires |s| >= 2 && s[0] == 'A' && s[1] == 'N'
    ensures PowerVRRenderer(s).None?
  {
    ScanLitMismatch(s, "PowerVR", PowerVRSGXForm.tail);
  }

  lemma NotAdreno(s: string)
    requires |s| >= 2 && s[0] == 'A' && s[1] == 'N'
    ensures AdrenoRenderer(s).None?
  {
    ScanLitMismatch(s, "Adreno", AdrenoForm.tail);
    ScanLitMismatch(s, "FD", FreedrenoForm.tail);
  }

  lemma NotMali(s: string)
    requires |s| >= 1 && s[0] == 'A' && !Contains(s, "llvmpipe")
    ensures LateRenderer(s) == (if IsRendererAngle(s) then ANGLE else OtherRenderer)
  {
    ScanLitMismatch(s, "Mali-", MaliForm.tail);
  }

  /** "Adreno (TM) " split into its words. */
  lemma AdrenoTextPieces(num: string)
    ensures "Adreno (TM) " + num == "Adreno" + (" " + ("(TM)" + (" " + num)))
  {
  }

  /** The words of "Adreno (TM) %d" before the number. */
  lemma ScanAdrenoWords(num: string)
    requires num == "" || !IsSpace(num[0])
    ensures Scan("Adreno" + (" " + ("(TM)" + (" " + num))), AdrenoForm) == Scan(num, Cons(Int, End))
  {
    assert ("(TM)" + (" " + num))[0] == '(';
    ScanLitSpace("Adreno", "(TM)" + (" " + num), Cons(Lit("(TM)"), Cons(Space, Cons(Int, End))));
    ScanLitSpace("(TM)", num, Cons(Int, End));
  }

  lemma ScanAdrenoPieces(n: nat, rest: string)
    requires rest == "" || !IsDigit(rest[0])
    ensures Scan("Adreno" + (" " + ("(TM)" + (" " + (NatToString(n) + rest)))), AdrenoForm) ==
      Scanned([n], NoFailure, rest)
  {
    assert (NatToString(n) + rest)[0] == NatToString(n)[0];
    ScanAdrenoWords(NatToString(n) + rest);
    ScanNatAlone(n, rest);
  }

  /** "Adreno (TM) N…" scanned with "Adreno (TM) %d". */
  lemma ScanAdrenoText(n: nat, rest: string)
    requires rest == "" || !IsDigit(rest[0])
    ensures Scan("Adreno (TM) " + (NatToString(n) + rest), AdrenoForm) == Scanned([n], NoFailure, rest)
  {
    AdrenoTextPieces(NatToString(n) + rest);
    ScanAdrenoPieces(n, rest);
  }

  /** "Adreno (TM) N…" is the Adreno model of the number N, when N is in a known range. */
  lemma AdrenoRendererString(n: nat, rest: string, extensions: set<string>)
    requires rest == "" || !IsDigit(rest[0])
    requires AdrenoFromNumber(n).Some?
    ensures RendererFromString("Adreno (TM) " + (NatToString(n) + rest), extensions) == AdrenoFromNumber(n).value
  {
    AdrenoStringScans(n, rest);
    AdrenoTextStart(NatToString(n) + rest);
    AdrenoRecognised("Adreno (TM) " + (NatToString(n) + rest), extensions);
  }

  lemma AdrenoTextStart(num: string)
    ensures var s := "Adreno (TM) " + num; |s| >= 2 && s[0] == 'A' && s[1] == 'd'
  {
  }

  lemma AdrenoStringScans(n: nat, rest: string)
    requires rest == "" || !IsDigit(rest[0])
    ensures AdrenoRenderer("Adreno (TM) " + (NatToString(n) + rest)) == AdrenoFromNumber(n)
  {
    ScanAdrenoText(n, rest);
  }

  /** A string starting "Ad" that the Adreno test recognises is not taken by an earlier test. */
  lemma AdrenoRecognised(s: string, extensions: set<string>)
    requires |s| >= 2 && s[0] == 'A' && s[1] == 'd' && AdrenoRenderer(s).Some?
    ensures RendererFromString(s, extensions) == AdrenoRenderer(s).value
  {
    StartsWithAt(s, "NVIDIA Tegra", 0);
    AdrenoIsNotPowerVR(s);
    FirstRecognisedValue(Recognise(s, extensions));
  }

  lemma AdrenoIsNotPowerVR(s: string)
    requires |s| >= 2 && s[0] == 'A' && s[1] == 'd'
    ensures PowerVRRenderer(s).None?
  {
    ScanLitMismatch(s, "PowerVR", PowerVRSGXForm.tail);
  }

  // ---------------------------------------------------------------------------
  // Stencil tests

  /** GrStencilTest, in enum order 0..7. */
  datatype StencilTest = Always | Never | Greater | GEqual | Less | LEqual | Equal | NotEqual

  /** The OpenGL comparison function enums (GL_NEVER .. GL_ALWAYS). */
  const GL_NEVER := 0x0200
  const GL_LESS := 0x0201
  const GL_EQUAL := 0x0202
  const GL_LEQUAL := 0x0203
  const GL_GREATER := 0x0204
  const GL_NOTEQUAL := 0x0205
  const GL_GEQUAL := 0x0206
  const GL_ALWAYS := 0x0207

  function StencilTestIndex(t: StencilTest): (i: nat)
    ensures i < 8
  {
    match t
    case Always => 0 case Never => 1 case Greater => 2 case GEqual => 3
    case Less => 4 case LEqual => 5 case Equal => 6 case NotEqual => 7
  }

  /** gTable of GrToGLStencilFunc, indexed by the enum value. */
  const StencilFuncTable: seq<int> :=
    [GL_ALWAYS, GL_NEVER, GL_GREATER, GL_GEQUAL, GL_LESS, GL_LEQUAL, GL_EQUAL, GL_NOTEQUAL]

  /** GrToGLStencilFunc. */
  function ToGLStencilFunc(t: StencilTest): (f: int)
    ensures GL_NEVER <= f <= GL_ALWAYS
  {
    StencilFuncTable[StencilTestIndex(t)]
  }

  /** Whether a Skia stencil test passes for a reference and a stored value (both masked). */
  predicate TestPasses(t: StencilTest, ref: int, stored: int) {
    match t
    case Always => true
    case Never => false
    case Greater => ref > stored
    case GEqual => ref >= stored
    case Less => ref < stored
    case LEqual => ref <= stored
    case Equal => ref == stored
    case NotEqual => ref != stored
  }

  /** Whether a GL stencil function passes, as glStencilFunc defines it: the reference compared to the stored value. */
  predicate GLFuncPasses(f: int, ref: int, stored: int) {
    if f == GL_NEVER then false
    else if f == GL_LESS then ref < stored
    else if f == GL_EQUAL then ref == stored
    else if f == GL_LEQUAL then ref <= stored
    else if f == GL_GREATER then ref > stored
    else if f == GL_NOTEQUAL then ref != stored
    else if f == GL_GEQUAL then ref >= stored
    else true
  }

  /** The table maps each test to the GL function with the same meaning. */
  lemma StencilFuncMeansTheSame(t: StencilTest, ref: int, stored: int)
    ensures GLFuncPasses(ToGLStencilFunc(t), ref, stored) == TestPasses(t, ref, stored)
  {
  }

  /** The table is one to one: distinct tests get distinct GL functions. */
  lemma StencilFuncInjective(a: StencilTest, b: StencilTest)
    requires ToGLStencilFunc(a) == ToGLStencilFunc(b)
    ensures a == b
  {
  }

  // ---------------------------------------------------------------------------
  // Formats

  datatype GLFormat =
    | RGBA8 | R8 | ALPHA8 | LUMINANCE8 | LUMINANCE8_ALPHA8 | BGRA8 | RGB565 | RGBA16F | R16F
    | RGB8 | RG8 | RGB10_A2 | RGBA4 | SRGB8_ALPHA8
    | COMPRESSED_ETC1_RGB8 | COMPRESSED_RGB8_ETC2 | COMPRESSED_RGB8_BC1 | COMPRESSED_RGBA8_BC1
    | R16 | RG16 | RGBA16 | RG16F | LUMINANCE16F | STENCIL_INDEX8 | STENCIL_INDEX16 | DEPTH24_STENCIL8
    | UnknownFormat

  /** GrGLFormatIsCompressed: the ETC1, ETC2 and the two BC1 formats. */
  function FormatIsCompressed(format: GLFormat): (r: bool)
    ensures r <==> format in {COMPRESSED_ETC1_RGB8, COMPRESSED_RGB8_ETC2, COMPRESSED_RGB8_BC1, COMPRESSED_RGBA8_BC1}
  {
    match format
    case COMPRESSED_ETC1_RGB8 => true
    case COMPRESSED_RGB8_ETC2 => true
    case COMPRESSED_RGB8_BC1 => true
    case COMPRESSED_RGBA8_BC1 => true
    case _ => false
  }
}
