// sksl-minify: the output-name helpers, and processCommand's re-lexing of the first
// module into a C string literal, with comments and white space dropped, float
// literals shortened, a space only where two identifier characters would touch and
// a line break once a line is full (tools/sksl-minify/SkSLMinify.cpp).
module Minify {
  import opened Wrappers
  import opened Text

  /** ResultCode: kSuccess, kCompileError, kInputError, kOutputError. */
  datatype ResultCode = Success | CompileError | InputError | OutputError

  function CodeValue(c: ResultCode): (r: int)
    ensures 0 <= r <= 3 && (r == 0 <==> c == Success)
  {
    match c
    case Success => 0
    case CompileError => 1
    case InputError => 2
    case OutputError => 3
  }

  /** base_name: the text after the last '/' or '\', or the whole path. */
  function BaseName(path: string): (r: string)
    ensures |r| <= |path| && r == path[|path| - |r|..]
    ensures forall i :: 0 <= i < |r| ==> r[i] != '/' && r[i] != '\\'
    ensures |r| < |path| ==> path[|path| - |r| - 1] in {'/', '\\'}
  {
    var slashPos := FindLastOf(path, {'/', '\\'});
    var r := path[if slashPos == -1 then 0 else slashPos + 1..];
    assert forall i :: 0 <= i < |r| ==> r[i] == path[i + |path| - |r|];
    r
  }

  /** remove_extension: the text before the last '.', or the whole path. */
  function RemoveExtension(path: string): (r: string)
    ensures |r| <= |path| && r == path[..|r|]
    ensures |r| < |path| ==> path[|r|] == '.' && forall i :: |r| < i < |path| ==> path[i] != '.'
    ensures |r| == |path| ==> forall i :: 0 <= i < |path| ==> path[i] != '.'
  {
    var dotPos := FindLastOf(path, {'.'});
    if dotPos == -1 then path else path[..dotPos]
  }

  /** The name after a directory and a slash is the base name. */
  lemma BaseNameOf(dir: string, name: string)
    requires forall i :: 0 <= i < |name| ==> name[i] != '/' && name[i] != '\\'
    ensures BaseName(dir + "/" + name) == name
  {
    var path := dir + "/" + name;
    assert path[|dir|] == '/';
    assert forall i :: |dir| < i < |path| ==> path[i] == name[i - |dir| - 1];
    assert path[|path| - |name|..] == name;
  }

  /** The stem before a dot and an extension without dots is what remove_extension keeps. */
  lemma RemoveExtensionOf(stem: string, ext: string)
    requires forall i :: 0 <= i < |ext| ==> ext[i] != '.'
    ensures RemoveExtension(stem + "." + ext) == stem
  {
    var path := stem + "." + ext;
    assert path[|stem|] == '.';
    assert forall i :: |stem| < i < |path| ==> path[i] == ext[i - |stem| - 1];
    assert path[..|stem|] == stem;
  }

  /** maybe_identifier: alphanumeric, '$' or '_'. */
  predicate MaybeIdentifier(c: char) { IsAlnum(c) || c == '$' || c == '_' }

  /** The while loop that drops trailing zeros from a float literal while it is longer than two characters. */
  method TrimTrailingZeros(text: string) returns (r: string)
    requires |text| > 0
    ensures 0 < |r| <= |text| && r == text[..|r|]
    ensures forall i :: |r| <= i < |text| ==> text[i] == '0'
    ensures |text| <= 2 ==> r == text
    ensures |text| > 2 ==> |r| >= 2 && (|r| == 2 || r[|r| - 1] != '0')
  {
    r := text;
    while r[|r| - 1] == '0' && |r| > 2
      invariant 2 <= |r| || r == text
      invariant 0 < |r| <= |text| && r == text[..|r|]
      invariant forall i :: |r| <= i < |text| ==> text[i] == '0'
      decreases |r|
    {
      r := r[..|r| - 1];
    }
  }

  /** The trimmed text: the characters the zero-dropping loop leaves. */
  function Trimmed(text: string): (r: string)
    requires |text| > 0
    ensures |r| > 0
    decreases |text|
  {
    if text[|text| - 1] == '0' && |text| > 2 then Trimmed(text[..|text| - 1]) else text
  }

  /** The loop removes exactly the characters Trimmed does. */
  lemma {:induction false} TrimmedIsLoop(text: string, r: string)
    requires 0 < |r| <= |text| && r == text[..|r|]
    requires forall i :: |r| <= i < |text| ==> text[i] == '0'
    requires |text| <= 2 ==> r == text
    requires |text| > 2 ==> |r| >= 2 && (|r| == 2 || r[|r| - 1] != '0')
    ensures Trimmed(text) == r
    decreases |text|
  {
    if |r| < |text| {
      assert text[|text| - 1] == '0' && |text| > 2;
      var init := text[..|text| - 1];
      assert r == init[..|r|];
      TrimmedIsLoop(init, r);
    } else {
      assert text[..|text|] == text;
    }
  }

  /** The lexer's token kinds, as far as processCommand tells them apart. */
  datatype TokenKind = LineComment | BlockComment | Whitespace | Invalid | FloatLiteral | OtherToken

  /** A token and its text (stringize of its offset and length). */
  datatype Token = Token(kind: TokenKind, text: string)

  predicate Skipped(t: Token) {
    t.kind == LineComment || t.kind == BlockComment || t.kind == Whitespace || (t.kind != Invalid && t.text == "")
  }

  /** A float literal without 'e' or 'E' and with a '.' drops trailing zeros. */
  function Shortened(t: Token): (r: string)
    requires |t.text| > 0
    ensures |r| > 0
  {
    if t.kind == FloatLiteral && !Contains(t.text, "e") && !Contains(t.text, "E") && Contains(t.text, ".") then Trimmed(t.text)
    else t.text
  }

  /** The texts processCommand writes, in order, for tokens none of which is invalid. */
  function Kept(tokens: seq<Token>): (r: seq<string>)
    ensures forall i :: 0 <= i < |r| ==> |r[i]| > 0
  {
    if |tokens| == 0 then []
    else
      var t := tokens[|tokens| - 1];
      Kept(tokens[..|tokens| - 1]) + (if Skipped(t) || t.kind == Invalid then [] else [Shortened(t)])
  }

  /** The position of the first invalid token, or the length when there is none. */
  function FirstInvalid(tokens: seq<Token>): (k: nat)
    ensures k <= |tokens| && (k < |tokens| ==> tokens[k].kind == Invalid)
    ensures forall j :: 0 <= j < k ==> tokens[j].kind != Invalid
  {
    if |tokens| == 0 then 0
    else if tokens[0].kind == Invalid then 0
    else 1 + FirstInvalid(tokens[1..])
  }

  /** A piece of the emitted literal: a line break, a separating space, or a token's text. */
  datatype Piece = Wrap | Space | Text(text: string)

  /** What a piece writes to the file. */
  function Written(p: Piece): string {
    match p
    case Wrap => "\"\n\""
    case Space => " "
    case Text(t) => t
  }

  /** What a piece contributes to the string the C literal denotes. */
  function Denoted(p: Piece): string {
    match p
    case Wrap => ""
    case Space => " "
    case Text(t) => t
  }

  function Render(ps: seq<Piece>): string {
    if |ps| == 0 then "" else Render(ps[..|ps| - 1]) + Written(ps[|ps| - 1])
  }

  function Content(ps: seq<Piece>): string {
    if |ps| == 0 then "" else Content(ps[..|ps| - 1]) + Denoted(ps[|ps| - 1])
  }

  /** lineWidth's meaning: one (the opening quote) plus the characters since the last break. */
  function CurrentWidth(ps: seq<Piece>): nat {
    if |ps| == 0 then 1
    else if ps[|ps| - 1] == Wrap then 1
    else CurrentWidth(ps[..|ps| - 1]) + |Written(ps[|ps| - 1])|
  }

  /** The loop's state: the pieces written, lineWidth and lastTokenText. */
  datatype Layout = Layout(pieces: seq<Piece>, width: int, last: string)

  const Initial := Layout([], 1, " ")

  predicate NeedsSpace(last: string, next: string)
    requires |last| > 0 && |next| > 0
  {
    MaybeIdentifier(last[|last| - 1]) && MaybeIdentifier(next[0])
  }

  /** One kept token: a break when the line is past 75, a space when identifiers would touch, the text. */
  function Emit(st: Layout, t: string): (r: Layout)
    requires |st.last| > 0 && |t| > 0
    ensures r.last == t
  {
    var wrap := st.width > 75;
    var p1 := if wrap then st.pieces + [Wrap] else st.pieces;
    var w1 := if wrap then 1 else st.width;
    var space := NeedsSpace(st.last, t);
    var p2 := if space then p1 + [Space] else p1;
    Layout(p2 + [Text(t)], w1 + (if space then 1 else 0) + |t|, t)
  }

  function EmitAll(texts: seq<string>): (r: Layout)
    requires forall i :: 0 <= i < |texts| ==> |texts[i]| > 0
    ensures |r.last| > 0
  {
    if |texts| == 0 then Initial else Emit(EmitAll(texts[..|texts| - 1]), texts[|texts| - 1])
  }

  /**
   * The reference for the denoted text: the texts in order, with a single space
   * between two neighbours exactly when an identifier character would meet another.
   */
  function Spaced(texts: seq<string>): string
    requires forall i :: 0 <= i < |texts| ==> |texts[i]| > 0
  {
    if |texts| == 0 then ""
    else
      var init := texts[..|texts| - 1];
      var t := texts[|texts| - 1];
      Spaced(init) + (if |init| > 0 && NeedsSpace(init[|init| - 1], t) then " " else "") + t
  }

  lemma RenderSnoc(ps: seq<Piece>, p: Piece)
    ensures Render(ps + [p]) == Render(ps) + Written(p)
    ensures Content(ps + [p]) == Content(ps) + Denoted(p)
  {
    assert (ps + [p])[..|ps|] == ps;
  }

  lemma CurrentWidthSnoc(ps: seq<Piece>, p: Piece)
    ensures CurrentWidth(ps + [p]) == if p == Wrap then 1 else CurrentWidth(ps) + |Written(p)|
  {
    assert (ps + [p])[..|ps|] == ps;
  }

  /** Every line break follows a line whose width passed 75. */
  ghost predicate BreaksFull(ps: seq<Piece>) {
    forall i :: 0 <= i < |ps| && ps[i] == Wrap ==> CurrentWidth(ps[..i]) > 75
  }

  lemma BreaksFullSnoc(ps: seq<Piece>, p: Piece)
    requires BreaksFull(ps) && (p == Wrap ==> CurrentWidth(ps) > 75)
    ensures BreaksFull(ps + [p])
  {
    var q := ps + [p];
    forall i | 0 <= i < |q| && q[i] == Wrap ensures CurrentWidth(q[..i]) > 75 {
      if i < |ps| {
        assert q[..i] == ps[..i];
      } else {
        assert q[..i] == ps;
      }
    }
  }

  /**
   * The layout keeps lineWidth equal to the width of the current line, breaks only
   * after full lines, and denotes exactly the spaced texts.
   */
  lemma {:induction false} EmitAllLayout(texts: seq<string>)
    requires forall i :: 0 <= i < |texts| ==> |texts[i]| > 0
    ensures var st := EmitAll(texts);
      st.width == CurrentWidth(st.pieces) && BreaksFull(st.pieces) &&
      Content(st.pieces) == Spaced(texts) &&
      (|texts| > 0 ==> st.last == texts[|texts| - 1])
    decreases |texts|
  {
    if |texts| > 0 {
      var init := texts[..|texts| - 1];
      var t := texts[|texts| - 1];
      EmitAllLayout(init);
      var st := EmitAll(init);
      EmitStep(st, t);
      if |init| == 0 {
        assert !NeedsSpace(st.last, t);
      }
    }
  }

  /** One Emit keeps the width, break and content facts. */
  lemma EmitStep(st: Layout, t: string)
    requires |st.last| > 0 && |t| > 0
    requires st.width == CurrentWidth(st.pieces) && BreaksFull(st.pieces)
    ensures var r := Emit(st, t);
      r.width == CurrentWidth(r.pieces) && BreaksFull(r.pieces) &&
      Content(r.pieces) == Content(st.pieces) + (if NeedsSpace(st.last, t) then " " else "") + t
  {
    var wrap := st.width > 75;
    var p1 := if wrap then st.pieces + [Wrap] else st.pieces;
    var w1 := if wrap then 1 else st.width;
    assert CurrentWidth(p1) == w1 && BreaksFull(p1) && Content(p1) == Content(st.pieces) by {
      if wrap {
        PieceStep(st.pieces, Wrap);
      }
    }
    var space := NeedsSpace(st.last, t);
    var p2 := if space then p1 + [Space] else p1;
    var sp := if space then " " else "";
    assert CurrentWidth(p2) == w1 + |sp| && BreaksFull(p2) && Content(p2) == Content(st.pieces) + sp by {
      if space {
        PieceStep(p1, Space);
      }
    }
    PieceStep(p2, Text(t));
  }

  /** A kept token begins at this piece: its separating space, or its text when no space precedes it. */
  predicate StartsToken(ps: seq<Piece>, i: int)
    requires 0 <= i < |ps|
  {
    ps[i] == Space || (ps[i].Text? && (i == 0 || ps[i - 1] != Space))
  }

  /** Every token begins on a line no wider than 75: a line past 75 is broken before the next token. */
  ghost predicate WrapsFull(ps: seq<Piece>) {
    forall i :: 0 <= i < |ps| && StartsToken(ps, i) ==> CurrentWidth(ps[..i]) <= 75
  }

  lemma WrapsFullSnoc(ps: seq<Piece>, p: Piece)
    requires WrapsFull(ps) && (StartsToken(ps + [p], |ps|) ==> CurrentWidth(ps) <= 75)
    ensures WrapsFull(ps + [p])
  {
    var q := ps + [p];
    forall i | 0 <= i < |q| && StartsToken(q, i) ensures CurrentWidth(q[..i]) <= 75 {
      if i < |ps| {
        assert q[..i] == ps[..i];
        assert StartsToken(ps, i);
      } else {
        assert q[..i] == ps;
      }
    }
  }

  /** One Emit keeps every token on a line that was not yet past 75 when the token began. */
  lemma EmitWraps(st: Layout, t: string)
    requires |st.last| > 0 && |t| > 0
    requires st.width == CurrentWidth(st.pieces) && WrapsFull(st.pieces)
    ensures WrapsFull(Emit(st, t).pieces)
  {
    var wrap := st.width > 75;
    var p1 := if wrap then st.pieces + [Wrap] else st.pieces;
    if wrap {
      WrapsFullSnoc(st.pieces, Wrap);
      CurrentWidthSnoc(st.pieces, Wrap);
    }
    if NeedsSpace(st.last, t) {
      WrapsFullSnoc(p1, Space);
      WrapsFullSnoc(p1 + [Space], Text(t));
    } else {
      WrapsFullSnoc(p1, Text(t));
    }
  }

  /**
   * The converse of the break rule of `EmitAllLayout`: no token is written on a
   * line already past 75 columns, so such a line is always broken first.
   */
  lemma {:induction false} EmitAllWraps(texts: seq<string>)
    requires forall i :: 0 <= i < |texts| ==> |texts[i]| > 0
    ensures WrapsFull(EmitAll(texts).pieces)
    decreases |texts|
  {
    if |texts| > 0 {
      var init := texts[..|texts| - 1];
      EmitAllWraps(init);
      EmitAllLayout(init);
      EmitWraps(EmitAll(init), texts[|texts| - 1]);
    }
  }

  /** One more piece: the width, break and content facts it adds. */
  lemma PieceStep(ps: seq<Piece>, p: Piece)
    requires BreaksFull(ps) && (p == Wrap ==> CurrentWidth(ps) > 75)
    ensures BreaksFull(ps + [p])
    ensures CurrentWidth(ps + [p]) == if p == Wrap then 1 else CurrentWidth(ps) + |Written(p)|
    ensures Content(ps + [p]) == Content(ps) + Denoted(p)
  {
    BreaksFullSnoc(ps, p);
    CurrentWidthSnoc(ps, p);
    RenderSnoc(ps, p);
  }

  /** The text a C compiler sees in the literal never has a space between two non-identifier neighbours. */
  lemma {:induction false} SpacedSpaces(texts: seq<string>)
    requires forall i :: 0 <= i < |texts| ==> |texts[i]| > 0
    requires forall i, k :: 0 <= i < |texts| && 0 <= k < |texts[i]| ==> texts[i][k] != ' '
    ensures var s := Spaced(texts);
      forall p :: 0 <= p < |s| && s[p] == ' ' ==> 0 < p < |s| - 1 && MaybeIdentifier(s[p - 1]) && MaybeIdentifier(s[p + 1])
    decreases |texts|
  {
    if |texts| > 0 {
      var init := texts[..|texts| - 1];
      var t := texts[|texts| - 1];
      SpacedSpaces(init);
      var a := Spaced(init);
      var sp := if |init| > 0 && NeedsSpace(init[|init| - 1], t) then " " else "";
      var s := a + sp + t;
      SpacedEnd(init);
      forall p | 0 <= p < |s| && s[p] == ' '
        ensures 0 < p < |s| - 1 && MaybeIdentifier(s[p - 1]) && MaybeIdentifier(s[p + 1])
      {
        assert p < |a| + |sp|;
        if p < |a| {
          assert s[p] == a[p];
          assert p + 1 < |a|;
          assert s[p - 1] == a[p - 1] && s[p + 1] == a[p + 1];
        } else {
          assert s[p - 1] == a[|a| - 1] && s[p + 1] == t[0];
        }
      }
    }
  }

  /** The spaced text of non-empty texts ends with the last one's last character. */
  lemma SpacedEnd(texts: seq<string>)
    requires forall i :: 0 <= i < |texts| ==> |texts[i]| > 0
    ensures |texts| > 0 ==> |Spaced(texts)| > 0 && Spaced(texts)[|Spaced(texts)| - 1] == texts[|texts| - 1][|texts[|texts| - 1]| - 1]
    ensures |texts| == 0 ==> Spaced(texts) == ""
  {
  }

  /**
   * The token loop of processCommand: comments, white space and empty tokens are
   * skipped, an invalid token stops with kInputError, and every other token is
   * written (a float shortened), after a break and a space as needed.
   */
  method WriteTokens(tokens: seq<Token>) returns (out: string, ok: bool)
    ensures var k := FirstInvalid(tokens);
      ok == (k == |tokens|) && out == Render(EmitAll(Kept(tokens[..k])).pieces)
  {
    var lastTokenText := " ";
    var lineWidth := 1;
    out := "";
    var i := 0;
    ghost var kept := [];
    while i < |tokens|
      invariant 0 <= i <= |tokens| && FirstInvalid(tokens) >= i
      invariant kept == Kept(tokens[..i])
      invariant out == Render(EmitAll(kept).pieces) && lineWidth == EmitAll(kept).width && lastTokenText == EmitAll(kept).last
    {
      var token := tokens[i];
      KeptSnoc(tokens, i);
      if token.kind == LineComment || token.kind == BlockComment || token.kind == Whitespace {
        i := i + 1;
        continue;
      }
      var thisTokenText := token.text;
      if token.kind == Invalid {
        FirstInvalidAt(tokens, i);
        ok := false;
        return;
      }
      if |thisTokenText| == 0 {
        i := i + 1;
        continue;
      }
      if token.kind == FloatLiteral {
        if !Contains(thisTokenText, "e") && !Contains(thisTokenText, "E") {
          if Contains(thisTokenText, ".") {
            thisTokenText := TrimTrailingZeros(thisTokenText);
            TrimmedIsLoop(token.text, thisTokenText);
          }
        }
      }
      out, lineWidth := WriteToken(out, lineWidth, lastTokenText, thisTokenText, EmitAll(kept));
      EmitAllSnoc(kept, thisTokenText);
      kept := kept + [thisTokenText];
      lastTokenText := thisTokenText;
      i := i + 1;
    }
    assert tokens[..i] == tokens;
    ok := true;
  }

  lemma KeptSnoc(tokens: seq<Token>, i: nat)
    requires i < |tokens|
    ensures var t := tokens[i];
      Kept(tokens[..i + 1]) == Kept(tokens[..i]) + (if Skipped(t) || t.kind == Invalid then [] else [Shortened(t)])
  {
    assert tokens[..i + 1][..i] == tokens[..i];
  }

  lemma EmitAllSnoc(texts: seq<string>, t: string)
    requires (forall i :: 0 <= i < |texts| ==> |texts[i]| > 0) && |t| > 0
    ensures EmitAll(texts + [t]) == Emit(EmitAll(texts), t)
  {
    assert (texts + [t])[..|texts|] == texts;
  }

  lemma FirstInvalidAt(tokens: seq<Token>, i: nat)
    requires i < |tokens| && tokens[i].kind == Invalid && FirstInvalid(tokens) >= i
    ensures FirstInvalid(tokens) == i
  {
  }

  /** One written token: the break, the space and the text, with lineWidth kept. */
  method WriteToken(out: string, lineWidth: int, lastTokenText: string, thisTokenText: string, ghost st: Layout)
    returns (out': string, lineWidth': int)
    requires |lastTokenText| > 0 && |thisTokenText| > 0
    requires out == Render(st.pieces) && lineWidth == st.width && lastTokenText == st.last
    ensures var r := Emit(st, thisTokenText); out' == Render(r.pieces) && lineWidth' == r.width
  {
    out', lineWidth' := out, lineWidth;
    ghost var ps := st.pieces;
    if lineWidth' > 75 {
      RenderSnoc(ps, Wrap);
      out' := out' + "\"\n\"";
      lineWidth' := 1;
      ps := ps + [Wrap];
    }
    if MaybeIdentifier(lastTokenText[|lastTokenText| - 1]) && MaybeIdentifier(thisTokenText[0]) {
      RenderSnoc(ps, Space);
      out' := out' + " ";
      lineWidth' := lineWidth' + 1;
      ps := ps + [Space];
    }
    RenderSnoc(ps, Text(thisTokenText));
    out' := out' + thisTokenText;
    lineWidth' := lineWidth' + |thisTokenText|;
  }

  /** The inputs processCommand reaches through the file system and the compiler. */
  datatype Environment = Environment(
    modulesCompile: bool,   // compile_module_list returned a non-empty list
    outputOpens: bool,      // the output stream is valid
    rereadOk: bool,         // re-reading the first input succeeded
    tokens: seq<Token>,     // the lexer's tokens of the first input, before end of file
    closes: bool)           // closing the output succeeded

  /** The line that opens the generated literal. */
  function Header(firstInput: string): string {
    "static constexpr char SKSL_MINIFIED_" + RemoveExtension(BaseName(firstInput)) + "[] =\n\""
  }

  /**
   * processCommand as written: fewer than two arguments or a failed compile give
   * kInputError, an unopenable output kOutputError; a failed re-read of the input
   * returns a value-initialised ResultCode, which is kSuccess. `written` is what
   * reaches the output file.
   */
  method ProcessCommand(args: seq<string>, env: Environment) returns (code: ResultCode, written: string)
    ensures |args| < 2 ==> code == InputError && written == ""
    ensures |args| >= 2 && !env.modulesCompile ==> code == InputError && written == ""
    ensures |args| >= 2 && env.modulesCompile && !env.outputOpens ==> code == OutputError && written == ""
    ensures |args| >= 2 && env.modulesCompile && env.outputOpens ==>
      var k := FirstInvalid(env.tokens);
      var body := Render(EmitAll(Kept(env.tokens[..k])).pieces);
      (!env.rereadOk ==> code == Success && written == Header(args[1])) &&
      (env.rereadOk && k < |env.tokens| ==> code == InputError && written == Header(args[1]) + body) &&
      (env.rereadOk && k == |env.tokens| ==>
        written == Header(args[1]) + body + "\";\n" && code == (if env.closes then Success else OutputError))
  {
    written := "";
    if |args| < 2 {
      return InputError, written;
    }
    if !env.modulesCompile {
      return InputError, written;
    }
    if !env.outputOpens {
      return OutputError, written;
    }
    written := Header(args[1]);
    if !env.rereadOk {
      return Success, written;
    }
    var body, ok := WriteTokens(env.tokens);
    written := written + body;
    if !ok {
      return InputError, written;
    }
    written := written + "\";\n";
    if !env.closes {
      return OutputError, written;
    }
    return Success, written;
  }

  /** The re-read failure path reports success although the literal was never written. */
  method RereadFailureReportsSuccess(args: seq<string>, env: Environment) returns (code: ResultCode)
    requires |args| >= 2 && env.modulesCompile && env.outputOpens && !env.rereadOk
    ensures code == Success
  {
    var written;
    code, written := ProcessCommand(args, env);
  }

  /** processCommand with the re-read failure reported as kInputError, as every other input failure is. */
  method ProcessCommandChecked(args: seq<string>, env: Environment) returns (code: ResultCode, written: string)
    ensures code == Success ==>
      |args| >= 2 && env.modulesCompile && env.outputOpens && env.rereadOk &&
      FirstInvalid(env.tokens) == |env.tokens| && env.closes &&
      written == Header(args[1]) + Render(EmitAll(Kept(env.tokens)).pieces) + "\";\n"
    ensures |args| >= 2 && env.modulesCompile && env.outputOpens && !env.rereadOk ==> code == InputError
  {
    code, written := ProcessCommand(args, env);
    if |args| >= 2 && env.modulesCompile && env.outputOpens && !env.rereadOk {
      code := InputError;
    }
    if code == Success {
      assert env.tokens[..|env.tokens|] == env.tokens;
    }
  }
}
