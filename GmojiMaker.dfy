// The table generator for the emoji private-use-area glyphs
// (legacy/emoji/GmojiMaker.cpp): each input line starts with five hex digits
// naming a code point in 0xFE000..0xFEFFF; the output is the sorted table of
// those code points relative to the first, with the first and last as bounds.
module GmojiMaker {
  import opened Wrappers

  /** `hexchar_to_int`: the value of a hex digit of either case, -1 for anything else. */
  function HexCharToInt(c: char): (v: int)
    ensures -1 <= v < 16
  {
    if '0' <= c <= '9' then c as int - '0' as int
    else if 'A' <= c <= 'F' then 10 + c as int - 'A' as int
    else if 'a' <= c <= 'f' then 10 + c as int - 'a' as int
    else -1
  }

  const UpperDigits: string := "0123456789ABCDEF"
  const LowerDigits: string := "0123456789abcdef"

  /** Each upper-case digit reads as its own value. */
  lemma UpperDigitValue(v: int)
    requires 0 <= v < 16
    ensures HexCharToInt(UpperDigits[v]) == v
  {
  }

  /** Each lower-case digit reads as its own value. */
  lemma LowerDigitValue(v: int)
    requires 0 <= v < 16
    ensures HexCharToInt(LowerDigits[v]) == v
  {
  }

  /** Only the digits are recognised: a character with a value is that value's digit in one case or the other. */
  lemma HexCharToIntOnlyDigits(c: char)
    requires HexCharToInt(c) >= 0
    ensures c == UpperDigits[HexCharToInt(c)] || c == LowerDigits[HexCharToInt(c)]
  {
    var v := HexCharToInt(c);
    if '0' <= c <= '9' {
      assert UpperDigits[v] == c;
    } else if 'A' <= c <= 'F' {
      assert UpperDigits[v] == c;
    } else {
      assert LowerDigits[v] == c;
    }
  }

  /** The buffer's character at `i`: past the line's end `fgets` leaves a NUL, never a hex digit. */
  function CharAt(line: string, i: int): char {
    if 0 <= i < |line| then line[i] else '\0'
  }

  /** Powers of 16 below 16^5, by digit count. */
  function Scale(i: int): int {
    if i <= 0 then 1 else if i == 1 then 16 else if i == 2 then 0x100 else if i == 3 then 0x1000
    else if i == 4 then 0x1_0000 else 0x10_0000
  }

  /**
   * The digits from column `i` on, accumulated into `acc` as the source does
   * with `pua = (pua << 4) | value`: a digit is below 16, so the `|` fills the
   * four bits the shift cleared, which is `acc * 16 + value`.
   */
  function ParseFrom(line: string, i: int, acc: int): Result<int, int>
    requires 0 <= i <= 5
    decreases 5 - i
  {
    if i == 5 then Ok(acc)
    else
      var value := HexCharToInt(CharAt(line, i));
      if value < 0 then Err(i) else ParseFrom(line, i + 1, acc * 16 + value)
  }

  /**
   * Reading from column `i` fails exactly when a column before 5 holds no
   * digit, and names the first such column.
   */
  lemma {:induction false} ParseFromOutcome(line: string, i: int, acc: int)
    requires 0 <= i <= 5
    ensures ParseFrom(line, i, acc).Ok? <==> forall j :: i <= j < 5 ==> HexCharToInt(CharAt(line, j)) >= 0
    ensures ParseFrom(line, i, acc).Err? ==>
      (var col := ParseFrom(line, i, acc).error;
       i <= col < 5 && HexCharToInt(CharAt(line, col)) < 0 &&
       forall j :: i <= j < col ==> HexCharToInt(CharAt(line, j)) >= 0)
    decreases 5 - i
  {
    if i < 5 {
      var value := HexCharToInt(CharAt(line, i));
      if value >= 0 {
        ParseFromOutcome(line, i + 1, acc * 16 + value);
      }
    }
  }

  /** A successful read from an accumulator of `i` digits is a value of five hex digits. */
  lemma {:induction false} ParseFromBound(line: string, i: int, acc: int)
    requires 0 <= i <= 5 && 0 <= acc < Scale(i)
    ensures ParseFrom(line, i, acc).Ok? ==> 0 <= ParseFrom(line, i, acc).value < 0x10_0000
    decreases 5 - i
  {
    if i < 5 {
      var value := HexCharToInt(CharAt(line, i));
      if value >= 0 {
        ParseFromBound(line, i + 1, acc * 16 + value);
      }
    }
  }

  /** The value of a line: its first five characters as big-endian hex, or the first column that is not a digit. */
  function ParseHex5(line: string): Result<int, int> {
    ParseFrom(line, 0, 0)
  }

  /** Five upper-case hex digits of `v`, most significant first. */
  function Hex5(v: int): string
    requires 0 <= v < 0x10_0000
  {
    var q1 := v / 16;
    var q2 := q1 / 16;
    var q3 := q2 / 16;
    var q4 := q3 / 16;
    [UpperDigits[q4 % 16], UpperDigits[q3 % 16], UpperDigits[q2 % 16], UpperDigits[q1 % 16], UpperDigits[v % 16]]
  }

  /** One digit read. */
  lemma ParseStep(line: string, i: int, acc: int, d: int, next: int)
    requires 0 <= i < 5 && HexCharToInt(CharAt(line, i)) == d >= 0 && next == acc * 16 + d
    ensures ParseFrom(line, i, acc) == ParseFrom(line, i + 1, next)
  {
  }

  /** Any five-digit value written in hex reads back, whatever follows it on the line. */
  lemma ParseHex5RoundTrip(v: int, rest: string)
    requires 0 <= v < 0x10_0000
    ensures ParseHex5(Hex5(v) + rest) == Ok(v)
  {
    var line := Hex5(v) + rest;
    var q1 := v / 16;
    var q2 := q1 / 16;
    var q3 := q2 / 16;
    var q4 := q3 / 16;
    assert q1 < 0x1_0000 && q2 < 0x1000 && q3 < 0x100 && q4 < 16;
    assert q4 % 16 == q4;
    var h := Hex5(v);
    assert CharAt(line, 0) == h[0] == UpperDigits[q4 % 16];
    assert CharAt(line, 1) == h[1] == UpperDigits[q3 % 16];
    assert CharAt(line, 2) == h[2] == UpperDigits[q2 % 16];
    assert CharAt(line, 3) == h[3] == UpperDigits[q1 % 16];
    assert CharAt(line, 4) == h[4] == UpperDigits[v % 16];
    UpperDigitValue(q4 % 16);
    UpperDigitValue(q3 % 16);
    UpperDigitValue(q2 % 16);
    UpperDigitValue(q1 % 16);
    UpperDigitValue(v % 16);
    ParseStep(line, 0, 0, q4, q4);
    ParseStep(line, 1, q4, q3 % 16, q3);
    ParseStep(line, 2, q3, q2 % 16, q2);
    ParseStep(line, 3, q2, q1 % 16, q1);
    ParseStep(line, 4, q1, v % 16, v);
    assert ParseFrom(line, 5, v) == Ok(v);
  }

  /** The five-digit read loop of one line. */
  method ReadHex5(line: string) returns (r: Result<int, int>)
    ensures r == ParseHex5(line)
  {
    var pua := 0;
    for i := 0 to 5
      invariant ParseFrom(line, i, pua) == ParseHex5(line)
    {
      var value := HexCharToInt(CharAt(line, i));
      if value < 0 {
        return Err(i);
      }
      pua := pua * 16 + value;
    }
    return Ok(pua);
  }

  const PuaFirst := 0xFE000
  const PuaLast := 0xFEFFF

  predicate InRange(pua: int) {
    PuaFirst <= pua <= PuaLast
  }

  /** How a run of the generator ends. */
  datatype Outcome =
    | CannotOpen
    | BadHex(lineNo: nat, col: int)
    | OutOfRange(pua: int, lineNo: nat)
    | NotAscending(lineNo: nat)
    /** The input had no lines; the source then reads the first element of an empty vector. */
    | NoEntries
    | Table(entries: seq<int>, min: int, max: int)

  /** The process's exit status: the table exits with 0, every reported error with -1. */
  function ExitCode(o: Outcome): (code: int)
    requires !o.NoEntries?
    ensures code == 0 <==> o.Table?
    ensures code == 0 || code == -1
  {
    if o.Table? then 0 else -1
  }

  /** Each line's five-digit read, in order. */
  function Parsed(lines: seq<string>): (ps: seq<Result<int, int>>)
    ensures |ps| == |lines|
  {
    seq(|lines|, k requires 0 <= k < |lines| => ParseHex5(lines[k]))
  }

  /** The code point of a read, -1 when the line does not start with five hex digits. */
  function ValueOf(p: Result<int, int>): int {
    match p
    case Ok(v) => v
    case Err(_) => -1
  }

  /**
   * The line loop from line `i` on, over the lines' reads; `values` are the
   * code points kept so far and `prev` the last of them. When `keepPrev` is
   * false each line compares against 0 instead, which is what the source does:
   * it declares `prevPua` inside the loop body.
   */
  function Scan(ps: seq<Result<int, int>>, i: nat, prev: int, values: seq<int>, keepPrev: bool): (r: Result<seq<int>, Outcome>)
    requires i <= |ps|
    ensures r.Err? ==> (r.error.BadHex? || r.error.OutOfRange? || r.error.NotAscending?) && r.error.lineNo < |ps|
    decreases |ps| - i
  {
    if i == |ps| then Ok(values)
    else
      match ps[i]
      case Err(col) => Err(BadHex(i, col))
      case Ok(pua) =>
        if !InRange(pua) then Err(OutOfRange(pua, i))
        else if pua <= (if keepPrev then prev else 0) then Err(NotAscending(i))
        else Scan(ps, i + 1, pua, values + [pua], keepPrev)
  }

  /** The line loop as written: the order check compares every line against a fresh `prevPua` of 0. */
  function ScanAsWritten(lines: seq<string>): Result<seq<int>, Outcome> {
    Scan(Parsed(lines), 0, 0, [], false)
  }

  /** The line loop as intended: each line must come after the one before it. */
  function Collect(lines: seq<string>): Result<seq<int>, Outcome> {
    Scan(Parsed(lines), 0, 0, [], true)
  }

  /** A read is accepted on its own: five hex digits naming a code point in range. */
  predicate ReadOk(p: Result<int, int>) {
    p.Ok? && InRange(p.value)
  }

  /** From read `i` on, every read is accepted and each names a code point above the one before, the first above `prev`. */
  predicate AcceptedFrom(ps: seq<Result<int, int>>, i: nat, prev: int)
    requires i <= |ps|
  {
    (forall k :: i <= k < |ps| ==> ReadOk(ps[k])) &&
    (i < |ps| ==> prev < ValueOf(ps[i])) &&
    (forall k :: i < k < |ps| ==> ValueOf(ps[k - 1]) < ValueOf(ps[k]))
  }

  predicate StrictlyAscending(s: seq<int>) {
    forall a, b :: 0 <= a < b < |s| ==> s[a] < s[b]
  }

  /** The order check as written never rejects anything: a code point in range is above 0. */
  lemma {:induction false} AsWrittenNeverNotAscending(ps: seq<Result<int, int>>, i: nat, prev: int, values: seq<int>)
    requires i <= |ps|
    ensures !(Scan(ps, i, prev, values, false).Err? && Scan(ps, i, prev, values, false).error.NotAscending?)
    decreases |ps| - i
  {
    if i < |ps| && ReadOk(ps[i]) {
      AsWrittenNeverNotAscending(ps, i + 1, ps[i].value, values + [ps[i].value]);
    }
  }

  /** So a descending input is accepted as written, and its second entry lies below the first. */
  lemma AsWrittenAcceptsDescending()
    ensures ScanAsWritten(["FE001\n", "FE000\n"]) == Ok([0xFE001, 0xFE000])
    ensures Collect(["FE001\n", "FE000\n"]) == Err(NotAscending(1))
  {
    var lines := ["FE001\n", "FE000\n"];
    ReadsFE00(lines[0], '1', 1);
    ReadsFE00(lines[1], '0', 0);
    var ps := Parsed(lines);
    assert ps == [Ok(0xFE001), Ok(0xFE000)];
    assert [] + [0xFE001] == [0xFE001] && [0xFE001] + [0xFE000] == [0xFE001, 0xFE000];
    assert Scan(ps, 0, 0, [], false) == Scan(ps, 1, 0xFE001, [0xFE001], false);
    assert Scan(ps, 1, 0xFE001, [0xFE001], false) == Scan(ps, 2, 0xFE000, [0xFE001, 0xFE000], false);
    assert Scan(ps, 0, 0, [], true) == Scan(ps, 1, 0xFE001, [0xFE001], true);
  }

  /** A line starting "FE00" and one more digit reads digit by digit. */
  lemma ReadsFE00(line: string, c: char, d: int)
    requires |line| >= 5 && line[..4] == "FE00" && line[4] == c && HexCharToInt(c) == d >= 0
    ensures ParseHex5(line) == Ok(0xFE000 + d)
  {
    assert line[0] == 'F' && line[1] == 'E' && line[2] == '0' && line[3] == '0';
    ParseStep(line, 0, 0, 15, 15);
    ParseStep(line, 1, 15, 14, 0xFE);
    ParseStep(line, 2, 0xFE, 0, 0xFE0);
    ParseStep(line, 3, 0xFE0, 0, 0xFE00);
    ParseStep(line, 4, 0xFE00, d, 0xFE000 + d);
  }

  /**
   * The loop from read `i` succeeds exactly when the remaining reads are
   * accepted, and then it appends their code points, in order, to `values`.
   */
  lemma {:induction false} ScanAccepts(ps: seq<Result<int, int>>, i: nat, prev: int, values: seq<int>)
    requires i <= |ps|
    ensures Scan(ps, i, prev, values, true).Ok? <==> AcceptedFrom(ps, i, prev)
    ensures Scan(ps, i, prev, values, true).Ok? ==>
      Scan(ps, i, prev, values, true).value == values + seq(|ps| - i, k requires 0 <= k < |ps| - i => ValueOf(ps[i + k]))
    decreases |ps| - i
  {
    if i < |ps| && ReadOk(ps[i]) {
      var pua := ps[i].value;
      ScanAccepts(ps, i + 1, pua, values + [pua]);
      var tail := seq(|ps| - (i + 1), k requires 0 <= k < |ps| - (i + 1) => ValueOf(ps[i + 1 + k]));
      var full := seq(|ps| - i, k requires 0 <= k < |ps| - i => ValueOf(ps[i + k]));
      assert full[0] == ValueOf(ps[i]) == pua;
      assert forall k :: 0 <= k < |tail| ==> full[k + 1] == tail[k];
      assert full == [pua] + tail;
      assert values + [pua] + tail == values + ([pua] + tail);
    }
  }

  /** An accepted input gives one code point per line, each in range, strictly ascending. */
  lemma CollectAscending(lines: seq<string>)
    ensures Collect(lines).Ok? <==> AcceptedFrom(Parsed(lines), 0, 0)
    ensures Collect(lines).Ok? ==>
      (|Collect(lines).value| == |lines| && StrictlyAscending(Collect(lines).value) &&
       forall k :: 0 <= k < |lines| ==> InRange(Collect(lines).value[k]) && Collect(lines).value[k] == ValueOf(ParseHex5(lines[k])))
  {
    var ps := Parsed(lines);
    ScanAccepts(ps, 0, 0, []);
    if Collect(lines).Ok? {
      var vs := Collect(lines).value;
      assert forall k :: 0 <= k < |lines| ==> vs[k] == ValueOf(ps[k]);
      StepsAscending(vs);
    }
  }

  /** Ascending neighbours make an ascending sequence. */
  lemma StepsAscending(s: seq<int>)
    requires forall k :: 0 < k < |s| ==> s[k - 1] < s[k]
    ensures StrictlyAscending(s)
  {
    forall a, b | 0 <= a < b < |s|
      ensures s[a] < s[b]
    {
      StepsAscendingFrom(s, a, b);
    }
  }

  lemma {:induction false} StepsAscendingFrom(s: seq<int>, a: int, b: int)
    requires forall k :: 0 < k < |s| ==> s[k - 1] < s[k]
    requires 0 <= a < b < |s|
    ensures s[a] < s[b]
    decreases b - a
  {
    if a + 1 < b {
      StepsAscendingFrom(s, a, b - 1);
    }
  }

  /** The output stage: each code point relative to the first, with the first and last as bounds. */
  function Emit(values: seq<int>): Outcome {
    if |values| == 0 then NoEntries
    else Table(seq(|values|, k requires 0 <= k < |values| => values[k] - values[0]), values[0], values[|values| - 1])
  }

  /** A run: the file opens or not, then the lines are read and the table emitted. */
  function Generate(readable: bool, lines: seq<string>): Outcome {
    if !readable then CannotOpen
    else match Collect(lines)
      case Err(o) => o
      case Ok(values) => Emit(values)
  }

  /**
   * The table of an ascending run of code points in range starts at 0,
   * ascends strictly, stays within 12 bits, and adding the bound `min` to
   * entry `k` recovers code point `k`; `max` is the last of them.
   */
  lemma EmitTable(vs: seq<int>)
    requires |vs| > 0 && StrictlyAscending(vs) && forall k :: 0 <= k < |vs| ==> InRange(vs[k])
    ensures Emit(vs).Table?
    ensures
      var t := Emit(vs);
      |t.entries| == |vs| && t.entries[0] == 0 && StrictlyAscending(t.entries) &&
      PuaFirst <= t.min <= t.max <= PuaLast && t.max == t.min + t.entries[|t.entries| - 1] &&
      forall k :: 0 <= k < |vs| ==> 0 <= t.entries[k] <= 0xFFF && t.min + t.entries[k] == vs[k]
  {
    var t := Emit(vs);
    assert forall k :: 0 <= k < |vs| ==> t.entries[k] == vs[k] - vs[0];
    forall a, b | 0 <= a < b < |t.entries|
      ensures t.entries[a] < t.entries[b]
    {
      assert vs[a] < vs[b];
    }
    forall k | 0 < k < |vs|
      ensures vs[0] < vs[k]
    {
      assert vs[0] < vs[k];
    }
  }

  /** A generated table has one relative entry per input line, with the properties of `EmitTable`. */
  lemma GeneratedTable(readable: bool, lines: seq<string>)
    ensures Generate(readable, lines).Table? <==> readable && |lines| > 0 && AcceptedFrom(Parsed(lines), 0, 0)
    ensures Generate(readable, lines).Table? ==>
      var t := Generate(readable, lines);
      |t.entries| == |lines| && t.entries[0] == 0 && StrictlyAscending(t.entries) &&
      PuaFirst <= t.min <= t.max <= PuaLast && t.max == t.min + t.entries[|t.entries| - 1] &&
      forall k :: 0 <= k < |lines| ==> 0 <= t.entries[k] <= 0xFFF && t.min + t.entries[k] == ValueOf(ParseHex5(lines[k]))
  {
    CollectAscending(lines);
    if readable && Collect(lines).Ok? && |lines| > 0 {
      EmitTable(Collect(lines).value);
    }
  }

  /** `main`'s loop, with `prevPua` kept from one line to the next. */
  method Run(readable: bool, lines: seq<string>) returns (outcome: Outcome)
    ensures outcome == Generate(readable, lines)
  {
    if !readable {
      return CannotOpen;
    }
    var unichars: seq<int> := [];
    var prevPua := 0;
    var lineNo := 0;
    while lineNo < |lines|
      invariant 0 <= lineNo <= |lines|
      invariant Scan(Parsed(lines), lineNo, prevPua, unichars, true) == Collect(lines)
    {
      var r := ReadHex5(lines[lineNo]);
      if r.Err? {
        return BadHex(lineNo, r.error);
      }
      var pua := r.value;
      if pua < PuaFirst || pua > PuaLast {
        return OutOfRange(pua, lineNo);
      }
      if pua <= prevPua {
        return NotAscending(lineNo);
      }
      unichars := unichars + [pua];
      prevPua := pua;
      lineNo := lineNo + 1;
    }
    outcome := Emit(unichars);
  }
}
