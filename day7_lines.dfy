/** Model of `iter_lines` in src/day7.rs (lines 112-176): the equations
    `target: a b c` are read one line at a time into the numbers of the line
    and their digit counts, first in 64-byte chunks and then, for the last
    bytes, line by line. */
module Day7Lines {
  import opened Bytes

  /** `MAX_LINE_LENGTH`, line 8: the numbers a line may hold. */
  const MaxLineLength: nat := 13

  /** The chunk width of the first reader, line 122. */
  const ChunkSize: nat := 64

  const Colon: Byte := 58

  /** What `iter_lines` hands to its callback for one line: the numbers and
      the digit count of each (line 154 and line 174). */
  datatype Line = Line(nums: seq<nat>, digits: seq<nat>)

  function Pow(b: nat, n: nat): nat {
    if n == 0 then 1 else b * Pow(b, n - 1)
  }

  /** The first position of `b` in `s`. */
  function IndexOf(s: seq<Byte>, b: Byte): (i: nat)
    requires b in s
    ensures i < |s| && s[i] == b && b !in s[..i]
  {
    if s[0] == b then 0 else IndexOf(s[1..], b) + 1
  }

  /** The last position of `b` in `s`. */
  function LastIndexOf(s: seq<Byte>, b: Byte): (i: nat)
    requires b in s
    ensures i < |s| && s[i] == b && b !in s[i + 1..]
  {
    var n := |s| - 1;
    if s[n] == b then n else LastIndexOf(s[..n], b)
  }

  predicate AllDigits(w: seq<Byte>) {
    forall i | 0 <= i < |w| :: IsDigit(w[i])
  }

  /** The number a string of digits spells. */
  function DecimalValue(w: seq<Byte>): nat {
    if w == [] then 0 else DecimalValue(w[..|w| - 1]) * 10 + DigitValue(w[|w| - 1])
  }

  /** The digits of `a` followed by those of `b` spell `a` shifted left by
      the length of `b`, plus `b`. */
  lemma {:induction false} DecimalAppend(a: seq<Byte>, b: seq<Byte>)
    ensures DecimalValue(a + b) == DecimalValue(a) * Pow(10, |b|) + DecimalValue(b)
    decreases |b|
  {
    if b != [] {
      var n := |b| - 1;
      assert (a + b)[..|a + b| - 1] == a + b[..n] && (a + b)[|a + b| - 1] == b[n];
      DecimalAppend(a, b[..n]);
      var x: int, p: int, y: int, d: int := DecimalValue(a), Pow(10, n), DecimalValue(b[..n]), DigitValue(b[n]);
      assert DecimalValue(a + b) == (x * p + y) * 10 + d;
      assert Pow(10, |b|) == 10 * p && DecimalValue(b) == y * 10 + d;
      Shift(x, p, y, d);
    } else {
      assert a + b == a;
    }
  }

  lemma Shift(x: int, p: int, y: int, d: int)
    ensures (x * p + y) * 10 + d == x * (10 * p) + (y * 10 + d)
  {
  }

  // ---------------------------------------------------------------------
  // The chunk reader, lines 122-157.
  // ---------------------------------------------------------------------

  /** The reader's state after some bytes of a line: the numbers closed so
      far with their digit counts, the number being read, its digit count
      so far, and whether the first separator is still to come. */
  datatype Scan = Scan(nums: seq<nat>, digits: seq<nat>, value: nat, count: nat, first: bool)

  const Start := Scan([], [], 0, 0, true)

  /** One byte, lines 141-151: a digit extends the current number, the
      first other byte (the colon) is skipped, and every later one closes
      the current number. */
  function ScanByte(st: Scan, b: Byte): Scan {
    if IsDigit(b) then st.(value := st.value * 10 + DigitValue(b), count := st.count + 1)
    else if st.first then st.(first := false)
    else Scan(st.nums + [st.value], st.digits + [st.count], 0, 0, false)
  }

  /** The bytes read one after the other. */
  function Feed(st: Scan, bytes: seq<Byte>): Scan
    decreases |bytes|
  {
    if bytes == [] then st else ScanByte(Feed(st, bytes[..|bytes| - 1]), bytes[|bytes| - 1])
  }

  /** The numbers of a line, as the chunk reader collects them. */
  function ScanLine(line: seq<Byte>): Line {
    var st := Feed(Start, line);
    Line(st.nums, st.digits)
  }

  /** The bytes of `bytes` that are not digits. */
  function NonDigits(bytes: seq<Byte>): nat
    decreases |bytes|
  {
    if bytes == [] then 0
    else NonDigits(bytes[..|bytes| - 1]) + if IsDigit(bytes[|bytes| - 1]) then 0 else 1
  }

  /** A line the chunk reader takes without indexing past its arrays:
      every separator but the first closes a number, and at most
      `MaxLineLength` numbers fit. */
  predicate Scannable(line: seq<Byte>) {
    NonDigits(line) <= MaxLineLength + 1
  }

  /** Reading `a` and then `b` is reading `a + b`. */
  lemma {:induction false} FeedAppend(st: Scan, a: seq<Byte>, b: seq<Byte>)
    ensures Feed(st, a + b) == Feed(Feed(st, a), b)
    decreases |b|
  {
    if b != [] {
      var n := |b| - 1;
      assert (a + b)[..|a + b| - 1] == a + b[..n] && (a + b)[|a + b| - 1] == b[n];
      FeedAppend(st, a, b[..n]);
    } else {
      assert a + b == a;
    }
  }

  /** A run of digits read after a separator spells its number. */
  lemma {:induction false} FeedDigits(st: Scan, w: seq<Byte>)
    requires st.value == 0 && st.count == 0 && AllDigits(w)
    ensures Feed(st, w) == st.(value := DecimalValue(w), count := |w|)
    decreases |w|
  {
    if w != [] {
      FeedDigits(st, w[..|w| - 1]);
    }
  }

  /** The closed numbers are one fewer than the separators read. */
  lemma {:induction false} FeedCount(line: seq<Byte>)
    ensures var st := Feed(Start, line);
      |st.nums| == |st.digits| && (st.first <==> NonDigits(line) == 0)
      && |st.nums| == if NonDigits(line) == 0 then 0 else NonDigits(line) - 1
    decreases |line|
  {
    if line != [] {
      FeedCount(line[..|line| - 1]);
    }
  }

  lemma {:induction false} NonDigitsPrefix(s: seq<Byte>, i: nat, j: nat)
    requires i <= j <= |s|
    ensures NonDigits(s[..i]) <= NonDigits(s[..j])
    decreases j
  {
    if i < j {
      assert s[..j][..j - 1] == s[..j - 1];
      NonDigitsPrefix(s, i, j - 1);
    }
  }

  /** `first_set` on the newline mask, line 125: the first newline. */
  function FirstNewLine(chunk: seq<Byte>): (i: nat)
    requires NewLine in chunk
    ensures i < |chunk| && chunk[i] == NewLine
  {
    IndexOf(chunk, NewLine)
  }

  lemma FeedStep(s: seq<Byte>, i: nat)
    requires i < |s|
    ensures Feed(Start, s[..i + 1]) == ScanByte(Feed(Start, s[..i]), s[i])
  {
    assert s[..i + 1][..i] == s[..i];
  }

  /** Before the newline that ends a scannable line, fewer than
      `MaxLineLength` numbers are closed. */
  lemma RoomLeft(chunk: seq<Byte>, i: nat)
    requires NewLine in chunk && i <= FirstNewLine(chunk) && Scannable(chunk[..FirstNewLine(chunk) + 1])
    ensures |Feed(Start, chunk[..i]).nums| < MaxLineLength
  {
    var e := FirstNewLine(chunk);
    var whole := chunk[..e + 1];
    FeedCount(chunk[..i]);
    NonDigitsPrefix(whole, i, e);
    assert whole[..i] == chunk[..i] && whole[..e] == whole[..|whole| - 1];
  }

  /** Lines 123-152 on one chunk: the numbers of the line the chunk starts
      with, and the position of the newline that ends it. The lane
      arithmetic of lines 124-128 is taken one lane at a time. */
  method ScanChunk(chunk: seq<Byte>) returns (line: Line, newline: nat)
    requires |chunk| == ChunkSize && NewLine in chunk
    requires Scannable(chunk[..FirstNewLine(chunk) + 1])
    ensures newline == FirstNewLine(chunk) && line == ScanLine(chunk[..newline + 1])
  {
    newline := FirstNewLine(chunk);
    var nums := new nat[MaxLineLength](_ => 0);
    var digits := new nat[MaxLineLength](_ => 0);
    var count, digitCount, isFirst := 0, 0, true;
    for i := 0 to newline + 1
      invariant var st := Feed(Start, chunk[..i]);
        count == |st.nums| && count <= MaxLineLength && nums[..count] == st.nums && digits[..count] == st.digits
        && (count < MaxLineLength ==> nums[count] == st.value) && digitCount == st.count && isFirst == st.first
      invariant forall j | count < j < MaxLineLength :: nums[j] == 0
    {
      FeedStep(chunk, i);
      RoomLeft(chunk, i);
      var isDigit := IsDigit(chunk[i]);
      var value := DigitValue(chunk[i]);
      if isDigit {
        nums[count] := nums[count] * 10;
        nums[count] := nums[count] + value;
        digitCount := digitCount + 1;
      } else if isFirst {
        isFirst := false;
      } else {
        digits[count] := digitCount;
        digitCount := 0;
        count := count + 1;
      }
    }
    line := Line(nums[..count], digits[..count]);
  }

  // ---------------------------------------------------------------------
  // The line reader for the last bytes, lines 159-175.
  // ---------------------------------------------------------------------

  /** `split(sep)`: the pieces between the separators, empty ones
      included. */
  function Split(s: seq<Byte>, sep: Byte): (parts: seq<seq<Byte>>)
    ensures |parts| >= 1
    decreases |s|
  {
    if sep !in s then [s]
    else
      var j := LastIndexOf(s, sep);
      Split(s[..j], sep) + [s[j + 1..]]
  }

  /** `str::lines`: the pieces between newlines, a `\r` dropped before each
      newline, and the empty piece after a final newline dropped. */
  function LinesOf(text: seq<Byte>): seq<seq<Byte>> {
    var pieces := Split(text, NewLine);
    var n := |pieces| - 1;
    seq(n, k requires 0 <= k < n => StripCarriageReturn(pieces[k]))
      + if pieces[n] == [] then [] else [pieces[n]]
  }

  function StripCarriageReturn(s: seq<Byte>): seq<Byte> {
    if s != [] && s[|s| - 1] == CarriageReturn then s[..|s| - 1] else s
  }

  /** `trim_end_matches(':')`, line 168. */
  function TrimColons(s: seq<Byte>): (t: seq<Byte>)
    ensures |t| <= |s| && t == s[..|t|] && (t == [] || t[|t| - 1] != Colon)
    decreases |s|
  {
    if s != [] && s[|s| - 1] == Colon then TrimColons(s[..|s| - 1]) else s
  }

  /** A line the second reader takes without a panic: at most
      `MaxLineLength` fields, each a number once its colons are trimmed
      (line 170 unwraps the parse). */
  predicate FieldsOk(line: seq<Byte>) {
    var parts := Split(line, Space);
    |parts| <= MaxLineLength
    && forall k | 0 <= k < |parts| :: TrimColons(parts[k]) != [] && AllDigits(TrimColons(parts[k]))
  }

  /** The numbers of a line, as the second reader collects them. */
  function FieldsLine(line: seq<Byte>): Line {
    var parts := Split(line, Space);
    Line(seq(|parts|, k requires 0 <= k < |parts| => DecimalValue(TrimColons(parts[k]))),
         seq(|parts|, k requires 0 <= k < |parts| => |TrimColons(parts[k])|))
  }

  /** Lines 164-173 on one line. */
  method ReadFields(line: seq<Byte>) returns (result: Line)
    requires FieldsOk(line)
    ensures result == FieldsLine(line)
  {
    var parts := Split(line, Space);
    var nums := new nat[MaxLineLength](_ => 0);
    var digits := new nat[MaxLineLength](_ => 0);
    var count := 0;
    for k := 0 to |parts|
      invariant count == k
      invariant nums[..k] == FieldsLine(line).nums[..k] && digits[..k] == FieldsLine(line).digits[..k]
      invariant forall j | k <= j < MaxLineLength :: nums[j] == 0
    {
      var part := TrimColons(parts[k]);
      nums[count] := nums[count] * 10;
      nums[count] := nums[count] + DecimalValue(part);
      digits[count] := |part|;
      count := count + 1;
    }
    result := Line(nums[..count], digits[..count]);
  }

  /** The lines the second reader hands on: the non-empty ones. */
  function FieldsLines(lines: seq<seq<Byte>>): seq<Line>
    requires forall k | 0 <= k < |lines| && lines[k] != [] :: FieldsOk(lines[k])
  {
    if lines == [] then []
    else
      var n := |lines| - 1;
      FieldsLines(lines[..n]) + if lines[n] == [] then [] else [FieldsLine(lines[n])]
  }

  // ---------------------------------------------------------------------
  // `iter_lines`, lines 112-176.
  // ---------------------------------------------------------------------

  /** The texts `iter_lines` reads without a panic. */
  predicate Readable(input: seq<Byte>)
    decreases |input|
  {
    if |input| < ChunkSize then
      var lines := LinesOf(input);
      forall k | 0 <= k < |lines| && lines[k] != [] :: FieldsOk(lines[k])
    else
      var chunk := input[..ChunkSize];
      NewLine in chunk && Scannable(chunk[..FirstNewLine(chunk) + 1])
      && Readable(input[FirstNewLine(chunk) + 1..])
  }

  /** The lines `iter_lines` hands to its callback, in order. */
  function Lines(input: seq<Byte>): seq<Line>
    requires Readable(input)
    decreases |input|
  {
    if |input| < ChunkSize then FieldsLines(LinesOf(input))
    else
      var e := FirstNewLine(input[..ChunkSize]);
      [ScanLine(input[..e + 1])] + Lines(input[e + 1..])
  }

  /** The chunked loop of `iter_lines`, lines 122-157: whole lines read
      from 64-byte windows while 64 bytes remain. */
  method IterChunks(input: seq<Byte>) returns (lines: seq<Line>, rest: seq<Byte>)
    requires Readable(input)
    ensures |rest| < ChunkSize && Readable(rest) && lines + Lines(rest) == Lines(input)
  {
    lines := [];
    rest := input;
    while |rest| >= ChunkSize
      invariant Readable(rest) && lines + Lines(rest) == Lines(input)
      decreases |rest|
    {
      var line;
      line, rest := ChunkLine(rest);
      lines := lines + [line];
    }
  }

  /** One turn of the chunked loop: the line up to the first newline of the
      window, and the bytes after it. */
  method ChunkLine(input: seq<Byte>) returns (line: Line, rest: seq<Byte>)
    requires |input| >= ChunkSize && Readable(input)
    ensures |rest| < |input| && Readable(rest) && [line] + Lines(rest) == Lines(input)
  {
    var newline;
    line, newline := ScanChunk(input[..ChunkSize]);
    assert input[..ChunkSize][..newline + 1] == input[..newline + 1];
    rest := input[newline + 1..];
  }

  /** The fallback of `iter_lines`, lines 159-175: the last bytes split into
      lines, the empty ones skipped. */
  method IterRemainder(rest: seq<Byte>) returns (lines: seq<Line>)
    requires |rest| < ChunkSize && Readable(rest)
    ensures lines == Lines(rest)
  {
    var texts := LinesOf(rest);
    lines := [];
    for k := 0 to |texts|
      invariant lines == FieldsLines(texts[..k])
    {
      assert texts[..k + 1][..k] == texts[..k];
      if texts[k] == [] {
        continue;
      }
      var line := ReadFields(texts[k]);
      lines := lines + [line];
    }
    assert texts[..|texts|] == texts;
  }

  /** `iter_lines`: the lines, each as its callback receives it. */
  method IterLines(input: seq<Byte>) returns (lines: seq<Line>)
    requires Readable(input)
    ensures lines == Lines(input)
  {
    var chunked, rest := IterChunks(input);
    var last := IterRemainder(rest);
    lines := chunked + last;
  }

  // ---------------------------------------------------------------------
  // Well-formed equations.
  // ---------------------------------------------------------------------

  /** A number written out: one or more digits. */
  predicate IsNumeral(w: seq<Byte>) { w != [] && AllDigits(w) }

  /** The text of an equation without its newline: the first numeral, a
      colon, then each further numeral after a space. */
  function Equation(ws: seq<seq<Byte>>): seq<Byte>
    requires |ws| >= 1
    decreases |ws|
  {
    var n := |ws| - 1;
    if n == 0 then ws[0] + [Colon] else Equation(ws[..n]) + [Space] + ws[n]
  }

  /** The line an equation is meant to give: its numbers and their
      lengths. */
  function Decoded(ws: seq<seq<Byte>>): Line {
    Line(seq(|ws|, k requires 0 <= k < |ws| => DecimalValue(ws[k])), seq(|ws|, k requires 0 <= k < |ws| => |ws[k]|))
  }

  /** The decoded line of all numbers extends that of all but the last. */
  lemma DecodedLast(ws: seq<seq<Byte>>)
    requires |ws| >= 1
    ensures var n := |ws| - 1;
      Decoded(ws) == Line(Decoded(ws[..n]).nums + [DecimalValue(ws[n])], Decoded(ws[..n]).digits + [|ws[n]|])
  {
    var n := |ws| - 1;
    var d, e := Decoded(ws), Decoded(ws[..n]);
    assert d.nums == e.nums + [DecimalValue(ws[n])] by {
      forall k | 0 <= k < |ws| ensures d.nums[k] == (e.nums + [DecimalValue(ws[n])])[k] {
        if k < n {
          assert ws[..n][k] == ws[k];
        }
      }
    }
    assert d.digits == e.digits + [|ws[n]|] by {
      forall k | 0 <= k < |ws| ensures d.digits[k] == (e.digits + [|ws[n]|])[k] {
        if k < n {
          assert ws[..n][k] == ws[k];
        }
      }
    }
  }

  lemma {:induction false} ScanEquation(ws: seq<seq<Byte>>)
    requires |ws| >= 1 && forall k | 0 <= k < |ws| :: IsNumeral(ws[k])
    ensures var n := |ws| - 1;
      Feed(Start, Equation(ws)) == Scan(Decoded(ws[..n]).nums, Decoded(ws[..n]).digits, DecimalValue(ws[n]), |ws[n]|, false)
    ensures NonDigits(Equation(ws)) == |ws|
    decreases |ws|
  {
    var n := |ws| - 1;
    if n == 0 {
      FeedDigits(Start, ws[0]);
      FeedAppend(Start, ws[0], [Colon]);
      NonDigitsDigits(ws[0]);
      assert (ws[0] + [Colon])[..|ws[0]|] == ws[0];
    } else {
      var prefix := Equation(ws[..n]);
      assert ws[..n][..n - 1] == ws[..n - 1];
      ScanEquation(ws[..n]);
      var closed := ScanByte(Feed(Start, prefix), Space);
      FeedAppend(Start, prefix, [Space]);
      FeedDigits(closed, ws[n]);
      FeedAppend(Start, prefix + [Space], ws[n]);
      DecodedLast(ws[..n]);
      NonDigitsAppend(prefix + [Space], ws[n]);
      assert (prefix + [Space])[..|prefix|] == prefix;
    }
  }

  lemma {:induction false} NonDigitsDigits(w: seq<Byte>)
    requires AllDigits(w)
    ensures NonDigits(w) == 0
    decreases |w|
  {
    if w != [] {
      NonDigitsDigits(w[..|w| - 1]);
    }
  }

  lemma {:induction false} NonDigitsAppend(a: seq<Byte>, w: seq<Byte>)
    requires AllDigits(w)
    ensures NonDigits(a + w) == NonDigits(a)
    decreases |w|
  {
    if w != [] {
      var n := |w| - 1;
      assert (a + w)[..|a + w| - 1] == a + w[..n] && (a + w)[|a + w| - 1] == w[n];
      NonDigitsAppend(a, w[..n]);
    } else {
      assert a + w == a;
    }
  }

  /** The chunk reader reads an equation line as intended: every number
      with its length. */
  lemma ScanLineOfEquation(ws: seq<seq<Byte>>)
    requires 1 <= |ws| <= MaxLineLength && forall k | 0 <= k < |ws| :: IsNumeral(ws[k])
    ensures Scannable(Equation(ws) + [NewLine])
    ensures ScanLine(Equation(ws) + [NewLine]) == Decoded(ws)
  {
    var n := |ws| - 1;
    ScanEquation(ws);
    assert (Equation(ws) + [NewLine])[..|Equation(ws)|] == Equation(ws);
    DecodedLast(ws);
  }

  /** Splitting at a last separator splits off the piece after it. */
  lemma SplitLast(prefix: seq<Byte>, sep: Byte, w: seq<Byte>)
    requires sep !in w
    ensures Split(prefix + [sep] + w, sep) == Split(prefix, sep) + [w]
  {
    var s := prefix + [sep] + w;
    assert s[|prefix|] == sep;
    assert s[|prefix| + 1..] == w;
    assert LastIndexOf(s, sep) == |prefix|;
    assert s[..|prefix|] == prefix;
  }

  lemma NumeralHasNoSpace(w: seq<Byte>)
    requires AllDigits(w)
    ensures Space !in w && Space !in w + [Colon]
  {
    forall i | 0 <= i < |w| ensures w[i] != Space {
      assert IsDigit(w[i]);
    }
  }

  /** An equation splits at its spaces into its numerals, the first with
      its colon. */
  lemma {:induction false} SplitEquation(ws: seq<seq<Byte>>)
    requires |ws| >= 1 && forall k | 0 <= k < |ws| :: IsNumeral(ws[k])
    ensures Split(Equation(ws), Space) == [ws[0] + [Colon]] + ws[1..]
    decreases |ws|
  {
    var n := |ws| - 1;
    if n == 0 {
      NumeralHasNoSpace(ws[0]);
    } else {
      var init := ws[..n];
      assert init[0] == ws[0] && forall k | 0 <= k < n :: init[k] == ws[k];
      assert Equation(ws) == Equation(init) + [Space] + ws[n];
      NumeralHasNoSpace(ws[n]);
      SplitLast(Equation(init), Space, ws[n]);
      SplitEquation(init);
      TailOfInit(ws);
      assert Split(Equation(ws), Space) == [ws[0] + [Colon]] + (init[1..] + [ws[n]]);
    }
  }

  lemma TailOfInit<T>(s: seq<T>)
    requires |s| >= 2
    ensures s[..|s| - 1][1..] + [s[|s| - 1]] == s[1..]
  {
  }

  lemma {:induction false} TrimNumeral(w: seq<Byte>)
    requires IsNumeral(w)
    ensures TrimColons(w) == w && TrimColons(w + [Colon]) == w
  {
    assert (w + [Colon])[..|w|] == w;
    assert IsDigit(w[|w| - 1]);
  }

  /** The fields of an equation, their colons trimmed, are its numerals. */
  lemma EquationFields(ws: seq<seq<Byte>>)
    requires |ws| >= 1 && forall k | 0 <= k < |ws| :: IsNumeral(ws[k])
    ensures var parts := Split(Equation(ws), Space);
      |parts| == |ws| && forall k | 0 <= k < |parts| :: TrimColons(parts[k]) == ws[k]
  {
    SplitEquation(ws);
    var parts := Split(Equation(ws), Space);
    forall k | 0 <= k < |parts| ensures TrimColons(parts[k]) == ws[k] {
      TrimNumeral(ws[k]);
      if k > 0 {
        assert parts[k] == ws[1..][k - 1];
      }
    }
  }

  /** A line whose trimmed fields are the numerals `ws` reads as `ws`
      decoded. */
  lemma FieldsLineOfNumerals(line: seq<Byte>, ws: seq<seq<Byte>>)
    requires var parts := Split(line, Space);
      |parts| == |ws| && forall k | 0 <= k < |parts| :: TrimColons(parts[k]) == ws[k]
    ensures FieldsLine(line) == Decoded(ws)
  {
    var parts := Split(line, Space);
    var f, d := FieldsLine(line), Decoded(ws);
    assert f.nums == d.nums by {
      forall k | 0 <= k < |ws| ensures f.nums[k] == d.nums[k] {
        assert f.nums[k] == DecimalValue(TrimColons(parts[k]));
      }
    }
    assert f.digits == d.digits by {
      forall k | 0 <= k < |ws| ensures f.digits[k] == d.digits[k] {
        assert f.digits[k] == |TrimColons(parts[k])|;
      }
    }
  }

  /** The second reader reads an equation line as intended too: both
      readers agree. */
  lemma FieldsLineOfEquation(ws: seq<seq<Byte>>)
    requires 1 <= |ws| <= MaxLineLength && forall k | 0 <= k < |ws| :: IsNumeral(ws[k])
    ensures FieldsOk(Equation(ws))
    ensures FieldsLine(Equation(ws)) == Decoded(ws)
  {
    EquationFields(ws);
    FieldsLineOfNumerals(Equation(ws), ws);
  }

  // ---------------------------------------------------------------------
  // Well-formed puzzle texts.
  // ---------------------------------------------------------------------

  /** An equation the puzzle text may hold: up to `MaxLineLength` numerals,
      short enough for its newline to fall in the chunk that starts it. */
  predicate WellFormed(ws: seq<seq<Byte>>) {
    1 <= |ws| <= MaxLineLength && (forall k | 0 <= k < |ws| :: IsNumeral(ws[k]))
    && |Equation(ws)| < ChunkSize
  }

  predicate AllWellFormed(eqs: seq<seq<seq<Byte>>>) {
    forall i | 0 <= i < |eqs| :: WellFormed(eqs[i])
  }

  /** The equations written one per line, each ended by a newline. */
  function Text(eqs: seq<seq<seq<Byte>>>): seq<Byte>
    requires AllWellFormed(eqs)
    decreases |eqs|
  {
    if eqs == [] then [] else Equation(eqs[0]) + [NewLine] + Text(eqs[1..])
  }

  /** The text of each equation. */
  function Texts(eqs: seq<seq<seq<Byte>>>): seq<seq<Byte>>
    requires AllWellFormed(eqs)
  {
    seq(|eqs|, i requires 0 <= i < |eqs| => Equation(eqs[i]))
  }

  /** The line each equation is meant to give. */
  function AllDecoded(eqs: seq<seq<seq<Byte>>>): seq<Line> {
    seq(|eqs|, i requires 0 <= i < |eqs| => Decoded(eqs[i]))
  }

  /** An equation is made of digits, colons and spaces only. */
  lemma {:induction false} EquationBytes(ws: seq<seq<Byte>>)
    requires |ws| >= 1 && forall k | 0 <= k < |ws| :: IsNumeral(ws[k])
    ensures forall i | 0 <= i < |Equation(ws)| ::
      IsDigit(Equation(ws)[i]) || Equation(ws)[i] == Colon || Equation(ws)[i] == Space
    decreases |ws|
  {
    var n := |ws| - 1;
    if n > 0 {
      EquationBytes(ws[..n]);
      var e, p := Equation(ws), Equation(ws[..n]);
      forall i | 0 <= i < |e| ensures IsDigit(e[i]) || e[i] == Colon || e[i] == Space {
        if i < |p| {
          assert e[i] == p[i];
        } else if i > |p| {
          assert e[i] == ws[n][i - |p| - 1];
        }
      }
    }
  }

  /** An equation has no newline, and does not end in a carriage return. */
  lemma PlainEquation(ws: seq<seq<Byte>>)
    requires |ws| >= 1 && forall k | 0 <= k < |ws| :: IsNumeral(ws[k])
    ensures NewLine !in Equation(ws)
    ensures StripCarriageReturn(Equation(ws)) == Equation(ws)
  {
    EquationBytes(ws);
    var e := Equation(ws);
    forall i | 0 <= i < |e| ensures e[i] != NewLine && e[i] != CarriageReturn {
    }
  }

  /** The text of all equations is that of all but the last, followed by the
      last. */
  lemma {:induction false} TextLast(eqs: seq<seq<seq<Byte>>>)
    requires AllWellFormed(eqs) && eqs != []
    ensures var n := |eqs| - 1;
      Text(eqs) == Text(eqs[..n]) + Equation(eqs[n]) + [NewLine]
    decreases |eqs|
  {
    var n := |eqs| - 1;
    if n > 0 {
      TextLast(eqs[1..]);
      assert eqs[1..][..n - 1] == eqs[1..n];
      assert eqs[..n][1..] == eqs[1..n];
      assert eqs[1..][n - 1] == eqs[n];
    }
  }

  /** Once a text ends in a separator, what follows it replaces the empty
      last piece. */
  lemma ReplaceLastPiece(t: seq<Byte>, sep: Byte, w: seq<Byte>)
    requires t != [] && t[|t| - 1] == sep && sep !in w
    ensures var parts := Split(t, sep);
      Split(t + w, sep) == parts[..|parts| - 1] + [w]
  {
    var body := t[..|t| - 1];
    assert body + [sep] + [] == t && body + [sep] + w == t + w;
    SplitLast(body, sep, []);
    SplitLast(body, sep, w);
  }

  lemma TextsLast(eqs: seq<seq<seq<Byte>>>)
    requires AllWellFormed(eqs) && eqs != []
    ensures var n := |eqs| - 1;
      Texts(eqs) == Texts(eqs[..n]) + [Equation(eqs[n])]
  {
    var n := |eqs| - 1;
    var a, b := Texts(eqs), Texts(eqs[..n]) + [Equation(eqs[n])];
    forall i | 0 <= i < |eqs| ensures a[i] == b[i] {
      if i < n {
        assert eqs[..n][i] == eqs[i];
      }
    }
  }

  lemma PrefixOfAppend<T>(a: seq<T>, x: T)
    ensures (a + [x])[..|a|] == a
  {
  }

  lemma AllDecodedLast(eqs: seq<seq<seq<Byte>>>)
    requires eqs != []
    ensures var n := |eqs| - 1;
      AllDecoded(eqs) == AllDecoded(eqs[..n]) + [Decoded(eqs[n])]
  {
    var n := |eqs| - 1;
    var a, b := AllDecoded(eqs), AllDecoded(eqs[..n]) + [Decoded(eqs[n])];
    forall i | 0 <= i < |eqs| ensures a[i] == b[i] {
      if i < n {
        assert eqs[..n][i] == eqs[i];
      }
    }
  }

  /** The text splits at its newlines into the equations and the empty
      piece after the last newline. */
  lemma {:induction false} SplitText(eqs: seq<seq<seq<Byte>>>)
    requires AllWellFormed(eqs)
    ensures Split(Text(eqs), NewLine) == Texts(eqs) + [[]]
    decreases |eqs|
  {
    if eqs != [] {
      var n := |eqs| - 1;
      var init := eqs[..n];
      var last := Equation(eqs[n]);
      TextLast(eqs);
      PlainEquation(eqs[n]);
      SplitLast(Text(init) + last, NewLine, []);
      assert Text(init) + last + [NewLine] + [] == Text(eqs);
      TextsLast(eqs);
      if n == 0 {
        assert Text(init) + last == last;
      } else {
        SplitText(init);
        TextLast(init);
        ReplaceLastPiece(Text(init), NewLine, last);
      }
    }
  }

  /** `str::lines` gives the equations back. */
  lemma LinesOfText(eqs: seq<seq<seq<Byte>>>)
    requires AllWellFormed(eqs)
    ensures LinesOf(Text(eqs)) == Texts(eqs)
  {
    SplitText(eqs);
    var pieces := Split(Text(eqs), NewLine);
    forall k | 0 <= k < |eqs| ensures StripCarriageReturn(pieces[k]) == Texts(eqs)[k] {
      PlainEquation(eqs[k]);
    }
  }

  /** The second reader reads every equation as intended. */
  lemma {:induction false} FieldsLinesOfTexts(eqs: seq<seq<seq<Byte>>>)
    requires AllWellFormed(eqs)
    ensures forall k | 0 <= k < |eqs| :: Texts(eqs)[k] != [] && FieldsOk(Texts(eqs)[k])
    ensures FieldsLines(Texts(eqs)) == AllDecoded(eqs)
    decreases |eqs|
  {
    forall k | 0 <= k < |eqs| ensures Texts(eqs)[k] != [] && FieldsOk(Texts(eqs)[k]) {
      FieldsLineOfEquation(eqs[k]);
    }
    if eqs != [] {
      var n := |eqs| - 1;
      var init := eqs[..n];
      assert AllWellFormed(init);
      FieldsLinesOfTexts(init);
      TextsLast(eqs);
      PrefixOfAppend(Texts(init), Equation(eqs[n]));
      FieldsLineOfEquation(eqs[n]);
      AllDecodedLast(eqs);
    }
  }

  /** The first chunk of the text holds the first equation and its
      newline. */
  lemma FirstChunk(eqs: seq<seq<seq<Byte>>>)
    requires AllWellFormed(eqs) && |Text(eqs)| >= ChunkSize
    ensures eqs != []
    ensures var e := |Equation(eqs[0])|; var input := Text(eqs);
      NewLine in input[..ChunkSize] && FirstNewLine(input[..ChunkSize]) == e
      && input[..ChunkSize][..e + 1] == input[..e + 1] == Equation(eqs[0]) + [NewLine]
      && input[e + 1..] == Text(eqs[1..])
  {
    var first := Equation(eqs[0]);
    var e := |first|;
    var input := Text(eqs);
    var chunk := input[..ChunkSize];
    PlainEquation(eqs[0]);
    assert chunk[..e] == first;
    assert chunk[e] == NewLine;
    assert input[..e + 1] == first + [NewLine];
  }

  /** A text of a chunk or more is readable when its first line and what
      follows that line are. */
  lemma ReadableChunk(input: seq<Byte>, e: nat)
    requires |input| >= ChunkSize && NewLine in input[..ChunkSize] && FirstNewLine(input[..ChunkSize]) == e
    requires input[..ChunkSize][..e + 1] == input[..e + 1] && Scannable(input[..e + 1]) && Readable(input[e + 1..])
    ensures Readable(input) && Lines(input) == [ScanLine(input[..e + 1])] + Lines(input[e + 1..])
  {
  }

  lemma AllDecodedFirst(eqs: seq<seq<seq<Byte>>>)
    requires eqs != []
    ensures AllDecoded(eqs) == [Decoded(eqs[0])] + AllDecoded(eqs[1..])
  {
    var a, b := AllDecoded(eqs), [Decoded(eqs[0])] + AllDecoded(eqs[1..]);
    forall i | 0 <= i < |eqs| ensures a[i] == b[i] {
      if i > 0 {
        assert eqs[1..][i - 1] == eqs[i];
      }
    }
  }

  /** A text shorter than a chunk goes to the second reader whole. */
  lemma ReadShortText(eqs: seq<seq<seq<Byte>>>)
    requires AllWellFormed(eqs) && |Text(eqs)| < ChunkSize
    ensures Readable(Text(eqs)) && Lines(Text(eqs)) == AllDecoded(eqs)
  {
    LinesOfText(eqs);
    FieldsLinesOfTexts(eqs);
  }

  /** `iter_lines` reads a puzzle text of well-formed equations as
      intended, whichever of its two readers takes each line. */
  lemma {:induction false} ReadText(eqs: seq<seq<seq<Byte>>>)
    requires AllWellFormed(eqs)
    ensures Readable(Text(eqs)) && Lines(Text(eqs)) == AllDecoded(eqs)
    decreases |eqs|
  {
    if |Text(eqs)| < ChunkSize {
      ReadShortText(eqs);
    } else {
      var input, rest := Text(eqs), eqs[1..];
      FirstChunk(eqs);
      ScanLineOfEquation(eqs[0]);
      assert AllWellFormed(rest);
      ReadText(rest);
      ReadableChunk(input, |Equation(eqs[0])|);
      AllDecodedFirst(eqs);
    }
  }
}
