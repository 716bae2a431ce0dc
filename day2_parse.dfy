/** Model of the ingestion half of src/day2.rs: `parse_input` reads the
    reports into a byte buffer with one eight-byte slot per report and a
    table of how many readings each report has. */
module Day2Parse {
  import opened Bytes

  /** Bytes per report slot, `size_of::<u8x8>()`. */
  const SlotBytes: nat := 8
  /** Bytes per evaluated chunk, `size_of::<i8x64>()`: eight slots. */
  const ChunkBytes: nat := 64
  /** Slots per chunk, and bits per verdict word. */
  const LinesPerChunk: nat := 8
  /** The block the source pads the buffer to, `size_of::<u64x4>()`. */
  const BlockBytesAsWritten: nat := 32

  // ---------------------------------------------------------------------
  // Token values: u8 arithmetic wraps (release build), then `as i8`.
  // ---------------------------------------------------------------------

  /** `b as i8` for a `u8` value. */
  function I8(b: Byte): int { if b < 128 then b else b - 256 }

  /** The reading of a one-byte token, `(f - b'0') as i8`. */
  function OneDigit(f: Byte): (v: int)
    ensures -128 <= v < 128
    ensures IsDigit(f) ==> v == f - Digit0
  {
    I8(U8(f - Digit0))
  }

  /** The reading of a two-byte token, `(10 * (f - b'0') + (s - b'0')) as i8`. */
  function TwoDigits(f: Byte, s: Byte): (v: int)
    ensures -128 <= v < 128
    ensures IsDigit(f) && IsDigit(s) ==> v == 10 * (f - Digit0) + (s - Digit0) && 0 <= v <= 99
  {
    var a, b := DigitValue(f), DigitValue(s);
    I8(U8(10 * a + b))
  }

  // ---------------------------------------------------------------------
  // What the parser reads: one list of readings per line.
  // ---------------------------------------------------------------------

  /** Puts reading `t` in front of the first line of `lines`. */
  function Prepend(t: int, lines: seq<seq<int>>): (r: seq<seq<int>>)
    requires |lines| >= 1
    ensures |r| == |lines| && r[0] == [t] + lines[0] && r[1..] == lines[1..]
  {
    [[t] + lines[0]] + lines[1..]
  }

  /** The readings of every line of `input`, as the byte cursor of
      `parse_input` tokenizes them: a space is skipped, a byte followed by the
      end, a newline or a space is a one-digit token, any other byte starts a
      two-byte token; every newline and the end of input close a line. */
  function Reports(input: seq<Byte>): (r: seq<seq<int>>)
    ensures |r| >= 1
    decreases |input|
  {
    if input == [] then [[]]
    else if input[0] == NewLine then [[]] + Reports(input[1..])
    else if input[0] == Space then Reports(input[1..])
    else if |input| == 1 || input[1] == NewLine || input[1] == Space then
      Prepend(OneDigit(input[0]), Reports(input[1..]))
    else
      Prepend(TwoDigits(input[0], input[1]), Reports(input[2..]))
  }

  /** Readings the puzzle text can hold: 0..99. */
  predicate InRange(line: seq<int>) { forall i | 0 <= i < |line| :: 0 <= line[i] <= 99 }

  predicate AllInRange(lines: seq<seq<int>>) { forall n | 0 <= n < |lines| :: InRange(lines[n]) }

  /** Decimal text of a reading in 0..99. */
  function DecimalText(v: int): (t: seq<Byte>)
    requires 0 <= v <= 99
  {
    if v < 10 then [Digit0 + v] else [Digit0 + v / 10, Digit0 + v % 10]
  }

  /** A line of readings written with single spaces. */
  function LineText(line: seq<int>): seq<Byte>
    requires InRange(line)
  {
    if line == [] then []
    else if |line| == 1 then DecimalText(line[0])
    else DecimalText(line[0]) + [Space] + LineText(line[1..])
  }

  /** Lines joined with newlines: the puzzle's text layout. */
  function Text(lines: seq<seq<int>>): seq<Byte>
    requires |lines| >= 1 && AllInRange(lines)
  {
    if |lines| == 1 then LineText(lines[0])
    else LineText(lines[0]) + [NewLine] + Text(lines[1..])
  }

  /** The tokens of a reading's decimal text, followed by a separator or the end. */
  lemma DecimalTextToken(v: int, after: seq<Byte>)
    requires 0 <= v <= 99
    requires after == [] || after[0] == NewLine || after[0] == Space
    ensures Reports(DecimalText(v) + after) == Prepend(v, Reports(after))
  {
    var t := DecimalText(v) + after;
    if v < 10 {
      assert t[0] == Digit0 + v && t[1..] == after;
    } else {
      assert t[0] == Digit0 + v / 10 && t[1] == Digit0 + v % 10 && t[2..] == after;
    }
  }

  lemma {:induction false} LineTextTokens(line: seq<int>, tail: seq<Byte>)
    requires InRange(line)
    requires tail == [] || tail[0] == NewLine
    ensures Reports(LineText(line) + tail) == [line + Reports(tail)[0]] + Reports(tail)[1..]
    decreases |line|
  {
    var rt := Reports(tail);
    if line == [] {
      assert LineText(line) + tail == tail;
      assert line + rt[0] == rt[0];
      assert [rt[0]] + rt[1..] == rt;
    } else if |line| == 1 {
      DecimalTextToken(line[0], tail);
      assert LineText(line) + tail == DecimalText(line[0]) + tail;
      assert [line[0]] + rt[0] == line + rt[0];
    } else {
      LineTextTokens(line[1..], tail);
      LineTextTokensStep(line, tail);
    }
  }

  /** A space before a line's text is skipped: the line's readings come
      out all the same. */
  lemma LineTextTokensStep(line: seq<int>, tail: seq<Byte>)
    requires InRange(line) && |line| >= 2
    requires tail == [] || tail[0] == NewLine
    requires Reports(LineText(line[1..]) + tail) == [line[1..] + Reports(tail)[0]] + Reports(tail)[1..]
    ensures Reports(LineText(line) + tail) == [line + Reports(tail)[0]] + Reports(tail)[1..]
  {
    var rt := Reports(tail);
    var rest := LineText(line[1..]) + tail;
    LineTextCons(line, tail);
    SpacedToken(line[0], rest);
    PrependOnto(line[0], line[1..] + rt[0], rt[1..]);
    ConsAppend(line, rt[0]);
  }

  lemma ConsAppend(line: seq<int>, x: seq<int>)
    requires line != []
    ensures [line[0]] + (line[1..] + x) == line + x
  {
  }

  lemma LineTextCons(line: seq<int>, tail: seq<Byte>)
    requires InRange(line) && |line| >= 2
    ensures LineText(line) + tail == DecimalText(line[0]) + ([Space] + (LineText(line[1..]) + tail))
  {
  }

  lemma PrependOnto(v: int, first: seq<int>, more: seq<seq<int>>)
    ensures Prepend(v, [first] + more) == [[v] + first] + more
  {
    assert ([first] + more)[1..] == more;
  }

  /** A reading followed by a space and more text. */
  lemma SpacedToken(v: int, rest: seq<Byte>)
    requires 0 <= v <= 99
    ensures Reports(DecimalText(v) + ([Space] + rest)) == Prepend(v, Reports(rest))
  {
    DecimalTextToken(v, [Space] + rest);
    SpaceSkipped(rest);
  }

  lemma SpaceSkipped(rest: seq<Byte>)
    ensures Reports([Space] + rest) == Reports(rest)
  {
    assert ([Space] + rest)[1..] == rest;
  }

  /** Round trip: parsing the text of any lines of readings in 0..99 gives
      those lines back. */
  lemma {:induction false} ReportsOfText(lines: seq<seq<int>>)
    requires |lines| >= 1 && AllInRange(lines)
    ensures Reports(Text(lines)) == lines
    decreases |lines|
  {
    if |lines| == 1 {
      LineTextTokens(lines[0], []);
      assert LineText(lines[0]) + [] == LineText(lines[0]);
      var re := Reports([]);
      assert re == [[]];
      assert lines[0] + re[0] == lines[0] && re[1..] == [];
      assert [lines[0]] == lines;
    } else {
      var tail := [NewLine] + Text(lines[1..]);
      assert AllInRange(lines[1..]) by {
        forall n | 0 <= n < |lines[1..]| ensures InRange(lines[1..][n]) {
          assert lines[1..][n] == lines[n + 1];
        }
      }
      ReportsOfText(lines[1..]);
      LineTextTokens(lines[0], tail);
      assert tail[1..] == Text(lines[1..]);
      var rt := Reports(tail);
      assert rt == [[]] + lines[1..];
      assert rt[0] == [] && rt[1..] == lines[1..];
      assert lines[0] + [] == lines[0];
      assert Text(lines) == LineText(lines[0]) + tail;
      assert Reports(Text(lines)) == [lines[0]] + lines[1..];
    }
  }

  // ---------------------------------------------------------------------
  // The buffer layout.
  // ---------------------------------------------------------------------


  /** How many zeros bring a length `n` up to a multiple of `m`. */
  function PadCount(n: nat, m: nat): (k: nat)
    requires m == 8 || m == 32 || m == 64
    ensures (n + k) % m == 0 && k < m && (n % m == 0 ==> k == 0)
  {
    PadArith(n, m);
    (m - n % m) % m
  }

  lemma PadArith(n: nat, m: nat)
    requires m == 8 || m == 32 || m == 64
    ensures var k := (m - n % m) % m; (n + k) % m == 0 && k < m && (n % m == 0 ==> k == 0)
  {
    var q, r := n / m, n % m;
    assert n == m * q + r;
    if r != 0 {
      assert (m - r) % m == m - r;
      assert n + (m - r) == m * (q + 1);
    }
  }

  /** `s` followed by zeros up to the next multiple of `m`: the
      `while len % m != 0 { push(0) }` loops. */
  function PadZeros(s: seq<int>, m: nat): (r: seq<int>)
    requires m == 8 || m == 32 || m == 64
    ensures |r| % m == 0 && |s| <= |r| < |s| + m
    ensures r[..|s|] == s && forall i | |s| <= i < |r| :: r[i] == 0
    ensures |s| % m == 0 ==> r == s
  {
    s + Zeros(PadCount(|s|, m))
  }

  /** The readings of every line, each zero-padded to a multiple of eight. */
  function Slots(lines: seq<seq<int>>): (r: seq<int>)
    ensures |r| % SlotBytes == 0
  {
    if lines == [] then []
    else
      var init, pad := Slots(lines[..|lines| - 1]), PadZeros(lines[|lines| - 1], SlotBytes);
      SumOfMultiples(|init|, |pad|);
      init + pad
  }

  lemma SumOfMultiples(a: nat, b: nat)
    requires a % SlotBytes == 0 && b % SlotBytes == 0
    ensures (a + b) % SlotBytes == 0
  {
    assert a + b == SlotBytes * (a / SlotBytes + b / SlotBytes);
  }

  lemma SlotsAppend(lines: seq<seq<int>>, line: seq<int>)
    ensures Slots(lines + [line]) == Slots(lines) + PadZeros(line, SlotBytes)
  {
    assert (lines + [line])[..|lines|] == lines;
  }

  /** The reading count of every line. */
  function Lengths(lines: seq<seq<int>>): (r: seq<nat>)
    ensures |r| == |lines| && forall n | 0 <= n < |lines| :: r[n] == |lines[n]|
  {
    seq(|lines|, n requires 0 <= n < |lines| => |lines[n]|)
  }

  lemma LengthsAppend(lines: seq<seq<int>>, line: seq<int>)
    ensures Lengths(lines + [line]) == Lengths(lines) + [|line|]
  {
  }

  /** The reading buffer `parse_input` returns: the slots of every line,
      zero-padded to a multiple of `block` bytes, then one more zero. The
      source pads to `BlockBytesAsWritten`; the evaluator needs whole chunks
      (see Day2.PaddingAsWrittenSkipsReport). */
  function Layout(lines: seq<seq<int>>, block: nat): (r: seq<int>)
    requires block == 32 || block == 64
    ensures |r| >= 1 && (|r| - 1) % block == 0 && r[|r| - 1] == 0
  {
    PadZeros(Slots(lines), block) + [0]
  }

  /** The level buffer: the reading count of every line, then zeros up to
      one entry per slot of a buffer of `dataLength` bytes. */
  function LevelTable(lines: seq<seq<int>>, dataLength: nat): (r: seq<nat>)
    ensures |r| == if |lines| < dataLength / SlotBytes then dataLength / SlotBytes else |lines|
    ensures forall n | 0 <= n < |lines| :: r[n] == |lines[n]|
    ensures forall n | |lines| <= n < |r| :: r[n] == 0
  {
    Lengths(lines) + seq(if |lines| < dataLength / SlotBytes then dataLength / SlotBytes - |lines| else 0, _ => 0)
  }

  /** The cursor loop's view of the lines: `done` are finished, `cur` holds the
      readings so far of the line being read, `rest` is still to be read. */
  ghost predicate CursorView(full: seq<seq<int>>, done: seq<seq<int>>, cur: seq<int>, rest: seq<Byte>) {
    var r := Reports(rest);
    full == done + [cur + r[0]] + r[1..]
  }

  lemma CursorStart(input: seq<Byte>)
    ensures CursorView(Reports(input), [], [], input)
  {
    var r := Reports(input);
    assert [] + r[0] == r[0] && [r[0]] + r[1..] == r;
    assert [] + [[] + r[0]] + r[1..] == r;
  }

  lemma CursorEnd(full: seq<seq<int>>, done: seq<seq<int>>, cur: seq<int>)
    requires CursorView(full, done, cur, [])
    ensures full == done + [cur]
  {
    var r := Reports([]);
    assert r == [[]];
    assert cur + r[0] == cur && r[1..] == [];
  }

  lemma CursorNewLine(full: seq<seq<int>>, done: seq<seq<int>>, cur: seq<int>, rest: seq<Byte>)
    requires rest != [] && rest[0] == NewLine && CursorView(full, done, cur, rest)
    ensures CursorView(full, done + [cur], [], rest[1..])
  {
    var r := Reports(rest);
    var r' := Reports(rest[1..]);
    assert r == [[]] + r';
    assert cur + r[0] == cur && r[1..] == r';
    assert [] + r'[0] == r'[0] && [r'[0]] + r'[1..] == r';
    assert done + [cur] + [[] + r'[0]] + r'[1..] == done + [cur] + r';
  }

  lemma CursorToken(full: seq<seq<int>>, done: seq<seq<int>>, cur: seq<int>, rest: seq<Byte>, t: int, rest': seq<Byte>)
    requires CursorView(full, done, cur, rest) && Reports(rest) == Prepend(t, Reports(rest'))
    ensures CursorView(full, done, cur + [t], rest')
  {
    var r' := Reports(rest');
    assert cur + ([t] + r'[0]) == (cur + [t]) + r'[0];
  }

  /** Whole slots in front of a line do not change its padding. */
  lemma PadCountAfterSlots(a: nat, b: nat)
    requires a % 8 == 0
    ensures PadCount(a + b, 8) == PadCount(b, 8)
  {
    var q := a / 8;
    assert a == 8 * q;
    assert (a + b) % 8 == b % 8;
  }

  /** Padding the buffer at a line end closes that line's slot. */
  lemma SlotsOfLineEnd(done: seq<seq<int>>, cur: seq<int>)
    ensures PadZeros(Slots(done) + cur, SlotBytes) == Slots(done + [cur])
  {
    SlotsAppend(done, cur);
    PadCountAfterSlots(|Slots(done)|, |cur|);
    assert Slots(done) + cur + Zeros(PadCount(|Slots(done) + cur|, 8)) == Slots(done) + PadZeros(cur, 8);
  }

  /** The `while data.len() % m != 0 { data.push(0) }` loop. */
  method PushZerosTo(data: seq<int>, m: nat) returns (r: seq<int>)
    requires m == 8 || m == 32 || m == 64
    ensures r == PadZeros(data, m)
  {
    r := data;
    ghost var padded := PadZeros(data, m);
    while |r| % m != 0
      invariant |data| <= |r| <= |padded|
      invariant r == padded[..|r|]
      decreases |padded| - |r|
    {
      r := r + [0];
    }
    SameMultiple(|r|, |padded|, |data|, m);
  }

  /** Two multiples of `m` at or above `low` and below `low + m` are equal. */
  lemma SameMultiple(a: nat, b: nat, low: nat, m: nat)
    requires m == 8 || m == 32 || m == 64
    requires a % m == 0 && b % m == 0
    requires low <= a <= b < low + m
    ensures a == b
  {
    var qa, qb := a / m, b / m;
    assert a == m * qa && b == m * qb;
  }

  /** The model of `parse_input`: a byte cursor that pushes readings into
      `data`, pads `data` to a whole slot at each line end, counts the
      readings of each line into `numLevels`, and finally pads both buffers
      (the source calls it with `block == BlockBytesAsWritten`). */
  method ParseInput(input: seq<Byte>, block: nat) returns (data: seq<int>, numLevels: seq<nat>)
    requires block == 32 || block == 64
    ensures data == Layout(Reports(input), block)
    ensures numLevels == LevelTable(Reports(input), |data|)
  {
    var rest := input;
    data := [];
    numLevels := [];
    var levels: nat := 0;
    ghost var done: seq<seq<int>> := [];
    ghost var cur: seq<int> := [];
    CursorStart(input);
    while true
      invariant CursorView(Reports(input), done, cur, rest)
      invariant data == Slots(done) + cur
      invariant numLevels == Lengths(done)
      invariant levels == |cur|
      decreases |rest|
    {
      if rest == [] || rest[0] == NewLine {
        LengthsAppend(done, cur);
        numLevels := numLevels + [levels];
        levels := 0;
        data := PushZerosTo(data, SlotBytes);
        SlotsOfLineEnd(done, cur);
        if rest == [] {
          CursorEnd(Reports(input), done, cur);
          done, cur := done + [cur], [];
          break;
        }
        CursorNewLine(Reports(input), done, cur, rest);
        done, cur := done + [cur], [];
        rest := rest[1..];
      } else if rest[0] == Space {
        rest := rest[1..];
      } else if |rest| == 1 || rest[1] == NewLine || rest[1] == Space {
        data := data + [OneDigit(rest[0])];
        levels := levels + 1;
        CursorToken(Reports(input), done, cur, rest, OneDigit(rest[0]), rest[1..]);
        cur := cur + [OneDigit(rest[0])];
        rest := rest[1..];
      } else {
        data := data + [TwoDigits(rest[0], rest[1])];
        levels := levels + 1;
        CursorToken(Reports(input), done, cur, rest, TwoDigits(rest[0], rest[1]), rest[2..]);
        cur := cur + [TwoDigits(rest[0], rest[1])];
        rest := rest[2..];
      }
    }
    data := PushZerosTo(data, block);
    data := data + [0];
    numLevels := PushLevelsTo(numLevels, done, |data|);
  }

  /** The `while num_levels.len() < data.len() / 8 { num_levels.push(0) }` loop. */
  method PushLevelsTo(levels: seq<nat>, ghost lines: seq<seq<int>>, dataLength: nat) returns (r: seq<nat>)
    requires levels == Lengths(lines)
    ensures r == LevelTable(lines, dataLength)
  {
    r := levels;
    while |r| < dataLength / SlotBytes
      invariant |lines| <= |r|
      invariant |r| == |lines| || |r| <= dataLength / SlotBytes
      invariant r == Lengths(lines) + Zeros(|r| - |lines|)
    {
      r := r + [0];
    }
  }

  // ---------------------------------------------------------------------
  // Where every reading ends up.
  // ---------------------------------------------------------------------

  /** A reading the buffer can hold: an `i8`. */
  predicate IsI8(x: int) { -128 <= x < 128 }

  predicate AllI8(lines: seq<seq<int>>) {
    forall n, t | 0 <= n < |lines| && 0 <= t < |lines[n]| :: IsI8(lines[n][t])
  }

  /** Every token the cursor reads is an `i8` value. */
  lemma {:induction false} ReportsI8(input: seq<Byte>)
    ensures AllI8(Reports(input))
    decreases |input|
  {
    if input == [] {
    } else if input[0] == NewLine || input[0] == Space {
      ReportsI8(input[1..]);
    } else if |input| == 1 || input[1] == NewLine || input[1] == Space {
      ReportsI8(input[1..]);
      PrependI8(OneDigit(input[0]), Reports(input[1..]));
    } else {
      ReportsI8(input[2..]);
      PrependI8(TwoDigits(input[0], input[1]), Reports(input[2..]));
    }
  }

  lemma PrependI8(v: int, lines: seq<seq<int>>)
    requires IsI8(v) && |lines| >= 1 && AllI8(lines)
    ensures AllI8(Prepend(v, lines))
  {
    var r := Prepend(v, lines);
    forall n, t | 0 <= n < |r| && 0 <= t < |r[n]| ensures IsI8(r[n][t]) {
      if n == 0 {
        if t > 0 {
          assert r[0][t] == lines[0][t - 1];
        }
      } else {
        assert r[n] == r[1..][n - 1] == lines[n];
      }
    }
  }

  /** Lines the slot layout keeps apart: at most eight readings each, and
      only the last line may be empty (an empty line gets a level entry but
      no slot, so one in the middle would shift every later slot). */
  predicate Ingestible(lines: seq<seq<int>>) {
    forall n | 0 <= n < |lines| :: |lines[n]| <= SlotBytes && (lines[n] == [] ==> n == |lines| - 1)
  }

  /** The lines that own a slot: all of them, or all but an empty last one. */
  function SlotCount(lines: seq<seq<int>>): nat {
    if lines != [] && lines[|lines| - 1] == [] then |lines| - 1 else |lines|
  }

  /** What byte `j` of the buffer should hold: reading `j % 8` of line `j / 8`,
      or zero where that line has no such reading or there is no such line. */
  function Cell(lines: seq<seq<int>>, j: nat): int {
    var n, t := j / SlotBytes, j % SlotBytes;
    if n < |lines| && t < |lines[n]| then lines[n][t] else 0
  }

  lemma CellOfSlot(lines: seq<seq<int>>, n: nat, t: nat)
    requires t < SlotBytes
    ensures Cell(lines, SlotBytes * n + t) == if n < |lines| && t < |lines[n]| then lines[n][t] else 0
  {
    var j := SlotBytes * n + t;
    assert j / SlotBytes == n && j % SlotBytes == t;
  }

  /** Each line's readings occupy `data[8n .. 8n + |line|]` and the rest of
      its eight-byte slot is zero. */
  lemma {:induction false} SlotsLayout(lines: seq<seq<int>>)
    requires Ingestible(lines)
    ensures |Slots(lines)| == SlotBytes * SlotCount(lines)
    ensures forall j | 0 <= j < |Slots(lines)| :: Slots(lines)[j] == Cell(lines, j)
    decreases |lines|
  {
    if lines != [] {
      var init, last := lines[..|lines| - 1], lines[|lines| - 1];
      assert lines == init + [last];
      IngestibleInit(lines);
      SlotsLayout(init);
      SlotsAppend(init, last);
      PadSlotLength(last);
      SlotsLayoutStep(lines, init, last);
    }
  }

  /** Dropping the last line keeps a layout ingestible, and every line
      left owns a slot. */
  lemma IngestibleInit(lines: seq<seq<int>>)
    requires Ingestible(lines) && lines != []
    ensures var init := lines[..|lines| - 1]; Ingestible(init) && SlotCount(init) == |init|
  {
    var init := lines[..|lines| - 1];
    forall n | 0 <= n < |init| ensures |init[n]| <= SlotBytes && (init[n] == [] ==> n == |init| - 1) {
      assert init[n] == lines[n];
    }
    if init != [] {
      assert init[|init| - 1] == lines[|lines| - 2];
    }
  }

  /** A line of at most eight readings pads to one slot, or to none when
      it is empty. */
  lemma PadSlotLength(line: seq<int>)
    requires |line| <= SlotBytes
    ensures |PadZeros(line, SlotBytes)| == if line == [] then 0 else SlotBytes
  {
  }

  /** One more line: its padded slot follows the slots before it. */
  lemma SlotsLayoutStep(lines: seq<seq<int>>, init: seq<seq<int>>, last: seq<int>)
    requires lines == init + [last] && |last| <= SlotBytes
    requires |Slots(init)| == SlotBytes * |init|
    requires forall j | 0 <= j < |Slots(init)| :: Slots(init)[j] == Cell(init, j)
    ensures var s := Slots(init) + PadZeros(last, SlotBytes);
      forall j | 0 <= j < |s| :: s[j] == Cell(lines, j)
  {
    var s, pad := Slots(init) + PadZeros(last, SlotBytes), PadZeros(last, SlotBytes);
    forall j | 0 <= j < |s| ensures s[j] == Cell(lines, j) {
      if j < |Slots(init)| {
        EarlierCell(lines, init, last, j);
      } else {
        LastCell(lines, init, last, j - |Slots(init)|);
      }
    }
  }

  /** A cell of the last line's slot is its padded reading. */
  lemma LastCell(lines: seq<seq<int>>, init: seq<seq<int>>, last: seq<int>, t: nat)
    requires lines == init + [last] && |last| <= SlotBytes && t < |PadZeros(last, SlotBytes)|
    ensures Cell(lines, SlotBytes * |init| + t) == PadZeros(last, SlotBytes)[t]
  {
    assert |PadZeros(last, SlotBytes)| <= SlotBytes;
    CellOfSlot(lines, |init|, t);
  }

  /** A cell of an earlier line is the same with or without the last line. */
  lemma EarlierCell(lines: seq<seq<int>>, init: seq<seq<int>>, last: seq<int>, j: nat)
    requires lines == init + [last] && j < SlotBytes * |init|
    ensures Cell(lines, j) == Cell(init, j)
  {
    var n, t := j / SlotBytes, j % SlotBytes;
    assert n < |init|;
    assert lines[n] == init[n];
  }

  /** The whole buffer: the slots, then zeros. */
  lemma LayoutCells(lines: seq<seq<int>>, block: nat)
    requires Ingestible(lines) && (block == 32 || block == 64)
    ensures SlotBytes * SlotCount(lines) <= |Layout(lines, block)| - 1
    ensures forall j | 0 <= j < |Layout(lines, block)| :: Layout(lines, block)[j] == Cell(lines, j)
  {
    SlotsLayout(lines);
    var data := Layout(lines, block);
    forall j | |Slots(lines)| <= j < |data| ensures data[j] == Cell(lines, j) {
      var n, t := j / SlotBytes, j % SlotBytes;
      assert j == SlotBytes * n + t;
      assert n >= SlotCount(lines);
      CellOfSlot(lines, n, t);
    }
  }
}
