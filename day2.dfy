/** Model of the evaluator half of src/day2.rs: the 64-lane plain safety
    check that turns eight report slots into one verdict byte, `part1`, and
    the tolerant mode of `part2`, which splices one reading out of every
    report in each of eight passes and ORs the verdicts. */
module Day2 {
  import opened Bytes
  import opened Day2Parse

  // ---------------------------------------------------------------------
  // The specification: which reports are safe.
  // ---------------------------------------------------------------------

  /** Readings that strictly increase, or strictly decrease, by 1 to 3 at
      every step (a report of at most one reading has no step). */
  predicate Safe(r: seq<int>) { Increasing(r) || Decreasing(r) }

  predicate Increasing(r: seq<int>) { forall i | 0 <= i < |r| - 1 :: 1 <= r[i + 1] - r[i] <= 3 }

  predicate Decreasing(r: seq<int>) { forall i | 0 <= i < |r| - 1 :: 1 <= r[i] - r[i + 1] <= 3 }

  /** A line that counts in part 1: a report (at least one reading) that is safe. */
  predicate SafeReport(r: seq<int>) { r != [] && Safe(r) }

  /** `r` without its reading `j`. */
  function Delete(r: seq<int>, j: nat): (d: seq<int>)
    requires j < |r|
    ensures |d| == |r| - 1
    ensures forall t {:trigger d[t]} | 0 <= t < |d| :: d[t] == if t < j then r[t] else r[t + 1]
  {
    r[..j] + r[j + 1..]
  }

  /** A line that counts in part 2: a report that is safe as it is, or once
      one of its readings is removed. */
  predicate TolerantSafe(r: seq<int>) {
    r != [] && (Safe(r) || exists j | 0 <= j < |r| :: Safe(Delete(r, j)))
  }

  lemma PlainSafeIsTolerantSafe(r: seq<int>)
    requires SafeReport(r)
    ensures TolerantSafe(r)
  {
  }

  /** The number of `true` entries. */
  function PopCount(bits: seq<bool>): (k: nat)
    ensures k <= |bits|
  {
    if bits == [] then 0 else PopCount(bits[..|bits| - 1]) + (if bits[|bits| - 1] then 1 else 0)
  }

  /** One verdict per line. */
  function Verdicts(lines: seq<seq<int>>, tolerant: bool): (v: seq<bool>)
    ensures |v| == |lines|
    ensures forall n | 0 <= n < |lines| :: v[n] == if tolerant then TolerantSafe(lines[n]) else SafeReport(lines[n])
  {
    seq(|lines|, n requires 0 <= n < |lines| => if tolerant then TolerantSafe(lines[n]) else SafeReport(lines[n]))
  }

  /** The answer of part 1 (`tolerant == false`) or part 2: how many lines count. */
  function CountSafe(lines: seq<seq<int>>, tolerant: bool): nat {
    PopCount(Verdicts(lines, tolerant))
  }

  // ---------------------------------------------------------------------
  // Lane arithmetic (`i8x64`, `u8x8`).
  // ---------------------------------------------------------------------

  /** Eight lanes of a `u8x8` bitset, or the eight bits of a byte: entry `s` is bit `s`. */
  type Bits = s: seq<bool> | |s| == 8 witness [false, false, false, false, false, false, false, false]

  const NoBits: Bits := [false, false, false, false, false, false, false, false]
  /** The byte 1: bit 0 only. */
  const LowBit: Bits := [true, false, false, false, false, false, false, false]

  function And(x: Bits, y: Bits): Bits { seq(8, s requires 0 <= s < 8 => x[s] && y[s]) }
  function Or(x: Bits, y: Bits): Bits { seq(8, s requires 0 <= s < 8 => x[s] || y[s]) }
  /** `simd_ne(zero)` on one lane. */
  predicate NonZero(x: Bits) { exists s | 0 <= s < 8 :: x[s] }

  /** `i8` saturation. */
  function SatI8(x: int): int { if x < -128 then -128 else if x > 127 then 127 else x }
  /** `saturating_sub` on `i8` lanes. */
  function SatSub(a: int, b: int): int { SatI8(a - b) }
  /** `saturating_abs` on an `i8` lane. */
  function SatAbs(d: int): int { SatI8(if d < 0 then -d else d) }
  function Signum(d: int): int { if d > 0 then 1 else if d < 0 then -1 else 0 }

  /** On `i8` readings the saturating delta keeps the sign of the exact
      difference and whether its magnitude reaches 4. */
  lemma SatSubKeepsVerdict(a: int, b: int)
    requires IsI8(a) && IsI8(b)
    ensures Signum(SatSub(a, b)) == Signum(a - b)
    ensures (SatAbs(SatSub(a, b)) >= 4) == (a - b >= 4 || b - a >= 4)
  {
  }

  /** The level-to-mask table of lines 129-132. */
  const LevelMasks: seq<bv8> := [0xFF, 0x00, 0x01, 0x03, 0x07, 0x0F, 0x1F, 0x3F, 0x7F]

  predicate BitOf(x: bv8, s: nat) requires s < 8 { (x >> s) & 1 == 1 }

  /** The mask of a line of `level` readings: the delta slots it owns. */
  function LineMask(level: nat): (m: Bits)
    requires level <= 8
    ensures forall s | 0 <= s < 8 :: m[s] == (level == 0 || s < level - 1)
  {
    seq(8, s requires 0 <= s < 8 => BitOf(LevelMasks[level], s))
  }

  /** `delta_mask_to_line_bitset`: the 64-lane mask as a `u64` bitmask whose
      little-endian bytes are the lines; bit `s` of byte `b` is lane `8b + s`. */
  function LineBitset(m: seq<bool>): (r: seq<Bits>)
    requires |m| == 64
    ensures |r| == 8 && forall b, s | 0 <= b < 8 && 0 <= s < 8 :: r[b][s] == m[8 * b + s]
  {
    seq(8, b requires 0 <= b < 8 => m[8 * b .. 8 * b + 8])
  }

  /** Lines 140-156 for one line: its verdict bit from its flat, increasing,
      decreasing and over-threshold bitsets and its mask. */
  predicate LineVerdict(isFlat: Bits, isIncreasing: Bits, isDecreasing: Bits, overThreshold: Bits, lineMask: Bits) {
    var increasingAndDecreasing := NonZero(And(isIncreasing, lineMask)) && NonZero(And(isDecreasing, lineMask));
    var modeFails := Or(isFlat, if increasingAndDecreasing then LowBit else NoBits);
    !NonZero(And(Or(overThreshold, modeFails), lineMask))
  }

  /** The 64 lane deltas of chunk `c`: `later - earlier`, saturating. */
  function ChunkDeltas(data: seq<int>, c: nat): (d: seq<int>)
    requires ChunkBytes * c + ChunkBytes + 1 <= |data|
    ensures |d| == 64
  {
    seq(64, j requires 0 <= j < 64 => SatSub(data[ChunkBytes * c + j + 1], data[ChunkBytes * c + j]))
  }

  /** The verdict word the evaluator emits for chunk `c` (lines 122-156). */
  function ChunkWord(data: seq<int>, numLevels: seq<nat>, c: nat): Bits
    requires ChunkBytes * c + ChunkBytes + 1 <= |data|
    requires LinesPerChunk * c + LinesPerChunk <= |numLevels|
    requires forall n | LinesPerChunk * c <= n < LinesPerChunk * c + LinesPerChunk :: numLevels[n] <= 8
  {
    var delta := ChunkDeltas(data, c);
    var isFlat := LineBitset(seq(64, j requires 0 <= j < 64 => Signum(delta[j]) == 0));
    var isIncreasing := LineBitset(seq(64, j requires 0 <= j < 64 => Signum(delta[j]) == 1));
    var isDecreasing := LineBitset(seq(64, j requires 0 <= j < 64 => Signum(delta[j]) == -1));
    var overThreshold := LineBitset(seq(64, j requires 0 <= j < 64 => SatAbs(delta[j]) >= 4));
    seq(8, b requires 0 <= b < 8 =>
      LineVerdict(isFlat[b], isIncreasing[b], isDecreasing[b], overThreshold[b], LineMask(numLevels[LinesPerChunk * c + b])))
  }

  // ---------------------------------------------------------------------
  // One slot at a time.
  // ---------------------------------------------------------------------

  /** The nine bytes the verdict of slot `n` reads: its own eight, and the
      first byte of the next slot for the eighth delta. */
  function Window(data: seq<int>, n: nat): (w: seq<int>)
    requires SlotBytes * n + 9 <= |data|
    ensures |w| == 9
  {
    data[SlotBytes * n .. SlotBytes * n + 9]
  }

  /** Delta slot `s` of a window: the saturating difference of bytes `s + 1` and `s`. */
  function Delta(w: seq<int>, s: nat): int
    requires |w| == 9 && s < 8
  {
    SatSub(w[s + 1], w[s])
  }

  function FlatBits(w: seq<int>): Bits requires |w| == 9 { seq(8, s requires 0 <= s < 8 => Signum(Delta(w, s)) == 0) }
  function UpBits(w: seq<int>): Bits requires |w| == 9 { seq(8, s requires 0 <= s < 8 => Signum(Delta(w, s)) == 1) }
  function DownBits(w: seq<int>): Bits requires |w| == 9 { seq(8, s requires 0 <= s < 8 => Signum(Delta(w, s)) == -1) }
  function OverBits(w: seq<int>): Bits requires |w| == 9 { seq(8, s requires 0 <= s < 8 => SatAbs(Delta(w, s)) >= 4) }

  /** The verdict bit of one slot, read from its window and its level. */
  predicate SlotVerdict(w: seq<int>, level: nat)
    requires |w| == 9 && level <= 8
  {
    LineVerdict(FlatBits(w), UpBits(w), DownBits(w), OverBits(w), LineMask(level))
  }

  /** On `i8` bytes the four bitsets say what the exact differences do. */
  lemma WindowBits(w: seq<int>)
    requires |w| == 9 && forall t | 0 <= t < 9 :: IsI8(w[t])
    ensures forall s | 0 <= s < 8 :: FlatBits(w)[s] == (w[s + 1] == w[s])
    ensures forall s | 0 <= s < 8 :: UpBits(w)[s] == (w[s + 1] > w[s])
    ensures forall s | 0 <= s < 8 :: DownBits(w)[s] == (w[s + 1] < w[s])
    ensures forall s | 0 <= s < 8 :: OverBits(w)[s] == (w[s + 1] - w[s] >= 4 || w[s] - w[s + 1] >= 4)
  {
    forall s | 0 <= s < 8
      ensures FlatBits(w)[s] == (w[s + 1] == w[s]) && UpBits(w)[s] == (w[s + 1] > w[s])
      ensures DownBits(w)[s] == (w[s + 1] < w[s])
      ensures OverBits(w)[s] == (w[s + 1] - w[s] >= 4 || w[s] - w[s + 1] >= 4)
    {
      SatSubKeepsVerdict(w[s + 1], w[s]);
    }
  }

  /** Bit `b` of a chunk's word is the verdict of slot `8c + b`. */
  lemma ChunkWordSlot(data: seq<int>, numLevels: seq<nat>, c: nat, b: nat)
    requires ChunkBytes * c + ChunkBytes + 1 <= |data|
    requires LinesPerChunk * c + LinesPerChunk <= |numLevels|
    requires forall n | LinesPerChunk * c <= n < LinesPerChunk * c + LinesPerChunk :: numLevels[n] <= 8
    requires b < 8
    ensures ChunkWord(data, numLevels, c)[b] == SlotVerdict(Window(data, LinesPerChunk * c + b), numLevels[LinesPerChunk * c + b])
  {
    var delta := ChunkDeltas(data, c);
    var w := Window(data, LinesPerChunk * c + b);
    forall s | 0 <= s < 8 ensures delta[8 * b + s] == Delta(w, s) {
      assert w[s] == data[ChunkBytes * c + (8 * b + s)] && w[s + 1] == data[ChunkBytes * c + (8 * b + s) + 1];
    }
    WindowBitsets(delta, w, b);
  }

  /** The four bitsets of line `b` of a chunk are those of its window. */
  lemma WindowBitsets(delta: seq<int>, w: seq<int>, b: nat)
    requires |delta| == 64 && |w| == 9 && b < 8
    requires forall s | 0 <= s < 8 :: delta[8 * b + s] == Delta(w, s)
    ensures LineBitset(seq(64, j requires 0 <= j < 64 => Signum(delta[j]) == 0))[b] == FlatBits(w)
    ensures LineBitset(seq(64, j requires 0 <= j < 64 => Signum(delta[j]) == 1))[b] == UpBits(w)
    ensures LineBitset(seq(64, j requires 0 <= j < 64 => Signum(delta[j]) == -1))[b] == DownBits(w)
    ensures LineBitset(seq(64, j requires 0 <= j < 64 => SatAbs(delta[j]) >= 4))[b] == OverBits(w)
  {
    var flat := LineBitset(seq(64, j requires 0 <= j < 64 => Signum(delta[j]) == 0));
    var up := LineBitset(seq(64, j requires 0 <= j < 64 => Signum(delta[j]) == 1));
    var down := LineBitset(seq(64, j requires 0 <= j < 64 => Signum(delta[j]) == -1));
    var over := LineBitset(seq(64, j requires 0 <= j < 64 => SatAbs(delta[j]) >= 4));
    assert flat[b] == FlatBits(w) by {
      forall s | 0 <= s < 8 ensures flat[b][s] == FlatBits(w)[s] {}
    }
    assert up[b] == UpBits(w) by {
      forall s | 0 <= s < 8 ensures up[b][s] == UpBits(w)[s] {}
    }
    assert down[b] == DownBits(w) by {
      forall s | 0 <= s < 8 ensures down[b][s] == DownBits(w)[s] {}
    }
    assert over[b] == OverBits(w) by {
      forall s | 0 <= s < 8 ensures over[b][s] == OverBits(w)[s] {}
    }
  }

  /** No flat step and no step of 4 or more. */
  predicate StepsBounded(r: seq<int>) {
    forall s | 0 <= s < |r| - 1 :: r[s + 1] != r[s] && -4 < r[s + 1] - r[s] < 4
  }

  predicate SomeUp(r: seq<int>) { exists s | 0 <= s < |r| - 1 :: r[s + 1] > r[s] }

  predicate SomeDown(r: seq<int>) { exists s | 0 <= s < |r| - 1 :: r[s + 1] < r[s] }

  /** The verdict as plain conditions on the readings: no flat step, no step
      of 4 or more, and not both an up and a down step. */
  predicate StepsOk(r: seq<int>) {
    StepsBounded(r) && !(SomeUp(r) && SomeDown(r))
  }

  /** What the lane formula of one line says, for a mask that selects a
      prefix of the delta slots. */
  lemma LineVerdictMeaning(isFlat: Bits, isIncreasing: Bits, isDecreasing: Bits, overThreshold: Bits, m: Bits)
    requires forall s | 0 <= s < 8 :: m[s] ==> m[0]
    ensures LineVerdict(isFlat, isIncreasing, isDecreasing, overThreshold, m) ==
      ((forall s | 0 <= s < 8 :: m[s] ==> !isFlat[s] && !overThreshold[s]) &&
       !(NonZero(And(isIncreasing, m)) && NonZero(And(isDecreasing, m))))
  {
    var both := NonZero(And(isIncreasing, m)) && NonZero(And(isDecreasing, m));
    var modeFails := Or(isFlat, if both then LowBit else NoBits);
    var bad := And(Or(overThreshold, modeFails), m);
    if both {
      var s :| 0 <= s < 8 && And(isIncreasing, m)[s];
      assert bad[0];
    }
    if NonZero(bad) {
      var s :| 0 <= s < 8 && bad[s];
    } else {
      forall s | 0 <= s < 8 ensures m[s] ==> !isFlat[s] && !overThreshold[s] {
        assert !bad[s];
      }
    }
  }

  /** Under the mask of `k` readings, some increasing lane exists exactly
      when the first `k` readings take an upward step. */
  lemma MaskedUp(x: Bits, w: seq<int>, k: nat)
    requires |w| == 9 && 1 <= k <= 8
    requires forall s | 0 <= s < 8 :: x[s] == (w[s + 1] > w[s])
    ensures NonZero(And(x, LineMask(k))) == SomeUp(w[..k])
  {
    var r := w[..k];
    if NonZero(And(x, LineMask(k))) {
      var s :| 0 <= s < 8 && And(x, LineMask(k))[s];
      assert r[s + 1] > r[s];
    }
    if SomeUp(r) {
      var s :| 0 <= s < k - 1 && r[s + 1] > r[s];
      assert And(x, LineMask(k))[s];
    }
  }

  /** The mirror of `MaskedUp` for decreasing lanes. */
  lemma MaskedDown(x: Bits, w: seq<int>, k: nat)
    requires |w| == 9 && 1 <= k <= 8
    requires forall s | 0 <= s < 8 :: x[s] == (w[s + 1] < w[s])
    ensures NonZero(And(x, LineMask(k))) == SomeDown(w[..k])
  {
    var r := w[..k];
    if NonZero(And(x, LineMask(k))) {
      var s :| 0 <= s < 8 && And(x, LineMask(k))[s];
      assert r[s + 1] < r[s];
    }
    if SomeDown(r) {
      var s :| 0 <= s < k - 1 && r[s + 1] < r[s];
      assert And(x, LineMask(k))[s];
    }
  }

  /** Under the mask of `k` readings, no flat and no over-threshold lane is
      selected exactly when every step of the first `k` readings is 1 to 3. */
  lemma MaskedBounded(flat: Bits, over: Bits, w: seq<int>, k: nat)
    requires |w| == 9 && 1 <= k <= 8
    requires forall s | 0 <= s < 8 :: flat[s] == (w[s + 1] == w[s])
    requires forall s | 0 <= s < 8 :: over[s] == (w[s + 1] - w[s] >= 4 || w[s] - w[s + 1] >= 4)
    ensures (forall s | 0 <= s < 8 :: LineMask(k)[s] ==> !flat[s] && !over[s]) == StepsBounded(w[..k])
  {
    var r := w[..k];
    var m := LineMask(k);
    if forall s | 0 <= s < 8 :: m[s] ==> !flat[s] && !over[s] {
      forall s | 0 <= s < |r| - 1 ensures r[s + 1] != r[s] && -4 < r[s + 1] - r[s] < 4 {
        assert m[s];
      }
    }
    if StepsBounded(r) {
      forall s | 0 <= s < 8 && m[s] ensures !flat[s] && !over[s] {
        assert r[s + 1] == w[s + 1] && r[s] == w[s];
      }
    }
  }

  lemma SlotVerdictSteps(w: seq<int>, k: nat)
    requires |w| == 9 && 1 <= k <= 8
    requires forall t | 0 <= t < 9 :: IsI8(w[t])
    ensures SlotVerdict(w, k) == StepsOk(w[..k])
  {
    WindowBits(w);
    LineVerdictMeaning(FlatBits(w), UpBits(w), DownBits(w), OverBits(w), LineMask(k));
    MaskedUp(UpBits(w), w, k);
    MaskedDown(DownBits(w), w, k);
    MaskedBounded(FlatBits(w), OverBits(w), w, k);
  }

  lemma StepsOkSafe(r: seq<int>)
    ensures StepsOk(r) == Safe(r)
  {
    if Increasing(r) {
      assert !SomeDown(r);
    }
    if Decreasing(r) {
      assert !SomeUp(r);
    }
    if StepsOk(r) {
      if !SomeDown(r) {
        forall i | 0 <= i < |r| - 1 ensures 1 <= r[i + 1] - r[i] <= 3 {
          assert !(r[i + 1] < r[i]);
        }
      } else {
        forall i | 0 <= i < |r| - 1 ensures 1 <= r[i] - r[i + 1] <= 3 {
          assert !(r[i + 1] > r[i]);
        }
      }
    }
  }

  /** A slot holding a report of `k` readings (1..8) is judged by the
      report alone: its verdict bit is `Safe` of those readings. */
  lemma SlotVerdictSafe(w: seq<int>, k: nat)
    requires |w| == 9 && 1 <= k <= 8
    requires forall t | 0 <= t < 9 :: IsI8(w[t])
    ensures SlotVerdict(w, k) == Safe(w[..k])
  {
    SlotVerdictSteps(w, k);
    StepsOkSafe(w[..k]);
  }

  /** Level 0 selects all eight deltas, so a slot starting with two equal
      bytes (an empty line, a padding slot) is never safe. */
  lemma SlotVerdictLevelZero(w: seq<int>)
    requires |w| == 9 && w[0] == w[1]
    ensures !SlotVerdict(w, 0)
  {
    var m := LineMask(0);
    assert FlatBits(w)[0] && m[0];
    var increasingAndDecreasing := NonZero(And(UpBits(w), m)) && NonZero(And(DownBits(w), m));
    var modeFails := Or(FlatBits(w), if increasingAndDecreasing then LowBit else NoBits);
    assert And(Or(OverBits(w), modeFails), m)[0];
  }

  // ---------------------------------------------------------------------
  // Counting.
  // ---------------------------------------------------------------------

  lemma {:induction false} PopCountAppend(a: seq<bool>, b: seq<bool>)
    ensures PopCount(a + b) == PopCount(a) + PopCount(b)
    decreases |b|
  {
    if b != [] {
      assert (a + b)[..|a + b| - 1] == a + b[..|b| - 1];
      PopCountAppend(a, b[..|b| - 1]);
    } else {
      assert a + b == a;
    }
  }

  /** Two verdict sequences that agree where both are defined, and are
      `false` where only one is, count the same. */
  lemma {:induction false} PopCountPadded(x: seq<bool>, v: seq<bool>)
    requires forall n | 0 <= n < |x| :: x[n] == (n < |v| && v[n])
    requires forall n | |x| <= n < |v| :: !v[n]
    ensures PopCount(x) == PopCount(v)
    decreases |x| + |v|
  {
    if |x| > |v| {
      PopCountPadded(x[..|x| - 1], v);
    } else if |x| < |v| {
      PopCountPadded(x, v[..|v| - 1]);
    } else if x != [] {
      PopCountPadded(x[..|x| - 1], v[..|v| - 1]);
    }
  }

  /** The verdict words one after the other: entry `8c + b` is bit `b` of word `c`. */
  function Flatten(words: seq<Bits>): (f: seq<bool>)
    ensures |f| == 8 * |words|
    ensures forall c, b | 0 <= c < |words| && 0 <= b < 8 :: f[8 * c + b] == words[c][b]
  {
    if words == [] then [] else Flatten(words[..|words| - 1]) + words[|words| - 1]
  }

  /** `count_ones` summed over the words (the final loop of `part2`, and the
      callback of `part1`). */
  method CountOnes(words: seq<Bits>) returns (total: nat)
    ensures total == PopCount(Flatten(words))
  {
    total := 0;
    for c := 0 to |words|
      invariant total == PopCount(Flatten(words[..c]))
    {
      assert words[..c + 1][..c] == words[..c];
      PopCountAppend(Flatten(words[..c]), words[c]);
      total := total + PopCount(words[c]);
    }
    assert words[..|words|] == words;
  }

  // ---------------------------------------------------------------------
  // The evaluator, `gen_num_safe_lines_masks`.
  // ---------------------------------------------------------------------

  /** The chunks the evaluator reads: `later.len() / 64`. */
  function NumChunks(data: seq<int>): nat
    requires |data| >= 1
  {
    (|data| - 1) / ChunkBytes
  }

  /** What the evaluator needs not to panic: a level entry for every slot it
      reads, and each of them an index into the nine-entry mask table. */
  predicate EvalReady(data: seq<int>, numLevels: seq<nat>) {
    |data| >= 1 && LinesPerChunk * NumChunks(data) <= |numLevels|
    && forall n | 0 <= n < LinesPerChunk * NumChunks(data) :: numLevels[n] <= 8
  }

  lemma WindowInside(data: seq<int>, n: nat)
    requires |data| >= 1 && n < LinesPerChunk * NumChunks(data)
    ensures SlotBytes * n + 9 <= |data|
  {
  }

  /** The verdict of every slot the evaluator reads. */
  function SlotVerdicts(data: seq<int>, numLevels: seq<nat>): (v: seq<bool>)
    requires EvalReady(data, numLevels)
    ensures |v| == LinesPerChunk * NumChunks(data)
  {
    seq(LinesPerChunk * NumChunks(data), n requires 0 <= n < LinesPerChunk * NumChunks(data) =>
      WindowInside(data, n); SlotVerdict(Window(data, n), numLevels[n]))
  }

  /** Chunk `c` of the buffer gives the verdicts of slots `8c .. 8c + 8`. */
  lemma ChunkVerdicts(data: seq<int>, numLevels: seq<nat>, c: nat)
    requires EvalReady(data, numLevels) && c < NumChunks(data)
    ensures ChunkBytes * c + ChunkBytes + 1 <= |data|
    ensures LinesPerChunk * c + LinesPerChunk <= |numLevels|
    ensures forall b | 0 <= b < 8 ::
      ChunkWord(data, numLevels, c)[b] == SlotVerdicts(data, numLevels)[LinesPerChunk * c + b]
  {
    forall b | 0 <= b < 8
      ensures ChunkWord(data, numLevels, c)[b] == SlotVerdicts(data, numLevels)[LinesPerChunk * c + b]
    {
      ChunkWordSlot(data, numLevels, c, b);
    }
  }

  lemma FlattenIs(words: seq<Bits>, v: seq<bool>)
    requires |v| == 8 * |words|
    requires forall c, b | 0 <= c < |words| && 0 <= b < 8 :: words[c][b] == v[LinesPerChunk * c + b]
    ensures Flatten(words) == v
  {
    var f := Flatten(words);
    forall n | 0 <= n < |v| ensures f[n] == v[n] {
      var c, b := n / 8, n % 8;
      assert n == LinesPerChunk * c + b;
      assert f[8 * c + b] == words[c][b];
    }
  }

  /** Lines 105-159: one verdict word per 64-byte chunk, passed to the
      callback in order; here the callback's arguments are the result. */
  method GenNumSafeLinesMasks(data: seq<int>, numLevels: seq<nat>) returns (words: seq<Bits>)
    requires EvalReady(data, numLevels)
    ensures Flatten(words) == SlotVerdicts(data, numLevels)
  {
    var chunks := (|data| - 1) / ChunkBytes;
    words := [];
    for c := 0 to chunks
      invariant |words| == c
      invariant forall c', b | 0 <= c' < c && 0 <= b < 8 ::
        words[c'][b] == SlotVerdicts(data, numLevels)[LinesPerChunk * c' + b]
    {
      ChunkVerdicts(data, numLevels, c);
      words := words + [ChunkWord(data, numLevels, c)];
    }
    FlattenIs(words, SlotVerdicts(data, numLevels));
  }

  // ---------------------------------------------------------------------
  // Part 1.
  // ---------------------------------------------------------------------

  lemma CellI8(lines: seq<seq<int>>, j: nat)
    requires AllI8(lines)
    ensures IsI8(Cell(lines, j))
  {
  }

  /** With the buffer laid out from the reports, the verdict of slot `n` is
      whether line `n` is a safe report. */
  lemma PlainSlot(lines: seq<seq<int>>, n: nat)
    requires Ingestible(lines) && AllI8(lines)
    requires n < LinesPerChunk * NumChunks(Layout(lines, ChunkBytes))
    ensures n < |LevelTable(lines, |Layout(lines, ChunkBytes)|)|
    ensures LevelTable(lines, |Layout(lines, ChunkBytes)|)[n] <= 8
    ensures SlotVerdict(Window(Layout(lines, ChunkBytes), n), LevelTable(lines, |Layout(lines, ChunkBytes)|)[n])
      == (n < |lines| && SafeReport(lines[n]))
  {
    var data := Layout(lines, ChunkBytes);
    var lv := LevelTable(lines, |data|);
    WindowInside(data, n);
    LayoutCells(lines, ChunkBytes);
    var w := Window(data, n);
    forall t | 0 <= t < 9 ensures w[t] == Cell(lines, SlotBytes * n + t) && IsI8(w[t]) {
      CellI8(lines, SlotBytes * n + t);
    }
    if n < |lines| && lines[n] != [] {
      var k := |lines[n]|;
      forall t | 0 <= t < k ensures w[t] == lines[n][t] {
        CellOfSlot(lines, n, t);
      }
      assert w[..k] == lines[n];
      SlotVerdictSafe(w, k);
    } else {
      CellOfSlot(lines, n, 0);
      CellOfSlot(lines, n, 1);
      SlotVerdictLevelZero(w);
    }
  }

  /** The slots the evaluator reads count exactly the safe reports. */
  lemma PlainCount(lines: seq<seq<int>>)
    requires Ingestible(lines) && AllI8(lines)
    ensures EvalReady(Layout(lines, ChunkBytes), LevelTable(lines, |Layout(lines, ChunkBytes)|))
    ensures PopCount(SlotVerdicts(Layout(lines, ChunkBytes), LevelTable(lines, |Layout(lines, ChunkBytes)|)))
      == CountSafe(lines, false)
  {
    var data := Layout(lines, ChunkBytes);
    var lv := LevelTable(lines, |data|);
    forall n | 0 <= n < LinesPerChunk * NumChunks(data) ensures n < |lv| && lv[n] <= 8 {
      PlainSlot(lines, n);
    }
    var x := SlotVerdicts(data, lv);
    var v := Verdicts(lines, false);
    forall n | 0 <= n < |x| ensures x[n] == (n < |v| && v[n]) {
      PlainSlot(lines, n);
    }
    LayoutCells(lines, ChunkBytes);
    forall n | |x| <= n < |v| ensures !v[n] {
      assert n >= SlotCount(lines);
    }
    PopCountPadded(x, v);
  }

  /** Lines 10-20: the number of safe reports. */
  method Part1(input: seq<Byte>) returns (result: nat)
    requires Ingestible(Reports(input))
    ensures result == CountSafe(Reports(input), false)
  {
    var data, numLevels := ParseInput(input, ChunkBytes);
    ReportsI8(input);
    PlainCount(Reports(input));
    var words := GenNumSafeLinesMasks(data, numLevels);
    result := CountOnes(words);
  }

  // ---------------------------------------------------------------------
  // Part 2: eight passes, each with one reading spliced out of every report.
  // ---------------------------------------------------------------------

  function Min(a: nat, b: nat): nat { if a < b then a else b }

  /** `saturating_sub(1)` on a `u8` level, as line 32 writes it. */
  function DecLevelAsWritten(k: nat): nat { if k == 0 then 0 else k - 1 }

  /** The level a report has once one reading is spliced out; a report of one
      reading keeps level 1 so that its lone reading is still judged safe. */
  function DecLevel(k: nat): (r: nat)
    ensures k >= 2 ==> r == k - 1
    ensures k <= 1 ==> r == k
  {
    if k <= 1 then k else k - 1
  }

  /** Lines 26-33: decrement the level of every slot of the first `chunks`
      chunks, eight at a time. */
  method DecrementLevels(numLevels: seq<nat>, chunks: nat) returns (r: seq<nat>)
    requires LinesPerChunk * chunks <= |numLevels|
    ensures |r| == |numLevels|
    ensures forall n | 0 <= n < |r| :: r[n] == if n < LinesPerChunk * chunks then DecLevel(numLevels[n]) else numLevels[n]
  {
    r := numLevels;
    for c := 0 to chunks
      invariant |r| == |numLevels|
      invariant forall n | 0 <= n < |r| :: r[n] == if n < LinesPerChunk * c then DecLevel(numLevels[n]) else numLevels[n]
    {
      var l := LinesPerChunk * c;
      var levels := r[l .. l + LinesPerChunk];
      r := r[..l] + seq(8, s requires 0 <= s < 8 => DecLevel(levels[s])) + r[l + LinesPerChunk..];
    }
  }

  /** The buffer pass `i` evaluates: in the slot of every line, the bytes
      before `min(i, level)` stay and every later byte is replaced by its
      successor, so the reading at `min(i, level)` is removed; the trailing
      byte is zero. */
  function Spliced(orig: seq<int>, lv: seq<nat>, i: nat): (s: seq<int>)
    requires |orig| >= 1 && (|orig| - 1) % 32 == 0 && (|orig| - 1) / 8 <= |lv|
    ensures |s| == |orig|
  {
    seq(|orig|, j requires 0 <= j < |orig| =>
      if j == |orig| - 1 then 0
      else
        SlotBelow(j, |orig| - 1);
        if j % 8 < Min(i, lv[j / 8]) then orig[j] else orig[j + 1])
  }

  /** A byte before the trailing one lies in a slot with a level entry. */
  lemma SlotBelow(j: nat, len: nat)
    requires j < len && len % 32 == 0
    ensures j / 8 < len / 8
  {
    var m := len / 32;
    assert len == 32 * m;
    assert len / 8 == 4 * m;
  }

  /** `signed_bytes_to_u64x4`: the bytes in whole 32-byte blocks (one `u64x4`
      each); a shorter tail is dropped. */
  function ToBlocks(bytes: seq<int>): (r: seq<seq<int>>)
    ensures |r| == |bytes| / 32
    ensures forall q | 0 <= q < |r| :: |r[q]| == 32 && forall p | 0 <= p < 32 :: r[q][p] == bytes[32 * q + p]
  {
    seq(|bytes| / 32, q requires 0 <= q < |bytes| / 32 => bytes[32 * q .. 32 * q + 32])
  }

  /** The blocks back to bytes (the reinterpretation of line 101). */
  function FromBlocks(blocks: seq<seq<int>>): (r: seq<int>)
    requires forall q | 0 <= q < |blocks| :: |blocks[q]| == 32
    ensures |r| == 32 * |blocks|
    ensures forall q, p | 0 <= q < |blocks| && 0 <= p < 32 :: r[32 * q + p] == blocks[q][p]
  {
    if blocks == [] then [] else FromBlocks(blocks[..|blocks| - 1]) + blocks[|blocks| - 1]
  }

  /** Line 57 on one `u64x4`: lane `l` keeps its low `keep[l]` bytes from
      `base` and takes the rest from `incoming`. */
  function Blend(base: seq<int>, incoming: seq<int>, keep: seq<nat>): (r: seq<int>)
    requires |base| == 32 && |incoming| == 32 && |keep| == 4
    ensures |r| == 32
  {
    seq(32, p requires 0 <= p < 32 => if p % 8 < keep[p / 8] then base[p] else incoming[p])
  }

  lemma BlockIndex(q: nat, p: nat)
    requires p < 32
    ensures (32 * q + p) / 8 == 4 * q + p / 8 && (32 * q + p) % 8 == p % 8
  {
    assert 32 * q + p == 8 * (4 * q + p / 8) + p % 8;
  }

  /** Byte `p` of block `q` after the blend is byte `32q + p` of the spliced buffer. */
  lemma BlendSpliced(orig: seq<int>, lv: seq<nat>, i: nat, q: nat, readonly: seq<seq<int>>, shifted: seq<seq<int>>, keep: seq<nat>)
    requires |orig| >= 1 && (|orig| - 1) % 32 == 0 && (|orig| - 1) / 8 <= |lv|
    requires readonly == ToBlocks(orig[..|orig| - 1]) && shifted == ToBlocks(orig[1..])
    requires q < |readonly| && 4 * q + 3 < |lv|
    requires keep == [Min(i, lv[4 * q]), Min(i, lv[4 * q + 1]), Min(i, lv[4 * q + 2]), Min(i, lv[4 * q + 3])]
    ensures forall p | 0 <= p < 32 :: Blend(readonly[q], shifted[q], keep)[p] == Spliced(orig, lv, i)[32 * q + p]
  {
    forall p | 0 <= p < 32 ensures Blend(readonly[q], shifted[q], keep)[p] == Spliced(orig, lv, i)[32 * q + p] {
      BlockIndex(q, p);
      assert keep[p / 8] == Min(i, lv[4 * q + p / 8]);
    }
  }

  /** Lines 37-61 for pass `i`: copy the buffer without its last byte as
      blocks, blend each block with the buffer shifted by one byte under the
      masks of its four lines, and append a zero byte. */
  method Splice(orig: seq<int>, numLevels: seq<nat>, i: nat) returns (newData: seq<int>)
    requires |orig| >= 1 && (|orig| - 1) % 32 == 0 && (|orig| - 1) / 8 <= |numLevels|
    ensures newData == Spliced(orig, numLevels, i)
  {
    var shifted := ToBlocks(orig[1..]);
    var readonly := ToBlocks(orig[..|orig| - 1]);
    var data := readonly;
    var lineNum := 0;
    for q := 0 to |data|
      invariant |data| == |readonly| && lineNum == 4 * q
      invariant forall q' | q <= q' < |data| :: data[q'] == readonly[q']
      invariant forall q' | 0 <= q' < q :: |data[q']| == 32 && forall p | 0 <= p < 32 :: data[q'][p] == Spliced(orig, numLevels, i)[32 * q' + p]
    {
      assert 4 * q + 3 < |numLevels| by {
        BlockIndex(q, 31);
      }
      var mask := [Min(i, numLevels[lineNum]), Min(i, numLevels[lineNum + 1]), Min(i, numLevels[lineNum + 2]), Min(i, numLevels[lineNum + 3])];
      BlendSpliced(orig, numLevels, i, q, readonly, shifted, mask);
      data := data[q := Blend(data[q], shifted[q], mask)];
      lineNum := lineNum + 4;
    }
    newData := FromBlocks(data) + [0];
    var sp := Spliced(orig, numLevels, i);
    forall j | 0 <= j < |sp| ensures newData[j] == sp[j] {
      if j < |sp| - 1 {
        var q, p := j / 32, j % 32;
        assert j == 32 * q + p;
        assert newData[32 * q + p] == data[q][p];
      }
    }
  }

  /** Line 68, the callback of the later passes: OR each new word into the
      word already kept for its chunk. */
  method OrInto(allMasks: seq<Bits>, words: seq<Bits>) returns (r: seq<Bits>)
    requires |words| <= |allMasks|
    ensures |r| == |allMasks|
    ensures forall j | 0 <= j < |r| :: r[j] == if j < |words| then Or(allMasks[j], words[j]) else allMasks[j]
  {
    r := allMasks;
    var j := 0;
    while j < |words|
      invariant j <= |words| && |r| == |allMasks|
      invariant forall j' | 0 <= j' < |r| :: r[j'] == if j' < j then Or(allMasks[j'], words[j']) else allMasks[j']
    {
      r := r[j := Or(r[j], words[j])];
      j := j + 1;
    }
  }

  /** Where the spliced buffers are evaluated: as the original, with the
      decremented levels. */
  predicate SpliceReady(orig: seq<int>, lv: seq<nat>) {
    EvalReady(orig, lv) && (|orig| - 1) % 32 == 0 && (|orig| - 1) / 8 <= |lv|
  }

  /** The verdict of slot `n` in pass `p`. */
  ghost predicate PassVerdict(orig: seq<int>, lv: seq<nat>, p: nat, n: nat)
    requires SpliceReady(orig, lv) && n < LinesPerChunk * NumChunks(orig)
  {
    SlotVerdicts(Spliced(orig, lv, p), lv)[n]
  }

  /** Whether slot `n` was judged safe in one of the passes before `i`. */
  ghost predicate PassesUpTo(orig: seq<int>, lv: seq<nat>, n: nat, i: nat)
    requires SpliceReady(orig, lv) && n < LinesPerChunk * NumChunks(orig)
  {
    i > 0 && (PassesUpTo(orig, lv, n, i - 1) || PassVerdict(orig, lv, i - 1, n))
  }

  lemma {:induction false} PassesUpToExists(orig: seq<int>, lv: seq<nat>, n: nat, i: nat)
    requires SpliceReady(orig, lv) && n < LinesPerChunk * NumChunks(orig)
    ensures PassesUpTo(orig, lv, n, i) == exists p | 0 <= p < i :: PassVerdict(orig, lv, p, n)
  {
    if i > 0 {
      PassesUpToExists(orig, lv, n, i - 1);
      if PassVerdict(orig, lv, i - 1, n) {
        assert exists p | 0 <= p < i :: PassVerdict(orig, lv, p, n);
      }
      if exists p | 0 <= p < i :: PassVerdict(orig, lv, p, n) {
        var p :| 0 <= p < i && PassVerdict(orig, lv, p, n);
        if p < i - 1 {
          assert exists p' | 0 <= p' < i - 1 :: PassVerdict(orig, lv, p', n);
        }
      }
    }
  }

  lemma SlotIndex(n: nat, t: nat)
    requires t < 8
    ensures (SlotBytes * n + t) / 8 == n && (SlotBytes * n + t) % 8 == t
  {
  }

  /** The first eight bytes a slot's window reads in pass `p`: the original
      window with one byte taken out at `min(p, level)`. */
  lemma SplicedWindow(orig: seq<int>, lv: seq<nat>, p: nat, n: nat)
    requires |orig| >= 1 && (|orig| - 1) % 32 == 0 && (|orig| - 1) / 8 <= |lv|
    requires SlotBytes * n + 9 <= |orig|
    ensures forall t {:trigger Window(Spliced(orig, lv, p), n)[t]} | 0 <= t < 8 :: Window(Spliced(orig, lv, p), n)[t] == (if t < Min(p, lv[n]) then Window(orig, n)[t] else Window(orig, n)[t + 1])
    ensures (forall j | 0 <= j < |orig| :: IsI8(orig[j])) ==> (forall t | 0 <= t < 9 :: IsI8(Window(Spliced(orig, lv, p), n)[t]))
  {
    forall t | 0 <= t < 8
      ensures Window(Spliced(orig, lv, p), n)[t] == (if t < Min(p, lv[n]) then Window(orig, n)[t] else Window(orig, n)[t + 1])
    {
      SplicedByte(orig, lv, p, n, t);
    }
    if forall j | 0 <= j < |orig| :: IsI8(orig[j]) {
      forall t | 0 <= t < 9 ensures IsI8(Window(Spliced(orig, lv, p), n)[t]) {
        SplicedByteI8(orig, lv, p, n, t);
      }
    }
  }

  lemma SplicedByte(orig: seq<int>, lv: seq<nat>, p: nat, n: nat, t: nat)
    requires |orig| >= 1 && (|orig| - 1) % 32 == 0 && (|orig| - 1) / 8 <= |lv|
    requires SlotBytes * n + 9 <= |orig| && t < 8
    ensures Window(Spliced(orig, lv, p), n)[t] == (if t < Min(p, lv[n]) then Window(orig, n)[t] else Window(orig, n)[t + 1])
  {
    SlotIndex(n, t);
    var j := SlotBytes * n + t;
    var s := Spliced(orig, lv, p);
    assert Window(s, n)[t] == s[j];
    assert Window(orig, n)[t] == orig[j] && Window(orig, n)[t + 1] == orig[j + 1];
    assert s[j] == if j % 8 < Min(p, lv[j / 8]) then orig[j] else orig[j + 1];
  }

  lemma SplicedByteI8(orig: seq<int>, lv: seq<nat>, p: nat, n: nat, t: nat)
    requires |orig| >= 1 && (|orig| - 1) % 32 == 0 && (|orig| - 1) / 8 <= |lv|
    requires SlotBytes * n + 9 <= |orig| && t < 9
    requires forall j | 0 <= j < |orig| :: IsI8(orig[j])
    ensures IsI8(Window(Spliced(orig, lv, p), n)[t])
  {
    var j := SlotBytes * n + t;
    assert Window(Spliced(orig, lv, p), n)[t] == Spliced(orig, lv, p)[j];
    if j < |orig| - 1 {
      assert IsI8(orig[j]) && IsI8(orig[j + 1]);
    }
  }

  /** The bytes of a slot of the laid-out buffer: the line's readings, then zeros. */
  lemma SlotCells(lines: seq<seq<int>>, orig: seq<int>, n: nat)
    requires Ingestible(lines) && orig == Layout(lines, ChunkBytes)
    requires SlotBytes * n + 9 <= |orig|
    ensures forall t | 0 <= t < 8 :: Window(orig, n)[t] == (if n < |lines| && t < |lines[n]| then lines[n][t] else 0)
  {
    LayoutCells(lines, ChunkBytes);
    forall t | 0 <= t < 8 ensures Window(orig, n)[t] == (if n < |lines| && t < |lines[n]| then lines[n][t] else 0) {
      CellOfSlot(lines, n, t);
    }
  }

  /** A window whose bytes skip byte `m` of a slot holding `r` starts with
      `r` without reading `m`. */
  lemma WindowDeletes(w: seq<int>, u: seq<int>, r: seq<int>, m: nat)
    requires |w| == 9 && |u| == 9 && 2 <= |r| <= 8 && m < |r|
    requires forall t | 0 <= t < |r| :: u[t] == r[t]
    requires forall t {:trigger w[t]} | 0 <= t < 8 :: w[t] == (if t < m then u[t] else u[t + 1])
    ensures w[..|r| - 1] == Delete(r, m)
  {
    var d := Delete(r, m);
    forall t | 0 <= t < |r| - 1 ensures w[t] == d[t] {
      if t < m {
        assert w[t] == u[t] == r[t];
      } else {
        assert w[t] == u[t + 1] == r[t + 1];
      }
    }
  }

  /** Whether pass `p` judges line `n` safe: its one reading always is, and a
      longer report is judged without its reading `min(p, k - 1)`. */
  predicate Tolerates(lines: seq<seq<int>>, n: nat, p: nat) {
    n < |lines| && lines[n] != [] && (|lines[n]| == 1 || Safe(Delete(lines[n], Min(p, |lines[n]| - 1))))
  }

  /** The levels of part 2: the level table, decremented over the slots the
      evaluator reads. */
  predicate Decremented(lines: seq<seq<int>>, orig: seq<int>, lv: seq<nat>)
    requires |orig| >= 1
  {
    |lv| == |LevelTable(lines, |orig|)|
    && forall n | 0 <= n < |lv| :: lv[n] == if n < LinesPerChunk * NumChunks(orig) then DecLevel(LevelTable(lines, |orig|)[n]) else LevelTable(lines, |orig|)[n]
  }

  /** A buffer of whole 64-byte chunks and one more byte. */
  lemma ChunkedLength(len: nat)
    requires len >= 1 && (len - 1) % 64 == 0
    ensures (len - 1) % 32 == 0 && (len - 1) / 8 <= len / 8
    ensures 8 * ((len - 1) / 64) == (len - 1) / 8
  {
    var m := (len - 1) / 64;
    assert len - 1 == 64 * m;
    assert (len - 1) / 8 == 8 * m;
    assert len / 8 == 8 * m;
    assert (len - 1) % 32 == 0;
  }

  lemma DecrementedReady(lines: seq<seq<int>>, orig: seq<int>, lv: seq<nat>)
    requires Ingestible(lines) && AllI8(lines) && orig == Layout(lines, ChunkBytes) && Decremented(lines, orig, lv)
    ensures SpliceReady(orig, lv)
  {
    ChunkedLength(|orig|);
    forall n | 0 <= n < LinesPerChunk * NumChunks(orig) ensures lv[n] <= 8 {
      PlainSlot(lines, n);
    }
  }

  lemma PassVerdictIs(orig: seq<int>, lv: seq<nat>, p: nat, n: nat)
    requires SpliceReady(orig, lv) && n < LinesPerChunk * NumChunks(orig)
    ensures SlotBytes * n + 9 <= |orig| && lv[n] <= 8
    ensures PassVerdict(orig, lv, p, n) == SlotVerdict(Window(Spliced(orig, lv, p), n), lv[n])
  {
    WindowInside(orig, n);
  }

  lemma LayoutI8(lines: seq<seq<int>>)
    requires Ingestible(lines) && AllI8(lines)
    ensures forall j | 0 <= j < |Layout(lines, ChunkBytes)| :: IsI8(Layout(lines, ChunkBytes)[j])
  {
    LayoutCells(lines, ChunkBytes);
    forall j | 0 <= j < |Layout(lines, ChunkBytes)| ensures IsI8(Layout(lines, ChunkBytes)[j]) {
      CellI8(lines, j);
    }
  }

  /** Pass `p` on one slot, from what the slot holds and its decremented level. */
  lemma PassWindow(orig: seq<int>, lv: seq<nat>, p: nat, n: nat, lines: seq<seq<int>>)
    requires SpliceReady(orig, lv) && n < LinesPerChunk * NumChunks(orig)
    requires forall j | 0 <= j < |orig| :: IsI8(orig[j])
    requires SlotBytes * n + 9 <= |orig|
    requires n < |lines| ==> |lines[n]| <= 8
    requires forall t | 0 <= t < 8 :: Window(orig, n)[t] == (if n < |lines| && t < |lines[n]| then lines[n][t] else 0)
    requires lv[n] == DecLevel(if n < |lines| then |lines[n]| else 0)
    ensures PassVerdict(orig, lv, p, n) == Tolerates(lines, n, p)
  {
    PassVerdictIs(orig, lv, p, n);
    SplicedWindow(orig, lv, p, n);
    WindowVerdict(Window(Spliced(orig, lv, p), n), Window(orig, n), lines, n, p, lv[n]);
  }

  /** The verdict on a window with one reading taken out. */
  lemma WindowVerdict(w: seq<int>, u: seq<int>, lines: seq<seq<int>>, n: nat, p: nat, level: nat)
    requires |w| == 9 && |u| == 9 && forall t | 0 <= t < 9 :: IsI8(w[t])
    requires n < |lines| ==> |lines[n]| <= 8
    requires forall t | 0 <= t < 8 :: u[t] == (if n < |lines| && t < |lines[n]| then lines[n][t] else 0)
    requires level == DecLevel(if n < |lines| then |lines[n]| else 0)
    requires forall t {:trigger w[t]} | 0 <= t < 8 :: w[t] == (if t < Min(p, level) then u[t] else u[t + 1])
    ensures level <= 8 && SlotVerdict(w, level) == Tolerates(lines, n, p)
  {
    if n < |lines| && lines[n] != [] {
      var r := lines[n];
      if |r| == 1 {
        SlotVerdictSafe(w, 1);
      } else {
        var m := Min(p, |r| - 1);
        WindowDeletes(w, u, r, m);
        SlotVerdictSafe(w, |r| - 1);
      }
    } else {
      assert w[0] == u[1] && w[1] == u[2];
      SlotVerdictLevelZero(w);
    }
  }

  lemma PassSlot(lines: seq<seq<int>>, orig: seq<int>, lv: seq<nat>, p: nat, n: nat)
    requires Ingestible(lines) && AllI8(lines)
    requires orig == Layout(lines, ChunkBytes) && Decremented(lines, orig, lv)
    requires n < LinesPerChunk * NumChunks(orig)
    ensures SpliceReady(orig, lv)
    ensures PassVerdict(orig, lv, p, n) == Tolerates(lines, n, p)
  {
    DecrementedReady(lines, orig, lv);
    WindowInside(orig, n);
    LayoutI8(lines);
    SlotCells(lines, orig, n);
    PlainSlot(lines, n);
    PassWindow(orig, lv, p, n, lines);
  }

  /** A prefix of a safe report is safe. */
  lemma SafePrefix(r: seq<int>, m: nat)
    requires Safe(r) && m <= |r|
    ensures Safe(r[..m])
  {
    if Increasing(r) {
      assert Increasing(r[..m]);
    } else {
      assert Decreasing(r[..m]);
    }
  }

  /** After all eight passes a slot is set exactly when its line is safe
      with at most one reading removed. */
  lemma TolerantSlot(lines: seq<seq<int>>, orig: seq<int>, lv: seq<nat>, n: nat)
    requires Ingestible(lines) && AllI8(lines)
    requires orig == Layout(lines, ChunkBytes) && Decremented(lines, orig, lv)
    requires n < LinesPerChunk * NumChunks(orig)
    ensures SpliceReady(orig, lv)
    ensures PassesUpTo(orig, lv, n, 8) == (n < |lines| && TolerantSafe(lines[n]))
  {
    DecrementedReady(lines, orig, lv);
    PassesUpToExists(orig, lv, n, 8);
    forall p | 0 <= p < 8 ensures PassVerdict(orig, lv, p, n) == Tolerates(lines, n, p) {
      PassSlot(lines, orig, lv, p, n);
    }
    if n < |lines| && lines[n] != [] {
      var r := lines[n];
      var k := |r|;
      if k == 1 {
        assert Tolerates(lines, n, 0);
        assert Safe(r);
      } else {
        if PassesUpTo(orig, lv, n, 8) {
          var p :| 0 <= p < 8 && Tolerates(lines, n, p);
          assert Safe(Delete(r, Min(p, k - 1)));
        }
        if TolerantSafe(r) {
          if Safe(r) {
            SafePrefix(r, k - 1);
            assert Delete(r, k - 1) == r[..k - 1];
            assert Tolerates(lines, n, k - 1);
          } else {
            var j :| 0 <= j < k && Safe(Delete(r, j));
            assert Tolerates(lines, n, j);
          }
        }
      }
    }
  }

  /** The slots set after all eight passes, in order. */
  ghost function Tolerated(orig: seq<int>, lv: seq<nat>): (v: seq<bool>)
    requires SpliceReady(orig, lv)
    ensures |v| == LinesPerChunk * NumChunks(orig)
  {
    seq(LinesPerChunk * NumChunks(orig), n requires 0 <= n < LinesPerChunk * NumChunks(orig) => PassesUpTo(orig, lv, n, 8))
  }

  /** The slots set after all passes count exactly the tolerably safe reports. */
  lemma TolerantCount(lines: seq<seq<int>>, orig: seq<int>, lv: seq<nat>)
    requires Ingestible(lines) && AllI8(lines)
    requires orig == Layout(lines, ChunkBytes) && Decremented(lines, orig, lv)
    ensures SpliceReady(orig, lv)
    ensures PopCount(Tolerated(orig, lv)) == CountSafe(lines, true)
  {
    DecrementedReady(lines, orig, lv);
    var x := Tolerated(orig, lv);
    var v := Verdicts(lines, true);
    forall n | 0 <= n < |x| ensures x[n] == (n < |v| && v[n]) {
      TolerantSlot(lines, orig, lv, n);
    }
    LayoutCells(lines, ChunkBytes);
    forall n | |x| <= n < |v| ensures !v[n] {
      assert n >= SlotCount(lines);
    }
    PopCountPadded(x, v);
  }

  /** The words of pass `i`, merged with those of the passes before it,
      record which slots some pass up to `i` judged safe. */
  lemma MergedPasses(orig: seq<int>, lv: seq<nat>, i: nat, allMasks: seq<Bits>, words: seq<Bits>, r: seq<Bits>)
    requires SpliceReady(orig, lv)
    requires Flatten(words) == SlotVerdicts(Spliced(orig, lv, i), lv)
    requires i == 0 ==> r == words
    requires i > 0 ==> |allMasks| == NumChunks(orig) && |r| == |allMasks|
    requires i > 0 ==> forall j | 0 <= j < |r| :: r[j] == Or(allMasks[j], words[j])
    requires i > 0 ==> forall n | 0 <= n < LinesPerChunk * NumChunks(orig) :: Flatten(allMasks)[n] == PassesUpTo(orig, lv, n, i)
    ensures |r| == NumChunks(orig)
    ensures forall n | 0 <= n < LinesPerChunk * NumChunks(orig) :: Flatten(r)[n] == PassesUpTo(orig, lv, n, i + 1)
  {
    assert |words| == NumChunks(orig);
    forall n | 0 <= n < LinesPerChunk * NumChunks(orig) ensures Flatten(r)[n] == PassesUpTo(orig, lv, n, i + 1) {
      MergedSlot(orig, lv, i, allMasks, words, r, n);
    }
  }

  lemma MergedSlot(orig: seq<int>, lv: seq<nat>, i: nat, allMasks: seq<Bits>, words: seq<Bits>, r: seq<Bits>, n: nat)
    requires SpliceReady(orig, lv)
    requires Flatten(words) == SlotVerdicts(Spliced(orig, lv, i), lv)
    requires i == 0 ==> r == words
    requires i > 0 ==> |allMasks| == NumChunks(orig) && |r| == |allMasks|
    requires i > 0 ==> forall j | 0 <= j < |r| :: r[j] == Or(allMasks[j], words[j])
    requires n < LinesPerChunk * NumChunks(orig)
    requires i > 0 ==> Flatten(allMasks)[n] == PassesUpTo(orig, lv, n, i)
    ensures Flatten(r)[n] == PassesUpTo(orig, lv, n, i + 1)
  {
    assert |words| == NumChunks(orig);
    assert PassVerdict(orig, lv, i, n) == Flatten(words)[n];
    if i > 0 {
      var c, b := FlattenAt(words, n);
      var c', b' := FlattenAt(r, n);
      var c'', b'' := FlattenAt(allMasks, n);
      assert r[c] == Or(allMasks[c], words[c]);
    }
  }

  /** The bit of a flattened word sequence: bit `b` of word `c`. */
  lemma FlattenAt(words: seq<Bits>, n: nat) returns (c: nat, b: nat)
    requires n < 8 * |words|
    ensures c == n / 8 && b == n % 8 && c < |words| && b < 8
    ensures Flatten(words)[n] == words[c][b]
  {
    c, b := n / 8, n % 8;
    assert n == 8 * c + b;
  }

  /** One pass: splice, evaluate and merge into the words kept so far. */
  method Pass(orig: seq<int>, lv: seq<nat>, i: nat, allMasks: seq<Bits>) returns (r: seq<Bits>)
    requires SpliceReady(orig, lv)
    requires i == 0 || |allMasks| == NumChunks(orig)
    requires i > 0 ==> forall n | 0 <= n < LinesPerChunk * NumChunks(orig) :: Flatten(allMasks)[n] == PassesUpTo(orig, lv, n, i)
    ensures |r| == NumChunks(orig)
    ensures forall n | 0 <= n < LinesPerChunk * NumChunks(orig) :: Flatten(r)[n] == PassesUpTo(orig, lv, n, i + 1)
  {
    var newData := Splice(orig, lv, i);
    var words := GenNumSafeLinesMasks(newData, lv);
    if i == 0 {
      r := words;
    } else {
      r := OrInto(allMasks, words);
    }
    MergedPasses(orig, lv, i, allMasks, words, r);
  }

  /** The decrement loop covers exactly the slots the evaluator reads. */
  lemma DecrementCovers(lines: seq<seq<int>>, orig: seq<int>, numLevels: seq<nat>, chunks: nat, r: seq<nat>)
    requires orig == Layout(lines, ChunkBytes) && numLevels == LevelTable(lines, |orig|)
    requires chunks == |orig| / ChunkBytes
    ensures chunks == NumChunks(orig) && LinesPerChunk * chunks <= |numLevels|
    ensures |r| == |numLevels| && (forall n | 0 <= n < |r| :: r[n] == if n < LinesPerChunk * chunks then DecLevel(numLevels[n]) else numLevels[n])
      ==> Decremented(lines, orig, r)
  {
  }

  /** Lines 22-80: the number of reports that are safe once at most one
      reading is removed. */
  method Part2(input: seq<Byte>) returns (result: nat)
    requires Ingestible(Reports(input))
    ensures result == CountSafe(Reports(input), true)
  {
    var origData, numLevels := ParseInput(input, ChunkBytes);
    ghost var lines := Reports(input);
    ReportsI8(input);
    var chunks := |origData| / ChunkBytes;
    DecrementCovers(lines, origData, numLevels, chunks, numLevels);
    var levels := DecrementLevels(numLevels, chunks);
    DecrementCovers(lines, origData, numLevels, chunks, levels);
    DecrementedReady(lines, origData, levels);
    var allMasks := AllPasses(origData, levels);
    TolerantCount(lines, origData, levels);
    result := CountOnes(allMasks);
  }

  /** Lines 42-74: the eight passes, each removing the reading at `min(i, level)`,
      merged into one word per chunk. */
  method AllPasses(orig: seq<int>, lv: seq<nat>) returns (allMasks: seq<Bits>)
    requires SpliceReady(orig, lv)
    ensures Flatten(allMasks) == Tolerated(orig, lv)
  {
    allMasks := [];
    for i := 0 to 8
      invariant i == 0 || |allMasks| == NumChunks(orig)
      invariant i > 0 ==> forall n | 0 <= n < LinesPerChunk * NumChunks(orig) ::
        Flatten(allMasks)[n] == PassesUpTo(orig, lv, n, i)
    {
      allMasks := Pass(orig, lv, i, allMasks);
    }
  }

  // ---------------------------------------------------------------------
  // How the two parts relate, and two inputs the code as written misjudges.
  // ---------------------------------------------------------------------

  lemma {:induction false} PopCountMonotone(a: seq<bool>, b: seq<bool>)
    requires |a| == |b| && forall n | 0 <= n < |a| :: a[n] ==> b[n]
    ensures PopCount(a) <= PopCount(b)
    decreases |a|
  {
    if a != [] {
      PopCountMonotone(a[..|a| - 1], b[..|b| - 1]);
    }
  }

  /** Every report part 1 counts, part 2 counts too. */
  lemma TolerantCountsMore(lines: seq<seq<int>>)
    ensures CountSafe(lines, false) <= CountSafe(lines, true)
  {
    var a, b := Verdicts(lines, false), Verdicts(lines, true);
    forall n | 0 <= n < |a| ensures a[n] ==> b[n] {
      if a[n] {
        PlainSafeIsTolerantSafe(lines[n]);
      }
    }
    PopCountMonotone(a, b);
  }

  /** The count over two lists of reports is the sum of their counts. */
  lemma CountSafeAppend(a: seq<seq<int>>, b: seq<seq<int>>, tolerant: bool)
    ensures CountSafe(a + b, tolerant) == CountSafe(a, tolerant) + CountSafe(b, tolerant)
  {
    assert Verdicts(a + b, tolerant) == Verdicts(a, tolerant) + Verdicts(b, tolerant);
    PopCountAppend(Verdicts(a, tolerant), Verdicts(b, tolerant));
  }

  /** Reordering the reports of the input changes neither count: each line
      is judged on its own. */
  lemma {:induction false} CountSafePermutation(a: seq<seq<int>>, b: seq<seq<int>>, tolerant: bool)
    requires multiset(a) == multiset(b)
    ensures CountSafe(a, tolerant) == CountSafe(b, tolerant)
    decreases |a|
  {
    if a == [] {
      assert |b| == |multiset(b)| == 0;
    } else {
      var n := |a| - 1;
      var i := TakeOut(a, b);
      var before, after := b[..i], b[i + 1..];
      CountSafePermutation(a[..n], before + after, tolerant);
      CountSafeAppend(a[..n], [a[n]], tolerant);
      CountSafeAppend(before + [a[n]], after, tolerant);
      CountSafeAppend(before, [a[n]], tolerant);
      CountSafeAppend(before, after, tolerant);
    }
  }

  /** The last line of `a` sits at some index `i` of its permutation `b`;
      without it, the rest are still permutations of each other. */
  lemma TakeOut<T>(a: seq<T>, b: seq<T>) returns (i: nat)
    requires a != [] && multiset(a) == multiset(b)
    ensures i < |b| && b[i] == a[|a| - 1]
    ensures a == a[..|a| - 1] + [b[i]] && b == b[..i] + [b[i]] + b[i + 1..]
    ensures multiset(a[..|a| - 1]) == multiset(b[..i] + b[i + 1..])
  {
    var n := |a| - 1;
    var x := a[n];
    assert a == a[..n] + [x];
    assert multiset(a) == multiset(a[..n]) + multiset{x};
    assert x in multiset(b);
    i :| 0 <= i < |b| && b[i] == x;
    var before, after := b[..i], b[i + 1..];
    assert b == before + [x] + after;
    assert multiset(b) == multiset(before) + multiset{x} + multiset(after);
    assert multiset(before + after) == multiset(before) + multiset(after);
    assert multiset(a[..n]) == multiset(a) - multiset{x};
    assert multiset(before + after) == multiset(b) - multiset{x};
  }

  /** "1 3 2 4 5" and "8 6 4 4 1" are unsafe as they are, and safe once the
      3, or one of the 4s, is removed: part 1 counts neither, part 2 both. */
  lemma OneDeletionReports()
    ensures Reports([49, 32, 51, 32, 50, 32, 52, 32, 53, 10, 56, 32, 54, 32, 52, 32, 52, 32, 49])
      == [[1, 3, 2, 4, 5], [8, 6, 4, 4, 1]]
    ensures CountSafe([[1, 3, 2, 4, 5], [8, 6, 4, 4, 1]], false) == 0
    ensures CountSafe([[1, 3, 2, 4, 5], [8, 6, 4, 4, 1]], true) == 2
  {
    var lines := [[1, 3, 2, 4, 5], [8, 6, 4, 4, 1]];
    OneDeletionText();
    OneDeletionFirst();
    OneDeletionSecond();
    assert Verdicts(lines, false) == [false, false];
    assert Verdicts(lines, true) == [true, true];
  }

  lemma OneDeletionText()
    ensures Reports([49, 32, 51, 32, 50, 32, 52, 32, 53, 10, 56, 32, 54, 32, 52, 32, 52, 32, 49])
      == [[1, 3, 2, 4, 5], [8, 6, 4, 4, 1]]
  {
    var lines := [[1, 3, 2, 4, 5], [8, 6, 4, 4, 1]];
    OneDeletionLayout();
    ReportsOfText(lines);
  }

  lemma OneDeletionLayout()
    ensures Text([[1, 3, 2, 4, 5], [8, 6, 4, 4, 1]])
      == [49, 32, 51, 32, 50, 32, 52, 32, 53, 10, 56, 32, 54, 32, 52, 32, 52, 32, 49]
  {
    var lines := [[1, 3, 2, 4, 5], [8, 6, 4, 4, 1]];
    FirstLineText();
    SecondLineText();
    assert lines[1..] == [lines[1]];
  }

  lemma FirstLineText()
    ensures LineText([1, 3, 2, 4, 5]) == [49, 32, 51, 32, 50, 32, 52, 32, 53]
  {
    assert LineText([4, 5]) == [52, 32, 53] by {
      assert LineText([5]) == [53];
    }
  }

  lemma SecondLineText()
    ensures LineText([8, 6, 4, 4, 1]) == [56, 32, 54, 32, 52, 32, 52, 32, 49]
  {
    assert LineText([4, 1]) == [52, 32, 49] by {
      assert LineText([1]) == [49];
    }
  }

  lemma OneDeletionFirst()
    ensures !SafeReport([1, 3, 2, 4, 5]) && TolerantSafe([1, 3, 2, 4, 5])
  {
    var r := [1, 3, 2, 4, 5];
    assert r[2] - r[1] == -1 && r[1] - r[0] == 2;
    assert Delete(r, 1) == [1, 2, 4, 5];
    assert Increasing([1, 2, 4, 5]);
  }

  lemma OneDeletionSecond()
    ensures !SafeReport([8, 6, 4, 4, 1]) && TolerantSafe([8, 6, 4, 4, 1])
  {
    var r := [8, 6, 4, 4, 1];
    assert r[3] == r[2];
    assert Delete(r, 2) == [8, 6, 4, 1];
    assert Decreasing([8, 6, 4, 1]);
  }

  /** The text "7 6 4 2 1" reads as one report of five readings. */
  lemma ShortInputReports()
    ensures Reports([55, 32, 54, 32, 52, 32, 50, 32, 49]) == [[7, 6, 4, 2, 1]]
  {
    var lines := [[7, 6, 4, 2, 1]];
    assert Text(lines) == [55, 32, 54, 32, 52, 32, 50, 32, 49];
    ReportsOfText(lines);
  }

  /** Padding to 32-byte blocks, as line 202 does, leaves a single report of
      five readings outside every 64-byte chunk the evaluator reads: part 1
      counts nothing although the report is safe. */
  lemma PaddingAsWrittenSkipsReport()
    ensures Reports([55, 32, 54, 32, 52, 32, 50, 32, 49]) == [[7, 6, 4, 2, 1]]
    ensures |Layout([[7, 6, 4, 2, 1]], BlockBytesAsWritten)| == 33
    ensures NumChunks(Layout([[7, 6, 4, 2, 1]], BlockBytesAsWritten)) == 0
    ensures CountSafe([[7, 6, 4, 2, 1]], false) == 1
  {
    ShortInputReports();
    ShortReportSafe();
    ShortLayoutAsWritten();
  }

  lemma ShortReportSafe()
    ensures CountSafe([[7, 6, 4, 2, 1]], false) == 1
  {
    var lines := [[7, 6, 4, 2, 1]];
    assert SafeReport(lines[0]) by {
      assert Decreasing(lines[0]);
    }
    assert Verdicts(lines, false) == [true];
  }

  lemma ShortLayoutAsWritten()
    ensures |Layout([[7, 6, 4, 2, 1]], BlockBytesAsWritten)| == 33
    ensures NumChunks(Layout([[7, 6, 4, 2, 1]], BlockBytesAsWritten)) == 0
  {
    var lines := [[7, 6, 4, 2, 1]];
    assert Ingestible(lines);
    SlotsLayout(lines);
    assert |PadZeros(Slots(lines), BlockBytesAsWritten)| == 32;
  }

  /** Line 32 applied to every level of the table. */
  function LevelsAsWritten(lv: seq<nat>): (r: seq<nat>)
    ensures |r| == |lv| && forall n | 0 <= n < |lv| :: r[n] == if lv[n] == 0 then 0 else lv[n] - 1
  {
    seq(|lv|, n requires 0 <= n < |lv| => DecLevelAsWritten(lv[n]))
  }

  /** Five reports of the one reading 5. */
  const SingleReadings: seq<seq<int>> := [[5], [5], [5], [5], [5]]

  /** Five lines of "5" make 40 bytes of slots, which line 202's padding to
      32-byte blocks turns into one whole 64-byte chunk: the buffer as written
      is the corrected one, so part 1 as written counts all five. Line 32 then
      gives each of them level 0, and no pass of part 2 judges any of them
      safe, although each is safe as it is. */
  lemma DecrementAsWrittenDropsOneReading()
    ensures Reports([53, 10, 53, 10, 53, 10, 53, 10, 53]) == SingleReadings
    ensures Layout(SingleReadings, BlockBytesAsWritten) == Layout(SingleReadings, ChunkBytes)
    ensures |Layout(SingleReadings, BlockBytesAsWritten)| == 65
    ensures SpliceReady(Layout(SingleReadings, BlockBytesAsWritten), LevelsAsWritten(LevelTable(SingleReadings, 65)))
    ensures forall p, n | 0 <= p < 8 && 0 <= n < 5 ::
      !PassVerdict(Layout(SingleReadings, BlockBytesAsWritten), LevelsAsWritten(LevelTable(SingleReadings, 65)), p, n)
    ensures CountSafe(SingleReadings, false) == 5 && CountSafe(SingleReadings, true) == 5
  {
    SingleReadingsText();
    SingleReadingsLayout();
    SingleReadingsPasses();
    SingleReadingsCounts();
  }

  lemma SingleReadingsText()
    ensures Reports([53, 10, 53, 10, 53, 10, 53, 10, 53]) == SingleReadings
  {
    var lines := SingleReadings;
    assert LineText([5]) == [53];
    assert Text(lines[4..]) == [53];
    assert Text(lines[3..]) == [53, 10, 53] by { assert lines[3..][1..] == lines[4..]; }
    assert Text(lines[2..]) == [53, 10, 53, 10, 53] by { assert lines[2..][1..] == lines[3..]; }
    assert Text(lines[1..]) == [53, 10, 53, 10, 53, 10, 53] by { assert lines[1..][1..] == lines[2..]; }
    assert Text(lines) == [53, 10, 53, 10, 53, 10, 53, 10, 53];
    ReportsOfText(lines);
  }

  lemma SingleReadingsLayout()
    ensures Layout(SingleReadings, BlockBytesAsWritten) == Layout(SingleReadings, ChunkBytes)
    ensures |Layout(SingleReadings, ChunkBytes)| == 65
  {
    var lines := SingleReadings;
    assert Ingestible(lines);
    SlotsLayout(lines);
    var s := Slots(lines);
    assert |s| == 40;
    var a, b := PadZeros(s, BlockBytesAsWritten), PadZeros(s, ChunkBytes);
    assert |a| == 64 && |b| == 64;
    forall i | 0 <= i < 64 ensures a[i] == b[i] {
      if i < 40 {
        assert a[i] == a[..40][i] && b[i] == b[..40][i];
      }
    }
  }

  lemma SingleReadingsPasses()
    ensures |Layout(SingleReadings, ChunkBytes)| == 65
    ensures SpliceReady(Layout(SingleReadings, ChunkBytes), LevelsAsWritten(LevelTable(SingleReadings, 65)))
    ensures forall p, n | 0 <= p < 8 && 0 <= n < 5 ::
      !PassVerdict(Layout(SingleReadings, ChunkBytes), LevelsAsWritten(LevelTable(SingleReadings, 65)), p, n)
  {
    var lines := SingleReadings;
    var orig := Layout(lines, ChunkBytes);
    var lv := LevelsAsWritten(LevelTable(lines, 65));
    SingleReadingsLayout();
    assert Ingestible(lines);
    assert forall n | 0 <= n < |lv| :: lv[n] == 0;
    assert SpliceReady(orig, lv);
    forall p, n | 0 <= p < 8 && 0 <= n < 5 ensures !PassVerdict(orig, lv, p, n) {
      LevelZeroFails(lines, orig, lv, p, n);
    }
  }

  /** A slot of at most one reading whose level is 0 fails every pass. */
  lemma LevelZeroFails(lines: seq<seq<int>>, orig: seq<int>, lv: seq<nat>, p: nat, n: nat)
    requires Ingestible(lines) && orig == Layout(lines, ChunkBytes)
    requires SpliceReady(orig, lv) && n < LinesPerChunk * NumChunks(orig)
    requires lv[n] == 0 && (n < |lines| ==> |lines[n]| <= 1)
    ensures !PassVerdict(orig, lv, p, n)
  {
    PassVerdictIs(orig, lv, p, n);
    SplicedWindow(orig, lv, p, n);
    SlotCells(lines, orig, n);
    var w := Window(Spliced(orig, lv, p), n);
    assert w[0] == Window(orig, n)[1] && w[1] == Window(orig, n)[2];
    SlotVerdictLevelZero(w);
  }

  lemma SingleReadingsCounts()
    ensures CountSafe(SingleReadings, false) == 5 && CountSafe(SingleReadings, true) == 5
  {
    var lines := SingleReadings;
    var all := [true, true, true, true, true];
    assert SafeReport([5]) && TolerantSafe([5]);
    assert Verdicts(lines, false) == all && Verdicts(lines, true) == all;
    assert PopCount(all[..2]) == 2 by { assert all[..2][..1] == [true]; }
    assert PopCount(all[..3]) == 3 by { assert all[..3][..2] == all[..2]; }
    assert PopCount(all[..4]) == 4 by { assert all[..4][..3] == all[..3]; }
    assert all[..4] == all[..|all| - 1];
  }

}
