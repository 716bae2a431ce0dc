/** Model of src/day5.rs: the input is a block of page-ordering rules
    `ab|cd`, a blank line, and a block of updates `ab,cd,...`. Part 1 sums
    the middle page of every update that respects the rules; part 2 takes
    the other updates to be sorted by the rules. */
module Day5 {
  import opened Bytes
  import opened Options
  import opened Day5Table

  // ---------------------------------------------------------------------
  // Two-digit numbers, lines 168-205.
  // ---------------------------------------------------------------------

  /** `parse_10_to_99`, lines 203-205, in wrapping `u8` arithmetic. */
  function Parse10To99(a: Byte, b: Byte): (v: Byte)
    ensures IsDigit(a) && IsDigit(b) ==> v == 10 * (a - Digit0) + (b - Digit0) && IsPage(v)
  {
    U8(10 * DigitValue(a) + DigitValue(b))
  }

  /** `orig - zero_ascii`, line 189, lane by lane. */
  function LaneDigits(orig: seq<Byte>): (d: seq<Byte>)
    requires |orig| == 64
    ensures |d| == 64 && forall i | 0 <= i < 64 :: d[i] == DigitValue(orig[i])
  {
    seq(64, i requires 0 <= i < 64 => DigitValue(orig[i]))
  }

  /** `swizzle_x64_radix_3_with_offset`, lines 168-178: lane `n` takes lane
      `3 * n + offset` for `n < 21` and lane 0 otherwise. */
  function Swizzle(v: seq<Byte>, offset: nat): (s: seq<Byte>)
    requires |v| == 64 && offset < 3
    ensures |s| == 32 && forall n | 0 <= n < 21 :: s[n] == v[3 * n + offset]
  {
    seq(32, n requires 0 <= n < 32 => if n < 21 then v[3 * n + offset] else v[0])
  }

  /** One lane of `tens * ten + ones`, lines 192-193, in wrapping `u8`. */
  function LaneNumber(tens: Byte, ones: Byte): Byte {
    U8(U8(tens * 10) + ones)
  }

  lemma {:induction false} ModOf(z: int, k: int, m: int)
    requires z == 256 * k + m && 0 <= m < 256
    ensures U8(z) == m
  {
    var k', m' := z / 256, z % 256;
    assert z == 256 * k' + m';
  }

  /** Reducing a summand first does not change a wrapped sum. */
  lemma {:induction false} U8Sum(x: int, y: int)
    ensures U8(U8(x) + y) == U8(x + y)
  {
    var q, r := x / 256, x % 256;
    assert x == 256 * q + r;
    var k, m := (r + y) / 256, (r + y) % 256;
    assert r + y == 256 * k + m;
    ModOf(x + y, q + k, m);
  }

  /** The lane arithmetic agrees with `parse_10_to_99`. */
  lemma LaneNumberIsParse(a: Byte, b: Byte)
    ensures LaneNumber(DigitValue(a), DigitValue(b)) == Parse10To99(a, b)
  {
    U8Sum(DigitValue(a) * 10, DigitValue(b));
  }

  /** `nums`, lines 189-193. The first 21 lanes are the two-digit numbers of
      the 21 three-byte groups. */
  function LaneNumbers(chunk: seq<Byte>): (nums: seq<Byte>)
    requires |chunk| == 64
    ensures |nums| == 32
    ensures forall n | 0 <= n < 21 :: nums[n] == Parse10To99(chunk[3 * n], chunk[3 * n + 1])
  {
    var d := LaneDigits(chunk);
    var tens, ones := Swizzle(d, 0), Swizzle(d, 1);
    var nums := seq(32, n requires 0 <= n < 32 => LaneNumber(tens[n], ones[n]));
    assert forall n | 0 <= n < 21 :: nums[n] == Parse10To99(chunk[3 * n], chunk[3 * n + 1]) by {
      forall n | 0 <= n < 21 ensures nums[n] == Parse10To99(chunk[3 * n], chunk[3 * n + 1]) {
        LaneNumberIsParse(chunk[3 * n], chunk[3 * n + 1]);
      }
    }
    nums
  }

  /** `sep`, line 195: the third byte of each group. */
  function LaneSeparators(chunk: seq<Byte>): (sep: seq<Byte>)
    requires |chunk| == 64
    ensures |sep| == 32 && forall n | 0 <= n < 21 :: sep[n] == chunk[3 * n + 2]
  {
    Swizzle(chunk, 2)
  }

  /** How many times the loop of lines 187-199 runs on `len` bytes when the
      callback leaves `unread` of each 64 unread. */
  function ChunkRuns(len: int, advance: nat): nat
    requires advance > 0
    decreases len
  {
    if len < 64 then 0 else 1 + ChunkRuns(len - advance, advance)
  }

  // ---------------------------------------------------------------------
  // Rules, lines 107-123.
  // ---------------------------------------------------------------------

  /** The rule of the `k`-th six-byte record `ab|cd\n`. */
  function RuleAt(text: seq<Byte>, k: nat): Rule
    requires 6 * k + 6 <= |text|
  {
    Rule(Parse10To99(text[6 * k], text[6 * k + 1]), Parse10To99(text[6 * k + 3], text[6 * k + 4]))
  }

  /** The rules of the whole six-byte records of `text`. */
  function Rules(text: seq<Byte>): (rules: seq<Rule>)
    ensures |rules| == |text| / 6
  {
    seq(|text| / 6, k requires 0 <= k < |text| / 6 => RuleAt(text, k))
  }

  lemma RuleIndex(text: seq<Byte>, k: nat)
    requires 6 * k + 6 <= |text|
    ensures k < |Rules(text)| && Rules(text)[k] == RuleAt(text, k)
  {
  }

  /** The rules the chunked reader enters: ten per 60 bytes. */
  function ChunkedRules(text: seq<Byte>): nat {
    10 * ChunkRuns(|text|, 60)
  }

  lemma RuleOfRest(text: seq<Byte>, c: nat, k: nat)
    requires 60 * c + 6 * k + 6 <= |text|
    ensures RuleAt(text, 10 * c + k) == RuleAt(text[60 * c..], k)
  {
  }

  lemma EnterNext(t: Table, rules: seq<Rule>, chunked: nat, k: nat)
    requires RulePages(rules) && k < |rules|
    ensures RulePages(rules[..k]) && RulePages(rules[..k + 1])
    ensures EnterAll(t, rules[..k + 1], chunked) == Enter(EnterAll(t, rules[..k], chunked), rules[k], k < chunked)
  {
    assert rules[..k + 1][..k] == rules[..k];
  }

  /** The lanes of a 64-byte chunk hold its first ten rules. */
  lemma LaneRule(rest: seq<Byte>, nums: seq<Byte>, p: nat)
    requires 64 <= |rest| && nums == LaneNumbers(rest[..64]) && p < 10
    ensures 6 * p + 6 <= |rest| && RuleAt(rest, p) == Rule(nums[2 * p], nums[2 * p + 1])
  {
    var chunk, n := rest[..64], 2 * p;
    assert 3 * n == 6 * p && 3 * (n + 1) == 6 * p + 3;
    assert nums[n] == Parse10To99(chunk[3 * n], chunk[3 * n + 1]);
    assert nums[n + 1] == Parse10To99(chunk[3 * (n + 1)], chunk[3 * (n + 1) + 1]);
  }

  /** The records left after `c` chunks hold the rules after the first `k`. */
  lemma RestRules(text: seq<Byte>, c: nat, rest: seq<Byte>, rules: seq<Rule>, k: nat)
    requires 60 * c <= |text| && rest == text[60 * c..] && rules == Rules(text) && k == 10 * c
    ensures forall m | 0 <= m && 6 * m + 6 <= |rest| :: k + m < |rules| && rules[k + m] == RuleAt(rest, m)
  {
    RemainderRules(text, c);
  }

  /** The records of the chunk after the first `c` hold the next ten rules. */
  lemma ChunkRulesAt(text: seq<Byte>, c: nat, k: nat)
    requires 60 * c + 64 <= |text| && k == 10 * c
    ensures forall p | 0 <= p < 10 :: k + p < |Rules(text)| && Rules(text)[k + p] == RuleAt(text[60 * c..], p)
  {
    RemainderRules(text, c);
  }

  /** The records after `c` chunks hold the rules after the first `10 * c`. */
  lemma RemainderRules(text: seq<Byte>, c: nat)
    requires 60 * c <= |text|
    ensures forall m | 0 <= m && 6 * m + 6 <= |text[60 * c..]| ::
      10 * c + m < |Rules(text)| && Rules(text)[10 * c + m] == RuleAt(text[60 * c..], m)
  {
    forall m | 0 <= m && 6 * m + 6 <= |text[60 * c..]|
      ensures 10 * c + m < |Rules(text)| && Rules(text)[10 * c + m] == RuleAt(text[60 * c..], m)
    {
      RuleOfRest(text, c, m);
      RuleIndex(text, 10 * c + m);
    }
  }

  /** The next rule entered by the two stores. */
  method EnterNextRule(orderings: Orderings, r: Rule, lessFirst: bool, ghost t0: Table, ghost rules: seq<Rule>, ghost chunked: nat, ghost k: nat)
    returns (ghost k': nat)
    requires RulePages(rules) && k < |rules| && rules[k] == r && lessFirst == (k < chunked)
    requires orderings.Valid() && orderings.Entries() == EnterAll(t0, rules[..k], chunked)
    modifies orderings.table
    ensures k' == k + 1 && orderings.Valid() && orderings.Entries() == EnterAll(t0, rules[..k'], chunked)
  {
    EnterNext(t0, rules, chunked, k);
    EnterRule(orderings, r, lessFirst);
    k' := k + 1;
  }

  /** The two stores that enter a rule: `Less` first in the chunked reader
      (lines 112-113), `Greater` first in the other (lines 121-122). */
  method EnterRule(orderings: Orderings, r: Rule, lessFirst: bool)
    requires orderings.Valid() && IsPage(r.before) && IsPage(r.after)
    modifies orderings.table
    ensures orderings.Valid() && orderings.Entries() == Enter(old(orderings.Entries()), r, lessFirst)
  {
    if lessFirst {
      orderings.Set(r.before, r.after, Less);
      orderings.Set(r.after, r.before, Greater);
    } else {
      orderings.Set(r.after, r.before, Greater);
      orderings.Set(r.before, r.after, Less);
    }
  }

  /** The callback of lines 110-116: the ten rules of a 64-byte chunk, each
      entered `Less` first. */
  method EnterChunk(orderings: Orderings, rest: seq<Byte>, ghost t0: Table, ghost rules: seq<Rule>, ghost chunked: nat, ghost k: nat)
    returns (ghost k': nat)
    requires orderings.Valid() && RulePages(rules) && |rest| >= 64
    requires k + 10 <= |rules| && k + 10 <= chunked
    requires forall p | 0 <= p < 10 :: rules[k + p] == RuleAt(rest, p)
    requires orderings.Entries() == EnterAll(t0, rules[..k], chunked)
    modifies orderings.table
    ensures k' == k + 10 && orderings.Valid() && orderings.Entries() == EnterAll(t0, rules[..k'], chunked)
  {
    var nums := LaneNumbers(rest[..64]);
    k' := k;
    for p := 0 to 10
      invariant k' == k + p && orderings.Valid() && orderings.Entries() == EnterAll(t0, rules[..k'], chunked)
    {
      var before, after := nums[2 * p], nums[2 * p + 1];
      LaneRule(rest, nums, p);
      k' := EnterNextRule(orderings, Rule(before, after), true, t0, rules, chunked, k');
    }
  }

  /** Lines 110-123: the rules of `text` entered into `orderings`, ten per
      64-byte chunk while a whole chunk remains, then one per six bytes. */
  method ReadRules(orderings: Orderings, text: seq<Byte>)
    requires orderings.Valid() && RulePages(Rules(text))
    modifies orderings.table
    ensures orderings.Valid()
    ensures orderings.Entries() == EnterAll(old(orderings.Entries()), Rules(text), ChunkedRules(text))
  {
    ghost var t0, rules, chunked := orderings.Entries(), Rules(text), ChunkedRules(text);
    var rest, c, done := EnterChunks(orderings, text, t0, rules, chunked);
    RestRules(text, c, rest, rules, done);
    var count := EnterRemainder(orderings, rest, t0, rules, chunked, done);
    AllRules(text, c, rest, count);
  }

  /** The chunks and the records after them cover every rule. */
  lemma AllRules(text: seq<Byte>, c: nat, rest: seq<Byte>, count: nat)
    requires 60 * c <= |text| && rest == text[60 * c..] && 6 * count <= |rest| < 6 * count + 6
    ensures Rules(text)[..10 * c + count] == Rules(text)
  {
    assert |text| / 6 == 10 * c + count;
  }

  /** Lines 110-116: ten rules per 64-byte chunk while a whole chunk
      remains; the bytes left over and the number of chunks read. */
  method EnterChunks(orderings: Orderings, text: seq<Byte>, ghost t0: Table, ghost rules: seq<Rule>, ghost chunked: nat)
    returns (rest: seq<Byte>, ghost c: nat, ghost done: nat)
    requires orderings.Valid() && orderings.Entries() == t0
    requires rules == Rules(text) && chunked == ChunkedRules(text) && RulePages(rules)
    modifies orderings.table
    ensures 60 * c <= |text| && rest == text[60 * c..] && |rest| < 64
    ensures done == 10 * c && chunked == done && done <= |rules|
    ensures orderings.Valid() && orderings.Entries() == EnterAll(t0, rules[..done], chunked)
  {
    rest := text;
    c := 0;
    done := 0;
    assert rules[..0] == [];
    while |rest| >= 64
      invariant 60 * c <= |text| && rest == text[60 * c..] && done == 10 * c && done <= |rules|
      invariant ChunkRuns(|text|, 60) == c + ChunkRuns(|rest|, 60)
      invariant orderings.Valid() && orderings.Entries() == EnterAll(t0, rules[..done], chunked)
      decreases |rest|
    {
      ChunkCount(text, c);
      ChunkRulesAt(text, c, done);
      done := EnterChunk(orderings, rest, t0, rules, chunked, done);
      rest := rest[60..];
      c := c + 1;
    }
  }

  /** One more whole chunk after `c` of them. */
  lemma ChunkCount(text: seq<Byte>, c: nat)
    requires 60 * c + 64 <= |text|
    requires ChunkRuns(|text|, 60) == c + ChunkRuns(|text| - 60 * c, 60)
    ensures 10 * c + 10 <= |text| / 6 && 10 * c + 10 <= ChunkedRules(text) && 10 * c + 10 == 10 * (c + 1)
    ensures text[60 * c..][60..] == text[60 * (c + 1)..]
    ensures ChunkRuns(|text| - 60 * c, 60) == 1 + ChunkRuns(|text| - 60 * (c + 1), 60)
  {
  }

  /** Lines 118-123: the rules of the six-byte records left over, each
      entered `Greater` first; `count` records. */
  method EnterRemainder(orderings: Orderings, rest: seq<Byte>, ghost t0: Table, ghost rules: seq<Rule>, ghost chunked: nat, ghost k: nat)
    returns (count: nat)
    requires orderings.Valid() && RulePages(rules) && chunked <= k
    requires forall m | 0 <= m && 6 * m + 6 <= |rest| :: k + m < |rules| && rules[k + m] == RuleAt(rest, m)
    requires k <= |rules| && orderings.Entries() == EnterAll(t0, rules[..k], chunked)
    modifies orderings.table
    ensures 6 * count <= |rest| < 6 * count + 6 && k + count <= |rules|
    ensures orderings.Valid() && orderings.Entries() == EnterAll(t0, rules[..k + count], chunked)
  {
    count := 0;
    ghost var done := k;
    while 6 * count + 6 <= |rest|
      invariant 6 * count <= |rest| && done == k + count && done <= |rules|
      invariant orderings.Valid() && orderings.Entries() == EnterAll(t0, rules[..done], chunked)
      decreases |rest| - 6 * count
    {
      var before := Parse10To99(rest[6 * count], rest[6 * count + 1]);
      var after := Parse10To99(rest[6 * count + 3], rest[6 * count + 4]);
      done := EnterNextRule(orderings, Rule(before, after), false, t0, rules, chunked, done);
      count := count + 1;
    }
  }

  // ---------------------------------------------------------------------
  // Updates, lines 125-162.
  // ---------------------------------------------------------------------

  /** The page of the `i`-th three-byte group `ab,` or `ab\n`. */
  function PageAt(text: seq<Byte>, i: nat): Byte
    requires 3 * i + 3 <= |text|
  {
    Parse10To99(text[3 * i], text[3 * i + 1])
  }

  /** The updates completed and the pages of the one being read. */
  datatype Progress = Progress(done: seq<seq<Byte>>, current: seq<Byte>)

  /** One group read: a page followed by a newline completes its update. */
  function Step(p: Progress, page: Byte, sep: Byte): Progress {
    if sep == NewLine then Progress(p.done + [p.current + [page]], [])
    else Progress(p.done, p.current + [page])
  }

  /** The state after the first `n` groups of `text`. */
  function Feed(text: seq<Byte>, n: nat): Progress
    requires 3 * n <= |text|
  {
    if n == 0 then Progress([], [])
    else Step(Feed(text, n - 1), PageAt(text, n - 1), text[3 * n - 1])
  }

  /** Reading the `q`-th group of a suffix `rest` of `text` steps `Feed`. */
  lemma FeedNext(text: seq<Byte>, m: nat, rest: seq<Byte>, q: nat)
    requires m >= q && 3 * (m - q) <= |text| && rest == text[3 * (m - q)..] && 3 * q + 3 <= |rest|
    ensures 3 * m + 3 <= |text|
    ensures Feed(text, m + 1) == Step(Feed(text, m), Parse10To99(rest[3 * q], rest[3 * q + 1]), rest[3 * q + 2])
  {
    assert rest[3 * q] == text[3 * m] && rest[3 * q + 1] == text[3 * m + 1] && rest[3 * q + 2] == text[3 * m + 2];
  }

  /** Update texts `parse_input` can read: no lone trailing byte (line 159
      reads two). */
  predicate UpdateText(text: seq<Byte>) {
    |text| % 3 != 1
  }

  /** The updates of `text`: the ones completed by newlines, and a last one
      whose final page has no separator. */
  function Updates(text: seq<Byte>): seq<seq<Byte>>
    requires UpdateText(text)
  {
    var p := Feed(text, |text| / 3);
    if |text| % 3 == 2 then p.done + [p.current + [Parse10To99(text[|text| - 2], text[|text| - 1])]]
    else p.done
  }

  /** No update outgrows the 23-page buffer before a page is stored. */
  predicate Fits(text: seq<Byte>)
    requires UpdateText(text)
  {
    (forall n | 0 <= n < |text| / 3 :: Room(text, n))
    && (|text| % 3 == 2 ==> Room(text, |text| / 3))
  }

  /** The update being read after `n` groups has room for one more page. */
  predicate Room(text: seq<Byte>, n: nat)
    requires 3 * n <= |text|
  {
    |Feed(text, n).current| < 23
  }

  lemma FitsAt(text: seq<Byte>, m: nat)
    requires UpdateText(text) && Fits(text) && 3 * m + 3 <= |text|
    ensures |Feed(text, m).current| < 23
  {
    BelowThird(m, |text|);
    assert Room(text, m);
  }

  lemma BelowThird(m: nat, r: nat)
    requires 3 * m + 3 <= r
    ensures m < r / 3
  {
  }

  /** An update as stored: a zero-padded 23-page buffer and a length. */
  datatype Update = Update(pages: seq<Byte>, len: Byte)


  function Stored(pages: seq<Byte>): (u: Update)
    requires |pages| <= 23
    ensures |u.pages| == 23 && u.len as int == |pages| && u.pages[..u.len] == pages
  {
    Update(pages + Zeros(23 - |pages|), |pages|)
  }

  predicate Short(groups: seq<seq<Byte>>) {
    forall k | 0 <= k < |groups| :: |groups[k]| <= 23
  }

  function StoredAll(groups: seq<seq<Byte>>): (us: seq<Update>)
    requires Short(groups)
    ensures |us| == |groups| && forall k | 0 <= k < |us| :: us[k] == Stored(groups[k])
  {
    seq(|groups|, k requires 0 <= k < |groups| => Stored(groups[k]))
  }

  lemma StoredAppend(groups: seq<seq<Byte>>, g: seq<Byte>)
    requires Short(groups) && |g| <= 23
    ensures Short(groups + [g]) && StoredAll(groups + [g]) == StoredAll(groups) + [Stored(g)]
  {
  }

  lemma {:induction false} FeedShort(text: seq<Byte>, n: nat)
    requires UpdateText(text) && Fits(text) && n <= |text| / 3
    ensures Short(Feed(text, n).done) && |Feed(text, n).current| <= 23
  {
    if n > 0 {
      FeedShort(text, n - 1);
      assert Room(text, n - 1);
    }
  }

  lemma UpdatesShort(text: seq<Byte>)
    requires UpdateText(text) && Fits(text)
    ensures Short(Updates(text))
  {
    FeedShort(text, |text| / 3);
  }

  /** Every update holds at least one page. */
  lemma {:induction false} FeedNonEmpty(text: seq<Byte>, n: nat)
    requires 3 * n <= |text|
    ensures forall k | 0 <= k < |Feed(text, n).done| :: |Feed(text, n).done[k]| > 0
  {
    if n > 0 {
      FeedNonEmpty(text, n - 1);
    }
  }

  lemma UpdatesNonEmpty(text: seq<Byte>)
    requires UpdateText(text)
    ensures forall k | 0 <= k < |Updates(text)| :: |Updates(text)[k]| > 0
  {
    FeedNonEmpty(text, |text| / 3);
  }

  // The text of a list of updates, to read back with `Updates`.

  const Comma: Byte := 44

  /** The two digits of a page. */
  function PageText(v: Byte): (t: seq<Byte>)
    requires IsPage(v)
    ensures |t| == 2 && IsDigit(t[0]) && IsDigit(t[1])
  {
    [Digit0 + v / 10, Digit0 + v % 10]
  }

  /** The two digits of a page read back as the page. */
  lemma PageTextReads(v: Byte)
    requires IsPage(v)
    ensures Parse10To99(PageText(v)[0], PageText(v)[1]) == v
  {
  }

  /** Pages written as `ab,` each. */
  function Groups(pages: seq<Byte>): (t: seq<Byte>)
    requires forall i | 0 <= i < |pages| :: IsPage(pages[i])
    ensures |t| == 3 * |pages|
  {
    if pages == [] then []
    else Groups(pages[..|pages| - 1]) + (PageText(pages[|pages| - 1]) + [Comma])
  }

  /** An update that has a line: at least one page, every page 0..99. */
  predicate HasLine(pages: seq<Byte>) {
    pages != [] && forall i | 0 <= i < |pages| :: IsPage(pages[i])
  }

  /** One update's line: each page as `ab,`, the last one as `ab\n`. */
  function LineText(pages: seq<Byte>): (t: seq<Byte>)
    requires HasLine(pages)
    ensures |t| == 3 * |pages|
  {
    Groups(pages[..|pages| - 1]) + (PageText(pages[|pages| - 1]) + [NewLine])
  }

  /** Updates that have a line: at least one page, every page 0..99. */
  predicate Writable(updates: seq<seq<Byte>>) {
    forall k | 0 <= k < |updates| :: HasLine(updates[k])
  }

  /** The update section of an input: one line per update. */
  function UpdatesOf(updates: seq<seq<Byte>>): seq<Byte>
    requires Writable(updates)
  {
    if updates == [] then []
    else UpdatesOf(updates[..|updates| - 1]) + LineText(updates[|updates| - 1])
  }

  /** Reading the lines of a list of updates gives the list back. */
  lemma {:induction false} UpdatesOfText(updates: seq<seq<Byte>>)
    requires Writable(updates)
    ensures UpdateText(UpdatesOf(updates)) && Updates(UpdatesOf(updates)) == updates
  {
    var c := FeedUpdates(updates);
    assert |UpdatesOf(updates)| / 3 == c;
  }

  /** The `c` groups of the text of `updates` read as `updates`. */
  lemma {:induction false} FeedUpdates(updates: seq<seq<Byte>>) returns (c: nat)
    requires Writable(updates)
    ensures |UpdatesOf(updates)| == 3 * c && Feed(UpdatesOf(updates), c) == Progress(updates, [])
    decreases |updates|
  {
    if updates == [] {
      c := 0;
    } else {
      var init, last := updates[..|updates| - 1], updates[|updates| - 1];
      SplitLast(updates);
      var m := FeedUpdates(init);
      UpdatesStep(init, last, m);
      c := m + |last|;
    }
  }

  /** One more update's line continues the reading of the ones before. */
  lemma UpdatesStep(init: seq<seq<Byte>>, last: seq<Byte>, m: nat)
    requires Writable(init) && HasLine(last)
    requires |UpdatesOf(init)| == 3 * m && Feed(UpdatesOf(init), m) == Progress(init, [])
    ensures Writable(init + [last]) && |UpdatesOf(init + [last])| == 3 * (m + |last|)
    ensures Feed(UpdatesOf(init + [last]), m + |last|) == Progress(init + [last], [])
  {
    UpdatesOfAppend(init, last);
    var a, b := UpdatesOf(init), LineText(last);
    assert Feed(a + b, m + |last|) == Progress(init + [last], []) by {
      FeedLine(last);
      FeedAppend(a, b, m, |last|);
    }
  }

  lemma UpdatesOfAppend(init: seq<seq<Byte>>, last: seq<Byte>)
    requires Writable(init) && HasLine(last)
    ensures Writable(init + [last]) && UpdatesOf(init + [last]) == UpdatesOf(init) + LineText(last)
  {
    assert Writable(init + [last]);
    DropLast(init, last);
  }

  /** The groups of a line: pages gather in the update being read. */
  lemma {:induction false} FeedGroups(pages: seq<Byte>, rest: seq<Byte>)
    requires forall i | 0 <= i < |pages| :: IsPage(pages[i])
    ensures Feed(Groups(pages) + rest, |pages|) == Progress([], pages)
    decreases |pages|
  {
    if pages != [] {
      var n := |pages| - 1;
      FeedGroups(pages[..n], PageText(pages[n]) + [Comma] + rest);
      GroupsStep(pages[..n], pages[n], rest);
      SplitLast(pages);
    }
  }

  /** One more `ab,` group adds its page to the update being read. */
  lemma GroupsStep(init: seq<Byte>, page: Byte, rest: seq<Byte>)
    requires (forall i | 0 <= i < |init| :: IsPage(init[i])) && IsPage(page)
    requires Feed(Groups(init) + (PageText(page) + [Comma] + rest), |init|) == Progress([], init)
    ensures Feed(Groups(init + [page]) + rest, |init| + 1) == Progress([], init + [page])
  {
    var g := PageText(page) + [Comma];
    var full := init + [page];
    DropLast(init, page);
    assert Groups(full) == Groups(init) + g;
    Associative(Groups(init), g, rest);
    LastGroup(init, page, Comma, Groups(full) + rest, g + rest);
  }

  lemma DropLast<T>(s: seq<T>, x: T)
    ensures (s + [x])[..|s + [x]| - 1] == s && (s + [x])[|s + [x]| - 1] == x
  {
  }

  lemma Associative<T>(a: seq<T>, b: seq<T>, c: seq<T>)
    ensures a + b + c == a + (b + c)
  {
  }

  /** A line reads as one update. */
  lemma FeedLine(pages: seq<Byte>)
    requires HasLine(pages)
    ensures Feed(LineText(pages), |pages|) == Progress([pages], [])
  {
    var n := |pages| - 1;
    SplitLast(pages);
    LineLast(pages[..n], pages[n]);
  }

  lemma LineLast(init: seq<Byte>, last: Byte)
    requires (forall i | 0 <= i < |init| :: IsPage(init[i])) && IsPage(last)
    ensures HasLine(init + [last])
    ensures Feed(LineText(init + [last]), |init| + 1) == Progress([init + [last]], [])
  {
    var g := PageText(last) + [NewLine];
    DropLast(init, last);
    assert LineText(init + [last]) == Groups(init) + g;
    FeedGroups(init, g);
    LastGroup(init, last, NewLine, Groups(init) + g, g);
  }

  lemma SplitLast<T>(s: seq<T>)
    requires s != []
    ensures s[..|s| - 1] + [s[|s| - 1]] == s
  {
  }

  /** Groups of `init`, then `page` and `sep`: once the groups are read as
      pages of one update, the last group steps it. */
  lemma LastGroup(init: seq<Byte>, page: Byte, sep: Byte, t: seq<Byte>, tail: seq<Byte>)
    requires (forall i | 0 <= i < |init| :: IsPage(init[i])) && IsPage(page)
    requires t == Groups(init) + tail && |tail| >= 3
    requires tail[0] == PageText(page)[0] && tail[1] == PageText(page)[1] && tail[2] == sep
    requires Feed(t, |init|) == Progress([], init)
    ensures 3 * |init| + 3 <= |t|
    ensures Feed(t, |init| + 1) == if sep == NewLine then Progress([init + [page]], []) else Progress([], init + [page])
  {
    var n := |init|;
    assert t[3 * n] == tail[0] && t[3 * n + 1] == tail[1] && t[3 * n + 2] == tail[2];
    PageTextReads(page);
  }

  /** Reading past a prefix that ends a line continues from its updates. */
  lemma {:induction false} FeedAppend(a: seq<Byte>, b: seq<Byte>, m: nat, k: nat)
    requires |a| == 3 * m && Feed(a, m).current == [] && 3 * k <= |b|
    ensures Feed(a + b, m + k) == Progress(Feed(a, m).done + Feed(b, k).done, Feed(b, k).current)
  {
    if k == 0 {
      FeedPrefix(a, b, m);
    } else {
      FeedAppend(a, b, m, k - 1);
      AppendGroup(a, b, m, k - 1);
      StepAfter(Feed(a, m).done, Feed(b, k - 1), PageAt(b, k - 1), b[3 * k - 1]);
    }
  }

  /** A step on updates read after `done` is the step on their own. */
  lemma StepAfter(done: seq<seq<Byte>>, q: Progress, page: Byte, sep: Byte)
    ensures Step(Progress(done + q.done, q.current), page, sep)
      == Progress(done + Step(q, page, sep).done, Step(q, page, sep).current)
  {
    if sep == NewLine {
      assert done + q.done + [q.current + [page]] == done + (q.done + [q.current + [page]]);
    }
  }

  /** Group `m + k` of `a + b` is group `k` of `b`. */
  lemma AppendGroup(a: seq<Byte>, b: seq<Byte>, m: nat, k: nat)
    requires |a| == 3 * m && 3 * k + 3 <= |b|
    ensures PageAt(a + b, m + k) == PageAt(b, k) && (a + b)[3 * (m + k) + 2] == b[3 * k + 2]
  {
    var ab := a + b;
    assert ab[3 * (m + k)] == b[3 * k] && ab[3 * (m + k) + 1] == b[3 * k + 1];
  }

  lemma {:induction false} FeedPrefix(a: seq<Byte>, b: seq<Byte>, n: nat)
    requires 3 * n <= |a|
    ensures Feed(a + b, n) == Feed(a, n)
  {
    if n > 0 {
      FeedPrefix(a, b, n - 1);
      assert PageAt(a + b, n - 1) == PageAt(a, n - 1);
    }
  }

  /** The buffer, its length and the updates pushed so far hold `p`. */
  predicate Holds(pages: seq<Byte>, len: nat, updates: seq<Update>, p: Progress) {
    |pages| == 23 && len == |p.current| <= 23 && pages == p.current + Zeros(23 - len)
    && Short(p.done) && updates == StoredAll(p.done)
  }

  lemma StorePage(s: seq<Byte>, current: seq<Byte>, page: Byte)
    requires |current| < 23 && s == (current + Zeros(23 - |current|))[|current| := page]
    ensures s == current + [page] + Zeros(23 - |current| - 1)
  {
  }

  /** One group read into the buffer, lines 134-140 and 148-154. */
  method Push(ghost p: Progress, pages: array<Byte>, len: nat, updates: seq<Update>, page: Byte, sep: Byte)
    returns (pages': array<Byte>, len': nat, updates': seq<Update>)
    requires Holds(pages[..], len, updates, p) && len < 23
    modifies pages
    ensures pages' == pages || fresh(pages')
    ensures Holds(pages'[..], len', updates', Step(p, page, sep))
  {
    pages[len] := page;
    StorePage(pages[..], p.current, page);
    pages', len' := pages, len + 1;
    updates' := updates;
    if sep == NewLine {
      StoredAppend(p.done, p.current + [page]);
      updates' := updates + [Update(pages[..], len' as Byte)];
      pages' := new Byte[23](_ => 0);
      len' := 0;
      assert pages'[..] == [] + Zeros(23);
    }
  }

  /** The callback of lines 127-144: the 21 groups of a 64-byte chunk; it
      leaves one byte unread. */
  method ReadChunk(nums: seq<Byte>, sep: seq<Byte>, pages: array<Byte>, len: nat, updates: seq<Update>, ghost text: seq<Byte>, ghost n: nat)
    returns (pages': array<Byte>, len': nat, updates': seq<Update>)
    requires |nums| == 32 && |sep| == 32 && 3 * n + 63 <= |text|
    requires forall q | 0 <= q < 21 :: nums[q] == PageAt(text, n + q) && sep[q] == text[3 * (n + q) + 2]
    requires forall m | n <= m < n + 21 :: |Feed(text, m).current| < 23
    requires Holds(pages[..], len, updates, Feed(text, n))
    modifies pages
    ensures pages' == pages || fresh(pages')
    ensures Holds(pages'[..], len', updates', Feed(text, n + 21))
  {
    pages', len', updates' := pages, len, updates;
    for q := 0 to 21
      invariant Holds(pages'[..], len', updates', Feed(text, n + q))
      invariant pages' == pages || fresh(pages')
    {
      pages', len', updates' := Push(Feed(text, n + q), pages', len', updates', nums[q], sep[q]);
    }
  }

  /** The lanes of a chunk at group `n` hold the next 21 groups, and each
      finds room in the buffer. */
  lemma ChunkGroups(text: seq<Byte>, n: nat, nums: seq<Byte>, sep: seq<Byte>)
    requires UpdateText(text) && Fits(text) && 3 * n + 64 <= |text|
    requires nums == LaneNumbers(text[3 * n..][..64]) && sep == LaneSeparators(text[3 * n..][..64])
    ensures forall q | 0 <= q < 21 :: nums[q] == PageAt(text, n + q) && sep[q] == text[3 * (n + q) + 2]
    ensures forall m | n <= m < n + 21 :: |Feed(text, m).current| < 23
  {
    forall m | n <= m < n + 21 ensures |Feed(text, m).current| < 23 {
      FitsAt(text, m);
    }
  }

  /** Lines 125-162: the updates of `text` as zero-padded buffers. */
  method ReadUpdates(text: seq<Byte>) returns (updates: seq<Update>)
    requires UpdateText(text) && Fits(text)
    ensures Short(Updates(text)) && updates == StoredAll(Updates(text))
  {
    var pages := new Byte[23](_ => 0);
    var len: nat := 0;
    updates := [];
    var rest := text;
    ghost var n := 0;
    assert pages[..] == [] + Zeros(23);
    while |rest| >= 64
      invariant 3 * n <= |text| && rest == text[3 * n..]
      invariant fresh(pages) && Holds(pages[..], len, updates, Feed(text, n))
      decreases |rest|
    {
      var nums, sep := LaneNumbers(rest[..64]), LaneSeparators(rest[..64]);
      ChunkGroups(text, n, nums, sep);
      pages, len, updates := ReadChunk(nums, sep, pages, len, updates, text, n);
      rest := rest[63..];
      n := n + 21;
    }
    pages, len, updates := ReadTriples(rest, pages, len, updates, text, n);
    updates := ReadTail(rest, pages, len, updates, text, n);
  }

  /** Lines 146-155: the three-byte groups after the last whole chunk. */
  method ReadTriples(rest: seq<Byte>, pages: array<Byte>, len: nat, updates: seq<Update>, ghost text: seq<Byte>, ghost n: nat)
    returns (pages': array<Byte>, len': nat, updates': seq<Update>)
    requires UpdateText(text) && Fits(text) && 3 * n <= |text| && rest == text[3 * n..]
    requires Holds(pages[..], len, updates, Feed(text, n))
    modifies pages
    ensures pages' == pages || fresh(pages')
    ensures Holds(pages'[..], len', updates', Feed(text, |text| / 3))
  {
    Thirds(n, |rest|);
    pages', len', updates' := pages, len, updates;
    for q := 0 to |rest| / 3
      invariant pages' == pages || fresh(pages')
      invariant Holds(pages'[..], len', updates', Feed(text, n + q))
    {
      ThirdBelow(q, |rest|);
      pages', len', updates' := PushGroup(rest, q, pages', len', updates', text, n);
    }
  }

  lemma ThirdBelow(q: nat, r: nat)
    requires q < r / 3
    ensures 3 * q + 3 <= r
  {
  }

  /** Line 148-154 on the `q`-th group of `rest`. */
  method PushGroup(rest: seq<Byte>, q: nat, pages: array<Byte>, len: nat, updates: seq<Update>, ghost text: seq<Byte>, ghost n: nat)
    returns (pages': array<Byte>, len': nat, updates': seq<Update>)
    requires UpdateText(text) && Fits(text) && 3 * n <= |text| && rest == text[3 * n..] && 3 * q + 3 <= |rest|
    requires Holds(pages[..], len, updates, Feed(text, n + q))
    modifies pages
    ensures pages' == pages || fresh(pages')
    ensures Holds(pages'[..], len', updates', Feed(text, n + q + 1))
  {
    FeedNext(text, n + q, rest, q);
    FitsAt(text, n + q);
    var page := Parse10To99(rest[3 * q], rest[3 * q + 1]);
    pages', len', updates' := Push(Feed(text, n + q), pages, len, updates, page, rest[3 * q + 2]);
  }

  /** Lines 157-162: a last update whose final page has no separator. */
  method ReadTail(rest: seq<Byte>, pages: array<Byte>, len: nat, updates: seq<Update>, ghost text: seq<Byte>, ghost n: nat)
    returns (updates': seq<Update>)
    requires UpdateText(text) && Fits(text) && 3 * n <= |text| && rest == text[3 * n..]
    requires Holds(pages[..], len, updates, Feed(text, |text| / 3))
    modifies pages
    ensures Short(Updates(text)) && updates' == StoredAll(Updates(text))
  {
    TailOfText(text, n, rest);
    var rem := rest[|rest| / 3 * 3..];
    updates' := updates;
    if |rem| != 0 {
      var page := Parse10To99(rem[0], rem[1]);
      ghost var before := pages[..];
      pages[len] := page;
      assert pages[..] == before[len := page];
      TailStored(text, before, len, updates, page);
      updates' := updates + [Update(pages[..], (len + 1) as Byte)];
    } else {
      TailNone(text, pages[..], len, updates);
    }
  }

  /** A last page without a separator completes the last update. */
  lemma TailStored(text: seq<Byte>, before: seq<Byte>, len: nat, updates: seq<Update>, page: Byte)
    requires UpdateText(text) && Fits(text) && |text| % 3 == 2
    requires Holds(before, len, updates, Feed(text, |text| / 3))
    requires page == Parse10To99(text[|text| - 2], text[|text| - 1])
    ensures Short(Updates(text))
    ensures updates + [Update(before[len := page], (len + 1) as Byte)] == StoredAll(Updates(text))
  {
    var p := Feed(text, |text| / 3);
    var g := p.current + [page];
    assert |p.current| < 23;
    StorePage(before[len := page], p.current, page);
    StoredAppend(p.done, g);
    assert Update(before[len := page], (len + 1) as Byte) == Stored(g);
    assert Updates(text) == p.done + [g];
  }

  lemma TailNone(text: seq<Byte>, pages: seq<Byte>, len: nat, updates: seq<Update>)
    requires UpdateText(text) && Fits(text) && |text| % 3 == 0
    requires Holds(pages, len, updates, Feed(text, |text| / 3))
    ensures Short(Updates(text)) && updates == StoredAll(Updates(text))
  {
    assert Updates(text) == Feed(text, |text| / 3).done;
  }

  lemma Thirds(n: nat, r: nat)
    ensures (3 * n + r) / 3 == n + r / 3
  {
    assert 3 * n + r == 3 * (n + r / 3) + r % 3;
  }

  /** The bytes after the last whole group of a suffix are those of the
      whole text. */
  lemma TailOfText(text: seq<Byte>, n: nat, rest: seq<Byte>)
    requires UpdateText(text) && 3 * n <= |text| && rest == text[3 * n..]
    ensures 0 <= |rest| / 3 * 3 <= |rest|
    ensures var rem := rest[|rest| / 3 * 3..];
      |rem| == |text| % 3 && (|rem| == 2 ==> rem[0] == text[|text| - 2] && rem[1] == text[|text| - 1])
  {
    Thirds(n, |rest|);
    assert |rest| == 3 * (|rest| / 3) + |rest| % 3;
    assert |text| == 3 * (|text| / 3) + |text| % 3;
  }

  // ---------------------------------------------------------------------
  // The blank line, lines 86-108.
  // ---------------------------------------------------------------------

  /** A blank line: two newlines in a row at `k`. */
  predicate PairAt(input: seq<Byte>, k: int) {
    0 <= k && k + 1 < |input| && input[k] == NewLine && input[k + 1] == NewLine
  }

  /** Where the `j`-th 64-byte window of the backward search starts: each
      step goes back 64 and forward 1. */
  function WindowStart(n: int, j: nat): int { n - 64 - 63 * j }

  /** The window at `s` holds a blank line (`newlines & (newlines >> 1)`). */
  predicate PairIn(input: seq<Byte>, s: int) {
    exists k | s <= k < s + 63 :: PairAt(input, k)
  }

  /** The first window, searching back from the end, that holds a blank
      line; `None` where `curr -= 64` would underflow first. */
  function SearchWindows(input: seq<Byte>, j: nat): Option<nat>
    decreases WindowStart(|input|, j) + 64
  {
    var s := WindowStart(|input|, j);
    if s < 0 then None else if PairIn(input, s) then Some(j) else SearchWindows(input, j + 1)
  }

  /** The first blank line at or after `i`, below `bound`. */
  function FirstPair(input: seq<Byte>, i: int, bound: int): (e: int)
    requires exists k | i <= k < bound :: PairAt(input, k)
    ensures i <= e < bound && PairAt(input, e)
    ensures forall k | i <= k < e :: !PairAt(input, k)
    decreases bound - i
  {
    if PairAt(input, i) then i else FirstPair(input, i + 1, bound)
  }

  /** The inputs the backward search of lines 88-97 finishes on. */
  predicate Searchable(input: seq<Byte>) {
    SearchWindows(input, 0).Some?
  }

  lemma SearchFound(input: seq<Byte>, j: nat)
    requires SearchWindows(input, j).Some?
    ensures var f := SearchWindows(input, j).value;
            f >= j && WindowStart(|input|, f) >= 0 && PairIn(input, WindowStart(|input|, f))
    decreases WindowStart(|input|, j) + 64
  {
    if !PairIn(input, WindowStart(|input|, j)) {
      SearchFound(input, j + 1);
    }
  }

  /** The blank line `from_str` splits the input at. */
  function SplitPoint(input: seq<Byte>): (e: nat)
    requires Searchable(input)
    ensures PairAt(input, e)
  {
    SearchFound(input, 0);
    var s := WindowStart(|input|, SearchWindows(input, 0).value);
    FirstPair(input, s, s + 63)
  }

  /** Lines 88-105: step back through 64-byte windows until one holds a
      blank line, then walk forward from its start to the first one. */
  method FindSplit(input: seq<Byte>) returns (e: nat)
    requires Searchable(input)
    ensures e == SplitPoint(input)
  {
    SearchFound(input, 0);
    var curr: int := |input|;
    ghost var j := 0;
    while true
      invariant curr == WindowStart(|input|, j) + 64
      invariant SearchWindows(input, 0) == SearchWindows(input, j)
      decreases curr
    {
      SearchFound(input, j);
      curr := curr - 64;
      var window := input[curr..curr + 64];
      if exists k | 0 <= k < 63 :: window[k] == NewLine && window[k + 1] == NewLine {
        ghost var k :| 0 <= k < 63 && window[k] == NewLine && window[k + 1] == NewLine;
        assert PairAt(input, curr + k);
        assert SearchWindows(input, j) == Some(j);
        break;
      }
      assert !PairIn(input, curr);
      curr := curr + 1;
      j := j + 1;
    }
    assert SplitPoint(input) == FirstPair(input, curr, curr + 63);
    var i := curr;
    while !(input[i] == NewLine && input[i + 1] == NewLine)
      invariant curr <= i <= SplitPoint(input)
      decreases SplitPoint(input) - i
    {
      i := i + 1;
    }
    assert PairAt(input, i);
    e := i;
  }

  /** With a single blank line the split is at it. */
  lemma SplitAtBlankLine(input: seq<Byte>, e: nat)
    requires Searchable(input) && PairAt(input, e)
    requires forall k | 0 <= k < |input| && k != e :: !PairAt(input, k)
    ensures SplitPoint(input) == e
  {
  }

  // ---------------------------------------------------------------------
  // `Input::from_str`, lines 78-166, and the two parts.
  // ---------------------------------------------------------------------

  function RuleText(input: seq<Byte>): seq<Byte>
    requires Searchable(input)
  {
    input[..SplitPoint(input) + 1]
  }

  function UpdatesText(input: seq<Byte>): seq<Byte>
    requires Searchable(input)
  {
    input[SplitPoint(input) + 2..]
  }

  /** The inputs `from_str` reads without a panic: the search ends, every
      rule names two pages, and every update fits its buffer. */
  predicate Readable(input: seq<Byte>) {
    Searchable(input)
    && RulePages(Rules(RuleText(input)))
    && UpdateText(UpdatesText(input)) && Fits(UpdatesText(input))
  }

  /** The table of the rules of `input`. */
  function TableOf(input: seq<Byte>): Table
    requires Readable(input)
  {
    EnterAll(EmptyTable(), Rules(RuleText(input)), ChunkedRules(RuleText(input)))
  }

  method FromStr(input: seq<Byte>) returns (orderings: Orderings, updates: seq<Update>)
    requires Readable(input)
    ensures fresh(orderings) && fresh(orderings.table) && orderings.Valid()
    ensures orderings.Entries() == TableOf(input)
    ensures Short(Updates(UpdatesText(input))) && updates == StoredAll(Updates(UpdatesText(input)))
  {
    orderings := new Orderings();
    var e := FindSplit(input);
    ReadRules(orderings, input[..e + 1]);
    updates := ReadUpdates(input[e + 2..]);
  }

  /** `is_update_valid`, lines 39-41: `is_sorted_by` with the table's `Less`. */
  function IsUpdateValid(update: seq<Byte>, orderings: Orderings): (r: bool)
    reads orderings, orderings.table
    requires orderings.Valid() && forall i | 0 <= i < |update| :: IsPage(update[i])
    ensures r <==> forall i | 0 <= i < |update| - 1 :: Lookup(orderings.Entries(), update[i], update[i + 1]) == Less
  {
    if |update| < 2 then true
    else orderings.Get(update[0], update[1]) == Less && IsUpdateValid(update[1..], orderings)
  }

  /** Every adjacent pair of pages is ordered `Less` by the table. */
  predicate InOrder(update: seq<Byte>, t: Table)
    requires forall i | 0 <= i < |update| :: IsPage(update[i])
  {
    forall i | 0 <= i < |update| - 1 :: Lookup(t, update[i], update[i + 1]) == Less
  }

  predicate AllPages(updates: seq<seq<Byte>>) {
    forall k, i | 0 <= k < |updates| && 0 <= i < |updates[k]| :: IsPage(updates[k][i])
  }

  /** The middle pages of the updates in order, summed. */
  function MiddleSum(updates: seq<seq<Byte>>, t: Table): nat
    requires AllPages(updates)
  {
    if updates == [] then 0
    else
      var u := updates[|updates| - 1];
      MiddleSum(updates[..|updates| - 1], t) + if |u| > 0 && InOrder(u, t) then u[|u| / 2] as nat else 0
  }

  /** Lines 15-20 over the stored buffers. */
  function StoredMiddleSum(updates: seq<Update>, orderings: Orderings): nat
    reads orderings, orderings.table
    requires orderings.Valid()
    requires forall k | 0 <= k < |updates| :: |updates[k].pages| == 23 && updates[k].len <= 23
    requires forall k, i | 0 <= k < |updates| && 0 <= i < updates[k].len :: IsPage(updates[k].pages[i])
  {
    if updates == [] then 0
    else
      var u := updates[|updates| - 1];
      StoredMiddleSum(updates[..|updates| - 1], orderings)
      + if IsUpdateValid(u.pages[..u.len], orderings) then u.pages[u.len / 2] as nat else 0
  }

  lemma {:induction false} StoredMiddles(groups: seq<seq<Byte>>, orderings: Orderings)
    requires orderings.Valid() && Short(groups) && AllPages(groups)
    requires forall k | 0 <= k < |groups| :: |groups[k]| > 0
    ensures StoredMiddleSum(StoredAll(groups), orderings) == MiddleSum(groups, orderings.Entries())
    decreases |groups|
  {
    if groups != [] {
      var n := |groups| - 1;
      assert StoredAll(groups)[..n] == StoredAll(groups[..n]);
      StoredMiddles(groups[..n], orderings);
    }
  }

  /** Part 1, lines 11-21: the middle pages of the updates in order. */
  method Part1(input: seq<Byte>) returns (result: nat)
    requires Readable(input) && AllPages(Updates(UpdatesText(input)))
    ensures result == MiddleSum(Updates(UpdatesText(input)), TableOf(input))
  {
    var orderings, updates := FromStr(input);
    UpdatesNonEmpty(UpdatesText(input));
    StoredMiddles(Updates(UpdatesText(input)), orderings);
    result := StoredMiddleSum(updates, orderings);
  }

  /** Every adjacent pair of pages is a rule. */
  predicate Obeys(update: seq<Byte>, rules: seq<Rule>) {
    forall i | 0 <= i < |update| - 1 :: Rule(update[i], update[i + 1]) in rules
  }

  /** The middle pages of the updates that obey the rules, summed. */
  function RuleMiddleSum(updates: seq<seq<Byte>>, rules: seq<Rule>): nat {
    if updates == [] then 0
    else
      var u := updates[|updates| - 1];
      RuleMiddleSum(updates[..|updates| - 1], rules) + if |u| > 0 && Obeys(u, rules) then u[|u| / 2] as nat else 0
  }

  /** With consistent rules, part 1 sums the middle pages of exactly the
      updates whose every adjacent pair is a rule. */
  lemma {:induction false} Part1Obeys(updates: seq<seq<Byte>>, rules: seq<Rule>, chunked: nat)
    requires RulePages(rules) && Consistent(rules) && AllPages(updates)
    ensures MiddleSum(updates, EnterAll(EmptyTable(), rules, chunked)) == RuleMiddleSum(updates, rules)
    decreases |updates|
  {
    if updates != [] {
      var n := |updates| - 1;
      var u := updates[n];
      Part1Obeys(updates[..n], rules, chunked);
      var t := EnterAll(EmptyTable(), rules, chunked);
      forall i | 0 <= i < |u| - 1
        ensures (Lookup(t, u[i], u[i + 1]) == Less) == (Rule(u[i], u[i + 1]) in rules)
      {
        EnterAllMeaning(rules, chunked, u[i], u[i + 1]);
      }
    }
  }

  /** Part 2 up to the sort, lines 23-33: the updates out of order, each to
      be sorted in place and its page at `len / 2` taken. */
  function OutOfOrder(updates: seq<seq<Byte>>, t: Table): (r: seq<seq<Byte>>)
    requires AllPages(updates)
    ensures forall k | 0 <= k < |r| :: r[k] in updates && !InOrder(r[k], t)
    ensures forall u | u in updates && !InOrder(u, t) :: u in r
  {
    if updates == [] then []
    else
      var u := updates[|updates| - 1];
      OutOfOrder(updates[..|updates| - 1], t) + if InOrder(u, t) then [] else [u]
  }

  /** Every update out of order has a middle page: it holds at least two
      pages. */
  lemma OutOfOrderMiddle(input: seq<Byte>, k: nat)
    requires Readable(input) && AllPages(Updates(UpdatesText(input)))
    requires k < |OutOfOrder(Updates(UpdatesText(input)), TableOf(input))|
    ensures var u := OutOfOrder(Updates(UpdatesText(input)), TableOf(input))[k];
            2 <= |u| && |u| / 2 < |u|
  {
    UpdatesNonEmpty(UpdatesText(input));
  }
}
