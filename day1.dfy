/** Model of src/day1.rs: two columns of five-digit location ids, one pair
    per 14-byte record, compared by the distance between their sorted
    orders (part 1) and by a similarity score (part 2). */
module Day1 {
  import opened Bytes

  /** Bytes per record: five digits, three spaces, five digits, a newline. */
  const RecordBytes: nat := 14

  // ---------------------------------------------------------------------
  // Decimal digits.
  // ---------------------------------------------------------------------

  function Pow10(k: nat): (p: nat)
    ensures p >= 1
  {
    if k == 0 then 1 else 10 * Pow10(k - 1)
  }

  /** The value lines 85-91 fold out of the bytes: `n * 10 + (b - b'0')`,
      left to right, with the byte difference wrapped as `u8`. */
  function Decimal(s: seq<Byte>): (n: nat)
  {
    if s == [] then 0 else Decimal(s[..|s| - 1]) * 10 + DigitValue(s[|s| - 1])
  }

  /** `k` ASCII digits of `v`, most significant first, zero-padded. */
  function Digits(v: nat, k: nat): (t: seq<Byte>)
    ensures |t| == k && forall i | 0 <= i < k :: IsDigit(t[i])
  {
    if k == 0 then [] else Digits(v / 10, k - 1) + [Digit0 + v % 10]
  }

  /** Digits read back give the value they were written from. */
  lemma {:induction false} DecimalOfDigits(v: nat, k: nat)
    requires v < Pow10(k)
    ensures Decimal(Digits(v, k)) == v
  {
    if k > 0 {
      var t := Digits(v, k);
      assert t[..k - 1] == Digits(v / 10, k - 1);
      DecimalOfDigits(v / 10, k - 1);
    }
  }

  /** `k` digits never give more than `k` digits' worth. */
  lemma {:induction false} DecimalBound(s: seq<Byte>)
    requires forall i | 0 <= i < |s| :: IsDigit(s[i])
    ensures Decimal(s) < Pow10(|s|)
  {
    if s != [] {
      DecimalBound(s[..|s| - 1]);
    }
  }

  /** `parse_5_digit_base_10`, lines 85-91. */
  method Parse5DigitBase10(input: seq<Byte>) returns (n: nat)
    requires |input| == 5
    ensures n == Decimal(input)
    ensures (forall i | 0 <= i < 5 :: IsDigit(input[i])) ==> n <= 99999
  {
    n := 0;
    for i := 0 to 5
      invariant n == Decimal(input[..i])
    {
      assert input[..i + 1][..i] == input[..i];
      n := n * 10 + DigitValue(input[i]);
    }
    assert input[..5] == input;
    if forall i | 0 <= i < 5 :: IsDigit(input[i]) {
      DecimalBound(input);
    }
  }

  // ---------------------------------------------------------------------
  // Records.
  // ---------------------------------------------------------------------

  /** Inputs `parse_input` reads without slicing past the end: whole records,
      the last one possibly without its newline. */
  predicate Framed(input: seq<Byte>) {
    |input| % RecordBytes == 0 || |input| % RecordBytes == RecordBytes - 1
  }

  function RecordCount(input: seq<Byte>): nat {
    (|input| + 1) / RecordBytes
  }

  lemma RecordInside(input: seq<Byte>, i: nat)
    requires Framed(input) && i < RecordCount(input)
    ensures RecordBytes * i + 13 <= |input|
  {
  }

  /** Where the records stand after `k` of them: at the end, inside a
      record, or inside the last one. */
  lemma RecordsLeft(input: seq<Byte>, k: nat)
    requires Framed(input) && RecordBytes * k <= |input|
    ensures RecordBytes * k == |input| ==> k == RecordCount(input)
    ensures RecordBytes * k < |input| ==> k < RecordCount(input) && RecordBytes * k + 13 <= |input|
    ensures RecordBytes * k < |input| < RecordBytes * k + RecordBytes ==> k + 1 == RecordCount(input)
  {
  }

  /** The left column: bytes 0..5 of every record. */
  function Lefts(input: seq<Byte>): (l: seq<nat>)
    requires Framed(input)
    ensures |l| == RecordCount(input)
  {
    seq(RecordCount(input), i requires 0 <= i < RecordCount(input) =>
      RecordInside(input, i); Decimal(input[RecordBytes * i .. RecordBytes * i + 5]))
  }

  /** The right column: bytes 8..13 of every record. */
  function Rights(input: seq<Byte>): (r: seq<nat>)
    requires Framed(input)
    ensures |r| == RecordCount(input)
  {
    seq(RecordCount(input), i requires 0 <= i < RecordCount(input) =>
      RecordInside(input, i); Decimal(input[RecordBytes * i + 8 .. RecordBytes * i + 13]))
  }

  /** The two fields of the record at the head of `rest`. */
  lemma FieldsOfRest(input: seq<Byte>, k: nat, rest: seq<Byte>)
    requires RecordBytes * k + 13 <= |input| && rest == input[RecordBytes * k..]
    ensures rest[..5] == input[RecordBytes * k .. RecordBytes * k + 5]
    ensures rest[8..13] == input[RecordBytes * k + 8 .. RecordBytes * k + 13]
  {
    var x := RecordBytes * k;
    forall j | 0 <= j < 5 ensures rest[..5][j] == input[x .. x + 5][j] && rest[8..13][j] == input[x + 8 .. x + 13][j] {
    }
  }

  /** `parse_input`, lines 61-83: read a record, stop at the end of input or
      when less than a whole record remains, else skip 14 bytes. */
  method ParseInput(input: seq<Byte>) returns (list1: seq<nat>, list2: seq<nat>)
    requires Framed(input)
    ensures list1 == Lefts(input) && list2 == Rights(input)
  {
    list1, list2 := [], [];
    var rest := input;
    ghost var k := 0;
    while true
      invariant RecordBytes * k <= |input| && rest == input[RecordBytes * k..]
      invariant k <= RecordCount(input)
      invariant list1 == Lefts(input)[..k] && list2 == Rights(input)[..k]
      decreases |rest|
    {
      RecordsLeft(input, k);
      if rest == [] {
        break;
      }
      var l := Parse5DigitBase10(rest[..5]);
      var r := Parse5DigitBase10(rest[8..13]);
      FieldsOfRest(input, k, rest);
      list1 := list1 + [l];
      list2 := list2 + [r];
      assert Lefts(input)[..k + 1] == Lefts(input)[..k] + [l];
      assert Rights(input)[..k + 1] == Rights(input)[..k] + [r];
      k := k + 1;
      if |rest| < RecordBytes {
        break;
      }
      rest := rest[RecordBytes..];
    }
    assert k == RecordCount(input);
    assert Lefts(input)[..k] == Lefts(input);
    assert Rights(input)[..k] == Rights(input);
  }

  /** One record of the puzzle's layout: `lllll   rrrrr\n`. */
  function Record(l: nat, r: nat): (t: seq<Byte>)
    ensures |t| == RecordBytes
  {
    Digits(l, 5) + [Space, Space, Space] + Digits(r, 5) + [NewLine]
  }

  /** The puzzle text of two equally long columns. */
  function Text(a: seq<nat>, b: seq<nat>): (t: seq<Byte>)
    requires |a| == |b|
    ensures |t| == RecordBytes * |a|
  {
    if a == [] then [] else Text(a[..|a| - 1], b[..|b| - 1]) + Record(a[|a| - 1], b[|b| - 1])
  }

  /** The `i`-th record of the text is that of the `i`-th pair. */
  lemma {:induction false} TextRecord(a: seq<nat>, b: seq<nat>, i: nat)
    requires |a| == |b| && i < |a|
    ensures Text(a, b)[RecordBytes * i .. RecordBytes * i + RecordBytes] == Record(a[i], b[i])
    decreases |a|
  {
    var n := |a| - 1;
    var prev, last := Text(a[..n], b[..n]), Record(a[n], b[n]);
    assert Text(a, b) == prev + last;
    if i < n {
      TextRecord(a[..n], b[..n], i);
      assert (prev + last)[RecordBytes * i .. RecordBytes * i + RecordBytes] == prev[RecordBytes * i .. RecordBytes * i + RecordBytes];
    } else {
      assert (prev + last)[|prev|..] == last;
    }
  }

  lemma RecordsFramed(t: seq<Byte>, n: nat)
    requires |t| == RecordBytes * n
    ensures Framed(t) && RecordCount(t) == n
  {
  }

  /** A record laid out by `Record` reads back as its pair. */
  lemma RecordFields(t: seq<Byte>, i: nat, l: nat, r: nat)
    requires Framed(t) && i < RecordCount(t) && l < 100000 && r < 100000
    requires RecordBytes * i + RecordBytes <= |t| && t[RecordBytes * i .. RecordBytes * i + RecordBytes] == Record(l, r)
    ensures Lefts(t)[i] == l && Rights(t)[i] == r
  {
    var x := RecordBytes * i;
    var rec := t[x .. x + RecordBytes];
    var left, right := Digits(l, 5), Digits(r, 5);
    assert rec == left + [Space, Space, Space] + right + [NewLine];
    assert rec[..5] == left && rec[8..13] == right;
    forall j | 0 <= j < 5 ensures t[x .. x + 5][j] == rec[..5][j] && t[x + 8 .. x + 13][j] == rec[8..13][j] {
    }
    assert t[x .. x + 5] == left && t[x + 8 .. x + 13] == right;
    assert Pow10(1) == 10 && Pow10(2) == 100 && Pow10(3) == 1000 && Pow10(4) == 10000 && Pow10(5) == 100000;
    DecimalOfDigits(l, 5);
    DecimalOfDigits(r, 5);
  }

  lemma RecordOfText(a: seq<nat>, b: seq<nat>, i: nat)
    requires |a| == |b| && i < |a| && a[i] < 100000 && b[i] < 100000
    ensures Framed(Text(a, b)) && i < RecordCount(Text(a, b))
    ensures Lefts(Text(a, b))[i] == a[i] && Rights(Text(a, b))[i] == b[i]
  {
    var t := Text(a, b);
    RecordsFramed(t, |a|);
    TextRecord(a, b, i);
    RecordFields(t, i, a[i], b[i]);
  }

  /** Parsing the text of two columns of five-digit ids gives the columns back. */
  lemma ColumnsOfText(a: seq<nat>, b: seq<nat>)
    requires |a| == |b|
    requires forall i | 0 <= i < |a| :: a[i] < 100000 && b[i] < 100000
    ensures Framed(Text(a, b))
    ensures Lefts(Text(a, b)) == a && Rights(Text(a, b)) == b
  {
    RecordsFramed(Text(a, b), |a|);
    forall i | 0 <= i < |a| ensures Lefts(Text(a, b))[i] == a[i] && Rights(Text(a, b))[i] == b[i] {
      RecordOfText(a, b, i);
    }
  }

  // ---------------------------------------------------------------------
  // Sorting (`sort_unstable` and its reversed form stand for the library).
  // ---------------------------------------------------------------------

  predicate Ascending(s: seq<nat>) { forall i, j | 0 <= i < j < |s| :: s[i] <= s[j] }

  predicate Descending(s: seq<nat>) { forall i, j | 0 <= i < j < |s| :: s[i] >= s[j] }

  function Insert(s: seq<nat>, x: nat): (r: seq<nat>)
    requires Ascending(s)
    ensures Ascending(r) && multiset(r) == multiset(s) + multiset{x}
    ensures |r| == |s| + 1 && r[0] == if s == [] || x <= s[0] then x else s[0]
  {
    if s == [] || x <= s[0] then [x] + s
    else
      assert s == [s[0]] + s[1..];
      [s[0]] + Insert(s[1..], x)
  }

  /** The ascending order of `s` (what `sort_unstable` leaves). */
  function SortAscending(s: seq<nat>): (r: seq<nat>)
    ensures Ascending(r) && multiset(r) == multiset(s)
  {
    if s == [] then []
    else
      assert s == s[..|s| - 1] + [s[|s| - 1]];
      Insert(SortAscending(s[..|s| - 1]), s[|s| - 1])
  }

  function Reverse(s: seq<nat>): (r: seq<nat>)
    ensures |r| == |s| && forall i | 0 <= i < |s| :: r[i] == s[|s| - 1 - i]
    ensures multiset(r) == multiset(s)
  {
    if s == [] then []
    else
      assert s == s[..|s| - 1] + [s[|s| - 1]];
      [s[|s| - 1]] + Reverse(s[..|s| - 1])
  }

  /** The descending order of `s` (what `sort_unstable_by` with the reversed
      comparison leaves). */
  function SortDescending(s: seq<nat>): (r: seq<nat>)
    ensures Descending(r) && multiset(r) == multiset(s)
  {
    Reverse(SortAscending(s))
  }

  /** A sorted order is determined by its elements: whatever sort the
      library uses, its result is `SortAscending`. */
  lemma {:induction false} AscendingUnique(a: seq<nat>, b: seq<nat>)
    requires Ascending(a) && Ascending(b) && multiset(a) == multiset(b)
    ensures a == b
    decreases |a|
  {
    if a != [] {
      assert a == [a[0]] + a[1..];
      assert b != [] by {
        assert a[0] in multiset(b);
      }
      assert b == [b[0]] + b[1..];
      assert a[0] in multiset(b);
      assert b[0] in multiset(a);
      assert a[0] == b[0];
      assert multiset(a) == multiset{a[0]} + multiset(a[1..]);
      assert multiset(b) == multiset{b[0]} + multiset(b[1..]);
      forall y ensures multiset(a[1..])[y] == multiset(b[1..])[y] {
        assert multiset(a)[y] == multiset(b)[y];
      }
      AscendingUnique(a[1..], b[1..]);
    }
  }

  // ---------------------------------------------------------------------
  // Part 1.
  // ---------------------------------------------------------------------

  function Abs(x: int): nat { if x < 0 then -x else x }

  /** Lines 10-14: `zip`, `|l - r|`, `sum`. */
  function TotalDistance(a: seq<int>, b: seq<int>): (d: nat)
    decreases |a|
  {
    if a == [] || b == [] then 0 else Abs(a[0] - b[0]) + TotalDistance(a[1..], b[1..])
  }

  /** Two lists of the same length are at distance 0 exactly when they are equal. */
  lemma {:induction false} TotalDistanceZero(a: seq<int>, b: seq<int>)
    requires |a| == |b|
    ensures TotalDistance(a, b) == 0 <==> a == b
    decreases |a|
  {
    if a != [] {
      TotalDistanceZero(a[1..], b[1..]);
      if a[0] == b[0] && a[1..] == b[1..] {
        assert a == [a[0]] + a[1..] && b == [b[0]] + b[1..];
      }
    }
  }

  /** Lines 5-15: the total distance between the two columns, each sorted. */
  method Part1(input: seq<Byte>) returns (result: nat)
    requires Framed(input)
    ensures result == TotalDistance(SortAscending(Lefts(input)), SortAscending(Rights(input)))
    ensures result == 0 <==> multiset(Lefts(input)) == multiset(Rights(input))
  {
    var list1, list2 := ParseInput(input);
    var sorted1 := SortAscending(list1);
    var sorted2 := SortAscending(list2);
    result := TotalDistance(sorted1, sorted2);
    TotalDistanceZero(sorted1, sorted2);
    if multiset(list1) == multiset(list2) {
      AscendingUnique(sorted1, sorted2);
    }
  }

  // ---------------------------------------------------------------------
  // Part 2.
  // ---------------------------------------------------------------------

  /** Each id of the left column times the number of times it occurs on the
      right (`counts`), summed. */
  function SimSum(left: seq<nat>, counts: multiset<nat>): nat {
    if left == [] then 0 else SimSum(left[..|left| - 1], counts) + Weight(left[|left| - 1], counts)
  }

  /** One id's contribution: the id times its number of occurrences. */
  function Weight(v: nat, counts: multiset<nat>): nat {
    v * counts[v]
  }

  /** The similarity score of part 2. */
  function Similarity(left: seq<nat>, right: seq<nat>): nat {
    SimSum(left, multiset(right))
  }

  lemma {:induction false} SimSumAppend(p: seq<nat>, q: seq<nat>, counts: multiset<nat>)
    ensures SimSum(p + q, counts) == SimSum(p, counts) + SimSum(q, counts)
    decreases |q|
  {
    if q == [] {
      assert p + q == p;
    } else {
      assert (p + q)[..|p + q| - 1] == p + q[..|q| - 1];
      SimSumAppend(p, q[..|q| - 1], counts);
    }
  }

  /** The score does not depend on the order of the left column. */
  lemma {:induction false} SimSumPermutation(a: seq<nat>, b: seq<nat>, counts: multiset<nat>)
    requires multiset(a) == multiset(b)
    ensures SimSum(a, counts) == SimSum(b, counts)
    decreases |a|
  {
    if a == [] {
      assert |b| == |multiset(b)| == 0;
    } else {
      var init, x := a[..|a| - 1], a[|a| - 1];
      assert a == init + [x];
      assert x in multiset(b);
      var k :| 0 <= k < |b| && b[k] == x;
      var rest := b[..k] + b[k + 1..];
      assert b == b[..k] + [x] + b[k + 1..];
      assert multiset(b) == multiset(b[..k]) + multiset{x} + multiset(b[k + 1..]);
      assert multiset(a) == multiset(init) + multiset{x};
      assert multiset(rest) == multiset(b[..k]) + multiset(b[k + 1..]);
      forall y ensures multiset(init)[y] == multiset(rest)[y] {
        assert multiset(a)[y] == multiset(b)[y];
      }
      SimSumPermutation(init, rest, counts);
      SimSumAppend(b[..k], b[k + 1..], counts);
      SimSumAppend(b[..k] + [x], b[k + 1..], counts);
      SimSumAppend(b[..k], [x], counts);
      assert SimSum([x], counts) == Weight(x, counts) by {
        assert [x][..0] == [];
      }
    }
  }

  /** How many entries of `s` equal `n`. */
  lemma CountAbsent(s: seq<nat>, n: nat)
    requires forall j | 0 <= j < |s| :: s[j] != n
    ensures multiset(s)[n] == 0
  {
    assert n !in s;
  }

  /** When `n` occurs in `s` only between `lo` and `hi`, that stretch holds
      all of its occurrences. */
  lemma CountBetween(s: seq<nat>, lo: nat, hi: nat, n: nat)
    requires lo <= hi <= |s|
    requires forall j | 0 <= j < lo :: s[j] != n
    requires forall j | hi <= j < |s| :: s[j] != n
    ensures multiset(s)[n] == multiset(s[lo..hi])[n]
  {
    assert s == s[..lo] + s[lo..hi] + s[hi..];
    CountAbsent(s[..lo], n);
    CountAbsent(s[hi..], n);
  }

  /** Lines 35-52: pop `list2` (its last entry first) past every entry up to
      `n`, counting the ones equal to `n`, and push the first greater entry
      back. */
  method PopThrough(list2: seq<nat>, n: nat) returns (rest: seq<nat>, count: nat)
    ensures |rest| <= |list2| && rest == list2[..|rest|]
    ensures forall j | |rest| <= j < |list2| :: list2[j] <= n
    ensures rest != [] ==> rest[|rest| - 1] > n
    ensures count == multiset(list2[|rest|..])[n]
  {
    rest := list2;
    count := 0;
    while rest != []
      invariant |rest| <= |list2| && rest == list2[..|rest|]
      invariant forall j | |rest| <= j < |list2| :: list2[j] <= n
      invariant count == multiset(list2[|rest|..])[n]
      decreases |rest|
    {
      var v := rest[|rest| - 1];
      rest := rest[..|rest| - 1];
      assert list2[|rest|..] == [v] + list2[|rest| + 1..];
      if v < n {
      } else if v == n {
        count := count + 1;
      } else {
        rest := rest + [v];
        break;
      }
    }
  }

  lemma SimSumStep(d: seq<nat>, k: nat, counts: multiset<nat>)
    requires k < |d|
    ensures SimSum(d[k..], counts) == Weight(d[k], counts) + SimSum(d[k + 1..], counts)
  {
    assert d[k..] == [d[k]] + d[k + 1..];
    SimSumAppend([d[k]], d[k + 1..], counts);
    assert [d[k]][..0] == [];
  }

  /** In a descending sequence, whatever precedes an entry above `n` is above `n`. */
  lemma AboveRest(d: seq<nat>, k: nat, top: nat, n: nat)
    requires Descending(d) && k <= top <= |d|
    requires k > 0 ==> d[..top][k - 1] > n
    ensures forall j | 0 <= j < k :: d[j] > n
  {
  }

  /** Lines 33-54 for a new id `n`, above every id popped so far: `list2`
      loses the ids up to `n`, and the count is that of `n` in the whole
      right column. */
  method CountNext(d2: seq<nat>, list2: seq<nat>, prevValue: int, n: nat) returns (rest: seq<nat>, count: nat)
    requires Descending(d2) && |list2| <= |d2| && list2 == d2[..|list2|] && prevValue < n
    requires forall j | |list2| <= j < |d2| :: d2[j] <= prevValue
    ensures |rest| <= |list2| && rest == d2[..|rest|]
    ensures forall j | |rest| <= j < |d2| :: d2[j] <= n
    ensures forall j | 0 <= j < |rest| :: d2[j] > n
    ensures count == multiset(d2)[n]
  {
    ghost var top := |list2|;
    rest, count := PopThrough(list2, n);
    assert list2[|rest|..] == d2[|rest|..top];
    AboveRest(d2, |rest|, top, n);
    CountBetween(d2, |rest|, top, n);
  }

  /** Lines 17-59: the similarity score of the two columns. */
  method Part2(input: seq<Byte>) returns (score: nat)
    requires Framed(input)
    ensures score == Similarity(Lefts(input), Rights(input))
  {
    var list1, list2 := ParseInput(input);
    list1 := SortDescending(list1);
    list2 := SortDescending(list2);
    score := ScoreDescending(list1, list2);
    SimSumPermutation(list1, Lefts(input), multiset(list2));
  }

  /** Lines 23-58, on the two columns sorted in descending order: pop the left
      column (ascending ids); for a new id, pop the right column past every
      smaller id, counting the equal ones and pushing the first greater one
      back; a repeated id reuses the previous product. */
  method ScoreDescending(d1: seq<nat>, d2: seq<nat>) returns (score: nat)
    requires Descending(d1) && Descending(d2)
    ensures score == Similarity(d1, d2)
  {
    var list1, list2 := d1, d2;
    ghost var counts := multiset(d2);
    var prevScore: nat := 0;
    var prevValue: int := -1;
    score := 0;
    while list1 != []
      invariant |list1| <= |d1| && |list2| <= |d2|
      invariant list1 == d1[..|list1|] && list2 == d2[..|list2|]
      invariant score == SimSum(d1[|list1|..], counts)
      invariant |list1| == |d1| ==> prevValue == -1 && |list2| == |d2|
      invariant |list1| < |d1| ==> prevValue == d1[|list1|] && prevScore == Weight(d1[|list1|], counts)
      invariant forall j | |list2| <= j < |d2| :: d2[j] <= prevValue
      invariant forall j | 0 <= j < |list2| :: d2[j] > prevValue
    {
      var n := list1[|list1| - 1];
      list1 := list1[..|list1| - 1];
      SimSumStep(d1, |list1|, counts);
      if prevValue == n {
        score := score + prevScore;
      } else {
        assert |list1| + 1 < |d1| ==> d1[|list1| + 1] <= n;
        var prevCount;
        list2, prevCount := CountNext(d2, list2, prevValue, n);
        prevValue := n;
        prevScore := n * prevCount;
        score := score + prevScore;
      }
    }
    assert d1[0..] == d1;
  }
}
