/** Model of the page-ordering table of src/day5.rs (lines 43-71): one
    `Ordering` per ordered pair of two-digit page numbers, filled in from the
    rules `before|after`. */
module Day5Table {
  import opened Bytes

  datatype Ord = Less | Equal | Greater

  /** `Orderings::SIZE` as written, line 46: `0b1100011_1100011`, that is
      99 * 128 + 99. */
  const SizeAsWritten: nat := 0x31E3

  /** One past the offset of the pair (99, 99). */
  const Size: nat := SizeAsWritten + 1

  /** `offset`, lines 48-50: `(a << 7) | b` on `usize`. */
  function Offset(a: Byte, b: Byte): (k: nat)
    ensures b < 128 ==> k == a * 128 + b
  {
    128 * (if b >= 128 && a % 2 == 0 then a + 1 else a) + b % 128
  }

  /** A page number the table has a row and a column for. */
  predicate IsPage(a: Byte) { a <= 99 }

  /** Distinct pairs of pages have distinct offsets. */
  lemma OffsetInjective(a: Byte, b: Byte, c: Byte, d: Byte)
    requires IsPage(a) && IsPage(b) && IsPage(c) && IsPage(d)
    requires Offset(a, b) == Offset(c, d)
    ensures a == c && b == d
  {
  }

  /** Every pair of pages has an entry. */
  lemma PagesInTable(a: Byte, b: Byte)
    requires IsPage(a) && IsPage(b)
    ensures Offset(a, b) < Size
  {
  }

  /** The table as written is one entry short: the pair (99, 99) indexes
      one past its end. */
  lemma OffsetAsWrittenOverflows()
    ensures IsPage(99) && Offset(99, 99) == SizeAsWritten
    ensures !(Offset(99, 99) < SizeAsWritten)
  {
  }

  /** A table, as the sequence of its entries. */
  type Table = t: seq<Ord> | |t| == Size witness seq(Size, _ => Equal)

  /** `Default`, lines 53-57. */
  function EmptyTable(): (t: Table)
    ensures forall k | 0 <= k < Size :: t[k] == Equal
  {
    seq(Size, _ => Equal)
  }

  /** `orderings[(a, b)]`, line 62-64. */
  function Lookup(t: Table, a: Byte, b: Byte): Ord
    requires IsPage(a) && IsPage(b)
  {
    PagesInTable(a, b);
    t[Offset(a, b)]
  }

  /** `orderings[(a, b)] = o`, lines 67-71. */
  function Write(t: Table, a: Byte, b: Byte, o: Ord): Table
    requires IsPage(a) && IsPage(b)
  {
    PagesInTable(a, b);
    t[Offset(a, b) := o]
  }

  /** A write changes the entry of its own pair and no other. */
  lemma WriteLookup(t: Table, a: Byte, b: Byte, o: Ord, c: Byte, d: Byte)
    requires IsPage(a) && IsPage(b) && IsPage(c) && IsPage(d)
    ensures Lookup(Write(t, a, b, o), c, d) == if (c, d) == (a, b) then o else Lookup(t, c, d)
  {
    PagesInTable(a, b);
    PagesInTable(c, d);
    if Offset(c, d) == Offset(a, b) {
      OffsetInjective(c, d, a, b);
    }
  }

  /** The table of `Orderings`, updated in place. */
  class Orderings {
    var table: array<Ord>

    ghost predicate Valid()
      reads this
    {
      table.Length == Size
    }

    /** The table's entries. */
    ghost function Entries(): Table
      reads this, table
      requires Valid()
    {
      table[..]
    }

    /** `Orderings::default()`: every pair is `Equal`. */
    constructor ()
      ensures Valid() && fresh(table) && Entries() == EmptyTable()
    {
      table := new Ord[Size](_ => Equal);
    }

    /** `Index`: the entry of the pair `(a, b)`. */
    function Get(a: Byte, b: Byte): (o: Ord)
      reads this, table
      requires Valid() && IsPage(a) && IsPage(b)
      ensures o == Lookup(Entries(), a, b)
    {
      PagesInTable(a, b);
      table[Offset(a, b)]
    }

    /** `IndexMut` followed by a store: only the entry of `(a, b)` changes. */
    method Set(a: Byte, b: Byte, o: Ord)
      requires Valid() && IsPage(a) && IsPage(b)
      modifies table
      ensures Valid() && Entries() == Write(old(Entries()), a, b, o)
    {
      PagesInTable(a, b);
      table[Offset(a, b)] := o;
    }
  }

  // ---------------------------------------------------------------------
  // Rules.
  // ---------------------------------------------------------------------

  /** A rule `before|after`: `before` must come before `after`. */
  datatype Rule = Rule(before: Byte, after: Byte)

  predicate RulePages(rules: seq<Rule>) {
    forall k | 0 <= k < |rules| :: IsPage(rules[k].before) && IsPage(rules[k].after)
  }

  /** One rule entered into the table. The chunked reader (lines 111-114)
      writes `Less` first, the reader of the remainder (lines 118-123)
      `Greater` first; they differ only for a rule `a|a`. */
  function Enter(t: Table, r: Rule, lessFirst: bool): Table
    requires IsPage(r.before) && IsPage(r.after)
  {
    if lessFirst then Write(Write(t, r.before, r.after, Less), r.after, r.before, Greater)
    else Write(Write(t, r.after, r.before, Greater), r.before, r.after, Less)
  }

  /** What entering a rule does to the entry of a pair: a rule `a|b` with
      `a != b` makes `(a, b)` `Less` and `(b, a)` `Greater`; a rule `a|a`
      leaves whichever of the two the reader writes last. */
  lemma EnterLookup(t: Table, r: Rule, lessFirst: bool, a: Byte, b: Byte)
    requires IsPage(r.before) && IsPage(r.after) && IsPage(a) && IsPage(b)
    ensures Lookup(Enter(t, r, lessFirst), a, b) ==
      if (a, b) == (r.before, r.after) && (r.before != r.after || !lessFirst) then Less
      else if (a, b) == (r.after, r.before) then Greater
      else Lookup(t, a, b)
  {
    if lessFirst {
      var t1 := Write(t, r.before, r.after, Less);
      WriteLookup(t, r.before, r.after, Less, a, b);
      WriteLookup(t1, r.after, r.before, Greater, a, b);
    } else {
      var t1 := Write(t, r.after, r.before, Greater);
      WriteLookup(t, r.after, r.before, Greater, a, b);
      WriteLookup(t1, r.before, r.after, Less, a, b);
    }
  }

  /** The rules entered in order, the first `chunked` of them by the chunked
      reader. */
  function EnterAll(t: Table, rules: seq<Rule>, chunked: nat): Table
    requires RulePages(rules)
    decreases |rules|
  {
    if rules == [] then t
    else
      var n := |rules| - 1;
      Enter(EnterAll(t, rules[..n], chunked), rules[n], n < chunked)
  }

  /** No rule contradicts another or itself. */
  predicate Consistent(rules: seq<Rule>) {
    forall i, j | 0 <= i < |rules| && 0 <= j < |rules| :: rules[i] != Rule(rules[j].after, rules[j].before)
  }

  /** What the rules say about the pair `(a, b)`. */
  function Expected(rules: seq<Rule>, a: Byte, b: Byte): Ord {
    if Rule(a, b) in rules then Less else if Rule(b, a) in rules then Greater else Equal
  }

  /** With consistent rules the table holds `Less` for every rule, `Greater`
      for every reversed rule and `Equal` for every other pair, whichever
      reader entered each rule. */
  lemma {:induction false} EnterAllMeaning(rules: seq<Rule>, chunked: nat, a: Byte, b: Byte)
    requires RulePages(rules) && Consistent(rules) && IsPage(a) && IsPage(b)
    ensures Lookup(EnterAll(EmptyTable(), rules, chunked), a, b) == Expected(rules, a, b)
    decreases |rules|
  {
    if rules != [] {
      var n := |rules| - 1;
      var init, r := rules[..n], rules[n];
      assert rules == init + [r];
      assert Consistent(init);
      EnterAllMeaning(init, chunked, a, b);
      EnterLookup(EnterAll(EmptyTable(), init, chunked), r, n < chunked, a, b);
      assert r.before != r.after by {
        assert rules[n] != Rule(rules[n].after, rules[n].before);
      }
      if (a, b) != (r.before, r.after) && (a, b) != (r.after, r.before) {
        assert (Rule(a, b) in rules) == (Rule(a, b) in init);
        assert (Rule(b, a) in rules) == (Rule(b, a) in init);
      } else if (a, b) == (r.before, r.after) {
        assert Rule(a, b) in rules;
      } else {
        assert Rule(b, a) in rules;
        assert Rule(a, b) !in rules;
      }
    }
  }

  /** Entering the self-contradicting rule `a|a` leaves `Greater` from the
      chunked reader and `Less` from the other. */
  lemma SelfRuleDependsOnReader(a: Byte)
    requires IsPage(a)
    ensures Lookup(Enter(EmptyTable(), Rule(a, a), true), a, a) == Greater
    ensures Lookup(Enter(EmptyTable(), Rule(a, a), false), a, a) == Less
  {
    EnterLookup(EmptyTable(), Rule(a, a), true, a, a);
    EnterLookup(EmptyTable(), Rule(a, a), false, a, a);
  }
}
