/** Model of src/day7.rs (lines 1-110): for each equation, search the
    operator assignments in odometer order for one that evaluates, left to
    right, to the target; part 1 with `+` and `*`, part 2 also with
    concatenation. */
module Day7 {
  import opened Bytes
  import opened Options
  import opened Day7Lines

  datatype Op = Add | Mul | Cons

  /** The two `NextOp` implementations, lines 26-46. */
  datatype Operators = AddMul | AddMulCons

  /** `NextOp::next`: the operator after `op`, if any. */
  function NextOp(which: Operators, op: Op): Option<Op> {
    match (which, op)
    case (_, Add) => Some(Mul)
    case (AddMul, Mul) => None
    case (AddMulCons, Mul) => Some(Cons)
    case (_, Cons) => None
  }

  /** The position of an operator in the order `Add`, `Mul`, `Cons`. */
  function Rank(op: Op): nat {
    match op
    case Add => 0
    case Mul => 1
    case Cons => 2
  }

  /** The number of operators a part tries. */
  function Base(which: Operators): nat {
    match which
    case AddMul => 2
    case AddMulCons => 3
  }

  predicate Allowed(which: Operators, op: Op) { Rank(op) < Base(which) }

  /** Each operator's successor is the next in rank, and the last allowed
      one has none. */
  lemma NextOpIsNextRank(which: Operators, op: Op)
    requires Allowed(which, op)
    ensures NextOp(which, op).Some? <==> Rank(op) + 1 < Base(which)
    ensures NextOp(which, op).Some? ==> Rank(NextOp(which, op).value) == Rank(op) + 1
    ensures NextOp(which, op).Some? ==> Allowed(which, NextOp(which, op).value)
  {
  }

  // ---------------------------------------------------------------------
  // The odometer, lines 48-64.
  // ---------------------------------------------------------------------

  predicate AllAllowed(which: Operators, ops: seq<Op>) {
    forall i | 0 <= i < |ops| :: Allowed(which, ops[i])
  }

  function AllAdd(n: nat): (ops: seq<Op>)
    ensures |ops| == n
  {
    seq(n, _ => Add)
  }

  /** An assignment read as a numeral in base `Base(which)`, the last
      operator least significant. */
  function Value(which: Operators, ops: seq<Op>): nat {
    if ops == [] then 0 else Value(which, ops[..|ops| - 1]) * Base(which) + Rank(ops[|ops| - 1])
  }

  /** The assignment that follows `ops` in odometer order: the last
      operator that can advance does, and those after it go back to `Add`. */
  function Successor(which: Operators, ops: seq<Op>): Option<seq<Op>>
    decreases |ops|
  {
    if ops == [] then None
    else
      var n := |ops| - 1;
      match NextOp(which, ops[n])
      case Some(op) => Some(ops[..n] + [op])
      case None =>
        match Successor(which, ops[..n])
        case Some(init) => Some(init + [Add])
        case None => None
  }

  lemma {:induction false} ValueBound(which: Operators, ops: seq<Op>)
    requires AllAllowed(which, ops)
    ensures Value(which, ops) < Pow(Base(which), |ops|)
    decreases |ops|
  {
    if ops != [] {
      var n := |ops| - 1;
      ValueBound(which, ops[..n]);
      var v, p := Value(which, ops[..n]), Pow(Base(which), n);
      assert v + 1 <= p;
      if which == AddMul {
        assert v * 2 + Rank(ops[n]) < p * 2;
      } else {
        assert v * 3 + Rank(ops[n]) < p * 3;
      }
    }
  }

  /** Different assignments have different values. */
  lemma {:induction false} ValueInjective(which: Operators, a: seq<Op>, b: seq<Op>)
    requires |a| == |b| && AllAllowed(which, a) && AllAllowed(which, b)
    requires Value(which, a) == Value(which, b)
    ensures a == b
    decreases |a|
  {
    if a != [] {
      var n := |a| - 1;
      var x, y := Value(which, a[..n]), Value(which, b[..n]);
      assert Rank(a[n]) == Rank(b[n]) && x == y by {
        if which == AddMul {
          assert x * 2 + Rank(a[n]) == y * 2 + Rank(b[n]);
        } else {
          assert x * 3 + Rank(a[n]) == y * 3 + Rank(b[n]);
        }
      }
      ValueInjective(which, a[..n], b[..n]);
      assert a == a[..n] + [a[n]] && b == b[..n] + [b[n]];
    }
  }

  /** The first assignment, all `Add`, has the value 0. */
  lemma {:induction false} ValueAllAdd(which: Operators, n: nat)
    ensures Value(which, AllAdd(n)) == 0
  {
    if n > 0 {
      assert AllAdd(n)[..n - 1] == AllAdd(n - 1);
      ValueAllAdd(which, n - 1);
    }
  }

  /** The successor is the assignment of the next value; there is none
      after the largest. */
  lemma {:induction false} SuccessorValue(which: Operators, ops: seq<Op>)
    requires AllAllowed(which, ops)
    ensures Successor(which, ops).None? <==> Value(which, ops) + 1 == Pow(Base(which), |ops|)
    ensures Successor(which, ops).Some? ==>
      var next := Successor(which, ops).value;
      |next| == |ops| && AllAllowed(which, next) && Value(which, next) == Value(which, ops) + 1
    decreases |ops|
  {
    if ops != [] {
      var n := |ops| - 1;
      var init := ops[..n];
      NextOpIsNextRank(which, ops[n]);
      SuccessorValue(which, init);
      ValueBound(which, init);
      var v, p := Value(which, init), Pow(Base(which), n);
      match NextOp(which, ops[n])
      case Some(op) => {
        var next := init + [op];
        assert next[..n] == init;
        if which == AddMul {
          assert v * 2 + Rank(ops[n]) + 1 < p * 2;
        } else {
          assert v * 3 + Rank(ops[n]) + 1 < p * 3;
        }
      }
      case None => {
        if Successor(which, init).Some? {
          var next := Successor(which, init).value + [Add];
          assert next[..n] == Successor(which, init).value;
          if which == AddMul {
            assert (v + 1) * 2 < p * 2;
          } else {
            assert (v + 1) * 3 < p * 3;
          }
        }
      }
    }
  }

  /** The assignment `m` steps after `ops`, if there is one. */
  function Iterate(which: Operators, ops: seq<Op>, m: nat): Option<seq<Op>> {
    if m == 0 then Some(ops)
    else match Iterate(which, ops, m - 1)
      case Some(prev) => Successor(which, prev)
      case None => None
  }

  lemma {:induction false} PowPositive(b: nat, n: nat)
    requires b >= 1
    ensures Pow(b, n) >= 1
  {
    if n > 0 {
      PowPositive(b, n - 1);
    }
  }

  /** Starting from all `Add`, the `m`-th assignment has the value `m`, as
      long as `m` is below `Base(which)` to the power `n`. */
  lemma {:induction false} Enumerates(which: Operators, n: nat, m: nat)
    requires m < Pow(Base(which), n)
    ensures Iterate(which, AllAdd(n), m).Some?
    ensures var ops := Iterate(which, AllAdd(n), m).value;
      |ops| == n && AllAllowed(which, ops) && Value(which, ops) == m
  {
    if m == 0 {
      ValueAllAdd(which, n);
    } else {
      Enumerates(which, n, m - 1);
      SuccessorValue(which, Iterate(which, AllAdd(n), m - 1).value);
    }
  }

  /** The odometer visits every assignment exactly once: the assignment of
      value `v` comes `v` steps after all `Add`, and after the last of the
      `Base(which)` to the power `n` assignments there is none. */
  lemma EveryAssignmentOnce(which: Operators, a: seq<Op>)
    requires AllAllowed(which, a)
    ensures Iterate(which, AllAdd(|a|), Value(which, a)) == Some(a)
    ensures Iterate(which, AllAdd(|a|), Pow(Base(which), |a|)).None?
  {
    ValueBound(which, a);
    Enumerates(which, |a|, Value(which, a));
    ValueInjective(which, a, Iterate(which, AllAdd(|a|), Value(which, a)).value);
    EnumerationEnds(which, |a|);
  }

  /** After the last assignment the odometer has none left. */
  lemma EnumerationEnds(which: Operators, n: nat)
    ensures Iterate(which, AllAdd(n), Pow(Base(which), n)).None?
  {
    PowPositive(Base(which), n);
    var last := Pow(Base(which), n) - 1;
    Enumerates(which, n, last);
    var prev := Iterate(which, AllAdd(n), last).value;
    SuccessorValue(which, prev);
    assert Iterate(which, AllAdd(n), last + 1) == Successor(which, prev);
  }

  /** Successors with every later operator spent: the assignment up to
      `i` advances and the rest go back to `Add`. */
  lemma {:induction false} SuccessorOfSpent(which: Operators, ops: seq<Op>, i: nat)
    requires i <= |ops| && forall j | i <= j < |ops| :: NextOp(which, ops[j]).None?
    ensures Successor(which, ops) ==
      match Successor(which, ops[..i])
      case Some(p) => Some(p + AllAdd(|ops| - i))
      case None => None
    decreases |ops| - i
  {
    if i < |ops| {
      var n := |ops| - 1;
      assert ops[..n][..i] == ops[..i];
      SuccessorOfSpent(which, ops[..n], i);
      match Successor(which, ops[..i])
      case Some(p) => {
        assert p + AllAdd(n - i) + [Add] == p + AllAdd(|ops| - i);
      }
      case None =>
    } else {
      assert ops[..i] == ops;
      match Successor(which, ops)
      case Some(p) => {
        assert p + AllAdd(0) == p;
      }
      case None =>
    }
  }

  /** `Ops::next`, lines 51-63: advances the operators to their successor
      and returns one plus the number of operators reset to `Add`, or
      resets them all and returns `None` after the last assignment. */
  method Next(which: Operators, s: array<Op>) returns (invalidated: Option<nat>)
    requires AllAllowed(which, s[..])
    modifies s
    ensures invalidated.Some? <==> Successor(which, old(s[..])).Some?
    ensures invalidated.Some? ==> s[..] == Successor(which, old(s[..])).value
    ensures invalidated.Some? ==>
      (1 <= invalidated.value <= s.Length && s[..s.Length - invalidated.value] == old(s[..s.Length - invalidated.value]))
    ensures invalidated.Some? ==>
      s[s.Length - invalidated.value] != old(s[s.Length - invalidated.value])
      && forall j | s.Length - invalidated.value < j < s.Length :: NextOp(which, old(s[j])).None?
    ensures invalidated.None? ==> s[..] == AllAdd(s.Length)
  {
    ghost var ops := s[..];
    var count := 1;
    for i := s.Length downto 0
      invariant count == s.Length - i + 1
      invariant s[..i] == ops[..i] && s[i..] == AllAdd(s.Length - i)
      invariant forall j | i <= j < s.Length :: NextOp(which, ops[j]).None?
    {
      assert s[i] == ops[i] by {
        assert s[..i + 1][i] == ops[..i + 1][i];
      }
      var next := NextOp(which, s[i]);
      if next.Some? {
        SuccessorOfSpent(which, ops, i + 1);
        assert ops[..i + 1][..i] == ops[..i];
        s[i] := next.value;
        assert s[..] == ops[..i] + [next.value] + AllAdd(s.Length - i - 1);
        return Some(count);
      }
      s[i] := Add;
      count := count + 1;
    }
    SuccessorOfSpent(which, ops, 0);
    return None;
  }

  // ---------------------------------------------------------------------
  // Evaluation, lines 84-95.
  // ---------------------------------------------------------------------

  /** One operator applied, lines 86-93; `Cons` appends the digits of `v`
      when `d` is its digit count. */
  function Apply(op: Op, prev: nat, v: nat, d: nat): nat {
    match op
    case Add => prev + v
    case Mul => prev * v
    case Cons => prev * Pow(10, d) + v
  }

  /** Concatenation: `Cons` with the digit count of its right operand is
      the number the two numerals spell one after the other. */
  lemma ConsConcatenates(a: seq<Byte>, b: seq<Byte>)
    ensures Apply(Cons, DecimalValue(a), DecimalValue(b), |b|) == DecimalValue(a + b)
  {
    DecimalAppend(a, b);
  }

  /** The left-to-right value of `first op0 vars[0] ... op(k-1) vars[k-1]`. */
  function Eval(first: nat, vars: seq<nat>, digits: seq<nat>, ops: seq<Op>, k: nat): nat
    requires k <= |vars| && k <= |digits| && k <= |ops|
  {
    if k == 0 then first else Apply(ops[k - 1], Eval(first, vars, digits, ops, k - 1), vars[k - 1], digits[k - 1])
  }

  /** The value of a prefix depends on the operators of that prefix only. */
  lemma {:induction false} EvalPrefix(first: nat, vars: seq<nat>, digits: seq<nat>, a: seq<Op>, b: seq<Op>, k: nat)
    requires k <= |vars| && k <= |digits| && k <= |a| && k <= |b| && a[..k] == b[..k]
    ensures Eval(first, vars, digits, a, k) == Eval(first, vars, digits, b, k)
  {
    if k > 0 {
      assert a[k - 1] == a[..k][k - 1] == b[..k][k - 1] == b[k - 1];
      assert a[..k - 1] == a[..k][..k - 1];
      assert b[..k - 1] == b[..k][..k - 1];
      EvalPrefix(first, vars, digits, a, b, k - 1);
    }
  }

  /** Some assignment of the allowed operators makes the equation true. */
  ghost predicate Solvable(which: Operators, target: nat, first: nat, vars: seq<nat>, digits: seq<nat>)
    requires |vars| == |digits|
  {
    exists ops: seq<Op> | |ops| == |vars| && AllAllowed(which, ops) :: Eval(first, vars, digits, ops, |vars|) == target
  }

  /** The lines `partn` accepts: a target, a first number and at least one
      more (line 97 reads `cache[vars.len() - 1]`), within
      `MaxLineLength`. */
  predicate Checkable(line: Line) {
    3 <= |line.nums| <= MaxLineLength && |line.digits| == |line.nums|
  }

  /** The first `valid` entries of the cache hold the values of the
      prefixes they stand for. */
  predicate Cached(first: nat, vars: seq<nat>, digits: seq<nat>, ops: seq<Op>, cache: seq<nat>, valid: nat)
    requires |vars| == |digits| == |ops| == |cache| && valid <= |cache|
  {
    forall i | 0 <= i < valid :: cache[i] == Eval(first, vars, digits, ops, i + 1)
  }

  /** Entries before the first changed operator stay right. */
  lemma CachedPrefix(first: nat, vars: seq<nat>, digits: seq<nat>, tried: seq<Op>, ops: seq<Op>, cache: seq<nat>, valid: nat)
    requires |vars| == |digits| == |ops| == |tried| == |cache| && valid <= |cache|
    requires Cached(first, vars, digits, tried, cache, |cache|) && tried[..valid] == ops[..valid]
    ensures Cached(first, vars, digits, ops, cache, valid)
  {
    forall i | 0 <= i < valid ensures cache[i] == Eval(first, vars, digits, ops, i + 1) {
      assert tried[..i + 1] == tried[..valid][..i + 1];
      assert ops[..i + 1] == ops[..valid][..i + 1];
      EvalPrefix(first, vars, digits, tried, ops, i + 1);
    }
  }

  /** The cache loop, lines 84-95: recompute the values from `valid` on. */
  method Refresh(which: Operators, first: nat, vars: seq<nat>, digits: seq<nat>, ops: array<Op>, cache: array<nat>, valid: nat)
    requires |vars| == |digits| == ops.Length == cache.Length && valid <= cache.Length
    requires Cached(first, vars, digits, ops[..], cache[..], valid)
    modifies cache
    ensures Cached(first, vars, digits, ops[..], cache[..], cache.Length)
  {
    for i := valid to |vars|
      invariant Cached(first, vars, digits, ops[..], cache[..], i)
    {
      var prev := if i == 0 then first else cache[i - 1];
      match ops[i]
      case Add => cache[i] := prev + vars[i];
      case Mul => cache[i] := prev * vars[i];
      case Cons => {
        cache[i] := prev * Pow(10, digits[i]);
        cache[i] := cache[i] + vars[i];
      }
    }
  }

  /** No assignment of a value below `bound` makes the equation true. */
  ghost predicate FailsBelow(which: Operators, target: nat, first: nat, vars: seq<nat>, digits: seq<nat>, bound: nat)
    requires |vars| == |digits|
  {
    forall a: seq<Op> | |a| == |vars| && AllAllowed(which, a) && Value(which, a) < bound ::
      Eval(first, vars, digits, a, |vars|) != target
  }

  /** A failed assignment moves the bound past itself. */
  lemma FailsBelowNext(which: Operators, target: nat, first: nat, vars: seq<nat>, digits: seq<nat>, tried: seq<Op>)
    requires |vars| == |digits| == |tried| && AllAllowed(which, tried)
    requires FailsBelow(which, target, first, vars, digits, Value(which, tried))
    requires Eval(first, vars, digits, tried, |vars|) != target
    ensures FailsBelow(which, target, first, vars, digits, Value(which, tried) + 1)
  {
    forall a: seq<Op> | |a| == |vars| && AllAllowed(which, a) && Value(which, a) < Value(which, tried) + 1
      ensures Eval(first, vars, digits, a, |vars|) != target
    {
      if Value(which, a) == Value(which, tried) {
        ValueInjective(which, a, tried);
      }
    }
  }

  /** Past the largest value, no assignment is left to solve the equation. */
  lemma FailsEverywhere(which: Operators, target: nat, first: nat, vars: seq<nat>, digits: seq<nat>)
    requires |vars| == |digits|
    requires FailsBelow(which, target, first, vars, digits, Pow(Base(which), |vars|))
    ensures !Solvable(which, target, first, vars, digits)
  {
    forall a: seq<Op> | |a| == |vars| && AllAllowed(which, a)
      ensures Eval(first, vars, digits, a, |vars|) != target
    {
      ValueBound(which, a);
    }
  }

  /** The callback of `partn`, lines 73-108: whether some assignment of
      the allowed operators turns the line into a true equation. The
      assignments are tried in odometer order, and after each step only
      the values from the first changed operator on are recomputed. */
  method Check(which: Operators, line: Line) returns (found: bool)
    requires Checkable(line)
    ensures found <==> Solvable(which, line.nums[0], line.nums[1], line.nums[2..], line.digits[2..])
  {
    var target, first := line.nums[0], line.nums[1];
    var vars, digits := line.nums[2..], line.digits[2..];
    var n := |vars|;
    var ops := new Op[n](_ => Add);
    var cache := new nat[n](_ => 0);
    var valid: nat := 0;
    ValueAllAdd(which, n);
    assert ops[..] == AllAdd(n);
    while true
      invariant AllAllowed(which, ops[..]) && valid <= n
      invariant Cached(first, vars, digits, ops[..], cache[..], valid)
      invariant FailsBelow(which, target, first, vars, digits, Value(which, ops[..]))
      decreases Pow(Base(which), n) - Value(which, ops[..])
    {
      Refresh(which, first, vars, digits, ops, cache, valid);
      if cache[n - 1] == target {
        assert Eval(first, vars, digits, ops[..], n) == target;
        return true;
      }
      var next := Advance(which, target, first, vars, digits, ops, cache);
      if next.None? {
        return false;
      }
      valid := next.value;
    }
  }

  /** A failed trial, lines 101-106: the operators advance to their
      successor, and all but the entries from the first changed operator on
      stay valid; `None` once every assignment has been tried. */
  method Advance(which: Operators, target: nat, first: nat, vars: seq<nat>, digits: seq<nat>, ops: array<Op>, cache: array<nat>)
    returns (valid: Option<nat>)
    requires |vars| == |digits| == ops.Length == cache.Length >= 1
    requires AllAllowed(which, ops[..]) && Cached(first, vars, digits, ops[..], cache[..], cache.Length)
    requires FailsBelow(which, target, first, vars, digits, Value(which, ops[..]))
    requires cache[cache.Length - 1] != target
    modifies ops
    ensures valid.None? ==> !Solvable(which, target, first, vars, digits)
    ensures valid.Some? ==>
      && valid.value <= cache.Length && AllAllowed(which, ops[..])
      && Cached(first, vars, digits, ops[..], cache[..], valid.value)
      && FailsBelow(which, target, first, vars, digits, Value(which, ops[..]))
      && old(Value(which, ops[..])) < Value(which, ops[..]) < Pow(Base(which), ops.Length)
  {
    ghost var tried := ops[..];
    SuccessorValue(which, tried);
    FailsBelowNext(which, target, first, vars, digits, tried);
    var invalidated := Next(which, ops);
    if invalidated.None? {
      FailsEverywhere(which, target, first, vars, digits);
      return None;
    }
    ValueBound(which, ops[..]);
    valid := Some(cache.Length - invalidated.value);
    CachedPrefix(first, vars, digits, tried, ops[..], cache[..], valid.value);
  }

  // ---------------------------------------------------------------------
  // `partn`, lines 71-110, and the two parts.
  // ---------------------------------------------------------------------

  /** What a line adds to the total, lines 97-100: its target when some
      assignment solves it. */
  ghost function Gain(which: Operators, l: Line): nat
    requires Checkable(l)
  {
    if Solvable(which, l.nums[0], l.nums[1], l.nums[2..], l.digits[2..]) then l.nums[0] else 0
  }

  /** The sum of the targets of the solvable lines. */
  ghost function Total(which: Operators, lines: seq<Line>): nat
    requires forall k | 0 <= k < |lines| :: Checkable(lines[k])
  {
    if lines == [] then 0 else Total(which, lines[..|lines| - 1]) + Gain(which, lines[|lines| - 1])
  }

  /** `partn`: the callback of `iter_lines` is run on each line in turn. */
  method Partn(which: Operators, input: seq<Byte>) returns (total: nat)
    requires Readable(input) && forall k | 0 <= k < |Lines(input)| :: Checkable(Lines(input)[k])
    ensures total == Total(which, Lines(input))
  {
    var lines := IterLines(input);
    total := AddUp(which, lines);
  }

  /** The callback's effect on `total` over all lines, lines 73-109. */
  method AddUp(which: Operators, lines: seq<Line>) returns (total: nat)
    requires forall k | 0 <= k < |lines| :: Checkable(lines[k])
    ensures total == Total(which, lines)
  {
    total := 0;
    for k := 0 to |lines|
      invariant total == Total(which, lines[..k])
    {
      assert lines[..k + 1][..k] == lines[..k];
      var found := Check(which, lines[k]);
      if found {
        total := total + lines[k].nums[0];
      }
    }
    assert lines[..|lines|] == lines;
  }

  /** Part 1, lines 10-13. */
  method Part1(input: seq<Byte>) returns (total: nat)
    requires Readable(input) && forall k | 0 <= k < |Lines(input)| :: Checkable(Lines(input)[k])
    ensures total == Total(AddMul, Lines(input))
  {
    total := Partn(AddMul, input);
  }

  /** Part 2, lines 66-69. */
  method Part2(input: seq<Byte>) returns (total: nat)
    requires Readable(input) && forall k | 0 <= k < |Lines(input)| :: Checkable(Lines(input)[k])
    ensures total == Total(AddMulCons, Lines(input))
  {
    total := Partn(AddMulCons, input);
  }

  /** Every equation part 1 solves, part 2 solves too. */
  lemma {:induction false} Part2CoversPart1(lines: seq<Line>)
    requires forall k | 0 <= k < |lines| :: Checkable(lines[k])
    ensures Total(AddMul, lines) <= Total(AddMulCons, lines)
  {
    if lines != [] {
      var n := |lines| - 1;
      var l := lines[n];
      Part2CoversPart1(lines[..n]);
      if Solvable(AddMul, l.nums[0], l.nums[1], l.nums[2..], l.digits[2..]) {
        var ops: seq<Op> :| |ops| == |l.nums[2..]| && AllAllowed(AddMul, ops)
          && Eval(l.nums[1], l.nums[2..], l.digits[2..], ops, |l.nums[2..]|) == l.nums[0];
        assert AllAllowed(AddMulCons, ops);
      }
    }
  }
}
