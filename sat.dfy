/**
 * The clause store and DPLL search of the "kaboom" solver (`Sat` in
 * backend/internal/game/kaboom.go): clauses are sequences of non-zero
 * literals over variables 1..numVars, a positive literal asks for its
 * variable to be true and a negative one for it to be false.
 */
module SatSolving {
  import opened Common

  function Abs(x: int): (r: nat)
    ensures r == x || r == -x
  {
    if x < 0 then -x else x
  }

  /**
   * A literal holds under an assignment (indexed by variable, slot 0 unused)
   * when its variable is in range and has the literal's polarity; dpll skips
   * out-of-range variables, and literal 0 is neither positive nor negative.
   */
  predicate LitTrue(a: seq<bool>, lit: int) {
    Abs(lit) < |a| && ((lit > 0 && a[Abs(lit)]) || (lit < 0 && !a[Abs(lit)]))
  }

  predicate ClauseTrue(a: seq<bool>, clause: seq<int>) {
    exists k :: 0 <= k < |clause| && LitTrue(a, clause[k])
  }

  predicate Satisfies(a: seq<bool>, clauses: seq<seq<int>>) {
    forall c :: 0 <= c < |clauses| ==> ClauseTrue(a, clauses[c])
  }

  lemma SatisfiesAppend(a: seq<bool>, xs: seq<seq<int>>, ys: seq<seq<int>>)
    ensures Satisfies(a, xs + ys) <==> Satisfies(a, xs) && Satisfies(a, ys)
  {
    if Satisfies(a, xs) && Satisfies(a, ys) {
      forall c | 0 <= c < |xs + ys|
        ensures ClauseTrue(a, (xs + ys)[c])
      {
        if c < |xs| {
          assert (xs + ys)[c] == xs[c];
        } else {
          assert (xs + ys)[c] == ys[c - |xs|];
        }
      }
    }
    if Satisfies(a, xs + ys) {
      forall c | 0 <= c < |xs|
        ensures ClauseTrue(a, xs[c])
      {
        assert (xs + ys)[c] == xs[c];
      }
      forall c | 0 <= c < |ys|
        ensures ClauseTrue(a, ys[c])
      {
        assert (xs + ys)[|xs| + c] == ys[c];
      }
    }
  }

  // ---------------------------------------------------------------------
  // combinations
  // ---------------------------------------------------------------------

  /** `s` is `l` with some elements left out, order kept. */
  predicate IsSubseq(s: seq<int>, l: seq<int>)
    decreases |l|
  {
    if s == [] then true
    else if l == [] then false
    else (s[0] == l[0] && IsSubseq(s[1..], l[1..])) || IsSubseq(s, l[1..])
  }

  /**
   * The closure `generate(start, current, remaining)` inside `combinations`:
   * a finished `current` is emitted, otherwise the loop over `i` runs.
   */
  function Generate(list: seq<int>, start: nat, current: seq<int>, remaining: nat): seq<seq<int>>
    requires start <= |list|
    decreases |list| - start, remaining, 1
  {
    if remaining == 0 then [current] else GenerateFrom(list, start, current, remaining)
  }

  /** The loop `for i := start; i <= len(list)-remaining; i++`, from `i` on. */
  function GenerateFrom(list: seq<int>, i: nat, current: seq<int>, remaining: nat): seq<seq<int>>
    requires i <= |list| && 0 < remaining
    decreases |list| - i, remaining, 0
  {
    if i + remaining > |list| then []
    else Generate(list, i + 1, current + [list[i]], remaining - 1) + GenerateFrom(list, i + 1, current, remaining)
  }

  /** `combinations(list, n)`: the three shortcuts, then the generator. */
  function Combinations(list: seq<int>, n: nat): seq<seq<int>> {
    if n == 0 then [[]]
    else if |list| < n then []
    else if n == |list| then [list]
    else Generate(list, 0, [], n)
  }

  lemma {:induction false} SubseqNoLonger(s: seq<int>, l: seq<int>)
    requires IsSubseq(s, l)
    ensures |s| <= |l|
    decreases |l|
  {
    if s != [] {
      if s[0] == l[0] && IsSubseq(s[1..], l[1..]) {
        SubseqNoLonger(s[1..], l[1..]);
      } else {
        SubseqNoLonger(s, l[1..]);
      }
    }
  }

  lemma {:induction false} SubseqOfItself(l: seq<int>)
    ensures IsSubseq(l, l)
    decreases |l|
  {
    if l != [] {
      SubseqOfItself(l[1..]);
    }
  }

  /** Every emitted combination is `current` followed by `remaining` elements of `list[start..]`, in order. */
  lemma {:induction false} GenerateSound(list: seq<int>, start: nat, current: seq<int>, remaining: nat)
    requires start <= |list|
    ensures forall c :: c in Generate(list, start, current, remaining) ==>
              |c| == |current| + remaining && c[..|current|] == current && IsSubseq(c[|current|..], list[start..])
    decreases |list| - start, remaining, 1
  {
    if remaining != 0 {
      GenerateFromSound(list, start, current, remaining);
    }
  }

  lemma {:induction false} GenerateFromSound(list: seq<int>, i: nat, current: seq<int>, remaining: nat)
    requires i <= |list| && 0 < remaining
    ensures forall c :: c in GenerateFrom(list, i, current, remaining) ==>
              |c| == |current| + remaining && c[..|current|] == current && IsSubseq(c[|current|..], list[i..])
    decreases |list| - i, remaining, 0
  {
    if i + remaining <= |list| {
      var next := current + [list[i]];
      GenerateSound(list, i + 1, next, remaining - 1);
      GenerateFromSound(list, i + 1, current, remaining);
      forall c | c in GenerateFrom(list, i, current, remaining)
        ensures |c| == |current| + remaining && c[..|current|] == current && IsSubseq(c[|current|..], list[i..])
      {
        if c in Generate(list, i + 1, next, remaining - 1) {
          assert c[..|next|] == next;
          assert c[..|current|] == next[..|current|];
          var tail := c[|current|..];
          assert tail[0] == list[i] && tail[1..] == c[|next|..];
          assert list[i..][1..] == list[i + 1..];
        } else {
          assert c in GenerateFrom(list, i + 1, current, remaining);
          assert list[i..][1..] == list[i + 1..];
        }
      }
    }
  }

  /** Every ordered choice of `remaining` elements of `list[start..]` is emitted. */
  lemma {:induction false} GenerateComplete(list: seq<int>, start: nat, current: seq<int>, remaining: nat, s: seq<int>)
    requires start <= |list| && |s| == remaining && IsSubseq(s, list[start..])
    ensures current + s in Generate(list, start, current, remaining)
    decreases |list| - start, remaining, 1
  {
    if remaining == 0 {
      assert current + s == current;
    } else {
      GenerateFromComplete(list, start, current, remaining, s);
    }
  }

  lemma {:induction false} GenerateFromComplete(list: seq<int>, i: nat, current: seq<int>, remaining: nat, s: seq<int>)
    requires i <= |list| && 0 < remaining && |s| == remaining && IsSubseq(s, list[i..])
    ensures current + s in GenerateFrom(list, i, current, remaining)
    decreases |list| - i, remaining, 0
  {
    SubseqNoLonger(s, list[i..]);
    assert list[i..][1..] == list[i + 1..];
    if s[0] == list[i] && IsSubseq(s[1..], list[i + 1..]) {
      GenerateComplete(list, i + 1, current + [list[i]], remaining - 1, s[1..]);
      assert current + [list[i]] + s[1..] == current + s;
    } else {
      GenerateFromComplete(list, i + 1, current, remaining, s);
    }
  }

  /** Generating a choice of every element yields the list itself, once. */
  lemma {:induction false} GenerateAll(list: seq<int>, i: nat)
    requires i <= |list|
    ensures Generate(list, i, list[..i], |list| - i) == [list]
    decreases |list| - i
  {
    if i < |list| {
      GenerateAll(list, i + 1);
      assert list[..i] + [list[i]] == list[..i + 1];
      assert GenerateFrom(list, i + 1, list[..i], |list| - i) == [];
    } else {
      assert list[..i] == list;
    }
  }

  /** The shortcuts of `combinations` agree with the generator. */
  lemma CombinationsAreGenerated(list: seq<int>, n: nat)
    ensures Combinations(list, n) == Generate(list, 0, [], n)
  {
    if n != 0 && n == |list| {
      GenerateAll(list, 0);
    }
  }

  /** `combinations(list, n)` holds exactly the in-order choices of `n` elements of `list`. */
  lemma CombinationsMeaning(list: seq<int>, n: nat, c: seq<int>)
    ensures c in Combinations(list, n) <==> |c| == n && IsSubseq(c, list)
  {
    CombinationsAreGenerated(list, n);
    GenerateSound(list, 0, [], n);
    assert list[0..] == list;
    if |c| == n && IsSubseq(c, list) {
      GenerateComplete(list, 0, [], n, c);
      assert [] + c == c;
    }
    if c in Combinations(list, n) {
      assert c[0..] == c;
    }
  }

  lemma CombinationsShortcuts(list: seq<int>, n: nat)
    ensures n == 0 ==> Combinations(list, n) == [[]]
    ensures |list| < n ==> Combinations(list, n) == []
    ensures n == |list| ==> Combinations(list, n) == [list]
  {
  }

  // ---------------------------------------------------------------------
  // What the cardinality encodings mean
  // ---------------------------------------------------------------------

  /** Positions of `l` whose literal does not evaluate to `pol`. */
  function Misses(a: seq<bool>, l: seq<int>, pol: bool): (n: nat)
    ensures n <= |l|
  {
    if l == [] then 0 else (if LitTrue(a, l[0]) == pol then 0 else 1) + Misses(a, l[1..], pol)
  }

  /** Number of literals of `vars` that hold. */
  function TrueCount(a: seq<bool>, vars: seq<int>): nat {
    Misses(a, vars, false)
  }

  /** Some literal of `c` evaluates to `pol`. */
  predicate Hits(a: seq<bool>, c: seq<int>, pol: bool) {
    exists k :: 0 <= k < |c| && LitTrue(a, c[k]) == pol
  }

  lemma {:induction false} MissesSplit(a: seq<bool>, l: seq<int>)
    ensures Misses(a, l, true) + Misses(a, l, false) == |l|
  {
    if l != [] {
      MissesSplit(a, l[1..]);
    }
  }

  /** A choice all of whose elements miss is no longer than the misses of the list. */
  lemma {:induction false} MissingChoiceBounded(a: seq<bool>, s: seq<int>, l: seq<int>, pol: bool)
    requires IsSubseq(s, l) && !Hits(a, s, pol)
    ensures |s| <= Misses(a, l, pol)
    decreases |l|
  {
    if s != [] {
      assert !Hits(a, s[1..], pol) by {
        forall k | 0 <= k < |s[1..]|
          ensures LitTrue(a, s[1..][k]) != pol
        {
          assert s[1..][k] == s[k + 1];
        }
      }
      if s[0] == l[0] && IsSubseq(s[1..], l[1..]) {
        MissingChoiceBounded(a, s[1..], l[1..], pol);
        assert LitTrue(a, s[0]) != pol;
      } else {
        MissingChoiceBounded(a, s, l[1..], pol);
      }
    }
  }

  /** The first `m` missing elements of `l`. */
  function FirstMisses(a: seq<bool>, l: seq<int>, pol: bool, m: nat): seq<int>
    decreases |l|
  {
    if m == 0 || l == [] then []
    else if LitTrue(a, l[0]) != pol then [l[0]] + FirstMisses(a, l[1..], pol, m - 1)
    else FirstMisses(a, l[1..], pol, m)
  }

  lemma {:induction false} FirstMissesChoice(a: seq<bool>, l: seq<int>, pol: bool, m: nat)
    requires m <= Misses(a, l, pol)
    ensures var s := FirstMisses(a, l, pol, m); |s| == m && IsSubseq(s, l) && !Hits(a, s, pol)
    decreases |l|
  {
    if m != 0 && l != [] {
      var s := FirstMisses(a, l, pol, m);
      if LitTrue(a, l[0]) != pol {
        FirstMissesChoice(a, l[1..], pol, m - 1);
        assert s[1..] == FirstMisses(a, l[1..], pol, m - 1);
        forall k | 0 <= k < |s|
          ensures LitTrue(a, s[k]) != pol
        {
          if k > 0 {
            assert s[k] == s[1..][k - 1];
          }
        }
      } else {
        FirstMissesChoice(a, l[1..], pol, m);
      }
    }
  }

  /**
   * Every choice of `m` literals of `l` has one evaluating to `pol` exactly
   * when fewer than `m` literals of `l` miss `pol`: the pigeonhole fact
   * behind AssertAtLeast and AssertAtMost.
   */
  lemma CombinationsHit(a: seq<bool>, l: seq<int>, m: nat, pol: bool)
    ensures (forall c :: c in Combinations(l, m) ==> Hits(a, c, pol)) <==> Misses(a, l, pol) < m
  {
    if Misses(a, l, pol) < m {
      forall c | c in Combinations(l, m)
        ensures Hits(a, c, pol)
      {
        CombinationsMeaning(l, m, c);
        if !Hits(a, c, pol) {
          MissingChoiceBounded(a, c, l, pol);
        }
      }
    } else {
      var s := FirstMisses(a, l, pol, m);
      FirstMissesChoice(a, l, pol, m);
      CombinationsMeaning(l, m, s);
    }
  }

  /** The clauses AssertAtMost adds: each chosen literal negated. */
  function Negated(c: seq<int>): (r: seq<int>)
    ensures |r| == |c|
  {
    seq(|c|, i requires 0 <= i < |c| => -c[i])
  }

  function NegatedAll(cs: seq<seq<int>>): (r: seq<seq<int>>)
    ensures |r| == |cs|
  {
    seq(|cs|, i requires 0 <= i < |cs| => Negated(cs[i]))
  }

  /** Every variable of `vars` is one of 1..|a|-1. */
  predicate InRange(a: seq<bool>, vars: seq<int>) {
    forall k :: 0 <= k < |vars| ==> 0 < vars[k] < |a|
  }

  /** The clause that is meant to be impossible: it has no literal, so no assignment meets it. */
  const Contradiction: seq<int> := []

  /** `AssertAtLeast(vars, k)` as written: a k beyond the list adds `[1, -1]`. */
  function AtLeastClausesAsWritten(vars: seq<int>, k: int): seq<seq<int>> {
    if k <= 0 then []
    else if k > |vars| then [[1, -1]]
    else Combinations(vars, |vars| - k + 1)
  }

  /** `AssertAtLeast(vars, k)` with the impossible case written as a clause nothing satisfies. */
  function AtLeastClauses(vars: seq<int>, k: int): seq<seq<int>> {
    if k <= 0 then []
    else if k > |vars| then [Contradiction]
    else Combinations(vars, |vars| - k + 1)
  }

  /** `AssertAtMost(vars, k)` as written: a negative k adds `[1, -1]`. */
  function AtMostClausesAsWritten(vars: seq<int>, k: int): seq<seq<int>> {
    if k < 0 then [[1, -1]]
    else if k >= |vars| then []
    else NegatedAll(Combinations(vars, k + 1))
  }

  function AtMostClauses(vars: seq<int>, k: int): seq<seq<int>> {
    if k < 0 then [Contradiction]
    else if k >= |vars| then []
    else NegatedAll(Combinations(vars, k + 1))
  }

  lemma SatisfiesHits(a: seq<bool>, cs: seq<seq<int>>)
    ensures Satisfies(a, cs) <==> forall c :: c in cs ==> Hits(a, c, true)
  {
    if Satisfies(a, cs) {
      forall c | c in cs
        ensures Hits(a, c, true)
      {
        var i :| 0 <= i < |cs| && cs[i] == c;
        assert ClauseTrue(a, cs[i]);
      }
    }
    if forall c :: c in cs ==> Hits(a, c, true) {
      forall i | 0 <= i < |cs|
        ensures ClauseTrue(a, cs[i])
      {
        assert Hits(a, cs[i], true);
      }
    }
  }

  /** AssertAtLeast's clauses hold exactly when at least `k` of the literals do. */
  lemma AtLeastMeaning(a: seq<bool>, vars: seq<int>, k: int)
    ensures Satisfies(a, AtLeastClauses(vars, k)) <==> TrueCount(a, vars) >= k
  {
    MissesSplit(a, vars);
    if 0 < k <= |vars| {
      SatisfiesHits(a, AtLeastClauses(vars, k));
      CombinationsHit(a, vars, |vars| - k + 1, true);
    } else if k > |vars| {
      assert !ClauseTrue(a, AtLeastClauses(vars, k)[0]);
    }
  }

  lemma NegatedHits(a: seq<bool>, c: seq<int>)
    requires InRange(a, c)
    ensures ClauseTrue(a, Negated(c)) <==> Hits(a, c, false)
  {
    if Hits(a, c, false) {
      var k :| 0 <= k < |c| && !LitTrue(a, c[k]);
      assert LitTrue(a, Negated(c)[k]);
    }
    if ClauseTrue(a, Negated(c)) {
      var k :| 0 <= k < |Negated(c)| && LitTrue(a, Negated(c)[k]);
      assert !LitTrue(a, c[k]);
    }
  }

  lemma CombinationsInRange(a: seq<bool>, vars: seq<int>, m: nat, c: seq<int>)
    requires InRange(a, vars) && c in Combinations(vars, m)
    ensures InRange(a, c)
  {
    CombinationsMeaning(vars, m, c);
    SubseqElements(c, vars);
  }

  lemma {:induction false} SubseqElements(s: seq<int>, l: seq<int>)
    requires IsSubseq(s, l)
    ensures forall k :: 0 <= k < |s| ==> s[k] in l
    decreases |l|
  {
    if s != [] {
      if s[0] == l[0] && IsSubseq(s[1..], l[1..]) {
        SubseqElements(s[1..], l[1..]);
        forall k | 0 < k < |s|
          ensures s[k] in l
        {
          assert s[k] == s[1..][k - 1];
          assert s[1..][k - 1] in l[1..];
        }
      } else {
        SubseqElements(s, l[1..]);
      }
    }
  }

  /** AssertAtMost's clauses hold exactly when at most `k` of the (in-range) variables are true. */
  lemma AtMostMeaning(a: seq<bool>, vars: seq<int>, k: int)
    requires InRange(a, vars)
    ensures Satisfies(a, AtMostClauses(vars, k)) <==> TrueCount(a, vars) <= k
  {
    if k < 0 {
      assert !ClauseTrue(a, AtMostClauses(vars, k)[0]);
    } else if k < |vars| {
      var combos := Combinations(vars, k + 1);
      CombinationsHit(a, vars, k + 1, false);
      if Satisfies(a, NegatedAll(combos)) {
        forall c | c in combos
          ensures Hits(a, c, false)
        {
          var i :| 0 <= i < |combos| && combos[i] == c;
          CombinationsInRange(a, vars, k + 1, c);
          assert ClauseTrue(a, NegatedAll(combos)[i]);
          NegatedHits(a, c);
        }
      }
      if TrueCount(a, vars) <= k {
        forall i | 0 <= i < |NegatedAll(combos)|
          ensures ClauseTrue(a, NegatedAll(combos)[i])
        {
          assert combos[i] in combos;
          CombinationsInRange(a, vars, k + 1, combos[i]);
          NegatedHits(a, combos[i]);
        }
      }
    }
  }

  /**
   * As written, the "contradiction" `[1, -1]` is met by every assignment
   * with a variable 1, so AssertAtLeast([1], 2) leaves a model with no true
   * variable although at least two were demanded.
   */
  lemma AtLeastAsWrittenIsTautology()
    ensures Satisfies([false, false], AtLeastClausesAsWritten([1], 2))
    ensures TrueCount([false, false], [1]) == 0
    ensures Satisfies([false, false], AtMostClausesAsWritten([1], -1))
  {
    assert LitTrue([false, false], [1, -1][1]);
    assert ClauseTrue([false, false], [1, -1]);
  }

  /** `[1, -1]` holds under any assignment that covers variable 1. */
  lemma TautologyHolds(a: seq<bool>)
    requires |a| >= 2
    ensures ClauseTrue(a, [1, -1])
  {
    if a[1] {
      assert LitTrue(a, [1, -1][0]);
    } else {
      assert LitTrue(a, [1, -1][1]);
    }
  }

  // ---------------------------------------------------------------------
  // Counter constraints
  // ---------------------------------------------------------------------

  /** `AssertCounterAtLeast(counter, k)`: the first k counter outputs are asserted true. */
  function CounterAtLeastClauses(counter: seq<int>, k: int): (r: seq<seq<int>>)
    ensures |r| == if k <= 0 then 0 else Min(k, |counter|)
  {
    if k <= 0 then [] else seq(Min(k, |counter|), i requires 0 <= i < Min(k, |counter|) => [counter[i]])
  }

  /**
   * `AssertCounterAtMost(counter, k)` as written: the loop starts at index
   * k, and a negative k is below every length, so its first step reads
   * `counter[k]` and panics.
   */
  function CounterAtMostAsWritten(counter: seq<int>, k: int): (r: Result<seq<seq<int>>>)
  {
    if k < 0 then Failure("index out of range")
    else if k >= |counter| then Success([])
    else Success(seq(|counter| - k, i requires 0 <= i < |counter| - k => [-counter[k + i]]))
  }

  /** The same constraint with a negative bound read as impossible, as no count is below zero. */
  function CounterAtMostClauses(counter: seq<int>, k: int): (r: seq<seq<int>>)
  {
    if k < 0 then [Contradiction]
    else if k >= |counter| then []
    else seq(|counter| - k, i requires 0 <= i < |counter| - k => [-counter[k + i]])
  }

  /** What AssertCounterAtMost's loop has asserted once it ends. */
  lemma CounterAtMostDone(counter: seq<int>, k: int, done: seq<seq<int>>)
    requires 0 <= k && |done| == if k < |counter| then |counter| - k else 0
    requires forall j :: 0 <= j < |done| ==> k + j < |counter| && done[j] == [-counter[k + j]]
    ensures done == CounterAtMostClauses(counter, k)
  {
  }

  /** OutsideIsSafe's bound `maxMines - numCachedTrue - 1` is negative once the cached mines reach maxMines (here 0 - 0 - 1): the server panics. */
  lemma CounterAtMostPanics()
    ensures CounterAtMostAsWritten([1], 0 - 0 - 1).Failure? && CounterAtMostAsWritten([], 0 - 0 - 1).Failure?
    ensures !Satisfies([false, false], CounterAtMostClauses([1], 0 - 0 - 1))
  {
    assert !ClauseTrue([false, false], CounterAtMostClauses([1], -1)[0]);
  }

  /** Off the failing case the as-written loop and the corrected one add the same clauses. */
  lemma CounterAtMostAgrees(counter: seq<int>, k: int)
    requires k >= 0
    ensures CounterAtMostAsWritten(counter, k) == Success(CounterAtMostClauses(counter, k))
  {
  }

  /** A negative bound can never be met. */
  lemma CounterAtMostNegative(a: seq<bool>, counter: seq<int>, k: int)
    requires k < 0
    ensures !Satisfies(a, CounterAtMostClauses(counter, k))
  {
    assert !ClauseTrue(a, CounterAtMostClauses(counter, k)[0]);
  }

  /** An extra constraint passed to SolveWith: the closures kaboom.go hands it. */
  datatype Constraint =
    | NoConstraint
    | UnitLiteral(lit: int)
    | CounterAtLeast(counter: seq<int>, k: int)
    | CounterAtMost(counter: seq<int>, k: int)

  function ConstraintClauses(c: Constraint): seq<seq<int>> {
    match c
    case NoConstraint => []
    case UnitLiteral(lit) => [[lit]]
    case CounterAtLeast(counter, k) => CounterAtLeastClauses(counter, k)
    case CounterAtMost(counter, k) => CounterAtMostClauses(counter, k)
  }

  // ---------------------------------------------------------------------
  // The unit-clause cache and the DPLL bookkeeping
  // ---------------------------------------------------------------------

  /** Assert's cache update: a one-literal clause over an in-range variable records its polarity. */
  function AddUnit(units: map<int, bool>, clause: seq<int>, numVars: int): map<int, bool> {
    if |clause| == 1 && Abs(clause[0]) <= numVars then units[Abs(clause[0]) := clause[0] > 0] else units
  }

  function AddUnits(units: map<int, bool>, clauses: seq<seq<int>>, numVars: int): map<int, bool>
    decreases |clauses|
  {
    if clauses == [] then units else AddUnits(AddUnit(units, clauses[0], numVars), clauses[1..], numVars)
  }

  predicate UnitsInRange(units: map<int, bool>, numVars: int) {
    forall v :: v in units ==> 0 <= v <= numVars
  }

  lemma {:induction false} AddUnitsInRange(units: map<int, bool>, clauses: seq<seq<int>>, numVars: int)
    requires UnitsInRange(units, numVars)
    ensures UnitsInRange(AddUnits(units, clauses, numVars), numVars)
    decreases |clauses|
  {
    if clauses != [] {
      AddUnitsInRange(AddUnit(units, clauses[0], numVars), clauses[1..], numVars);
    }
  }

  lemma AddUnitsStep(units: map<int, bool>, clauses: seq<seq<int>>, c: seq<int>, numVars: int)
    ensures AddUnits(units, clauses + [c], numVars) == AddUnit(AddUnits(units, clauses, numVars), c, numVars)
    decreases |clauses|
  {
    if clauses != [] {
      assert (clauses + [c])[1..] == clauses[1..] + [c];
      AddUnitsStep(AddUnit(units, clauses[0], numVars), clauses[1..], c, numVars);
    }
  }

  /** A non-empty set has an element (what `range` over a map's keys relies on). */
  lemma SetHasElement(s: set<int>)
    requires |s| > 0
    ensures exists v :: v in s
  {
    if forall v :: v !in s {
      assert false;
    }
  }

  /** Number of variables (slots) not yet assigned. */
  function Unused(used: seq<bool>): nat {
    if used == [] then 0 else (if used[0] then 0 else 1) + Unused(used[1..])
  }

  /** `t` keeps every assignment `s` had. */
  predicate Grows(s: seq<bool>, t: seq<bool>) {
    |s| == |t| && forall v :: 0 <= v < |s| && s[v] ==> t[v]
  }

  lemma {:induction false} UnusedShrinks(s: seq<bool>, t: seq<bool>, v: int)
    requires Grows(s, t) && 0 <= v < |s| && !s[v] && t[v]
    ensures Unused(t) < Unused(s)
  {
    if v == 0 {
      UnusedNoMore(s[1..], t[1..]);
    } else {
      UnusedShrinks(s[1..], t[1..], v - 1);
    }
  }

  lemma {:induction false} UnusedNoMore(s: seq<bool>, t: seq<bool>)
    requires Grows(s, t)
    ensures Unused(t) <= Unused(s)
  {
    if s != [] {
      UnusedNoMore(s[1..], t[1..]);
    }
  }

  /** The outcome of dpll's combined check over all clauses. */
  datatype Check = Conflict | AllSatisfied | Undecided

  /** The clause has a literal over an assigned in-range variable with its polarity. */
  predicate AssignedTrue(assignment: seq<bool>, used: seq<bool>, clause: seq<int>)
    requires |assignment| == |used|
  {
    exists k :: 0 <= k < |clause| && Abs(clause[k]) < |used| && used[Abs(clause[k])] && LitTrue(assignment, clause[k])
  }

  /** No literal of the clause is true or still open: every extension of the assignment violates it. */
  predicate Falsified(assignment: seq<bool>, used: seq<bool>, clause: seq<int>)
    requires |assignment| == |used|
  {
    forall k :: 0 <= k < |clause| && Abs(clause[k]) < |used| ==> used[Abs(clause[k])] && !LitTrue(assignment, clause[k])
  }

  class Sat {
    var numVars: int
    var clauses: seq<seq<int>>
    var unitClauses: map<int, bool>

    ghost predicate Valid()
      reads this
    {
      0 <= numVars && UnitsInRange(unitClauses, numVars)
    }

    /** `NewSat(numVars)`. */
    constructor (numVars: nat)
      ensures Valid() && this.numVars == numVars && clauses == [] && unitClauses == map[]
    {
      this.numVars := numVars;
      clauses := [];
      unitClauses := map[];
    }

    /** `Assert(vars)`: appends the clause; a one-literal clause over an in-range variable also enters the cache. */
    method Assert(vars: seq<int>)
      requires Valid()
      modifies this
      ensures Valid() && numVars == old(numVars)
      ensures clauses == old(clauses) + [vars]
      ensures unitClauses == AddUnit(old(unitClauses), vars, numVars)
    {
      if |vars| == 1 {
        var varIdx := Abs(vars[0]);
        if varIdx <= numVars {
          unitClauses := unitClauses[varIdx := vars[0] > 0];
        }
      }
      clauses := clauses + [vars];
    }

    /** The `for _, comb := range ... { s.Assert(comb) }` loops. */
    method AssertAll(cs: seq<seq<int>>)
      requires Valid()
      modifies this
      ensures Valid() && numVars == old(numVars)
      ensures clauses == old(clauses) + cs
      ensures unitClauses == AddUnits(old(unitClauses), cs, numVars)
    {
      var i := 0;
      while i < |cs|
        invariant 0 <= i <= |cs| && Valid() && numVars == old(numVars)
        invariant clauses == old(clauses) + cs[..i]
        invariant unitClauses == AddUnits(old(unitClauses), cs[..i], numVars)
      {
        AddUnitsStep(old(unitClauses), cs[..i], cs[i], numVars);
        assert cs[..i + 1] == cs[..i] + [cs[i]];
        Assert(cs[i]);
        i := i + 1;
      }
      assert cs[..i] == cs;
    }

    /** `AssertAtLeast(vars, k)`, with the impossible case adding a clause nothing satisfies. */
    method AssertAtLeast(vars: seq<int>, k: int)
      requires Valid()
      modifies this
      ensures Valid() && numVars == old(numVars)
      ensures clauses == old(clauses) + AtLeastClauses(vars, k)
      ensures unitClauses == AddUnits(old(unitClauses), AtLeastClauses(vars, k), numVars)
    {
      if k <= 0 {
        assert clauses == old(clauses) + [];
        return;
      }
      if k > |vars| {
        Assert(Contradiction);
        return;
      }
      var size := |vars| - k + 1;
      AssertAll(Combinations(vars, size));
    }

    /** `AssertAtMost(vars, k)`: every choice of k+1 variables gets a clause of their negations. */
    method AssertAtMost(vars: seq<int>, k: int)
      requires Valid()
      modifies this
      ensures Valid() && numVars == old(numVars)
      ensures clauses == old(clauses) + AtMostClauses(vars, k)
      ensures unitClauses == AddUnits(old(unitClauses), AtMostClauses(vars, k), numVars)
    {
      if k < 0 {
        Assert(Contradiction);
        return;
      }
      if k >= |vars| {
        assert clauses == old(clauses) + [];
        return;
      }
      var combos := Combinations(vars, k + 1);
      var i := 0;
      while i < |combos|
        invariant 0 <= i <= |combos| && Valid() && numVars == old(numVars)
        invariant clauses == old(clauses) + NegatedAll(combos)[..i]
        invariant unitClauses == AddUnits(old(unitClauses), NegatedAll(combos)[..i], numVars)
      {
        var negated := Negate(combos[i]);
        AddUnitsStep(old(unitClauses), NegatedAll(combos)[..i], negated, numVars);
        assert NegatedAll(combos)[..i + 1] == NegatedAll(combos)[..i] + [negated];
        Assert(negated);
        i := i + 1;
      }
      assert NegatedAll(combos)[..i] == NegatedAll(combos);
    }

    /** The `negated[i] = -v` loop. */
    static method Negate(comb: seq<int>) returns (negated: seq<int>)
      ensures negated == Negated(comb)
    {
      negated := [];
      var i := 0;
      while i < |comb|
        invariant 0 <= i <= |comb| && negated == Negated(comb)[..i]
      {
        negated := negated + [-comb[i]];
        i := i + 1;
      }
    }

    /** `AssertCounterAtLeast(counter, k)`. */
    method AssertCounterAtLeast(counter: seq<int>, k: int)
      requires Valid()
      modifies this
      ensures Valid() && numVars == old(numVars)
      ensures clauses == old(clauses) + CounterAtLeastClauses(counter, k)
      ensures unitClauses == AddUnits(old(unitClauses), CounterAtLeastClauses(counter, k), numVars)
    {
      var i := 0;
      while i < k && i < |counter|
        invariant 0 <= i && (k <= 0 ==> i == 0) && (k > 0 ==> i <= Min(k, |counter|))
        invariant Valid() && numVars == old(numVars)
        invariant clauses == old(clauses) + CounterAtLeastClauses(counter, k)[..i]
        invariant unitClauses == AddUnits(old(unitClauses), CounterAtLeastClauses(counter, k)[..i], numVars)
      {
        AddUnitsStep(old(unitClauses), CounterAtLeastClauses(counter, k)[..i], [counter[i]], numVars);
        assert CounterAtLeastClauses(counter, k)[..i + 1] == CounterAtLeastClauses(counter, k)[..i] + [[counter[i]]];
        Assert([counter[i]]);
        i := i + 1;
      }
      assert CounterAtLeastClauses(counter, k)[..i] == CounterAtLeastClauses(counter, k);
    }

    /** Assert(c) seen as one more step of a loop that has asserted `done` so far. */
    method AssertNext(ghost units0: map<int, bool>, ghost done: seq<seq<int>>, c: seq<int>)
      requires Valid() && unitClauses == AddUnits(units0, done, numVars)
      modifies this
      ensures Valid() && numVars == old(numVars) && clauses == old(clauses) + [c]
      ensures unitClauses == AddUnits(units0, done + [c], numVars)
    {
      AddUnitsStep(units0, done, c, numVars);
      Assert(c);
    }

    /** `AssertCounterAtMost(counter, k)`, with a negative bound adding a clause nothing satisfies. */
    method AssertCounterAtMost(counter: seq<int>, k: int)
      requires Valid()
      modifies this
      ensures Valid() && numVars == old(numVars)
      ensures clauses == old(clauses) + CounterAtMostClauses(counter, k)
      ensures unitClauses == AddUnits(old(unitClauses), CounterAtMostClauses(counter, k), numVars)
    {
      if k < 0 {
        Assert(Contradiction);
        return;
      }
      ghost var done: seq<seq<int>> := [];
      var i := k;
      while i < |counter|
        invariant k <= i && (k < |counter| ==> i <= |counter|) && |done| == i - k
        invariant forall j :: 0 <= j < |done| ==> k + j < |counter| && done[j] == [-counter[k + j]]
        invariant Valid() && numVars == old(numVars)
        invariant clauses == old(clauses) + done
        invariant unitClauses == AddUnits(old(unitClauses), done, numVars)
      {
        AssertNext(old(unitClauses), done, [-counter[i]]);
        done := done + [[-counter[i]]];
        i := i + 1;
      }
      CounterAtMostDone(counter, k, done);
    }

    /**
     * `AddCounter(vars)`: a tree of counters over the halves, each node taking
     * |vars| fresh variables and the clauses linking it to its children.
     */
    method AddCounter(vars: seq<int>) returns (counter: seq<int>)
      requires Valid()
      modifies this
      decreases |vars|
      ensures Valid() && old(numVars) <= numVars
      ensures |counter| == |vars|
      ensures |vars| <= 1 ==> counter == vars && numVars == old(numVars) && clauses == old(clauses)
      ensures |vars| > 1 ==> numVars >= old(numVars) + |vars|
      ensures |vars| > 1 ==> forall i :: 0 <= i < |counter| ==> counter[i] == numVars - |vars| + 1 + i
      ensures |old(clauses)| <= |clauses| && clauses[..|old(clauses)|] == old(clauses)
      ensures forall c :: |old(clauses)| <= c < |clauses| ==> 2 <= |clauses[c]| <= 3
      ensures unitClauses == old(unitClauses)
    {
      if |vars| <= 1 {
        return vars;
      }
      var mid := |vars| / 2;
      var left := AddCounter(vars[..mid]);
      var right := AddCounter(vars[mid..]);
      ghost var before := clauses;
      counter := [];
      var i := 0;
      while i < |vars|
        invariant 0 <= i <= |vars| && Valid() && clauses == before && unitClauses == old(unitClauses)
        invariant numVars >= old(numVars) + i && |counter| == i
        invariant forall j :: 0 <= j < i ==> counter[j] == numVars - i + 1 + j
      {
        numVars := numVars + 1;
        counter := counter + [numVars];
        i := i + 1;
      }
      var a := 0;
      while a <= |left|
        invariant 0 <= a <= |left| + 1 && Valid() && unitClauses == old(unitClauses)
        invariant |old(clauses)| <= |before| <= |clauses| && clauses[..|before|] == before
        invariant before[..|old(clauses)|] == old(clauses)
        invariant forall c :: |old(clauses)| <= c < |clauses| ==> 2 <= |clauses[c]| <= 3
        invariant numVars >= old(numVars) + |vars| && forall j :: 0 <= j < |counter| ==> counter[j] == numVars - |vars| + 1 + j
      {
        CounterRow(left, right, counter, a);
        a := a + 1;
      }
    }

    /** One pass of the inner `for b` loop of AddCounter, for a fixed `a`. */
    method CounterRow(left: seq<int>, right: seq<int>, counter: seq<int>, a: nat)
      requires Valid() && a <= |left| && |counter| == |left| + |right|
      modifies this
      ensures Valid() && numVars == old(numVars) && unitClauses == old(unitClauses)
      ensures |old(clauses)| <= |clauses| && clauses[..|old(clauses)|] == old(clauses)
      ensures forall c :: |old(clauses)| <= c < |clauses| ==> 2 <= |clauses[c]| <= 3
    {
      var b := 0;
      while b <= |right|
        invariant 0 <= b <= |right| + 1 && Valid() && numVars == old(numVars) && unitClauses == old(unitClauses)
        invariant |old(clauses)| <= |clauses| && clauses[..|old(clauses)|] == old(clauses)
        invariant forall c :: |old(clauses)| <= c < |clauses| ==> 2 <= |clauses[c]| <= 3
      {
        if a > 0 && b > 0 {
          Assert([-left[a - 1], -right[b - 1], counter[a + b - 1]]);
        } else if a > 0 {
          Assert([-left[a - 1], counter[a - 1]]);
        } else if b > 0 {
          Assert([-right[b - 1], counter[b - 1]]);
        }
        if a < |left| && b < |right| {
          Assert([left[a], right[b], -counter[a + b]]);
        } else if a < |left| {
          Assert([left[a], -counter[a + b]]);
        } else if b < |right| {
          Assert([right[b], -counter[a + b]]);
        }
        b := b + 1;
      }
    }

    /** `Solve()`: with no clauses every variable false, otherwise dpll from an empty assignment. */
    method Solve() returns (r: Option<seq<bool>>)
      requires Valid()
      ensures r.Some? ==> |r.value| == numVars + 1 && Satisfies(r.value, clauses)
      ensures |clauses| == 0 ==> r == Some(seq(numVars + 1, _ => false))
    {
      if |clauses| == 0 {
        return Some(seq(numVars + 1, _ => false));
      }
      var assignment := new bool[numVars + 1](_ => false);
      var used := new bool[numVars + 1](_ => false);
      r := Dpll(assignment, used);
    }

    /**
     * `dpll(assignment, used, depth)`: cached units, then unit clauses, then
     * the combined check, then a branch on the first unassigned variable.
     * A model it returns meets every clause; variables it assigned on entry
     * stay assigned.
     */
    method Dpll(assignment: array<bool>, used: array<bool>) returns (r: Option<seq<bool>>)
      requires Valid() && assignment.Length == numVars + 1 && used.Length == numVars + 1 && assignment != used
      modifies assignment, used
      ensures r.Some? ==> |r.value| == numVars + 1 && Satisfies(r.value, clauses)
      ensures Grows(old(used[..]), used[..])
      decreases Unused(used[..])
    {
      PropagateCached(assignment, used);
      PropagateUnits(assignment, used);
      var status := CheckClauses(assignment, used);
      if status == Conflict {
        return None;
      }
      if status == AllSatisfied {
        return Some(assignment[..]);
      }
      var nextVar := FirstUnused(used);
      if nextVar == 0 {
        return None;
      }
      ghost var entry := old(used[..]);
      assert !entry[nextVar];
      assignment[nextVar] := true;
      used[nextVar] := true;
      UnusedShrinks(entry, used[..], nextVar);
      r := Dpll(assignment, used);
      if r.Some? {
        return;
      }
      assignment[nextVar] := false;
      UnusedShrinks(entry, used[..], nextVar);
      r := Dpll(assignment, used);
      if r.Some? {
        return;
      }
      used[nextVar] := false;
      return None;
    }

    /** The `for varIdx, val := range s.unitClauses` loop; the map's order is unspecified. */
    method PropagateCached(assignment: array<bool>, used: array<bool>)
      requires Valid() && assignment.Length == numVars + 1 && used.Length == numVars + 1 && assignment != used
      modifies assignment, used
      ensures Grows(old(used[..]), used[..])
    {
      var keys := unitClauses.Keys;
      while |keys| > 0
        invariant keys <= unitClauses.Keys
        invariant Grows(old(used[..]), used[..])
        decreases keys
      {
        SetHasElement(keys);
        var varIdx :| varIdx in keys;
        if varIdx <= numVars && !used[varIdx] {
          assignment[varIdx] := unitClauses[varIdx];
          used[varIdx] := true;
        }
        keys := keys - {varIdx};
      }
    }

    /** The `for { ... }` loop that repeats a pass over the unit clauses until one finds nothing new. */
    method PropagateUnits(assignment: array<bool>, used: array<bool>)
      requires Valid() && assignment.Length == numVars + 1 && used.Length == numVars + 1 && assignment != used
      modifies assignment, used
      ensures Grows(old(used[..]), used[..])
    {
      while true
        invariant Grows(old(used[..]), used[..])
        decreases Unused(used[..])
      {
        var unitFound := UnitPass(assignment, used);
        if !unitFound {
          break;
        }
      }
    }

    /** One pass: the first one-literal clause over an unassigned in-range variable fixes it. */
    method UnitPass(assignment: array<bool>, used: array<bool>) returns (unitFound: bool)
      requires Valid() && assignment.Length == numVars + 1 && used.Length == numVars + 1 && assignment != used
      modifies assignment, used
      ensures Grows(old(used[..]), used[..])
      ensures unitFound ==> Unused(used[..]) < old(Unused(used[..]))
      ensures !unitFound ==> used[..] == old(used[..])
    {
      var c := 0;
      while c < |clauses|
        invariant 0 <= c <= |clauses| && used[..] == old(used[..])
      {
        var clause := clauses[c];
        if |clause| == 1 {
          var lit := clause[0];
          var varIdx := Abs(lit);
          if varIdx <= numVars && !used[varIdx] {
            assignment[varIdx] := lit > 0;
            used[varIdx] := true;
            UnusedShrinks(old(used[..]), used[..], varIdx);
            return true;
          }
        }
        c := c + 1;
      }
      return false;
    }

    /** The combined conflict/satisfaction check over all clauses. */
    method CheckClauses(assignment: array<bool>, used: array<bool>) returns (status: Check)
      requires assignment.Length == used.Length
      ensures status == AllSatisfied ==> Satisfies(assignment[..], clauses)
      ensures status == Conflict ==> exists c :: 0 <= c < |clauses| && Falsified(assignment[..], used[..], clauses[c])
    {
      var allSatisfied := true;
      var c := 0;
      while c < |clauses|
        invariant 0 <= c <= |clauses|
        invariant allSatisfied ==> forall d :: 0 <= d < c ==> ClauseTrue(assignment[..], clauses[d])
      {
        var satisfied, hasUnassigned := CheckClause(assignment, used, clauses[c]);
        if !satisfied {
          if !hasUnassigned {
            return Conflict;
          }
          allSatisfied := false;
        }
        c := c + 1;
      }
      return if allSatisfied then AllSatisfied else Undecided;
    }

    /** The inner loop over one clause's literals. */
    static method CheckClause(assignment: array<bool>, used: array<bool>, clause: seq<int>)
      returns (satisfied: bool, hasUnassigned: bool)
      requires assignment.Length == used.Length
      ensures satisfied ==> AssignedTrue(assignment[..], used[..], clause) && ClauseTrue(assignment[..], clause)
      ensures !satisfied && !hasUnassigned ==> Falsified(assignment[..], used[..], clause)
    {
      satisfied, hasUnassigned := false, false;
      var k := 0;
      while k < |clause|
        invariant 0 <= k <= |clause|
        invariant !hasUnassigned ==> forall j :: 0 <= j < k && Abs(clause[j]) < used.Length ==>
                    used[Abs(clause[j])] && !LitTrue(assignment[..], clause[j])
      {
        var lit := clause[k];
        var varIdx := Abs(lit);
        if varIdx < used.Length {
          if used[varIdx] {
            var val := assignment[varIdx];
            if (lit > 0 && val) || (lit < 0 && !val) {
              assert LitTrue(assignment[..], clause[k]);
              return true, hasUnassigned;
            }
          } else {
            hasUnassigned := true;
          }
        }
        k := k + 1;
      }
    }

    /** The `for i := 1; i <= s.numVars; i++` search for the first unassigned variable (0 when none). */
    method FirstUnused(used: array<bool>) returns (nextVar: int)
      requires Valid() && used.Length == numVars + 1
      ensures nextVar == 0 ==> forall v :: 1 <= v <= numVars ==> used[v]
      ensures nextVar != 0 ==> 1 <= nextVar <= numVars && !used[nextVar]
    {
      var i := 1;
      while i <= numVars
        invariant 1 <= i <= numVars + 1 && forall v :: 1 <= v < i ==> used[v]
      {
        if !used[i] {
          return i;
        }
        i := i + 1;
      }
      return 0;
    }

    /** Runs one of the closures kaboom.go passes to SolveWith. */
    method Apply(additional: Constraint)
      requires Valid()
      modifies this
      ensures Valid() && numVars == old(numVars)
      ensures clauses == old(clauses) + ConstraintClauses(additional)
    {
      match additional
      case NoConstraint =>
        assert clauses == old(clauses) + [];
      case UnitLiteral(lit) =>
        Assert([lit]);
      case CounterAtLeast(counter, k) =>
        AssertCounterAtLeast(counter, k);
      case CounterAtMost(counter, k) =>
        AssertCounterAtMost(counter, k);
    }

    /**
     * `SolveWith(additional)`: solves with the extra constraint and then puts
     * the clause list and the unit cache back as they were.
     */
    method SolveWith(additional: Constraint) returns (r: Option<seq<bool>>)
      requires Valid()
      modifies this
      ensures Valid() && numVars == old(numVars)
      ensures clauses == old(clauses) && unitClauses == old(unitClauses)
      ensures r.Some? ==> |r.value| == numVars + 1 && Satisfies(r.value, clauses + ConstraintClauses(additional))
    {
      var oldClausesLen := |clauses|;
      var oldUnitClauses := unitClauses;
      Apply(additional);
      r := Solve();
      if |clauses| > oldClausesLen {
        clauses := clauses[..oldClausesLen];
      }
      unitClauses := oldUnitClauses;
    }
  }

  /** Whatever SolveWith returns also satisfies the clauses it restored. */
  lemma SolutionMeetsBase(a: seq<bool>, base: seq<seq<int>>, extra: seq<seq<int>>)
    requires Satisfies(a, base + extra)
    ensures Satisfies(a, base) && Satisfies(a, extra)
  {
    SatisfiesAppend(a, base, extra);
  }
}
