/**
 * The boundary solver of kaboom.go (`Solver`, `MakeSolver`,
 * `CalculateSafeCells`). Every opened number becomes an exactly-k
 * constraint over its uncached boundary neighbours, every cached cell a unit
 * clause, and each uncached boundary cell is probed twice with SolveWith to
 * learn whether it can be safe and whether it can hold a mine.
 */
module Solvers {
  import opened Common
  import opened Grids
  import opened SatSolving
  import opened LabelMaps

  // ---------------------------------------------------------------------
  // Boundary indices, SAT variables and the cache

  /** Boundary index m is SAT variable m + 1 (`vars[j] = m + 1`). */
  function Shift(ms: seq<int>): (vs: seq<int>)
    ensures |vs| == |ms|
    ensures forall k :: 0 <= k < |ms| ==> vs[k] == ms[k] + 1
  {
    if ms == [] then [] else [ms[0] + 1] + Shift(ms[1..])
  }

  /** Every entry of every list is a boundary index below `n`. */
  predicate IdsIn(mss: seq<seq<int>>, n: int) {
    forall l, k :: 0 <= l < |mss| && 0 <= k < |mss[l]| ==> 0 <= mss[l][k] < n
  }

  predicate IdsBelow(ms: seq<int>, n: int) {
    forall k :: 0 <= k < |ms| ==> 0 <= ms[k] < n
  }

  /** How many of `ms` the cache already holds as mines (`adjustedLabel--`). */
  function CachedTrueAmong(cache: seq<Option<bool>>, ms: seq<int>): (n: nat)
    ensures n <= |ms|
  {
    if ms == [] then 0
    else (if 0 <= ms[0] < |cache| && cache[ms[0]] == Some(true) then 1 else 0) + CachedTrueAmong(cache, ms[1..])
  }

  /** The entries of `ms` the cache leaves open, in order (`uncachedMineList`). */
  function UncachedAmong(cache: seq<Option<bool>>, ms: seq<int>): (r: seq<int>)
    ensures |r| <= |ms|
    ensures forall x :: x in r ==> x in ms && 0 <= x < |cache| && cache[x].None?
  {
    if ms == [] then []
    else (if 0 <= ms[0] < |cache| && cache[ms[0]].None? then [ms[0]] else []) + UncachedAmong(cache, ms[1..])
  }

  /** Indices the cache leaves open, in increasing order (`uncachedMines`). */
  function UncachedIndices(cache: seq<Option<bool>>): (r: seq<int>)
    ensures forall x :: x in r ==> 0 <= x < |cache| && cache[x].None?
    ensures forall x :: 0 <= x < |cache| && cache[x].None? ==> x in r
  {
    if cache == [] then []
    else UncachedIndices(cache[..|cache| - 1]) + (if cache[|cache| - 1].None? then [|cache| - 1] else [])
  }

  /** Number of cached mines (`numCachedTrue`). */
  function CachedTrueCount(cache: seq<Option<bool>>): (n: nat)
    ensures n <= |cache|
  {
    if cache == [] then 0
    else CachedTrueCount(cache[..|cache| - 1]) + (if cache[|cache| - 1] == Some(true) then 1 else 0)
  }

  /** An assignment agrees with every cached decision. */
  predicate Agrees(a: seq<bool>, cache: seq<Option<bool>>) {
    forall j :: 0 <= j < |cache| && cache[j].Some? ==> j + 1 < |a| && a[j + 1] == cache[j].value
  }

  /**
   * Subtracting the cached mines from a label and dropping the cached cells
   * keeps its meaning: under an assignment that agrees with the cache, the
   * mines among `ms` are the cached ones plus those among the uncached rest.
   */
  /** One literal in front adds one to the count exactly when it holds. */
  lemma TrueCountCons(a: seq<bool>, x: int, l: seq<int>)
    ensures TrueCount(a, [x] + l) == (if LitTrue(a, x) then 1 else 0) + TrueCount(a, l)
  {
    assert ([x] + l)[1..] == l;
  }

  lemma ShiftCons(m: int, u: seq<int>)
    ensures Shift([m] + u) == [m + 1] + Shift(u)
  {
    assert ([m] + u)[1..] == u;
  }

  lemma {:induction false} AdjustedCount(a: seq<bool>, cache: seq<Option<bool>>, ms: seq<int>)
    requires Agrees(a, cache)
    requires forall k :: 0 <= k < |ms| ==> 0 <= ms[k] < |cache| && ms[k] + 1 < |a|
    ensures TrueCount(a, Shift(ms)) == CachedTrueAmong(cache, ms) + TrueCount(a, Shift(UncachedAmong(cache, ms)))
  {
    if ms != [] {
      var m, rest := ms[0], ms[1..];
      assert forall k :: 0 <= k < |rest| ==> rest[k] == ms[k + 1];
      AdjustedCount(a, cache, rest);
      assert 0 <= m < |cache| && m + 1 < |a|;
      assert cache[m].Some? ==> a[m + 1] == cache[m].value;
      assert [m] + rest == ms;
      AdjustedStep(a, cache, m, rest);
    }
  }

  /** The inductive step of AdjustedCount, for the first cell `m`. */
  lemma AdjustedStep(a: seq<bool>, cache: seq<Option<bool>>, m: int, rest: seq<int>)
    requires 0 <= m < |cache| && m + 1 < |a|
    requires cache[m].Some? ==> a[m + 1] == cache[m].value
    requires TrueCount(a, Shift(rest)) == CachedTrueAmong(cache, rest) + TrueCount(a, Shift(UncachedAmong(cache, rest)))
    ensures TrueCount(a, Shift([m] + rest)) ==
            CachedTrueAmong(cache, [m] + rest) + TrueCount(a, Shift(UncachedAmong(cache, [m] + rest)))
  {
    var ms := [m] + rest;
    assert ms[0] == m && ms[1..] == rest;
    var u := UncachedAmong(cache, rest);
    ShiftCons(m, rest);
    TrueCountCons(a, m + 1, Shift(rest));
    assert LitTrue(a, m + 1) <==> a[m + 1];
    if cache[m].None? {
      assert UncachedAmong(cache, ms) == [m] + u;
      ShiftCons(m, u);
      TrueCountCons(a, m + 1, Shift(u));
    } else {
      assert UncachedAmong(cache, ms) == u;
    }
  }

  // ---------------------------------------------------------------------
  // The clause set Run builds

  /** Run's clauses for one label: exactly `k` of the cells `ms`, nothing when `ms` is empty. */
  function LabelClause(k: int, ms: seq<int>): seq<seq<int>> {
    if |ms| > 0 then AtLeastClauses(Shift(ms), k) + AtMostClauses(Shift(ms), k) else []
  }

  /** The clauses of Run's first loop, label by label. */
  function LabelClauses(ls: seq<int>, mss: seq<seq<int>>): seq<seq<int>>
    requires |ls| == |mss|
  {
    if ls == [] then [] else LabelClauses(ls[..|ls| - 1], mss[..|mss| - 1]) + LabelClause(ls[|ls| - 1], mss[|mss| - 1])
  }

  /** The unit clause Run's second loop asserts for a cached cell. */
  function CacheUnit(i: int, c: Option<bool>): seq<seq<int>> {
    match c
    case None => []
    case Some(v) => [if v then [i + 1] else [-(i + 1)]]
  }

  function CacheClauses(cache: seq<Option<bool>>): seq<seq<int>> {
    if cache == [] then [] else CacheClauses(cache[..|cache| - 1]) + CacheUnit(|cache| - 1, cache[|cache| - 1])
  }

  /** AssertAtLeast and AssertAtMost together hold exactly when `k` of `vars` are true. */
  lemma ExactlyMeaning(a: seq<bool>, vars: seq<int>, k: int)
    requires InRange(a, vars)
    ensures Satisfies(a, AtLeastClauses(vars, k) + AtMostClauses(vars, k)) <==> TrueCount(a, vars) == k
  {
    SatisfiesAppend(a, AtLeastClauses(vars, k), AtMostClauses(vars, k));
    AtLeastMeaning(a, vars, k);
    AtMostMeaning(a, vars, k);
  }

  /** Every label with open cells sees exactly that many mines among them under `a`. */
  ghost predicate LabelsMet(a: seq<bool>, ls: seq<int>, mss: seq<seq<int>>)
    requires |ls| == |mss|
  {
    forall l :: 0 <= l < |ls| && |mss[l]| > 0 ==> TrueCount(a, Shift(mss[l])) == ls[l]
  }

  /** LabelsMet over all labels is LabelsMet over all but the last, and the last. */
  lemma LabelsMetSplit(a: seq<bool>, ls: seq<int>, mss: seq<seq<int>>)
    requires |ls| == |mss| && ls != []
    ensures LabelsMet(a, ls, mss) <==>
            LabelsMet(a, ls[..|ls| - 1], mss[..|ls| - 1]) && (|mss[|ls| - 1]| > 0 ==> TrueCount(a, Shift(mss[|ls| - 1])) == ls[|ls| - 1])
  {
    var n := |ls| - 1;
    assert forall l :: 0 <= l < n ==> mss[..n][l] == mss[l] && ls[..n][l] == ls[l];
  }

  /** The label clauses hold exactly when every label with open cells sees that many mines among them. */
  lemma {:induction false} LabelClausesMeaning(a: seq<bool>, ls: seq<int>, mss: seq<seq<int>>)
    requires |ls| == |mss| && IdsIn(mss, |a| - 1)
    ensures Satisfies(a, LabelClauses(ls, mss)) <==> LabelsMet(a, ls, mss)
  {
    if ls != [] {
      var n := |ls| - 1;
      var front, fronts := ls[..n], mss[..n];
      assert IdsIn(fronts, |a| - 1);
      LabelClausesMeaning(a, front, fronts);
      SatisfiesAppend(a, LabelClauses(front, fronts), LabelClause(ls[n], mss[n]));
      assert IdsBelow(mss[n], |a| - 1);
      LastLabelMeaning(a, ls[n], mss[n]);
      LabelsMetSplit(a, ls, mss);
    }
  }

  /** The clauses of one label hold exactly when it sees that many mines, when it has open cells. */
  lemma LastLabelMeaning(a: seq<bool>, k: int, ms: seq<int>)
    requires IdsBelow(ms, |a| - 1)
    ensures Satisfies(a, LabelClause(k, ms)) <==> (|ms| > 0 ==> TrueCount(a, Shift(ms)) == k)
  {
    if |ms| > 0 {
      ExactlyMeaning(a, Shift(ms), k);
    }
  }

  /** The cache clauses hold exactly when the assignment agrees with the cache. */
  lemma {:induction false} CacheClausesMeaning(a: seq<bool>, cache: seq<Option<bool>>)
    requires |cache| < |a|
    ensures Satisfies(a, CacheClauses(cache)) <==> Agrees(a, cache)
  {
    if cache != [] {
      var n := |cache| - 1;
      var front := cache[..n];
      CacheClausesMeaning(a, front);
      SatisfiesAppend(a, CacheClauses(front), CacheUnit(n, cache[n]));
      if cache[n].Some? {
        var unit := CacheUnit(n, cache[n]);
        assert Satisfies(a, unit) <==> LitTrue(a, unit[0][0]);
      }
      if Agrees(a, front) && (cache[n].Some? ==> a[n + 1] == cache[n].value) {
        assert forall j :: 0 <= j < n ==> front[j] == cache[j];
      }
    }
  }

  /** A model of a clause set that starts with the label and cache clauses meets every label and every cached decision. */
  lemma ModelMeetsConstraints(a: seq<bool>, clauses: seq<seq<int>>, ls: seq<int>, mss: seq<seq<int>>, cache: seq<Option<bool>>)
    requires |ls| == |mss| && |cache| < |a| && IdsIn(mss, |a| - 1)
    requires StartsWith(clauses, LabelClauses(ls, mss) + CacheClauses(cache)) && Satisfies(a, clauses)
    ensures Agrees(a, cache)
    ensures forall l :: 0 <= l < |ls| && |mss[l]| > 0 ==> TrueCount(a, Shift(mss[l])) == ls[l]
  {
    var lc, cc := LabelClauses(ls, mss), CacheClauses(cache);
    assert clauses == lc + cc + clauses[|lc + cc|..];
    SatisfiesAppend(a, lc + cc, clauses[|lc + cc|..]);
    SatisfiesAppend(a, lc, cc);
    LabelClausesMeaning(a, ls, mss);
    CacheClausesMeaning(a, cache);
  }

  /** A model of any clause set that contains the cache clauses agrees with the cache. */
  lemma ForcedByCache(a: seq<bool>, pre: seq<seq<int>>, cache: seq<Option<bool>>, rest: seq<seq<int>>)
    requires |cache| < |a| && Satisfies(a, pre + CacheClauses(cache) + rest)
    ensures Agrees(a, cache)
  {
    SatisfiesAppend(a, pre + CacheClauses(cache), rest);
    SatisfiesAppend(a, pre, CacheClauses(cache));
    CacheClausesMeaning(a, cache);
  }

  // ---------------------------------------------------------------------
  // What the flags mean

  /** Some model of `clauses` gives boundary cell `j` the value `v`. */
  ghost predicate Possible(clauses: seq<seq<int>>, numVars: int, j: int, v: bool) {
    exists a :: |a| == numVars + 1 && Satisfies(a, clauses) && 0 <= j && j + 1 < |a| && a[j + 1] == v
  }

  /**
   * The flags of one boundary cell: a cached cell is never flagged against
   * its cached value (and once settled it carries exactly that value); an
   * uncached one is flagged only when a model witnesses the value.
   */
  ghost predicate FlagOk(clauses: seq<seq<int>>, numVars: int, cached: Option<bool>, safe: bool, danger: bool,
                         j: int, settled: bool) {
    match cached
    case Some(v) => (safe ==> !v) && (danger ==> v) && (settled ==> safe == !v && danger == v)
    case None => (safe ==> Possible(clauses, numVars, j, false)) && (danger ==> Possible(clauses, numVars, j, true))
  }

  /** Every flag is sound; the cells below `n` have been settled. */
  ghost predicate FlagsSound(clauses: seq<seq<int>>, numVars: int, cache0: seq<Option<bool>>,
                             safe: seq<bool>, danger: seq<bool>, n: int) {
    |safe| == |cache0| && |danger| == |cache0| &&
    forall j :: 0 <= j < |cache0| ==> FlagOk(clauses, numVars, cache0[j], safe[j], danger[j], j, j < n)
  }

  /** `update(solution)`: the solution's value of each cell marks that value possible. */
  function Marked(flags: seq<bool>, sol: seq<bool>, v: bool): (r: seq<bool>)
    ensures |r| == |flags|
  {
    seq(|flags|, j requires 0 <= j < |flags| => flags[j] || (j + 1 < |sol| && sol[j + 1] == v))
  }

  /** Marking the values of a model that agrees with the cache keeps every flag sound. */
  lemma UpdateKeepsSound(clauses: seq<seq<int>>, numVars: int, cache0: seq<Option<bool>>,
                         safe: seq<bool>, danger: seq<bool>, sol: seq<bool>, n: int)
    requires FlagsSound(clauses, numVars, cache0, safe, danger, n)
    requires |sol| == numVars + 1 && Satisfies(sol, clauses) && Agrees(sol, cache0)
    ensures FlagsSound(clauses, numVars, cache0, Marked(safe, sol, false), Marked(danger, sol, true), n)
  {
    var safe', danger' := Marked(safe, sol, false), Marked(danger, sol, true);
    forall j | 0 <= j < |cache0|
      ensures FlagOk(clauses, numVars, cache0[j], safe'[j], danger'[j], j, j < n)
    {
      assert FlagOk(clauses, numVars, cache0[j], safe[j], danger[j], j, j < n);
      if cache0[j].None? && j + 1 < |sol| {
        assert Satisfies(sol, clauses) && 0 <= j && j + 1 < |sol| && sol[j + 1] == sol[j + 1];
      }
    }
  }

  /** A settled uncached cell needs nothing more than soundness. */
  lemma SettleUncached(clauses: seq<seq<int>>, numVars: int, cache0: seq<Option<bool>>,
                       safe: seq<bool>, danger: seq<bool>, i: int)
    requires FlagsSound(clauses, numVars, cache0, safe, danger, i)
    requires 0 <= i < |cache0| && cache0[i].None?
    ensures FlagsSound(clauses, numVars, cache0, safe, danger, i + 1)
  {
    forall j | 0 <= j < |cache0|
      ensures FlagOk(clauses, numVars, cache0[j], safe[j], danger[j], j, j < i + 1)
    {
      assert FlagOk(clauses, numVars, cache0[j], safe[j], danger[j], j, j < i);
    }
  }

  /** A cache entry either keeps its value or, once settled, holds a value its flag supports. */
  predicate CacheOk(cached: Option<bool>, now: Option<bool>, safe: bool, danger: bool, settled: bool) {
    now == cached || (settled && cached.None? && now.Some? && (now.value ==> danger) && (!now.value ==> safe))
  }

  predicate CacheSound(cache0: seq<Option<bool>>, cache: seq<Option<bool>>, safe: seq<bool>, danger: seq<bool>, n: int) {
    |cache| == |cache0| && |safe| == |cache0| && |danger| == |cache0| &&
    forall j :: 0 <= j < |cache0| ==> CacheOk(cache0[j], cache[j], safe[j], danger[j], j < n)
  }

  /**
   * Raising flags keeps every cache decision supported; the flags of cell `e`
   * may change arbitrarily while its cache entry is untouched.
   */
  lemma CacheSoundGrows(cache0: seq<Option<bool>>, cache: seq<Option<bool>>, safe: seq<bool>, danger: seq<bool>,
                        safe': seq<bool>, danger': seq<bool>, n: int, e: int)
    requires CacheSound(cache0, cache, safe, danger, n) && |safe'| == |safe| && |danger'| == |danger|
    requires forall j :: 0 <= j < |safe| && j != e ==> (safe[j] ==> safe'[j]) && (danger[j] ==> danger'[j])
    requires 0 <= e < |cache| ==> cache[e] == cache0[e]
    ensures CacheSound(cache0, cache, safe', danger', n)
  {
    forall j | 0 <= j < |cache0|
      ensures CacheOk(cache0[j], cache[j], safe'[j], danger'[j], j < n)
    {
      assert CacheOk(cache0[j], cache[j], safe[j], danger[j], j < n);
    }
  }

  /** A cached cell is settled to its cached value. */
  lemma SettleCached(clauses: seq<seq<int>>, numVars: int, cache0: seq<Option<bool>>,
                     safe: seq<bool>, danger: seq<bool>, i: int, v: bool)
    requires FlagsSound(clauses, numVars, cache0, safe, danger, i)
    requires 0 <= i < |cache0| && cache0[i] == Some(v)
    ensures FlagsSound(clauses, numVars, cache0, safe[i := !v], danger[i := v], i + 1)
  {
    forall j | 0 <= j < |cache0|
      ensures FlagOk(clauses, numVars, cache0[j], safe[i := !v][j], danger[i := v][j], j, j < i + 1)
    {
      assert FlagOk(clauses, numVars, cache0[j], safe[j], danger[j], j, j < i);
    }
  }

  /** Lowering the flags of an uncached cell keeps them sound. */
  lemma ClearKeepsSound(clauses: seq<seq<int>>, numVars: int, cache0: seq<Option<bool>>,
                        safe: seq<bool>, danger: seq<bool>, i: int, n: int)
    requires FlagsSound(clauses, numVars, cache0, safe, danger, n)
    requires 0 <= i < |cache0| && cache0[i].None?
    ensures FlagsSound(clauses, numVars, cache0, safe[i := false], danger, n)
    ensures FlagsSound(clauses, numVars, cache0, safe, danger[i := false], n)
  {
    forall j | 0 <= j < |cache0|
      ensures FlagOk(clauses, numVars, cache0[j], safe[i := false][j], danger[j], j, j < n)
      ensures FlagOk(clauses, numVars, cache0[j], safe[j], danger[i := false][j], j, j < n)
    {
      assert FlagOk(clauses, numVars, cache0[j], safe[j], danger[j], j, j < n);
    }
  }

  /** Raising the flag that `update` raises anyway changes nothing. */
  lemma MarkedAbsorbs(flags: seq<bool>, sol: seq<bool>, i: int, v: bool)
    requires 0 <= i < |flags| && i + 1 < |sol| && sol[i + 1] == v
    ensures Marked(flags[i := true], sol, v) == Marked(flags, sol, v)
  {
  }

  /** Before the first probe no flag is raised, which is trivially sound. */
  lemma UnflaggedSound(clauses: seq<seq<int>>, numVars: int, cache0: seq<Option<bool>>, safe: seq<bool>, danger: seq<bool>)
    requires |safe| == |cache0| && |danger| == |cache0| && Unflagged(safe) && Unflagged(danger)
    ensures FlagsSound(clauses, numVars, cache0, safe, danger, 0)
  {
    forall j | 0 <= j < |cache0|
      ensures FlagOk(clauses, numVars, cache0[j], safe[j], danger[j], j, j < 0)
    {
      assert !safe[j] && !danger[j];
    }
  }

  predicate Unflagged(flags: seq<bool>) {
    forall j :: 0 <= j < |flags| ==> !flags[j]
  }

  lemma StartsWithAppend(c: seq<seq<int>>, p: seq<seq<int>>, x: seq<seq<int>>)
    requires StartsWith(c, p)
    ensures StartsWith(c + x, p)
  {
    assert (c + x)[..|p|] == c[..|p|];
  }

  /** `c` begins with `p`. */
  predicate StartsWith(c: seq<seq<int>>, p: seq<seq<int>>) {
    |p| <= |c| && c[..|p|] == p
  }

  // ---------------------------------------------------------------------
  // Loops over values

  /** The `vars[j] = m + 1` loops of Run. */
  method ShiftVars(ms: seq<int>) returns (vs: seq<int>)
    ensures vs == Shift(ms)
  {
    vs := [];
    var j := 0;
    while j < |ms|
      invariant 0 <= j <= |ms| && |vs| == j
      invariant forall k :: 0 <= k < j ==> vs[k] == ms[k] + 1
    {
      vs := vs + [ms[j] + 1];
      j := j + 1;
    }
  }

  /** The loop of AddLabel: the adjusted label and the uncached cells of `mineList`. */
  method AdjustLabel(cache: seq<Option<bool>>, count: int, mineList: seq<int>) returns (adjusted: int, uncached: seq<int>)
    ensures adjusted == count - CachedTrueAmong(cache, mineList)
    ensures uncached == UncachedAmong(cache, mineList)
  {
    adjusted, uncached := count, [];
    var k := 0;
    while k < |mineList|
      invariant 0 <= k <= |mineList|
      invariant adjusted == count - CachedTrueAmong(cache, mineList[..k])
      invariant uncached == UncachedAmong(cache, mineList[..k])
    {
      var m := mineList[k];
      AmongStep(cache, mineList, k);
      if 0 <= m < |cache| && cache[m].None? {
        uncached := uncached + [m];
      } else if 0 <= m < |cache| && cache[m] == Some(true) {
        adjusted := adjusted - 1;
      }
      k := k + 1;
    }
    assert mineList[..k] == mineList;
  }

  /** CachedTrueAmong over a concatenation. */
  lemma {:induction false} CachedTrueAppend(cache: seq<Option<bool>>, a: seq<int>, b: seq<int>)
    ensures CachedTrueAmong(cache, a + b) == CachedTrueAmong(cache, a) + CachedTrueAmong(cache, b)
  {
    if a == [] {
      assert a + b == b;
    } else {
      var ab := a + b;
      assert ab[0] == a[0] && ab[1..] == a[1..] + b;
      CachedTrueAppend(cache, a[1..], b);
    }
  }

  /** UncachedAmong over a concatenation. */
  lemma {:induction false} UncachedAppend(cache: seq<Option<bool>>, a: seq<int>, b: seq<int>)
    ensures UncachedAmong(cache, a + b) == UncachedAmong(cache, a) + UncachedAmong(cache, b)
  {
    if a == [] {
      assert a + b == b;
    } else {
      var ab := a + b;
      assert ab[0] == a[0] && ab[1..] == a[1..] + b;
      UncachedAppend(cache, a[1..], b);
      var head := if 0 <= a[0] < |cache| && cache[a[0]].None? then [a[0]] else [];
      SeqAssoc(head, UncachedAmong(cache, a[1..]), UncachedAmong(cache, b));
    }
  }

  /** One more entry of `ms` seen by AdjustLabel's loop. */
  lemma {:induction false} AmongStep(cache: seq<Option<bool>>, ms: seq<int>, k: int)
    requires 0 <= k < |ms|
    ensures CachedTrueAmong(cache, ms[..k + 1]) == CachedTrueAmong(cache, ms[..k]) + (if 0 <= ms[k] < |cache| && cache[ms[k]] == Some(true) then 1 else 0)
    ensures UncachedAmong(cache, ms[..k + 1]) == UncachedAmong(cache, ms[..k]) + (if 0 <= ms[k] < |cache| && cache[ms[k]].None? then [ms[k]] else [])
  {
    var last := [ms[k]];
    assert ms[..k + 1] == ms[..k] + last;
    assert last[1..] == [];
    CachedTrueAppend(cache, ms[..k], last);
    UncachedAppend(cache, ms[..k], last);
  }

  /** `update(solution)`: marks, for every boundary cell the solution covers, the value it takes. */
  method UpdateFlags(safe: seq<bool>, danger: seq<bool>, sol: seq<bool>) returns (safe': seq<bool>, danger': seq<bool>)
    requires |safe| == |danger|
    ensures safe' == Marked(safe, sol, false) && danger' == Marked(danger, sol, true)
  {
    safe', danger' := safe, danger;
    var i := 0;
    while i < |safe|
      invariant 0 <= i <= |safe| && |safe'| == |safe| && |danger'| == |safe|
      invariant forall j :: 0 <= j < i ==> safe'[j] == Marked(safe, sol, false)[j] && danger'[j] == Marked(danger, sol, true)[j]
      invariant forall j :: i <= j < |safe| ==> safe'[j] == safe[j] && danger'[j] == danger[j]
    {
      if i + 1 < |sol| {
        if sol[i + 1] {
          danger' := danger'[i := true];
        } else {
          safe' := safe'[i := true];
        }
      }
      i := i + 1;
    }
  }

  /** One more cache entry read by ReadCache. */
  lemma CacheReadStep(cache: seq<Option<bool>>, x: Option<bool>)
    ensures UncachedIndices(cache + [x]) == UncachedIndices(cache) + (if x.None? then [|cache|] else [])
    ensures CachedTrueCount(cache + [x]) == CachedTrueCount(cache) + (if x == Some(true) then 1 else 0)
  {
    var c := cache + [x];
    assert c[..|c| - 1] == cache && c[|c| - 1] == x;
  }

  /** The loop of NewSolver: reads the map's cache for boundary cells 0..n-1. */
  method ReadCache(lm: LabelMap, n: nat) returns (cache: seq<Option<bool>>, uncached: seq<int>, numCachedTrue: nat)
    requires lm.Valid()
    ensures |cache| == n && forall i :: 0 <= i < n ==> cache[i] == lm.GetCache(i)
    ensures uncached == UncachedIndices(cache) && numCachedTrue == CachedTrueCount(cache)
  {
    cache, uncached, numCachedTrue := [], [], 0;
    var i := 0;
    while i < n
      invariant 0 <= i <= n && |cache| == i && forall j :: 0 <= j < i ==> cache[j] == lm.GetCache(j)
      invariant uncached == UncachedIndices(cache) && numCachedTrue == CachedTrueCount(cache)
    {
      var cached := lm.GetCache(i);
      CacheReadStep(cache, cached);
      cache := cache + [cached];
      if cached.None? {
        uncached := uncached + [i];
      } else if cached.value {
        numCachedTrue := numCachedTrue + 1;
      }
      i := i + 1;
    }
  }

  /** The clauses of the first `i` labels and then label `i`. */
  lemma LabelClausesStep(ls: seq<int>, mss: seq<seq<int>>, i: int)
    requires |ls| == |mss| && 0 <= i < |ls|
    ensures LabelClauses(ls[..i + 1], mss[..i + 1]) == LabelClauses(ls[..i], mss[..i]) + LabelClause(ls[i], mss[i])
  {
    assert ls[..i + 1][..i] == ls[..i] && mss[..i + 1][..i] == mss[..i];
  }

  lemma SeqAssoc<T>(a: seq<T>, b: seq<T>, c: seq<T>)
    ensures (a + b) + c == a + (b + c)
  {
  }

  /** One pass of Run's first loop: exactly `k` of the shifted cells, when there are any. */
  method AssertLabel(sat: Sat, k: int, ms: seq<int>)
    requires sat.Valid()
    modifies sat
    ensures sat.Valid() && sat.numVars == old(sat.numVars)
    ensures sat.clauses == old(sat.clauses) + LabelClause(k, ms)
  {
    var vars := ShiftVars(ms);
    if |vars| > 0 {
      ghost var c0 := sat.clauses;
      sat.AssertAtLeast(vars, k);
      ghost var c1 := sat.clauses;
      sat.AssertAtMost(vars, k);
      assert LabelClause(k, ms) == AtLeastClauses(vars, k) + AtMostClauses(vars, k);
      SeqAssoc(c0, AtLeastClauses(vars, k), AtMostClauses(vars, k));
    } else {
      assert sat.clauses == old(sat.clauses) + [];
    }
  }

  /** Run's first loop: exactly-`labels[i]` over the shifted cells of every non-empty list. */
  method AssertLabels(sat: Sat, labels: seq<int>, labelToMine: seq<seq<int>>)
    requires sat.Valid() && |labels| == |labelToMine|
    modifies sat
    ensures sat.Valid() && sat.numVars == old(sat.numVars)
    ensures sat.clauses == old(sat.clauses) + LabelClauses(labels, labelToMine)
  {
    var i := 0;
    while i < |labels|
      invariant 0 <= i <= |labels| && sat.Valid() && sat.numVars == old(sat.numVars)
      invariant sat.clauses == old(sat.clauses) + LabelClauses(labels[..i], labelToMine[..i])
    {
      LabelClausesStep(labels, labelToMine, i);
      AssertLabel(sat, labels[i], labelToMine[i]);
      SeqAssoc(old(sat.clauses), LabelClauses(labels[..i], labelToMine[..i]), LabelClause(labels[i], labelToMine[i]));
      i := i + 1;
    }
    assert labels[..i] == labels && labelToMine[..i] == labelToMine;
  }

  /** Run's second loop: a unit clause for every cached cell. */
  method AssertCache(sat: Sat, cache: seq<Option<bool>>)
    requires sat.Valid()
    modifies sat
    ensures sat.Valid() && sat.numVars == old(sat.numVars)
    ensures sat.clauses == old(sat.clauses) + CacheClauses(cache)
  {
    var i := 0;
    while i < |cache|
      invariant 0 <= i <= |cache| && sat.Valid() && sat.numVars == old(sat.numVars)
      invariant sat.clauses == old(sat.clauses) + CacheClauses(cache[..i])
    {
      assert cache[..i + 1][..i] == cache[..i];
      if cache[i].Some? {
        if cache[i].value {
          sat.Assert([i + 1]);
        } else {
          sat.Assert([-(i + 1)]);
        }
      }
      assert sat.clauses == old(sat.clauses) + CacheClauses(cache[..i]) + CacheUnit(i, cache[i]);
      i := i + 1;
    }
    assert cache[..i] == cache;
  }

  /** Boundary cell `id` was decided while probing: it had no cached value before and has one now. */
  predicate Decided(cache0: seq<Option<bool>>, cache: seq<Option<bool>>, id: int) {
    |cache0| == |cache| && 0 <= id < |cache| && cache0[id].None? && cache[id].Some?
  }

  /** The map's cache holds the probe decisions at their boundary cells and is otherwise as before. */
  predicate WrittenBack(before: seq<seq<Option<bool>>>, after: seq<seq<Option<bool>>>, grid: seq<seq<int>>, h: int, w: int,
                        cache0: seq<Option<bool>>, cache: seq<Option<bool>>)
    requires IsGrid(before, h, w) && IsGrid(after, h, w) && IsGrid(grid, h, w)
  {
    forall r, c :: 0 <= r < h && 0 <= c < w ==>
      after[r][c] == if Decided(cache0, cache, grid[r][c]) then cache[grid[r][c]] else before[r][c]
  }

  /** Distinct boundary indices name distinct cells. */
  lemma IndexedInjective(boundary: seq<Pos>, grid: seq<seq<int>>, h: int, w: int, i: int, p: Pos)
    requires Indexed(boundary, grid, h, w) && 0 <= i < |boundary| && InGrid(p, h, w) && grid[p.row][p.col] == i
    ensures boundary[i] == p
  {
  }

  /** Deciding cell `i` and writing it back with SetCache keeps the map in step with the probe cache. */
  lemma WriteBackStep(before: seq<seq<Option<bool>>>, after: seq<seq<Option<bool>>>, boundary: seq<Pos>,
                      grid: seq<seq<int>>, h: int, w: int, cache0: seq<Option<bool>>, cache: seq<Option<bool>>, i: int, v: bool)
    requires IsGrid(before, h, w) && IsGrid(after, h, w) && Indexed(boundary, grid, h, w)
    requires WrittenBack(before, after, grid, h, w, cache0, cache)
    requires |cache0| == |cache| && 0 <= i < |cache| && cache0[i].None? && cache[i].None?
    ensures var after' := if i < |boundary| then Set(after, boundary[i], Some(v)) else after;
            IsGrid(after', h, w) && WrittenBack(before, after', grid, h, w, cache0, cache[i := Some(v)])
  {
    var after' := if i < |boundary| then Set(after, boundary[i], Some(v)) else after;
    var cache' := cache[i := Some(v)];
    forall r, c | 0 <= r < h && 0 <= c < w
      ensures after'[r][c] == if Decided(cache0, cache', grid[r][c]) then cache'[grid[r][c]] else before[r][c]
    {
      var id := grid[r][c];
      if id == i {
        IndexedInjective(boundary, grid, h, w, i, Pos(r, c));
      } else if i < |boundary| {
        assert boundary[i] != Pos(r, c);
      }
    }
  }

  /** A cache entry that keeps its value may be settled. */
  lemma CacheSoundNext(cache0: seq<Option<bool>>, cache: seq<Option<bool>>, safe: seq<bool>, danger: seq<bool>, n: int)
    requires CacheSound(cache0, cache, safe, danger, n) && 0 <= n < |cache0| && cache[n] == cache0[n]
    ensures CacheSound(cache0, cache, safe, danger, n + 1)
  {
    forall j | 0 <= j < |cache0|
      ensures CacheOk(cache0[j], cache[j], safe[j], danger[j], j < n + 1)
    {
      assert CacheOk(cache0[j], cache[j], safe[j], danger[j], j < n);
    }
  }

  /** Caching the value the flags of an uncached cell support settles it. */
  lemma CacheSoundDecide(cache0: seq<Option<bool>>, cache: seq<Option<bool>>, safe: seq<bool>, danger: seq<bool>,
                         n: int, v: bool)
    requires CacheSound(cache0, cache, safe, danger, n) && 0 <= n < |cache0| && cache[n] == cache0[n] == None
    requires (v ==> danger[n]) && (!v ==> safe[n])
    ensures CacheSound(cache0, cache[n := Some(v)], safe, danger, n + 1)
  {
    forall j | 0 <= j < |cache0|
      ensures CacheOk(cache0[j], cache[n := Some(v)][j], safe[j], danger[j], j < n + 1)
    {
      assert CacheOk(cache0[j], cache[j], safe[j], danger[j], j < n);
    }
  }

  /** A model of `base` plus the one-literal probe clause gives the probed cell the probed value. */
  lemma ProbeModel(a: seq<bool>, base: seq<seq<int>>, i: int, v: bool)
    requires 0 <= i && Satisfies(a, base + ConstraintClauses(UnitLiteral(if v then i + 1 else -(i + 1))))
    ensures Satisfies(a, base) && i + 1 < |a| && a[i + 1] == v
  {
    var lit := if v then i + 1 else -(i + 1);
    SolutionMeetsBase(a, base, [[lit]]);
    assert ClauseTrue(a, [[lit]][0]);
    var k :| 0 <= k < |[lit]| && LitTrue(a, [lit][k]);
    assert k == 0;
  }

  class Solver {
    const lm: LabelMap
    const sat: Sat
    var numMines: int
    var minMines: int
    var maxMines: int
    var labels: seq<int>
    var labelToMine: seq<seq<int>>
    var cache: seq<Option<bool>>
    var canBeSafe: seq<bool>
    var canBeDangerous: seq<bool>
    var uncachedMines: seq<int>
    var numCachedTrue: int
    var counter: seq<int>

    ghost predicate Valid()
      reads this, sat
    {
      sat.Valid() && 0 <= numMines <= sat.numVars &&
      |cache| == numMines && |canBeSafe| == numMines && |canBeDangerous| == numMines &&
      |labels| == |labelToMine| && IdsIn(labelToMine, numMines)
    }

    /** `NewSolver(lm, numMines, minMines, maxMines)`: one SAT variable per boundary cell, the map's cache copied. */
    constructor (lm: LabelMap, numMines: nat, minMines: int, maxMines: int)
      requires lm.Valid()
      ensures Valid() && this.lm == lm && fresh(sat) && sat.numVars == numMines && sat.clauses == []
      ensures this.numMines == numMines && this.minMines == minMines && this.maxMines == maxMines
      ensures labels == [] && labelToMine == [] && counter == []
      ensures forall i :: 0 <= i < numMines ==> cache[i] == lm.GetCache(i)
      ensures uncachedMines == UncachedIndices(cache) && numCachedTrue == CachedTrueCount(cache)
      ensures Unflagged(canBeSafe) && Unflagged(canBeDangerous)
    {
      var c, u, t := ReadCache(lm, numMines);
      this.lm := lm;
      this.numMines := numMines;
      this.minMines := minMines;
      this.maxMines := maxMines;
      labels := [];
      labelToMine := [];
      cache := c;
      sat := new Sat(numMines);
      canBeSafe := seq(numMines, _ => false);
      canBeDangerous := seq(numMines, _ => false);
      uncachedMines := u;
      numCachedTrue := t;
      counter := [];
    }

    /** `AddLabel(label, mineList)`: the label (`count`) less the cached mines among its cells, over its uncached cells. */
    method AddLabel(count: int, mineList: seq<int>)
      requires Valid() && IdsBelow(mineList, numMines)
      modifies this`labels, this`labelToMine
      ensures Valid()
      ensures labels == old(labels) + [count - CachedTrueAmong(cache, mineList)]
      ensures labelToMine == old(labelToMine) + [UncachedAmong(cache, mineList)]
    {
      var adjusted, uncached := AdjustLabel(cache, count, mineList);
      assert forall k :: 0 <= k < |uncached| ==> uncached[k] in uncached;
      labels := labels + [adjusted];
      labelToMine := labelToMine + [uncached];
    }

    /**
     * `Run()`: asserts the labels, the cache and the counter bounds, then
     * probes every uncached boundary cell for a model where it is safe and
     * one where it is a mine, caching the cells only one value is found for.
     * Every flag raised is witnessed by a model of the clauses, which start
     * with the label and cache constraints.
     */
    method Run()
      requires Valid() && lm.Valid() && Unflagged(canBeSafe) && Unflagged(canBeDangerous)
      modifies this, sat, lm
      ensures Valid() && lm.Valid() && numMines == old(numMines) && minMines == old(minMines) && maxMines == old(maxMines)
      ensures labels == old(labels) && labelToMine == old(labelToMine)
      ensures StartsWith(sat.clauses, old(sat.clauses) + LabelClauses(labels, labelToMine) + CacheClauses(old(cache)))
      ensures FlagsSound(sat.clauses, sat.numVars, old(cache), canBeSafe, canBeDangerous, numMines)
      ensures CacheSound(old(cache), cache, canBeSafe, canBeDangerous, numMines)
      ensures lm.width == old(lm.width) && lm.height == old(lm.height) && lm.labels == old(lm.labels)
      ensures lm.boundary == old(lm.boundary) && lm.boundaryGrid == old(lm.boundaryGrid) && lm.numOutside == old(lm.numOutside)
      ensures WrittenBack(old(lm.cache), lm.cache, lm.boundaryGrid, lm.height, lm.width, old(cache), cache)
    {
      ghost var pre := old(sat.clauses) + LabelClauses(labels, labelToMine);
      ghost var rest := AddConstraints();
      UnflaggedSound(sat.clauses, sat.numVars, cache, canBeSafe, canBeDangerous);
      ProbeAll(pre, rest);
      StartsWithAppend(pre + CacheClauses(old(cache)), pre + CacheClauses(old(cache)), rest);
    }

    /** The clauses Run asserts before probing: the numbers, the cache, then the counter. */
    method AddConstraints() returns (ghost rest: seq<seq<int>>)
      requires Valid()
      modifies this`counter, sat
      ensures Valid() && sat.clauses == old(sat.clauses) + LabelClauses(labels, labelToMine) + CacheClauses(cache) + rest
    {
      AssertLabels(sat, labels, labelToMine);
      AssertCache(sat, cache);
      ghost var prefix := sat.clauses;
      AssertCounter();
      rest := sat.clauses[|prefix|..];
      assert sat.clauses == prefix + rest;
    }

    /** The counter part of Run: a counter over the uncached cells and the bounds on how many of them are mines. */
    method AssertCounter()
      requires Valid()
      modifies this`counter, sat
      ensures Valid() && StartsWith(sat.clauses, old(sat.clauses))
    {
      if |uncachedMines| > 0 {
        var vars := ShiftVars(uncachedMines);
        counter := sat.AddCounter(vars);
        var minRemaining := minMines - numCachedTrue;
        if minRemaining > 0 {
          ghost var c := sat.clauses;
          sat.AssertCounterAtLeast(counter, minRemaining);
          StartsWithAppend(c, old(sat.clauses), CounterAtLeastClauses(counter, minRemaining));
        }
        var maxRemaining := maxMines - numCachedTrue;
        if maxRemaining >= 0 && maxRemaining < |counter| {
          ghost var c := sat.clauses;
          sat.AssertCounterAtMost(counter, maxRemaining);
          StartsWithAppend(c, old(sat.clauses), CounterAtMostClauses(counter, maxRemaining));
        }
      }
    }

    /** Run's last loop, over every boundary cell. */
    method ProbeAll(ghost pre: seq<seq<int>>, ghost rest: seq<seq<int>>)
      requires Valid() && lm.Valid() && sat.clauses == pre + CacheClauses(cache) + rest
      requires FlagsSound(sat.clauses, sat.numVars, cache, canBeSafe, canBeDangerous, 0)
      modifies this`canBeSafe, this`canBeDangerous, this`cache, sat, lm
      ensures Valid() && lm.Valid() && sat.clauses == old(sat.clauses) && sat.numVars == old(sat.numVars)
      ensures FlagsSound(sat.clauses, sat.numVars, old(cache), canBeSafe, canBeDangerous, numMines)
      ensures CacheSound(old(cache), cache, canBeSafe, canBeDangerous, numMines)
      ensures lm.width == old(lm.width) && lm.height == old(lm.height) && lm.labels == old(lm.labels)
      ensures lm.boundary == old(lm.boundary) && lm.boundaryGrid == old(lm.boundaryGrid) && lm.numOutside == old(lm.numOutside)
      ensures WrittenBack(old(lm.cache), lm.cache, lm.boundaryGrid, lm.height, lm.width, old(cache), cache)
    {
      ghost var cache0, lmCache0 := cache, lm.cache;
      assert CacheSound(cache0, cache, canBeSafe, canBeDangerous, 0);
      var i := 0;
      while i < numMines
        invariant 0 <= i <= numMines && Valid() && lm.Valid()
        invariant sat.clauses == pre + CacheClauses(cache0) + rest && sat.numVars == old(sat.numVars)
        invariant FlagsSound(sat.clauses, sat.numVars, cache0, canBeSafe, canBeDangerous, i)
        invariant CacheSound(cache0, cache, canBeSafe, canBeDangerous, i)
        invariant lm.width == old(lm.width) && lm.height == old(lm.height) && lm.labels == old(lm.labels)
        invariant lm.boundary == old(lm.boundary) && lm.boundaryGrid == old(lm.boundaryGrid) && lm.numOutside == old(lm.numOutside)
        invariant WrittenBack(lmCache0, lm.cache, lm.boundaryGrid, lm.height, lm.width, cache0, cache)
      {
        Probe(i, cache0, pre, rest, lmCache0);
        i := i + 1;
      }
    }

    /** One pass of Run's last loop: boundary cell `i`. */
    method Probe(i: int, ghost cache0: seq<Option<bool>>, ghost pre: seq<seq<int>>, ghost rest: seq<seq<int>>,
                 ghost lmCache0: seq<seq<Option<bool>>>)
      requires Valid() && lm.Valid() && 0 <= i < numMines && |cache0| == numMines
      requires sat.clauses == pre + CacheClauses(cache0) + rest
      requires FlagsSound(sat.clauses, sat.numVars, cache0, canBeSafe, canBeDangerous, i)
      requires CacheSound(cache0, cache, canBeSafe, canBeDangerous, i)
      requires IsGrid(lmCache0, lm.height, lm.width)
      requires WrittenBack(lmCache0, lm.cache, lm.boundaryGrid, lm.height, lm.width, cache0, cache)
      modifies this`canBeSafe, this`canBeDangerous, this`cache, sat, lm
      ensures Valid() && lm.Valid() && sat.clauses == old(sat.clauses) && sat.numVars == old(sat.numVars)
      ensures FlagsSound(sat.clauses, sat.numVars, cache0, canBeSafe, canBeDangerous, i + 1)
      ensures CacheSound(cache0, cache, canBeSafe, canBeDangerous, i + 1)
      ensures lm.width == old(lm.width) && lm.height == old(lm.height) && lm.labels == old(lm.labels)
      ensures lm.boundary == old(lm.boundary) && lm.boundaryGrid == old(lm.boundaryGrid) && lm.numOutside == old(lm.numOutside)
      ensures WrittenBack(lmCache0, lm.cache, lm.boundaryGrid, lm.height, lm.width, cache0, cache)
    {
      assert CacheOk(cache0[i], cache[i], canBeSafe[i], canBeDangerous[i], false);
      if cache[i].Some? {
        var v := cache[i].value;
        SettleCached(sat.clauses, sat.numVars, cache0, canBeSafe, canBeDangerous, i, v);
        CacheSoundGrows(cache0, cache, canBeSafe, canBeDangerous, canBeSafe[i := !v], canBeDangerous[i := v], i, i);
        canBeSafe := canBeSafe[i := !v];
        canBeDangerous := canBeDangerous[i := v];
        CacheSoundNext(cache0, cache, canBeSafe, canBeDangerous, i);
        return;
      }
      var _ := ProbeValue(i, false, cache0, pre, rest);
      var _ := ProbeValue(i, true, cache0, pre, rest);
      SettleUncached(sat.clauses, sat.numVars, cache0, canBeSafe, canBeDangerous, i);
      Decide(i, cache0, lmCache0);
    }

    /**
     * One SolveWith probe of Run: is there a model where cell `i` has value
     * `v`? The flag for that value records the answer; a model found also
     * marks, through `update`, the value it gives every other cell.
     */
    method ProbeValue(i: int, v: bool, ghost cache0: seq<Option<bool>>, ghost pre: seq<seq<int>>, ghost rest: seq<seq<int>>)
      returns (found: bool)
      requires Valid() && 0 <= i < numMines && |cache0| == numMines && cache0[i].None?
      requires sat.clauses == pre + CacheClauses(cache0) + rest
      requires FlagsSound(sat.clauses, sat.numVars, cache0, canBeSafe, canBeDangerous, i)
      requires CacheSound(cache0, cache, canBeSafe, canBeDangerous, i) && cache[i] == cache0[i]
      modifies this`canBeSafe, this`canBeDangerous, sat
      ensures Valid() && sat.clauses == old(sat.clauses) && sat.numVars == old(sat.numVars)
      ensures FlagsSound(sat.clauses, sat.numVars, cache0, canBeSafe, canBeDangerous, i)
      ensures CacheSound(cache0, cache, canBeSafe, canBeDangerous, i)
      ensures found == if v then canBeDangerous[i] else canBeSafe[i]
    {
      ghost var clauses := sat.clauses;
      var solution := sat.SolveWith(UnitLiteral(if v then i + 1 else -(i + 1)));
      found := solution.Some?;
      var safe, danger := canBeSafe, canBeDangerous;
      if found {
        ProbeModel(solution.value, clauses, i, v);
        ForcedByCache(solution.value, pre, cache0, rest);
        if v {
          MarkedAbsorbs(danger, solution.value, i, true);
          danger := danger[i := true];
        } else {
          MarkedAbsorbs(safe, solution.value, i, false);
          safe := safe[i := true];
        }
        UpdateKeepsSound(clauses, sat.numVars, cache0, canBeSafe, canBeDangerous, solution.value, i);
        safe, danger := UpdateFlags(safe, danger, solution.value);
      } else {
        ClearKeepsSound(clauses, sat.numVars, cache0, canBeSafe, canBeDangerous, i, i);
        if v {
          danger := danger[i := false];
        } else {
          safe := safe[i := false];
        }
      }
      CacheSoundGrows(cache0, cache, canBeSafe, canBeDangerous, safe, danger, i, i);
      canBeSafe, canBeDangerous := safe, danger;
    }

    /** The end of Run's loop body: a cell only one value was found for is cached, here and in the map. */
    method Decide(i: int, ghost cache0: seq<Option<bool>>, ghost lmCache0: seq<seq<Option<bool>>>)
      requires Valid() && lm.Valid() && 0 <= i < numMines && |cache0| == numMines && cache0[i].None? && cache[i] == cache0[i]
      requires CacheSound(cache0, cache, canBeSafe, canBeDangerous, i)
      requires IsGrid(lmCache0, lm.height, lm.width)
      requires WrittenBack(lmCache0, lm.cache, lm.boundaryGrid, lm.height, lm.width, cache0, cache)
      modifies this`cache, lm
      ensures Valid() && lm.Valid()
      ensures CacheSound(cache0, cache, canBeSafe, canBeDangerous, i + 1)
      ensures lm.width == old(lm.width) && lm.height == old(lm.height) && lm.labels == old(lm.labels)
      ensures lm.boundary == old(lm.boundary) && lm.boundaryGrid == old(lm.boundaryGrid) && lm.numOutside == old(lm.numOutside)
      ensures WrittenBack(lmCache0, lm.cache, lm.boundaryGrid, lm.height, lm.width, cache0, cache)
    {
      if canBeDangerous[i] && !canBeSafe[i] {
        WriteBackStep(lmCache0, lm.cache, lm.boundary, lm.boundaryGrid, lm.height, lm.width, cache0, cache, i, true);
        CacheSoundDecide(cache0, cache, canBeSafe, canBeDangerous, i, true);
        cache := cache[i := Some(true)];
        lm.SetCache(i, true);
      } else if canBeSafe[i] && !canBeDangerous[i] {
        WriteBackStep(lmCache0, lm.cache, lm.boundary, lm.boundaryGrid, lm.height, lm.width, cache0, cache, i, false);
        CacheSoundDecide(cache0, cache, canBeSafe, canBeDangerous, i, false);
        cache := cache[i := Some(false)];
        lm.SetCache(i, false);
      } else {
        CacheSoundNext(cache0, cache, canBeSafe, canBeDangerous, i);
      }
    }

    /** `CanBeSafe(idx)`: false for an index off the boundary. */
    function CanBeSafe(idx: int): (r: bool)
      reads this
      requires |canBeSafe| == numMines
    {
      if idx < 0 || idx >= numMines then false else canBeSafe[idx]
    }

    /** `CanBeDangerous(idx)`: false for an index off the boundary. */
    function CanBeDangerous(idx: int): (r: bool)
      reads this
      requires |canBeDangerous| == numMines
    {
      if idx < 0 || idx >= numMines then false else canBeDangerous[idx]
    }

    /** `HasSafeCells()`: some boundary cell cannot be a mine. */
    method HasSafeCells() returns (r: bool)
      requires |canBeDangerous| == numMines
      ensures r <==> exists i :: 0 <= i < numMines && !canBeDangerous[i]
    {
      var i := 0;
      while i < numMines
        invariant 0 <= i <= numMines && forall j :: 0 <= j < i ==> canBeDangerous[j]
      {
        if !canBeDangerous[i] {
          return true;
        }
        i := i + 1;
      }
      return false;
    }

    /** `HasNonDeadlyCells()`: some boundary cell can be safe. */
    method HasNonDeadlyCells() returns (r: bool)
      requires |canBeSafe| == numMines
      ensures r <==> exists i :: 0 <= i < numMines && canBeSafe[i]
    {
      var i := 0;
      while i < numMines
        invariant 0 <= i <= numMines && forall j :: 0 <= j < i ==> !canBeSafe[j]
      {
        if canBeSafe[i] {
          return true;
        }
        i := i + 1;
      }
      return false;
    }

    /**
     * `OutsideIsSafe()`: only when the boundary has at least maxMines cells
     * is the solver asked for a model with fewer than the remaining mines on
     * the counter; the answer is that it found none, and a `false` after
     * asking comes with such a model.
     */
    method OutsideIsSafe() returns (r: bool)
      requires Valid()
      modifies sat
      ensures Valid() && sat.clauses == old(sat.clauses) && sat.numVars == old(sat.numVars)
      ensures r ==> numMines >= maxMines
      ensures !r && numMines >= maxMines ==>
                exists a :: |a| == sat.numVars + 1 && Satisfies(a, sat.clauses + CounterAtMostClauses(counter, maxMines - numCachedTrue - 1))
    {
      if numMines < maxMines {
        return false;
      }
      var solution := sat.SolveWith(CounterAtMost(counter, maxMines - numCachedTrue - 1));
      r := solution.None?;
    }

    /** `OutsideCanBeSafe()`: a model leaves a cell outside the boundary without a mine. */
    method OutsideCanBeSafe() returns (r: bool)
      requires Valid()
      modifies sat
      ensures Valid() && sat.clauses == old(sat.clauses) && sat.numVars == old(sat.numVars)
      ensures minMines < 0 ==> r
      ensures r && minMines >= 0 ==>
                exists a :: |a| == sat.numVars + 1 && Satisfies(a, sat.clauses + CounterAtLeastClauses(counter, minMines - numCachedTrue + 1))
    {
      if minMines < 0 {
        return true;
      }
      var solution := sat.SolveWith(CounterAtLeast(counter, minMines - numCachedTrue + 1));
      r := solution.Some?;
    }
  }
}

