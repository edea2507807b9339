/**
 What the program reports, stated without the tables: every reported line is
 a primitive solution of a^5 + b^5 + c^5 + d^5 == e^5 in canonical order, the
 reported set is characterised exactly, and the classic solution
 27^5 + 84^5 + 110^5 + 133^5 == 144^5 is reported for every bound above 144.
 */
module Solutions {
  import opened Arith
  import opened Dict
  import opened Sorting
  import opened Tables
  import opened Search

  /** `a**5 + b**5` of a reported line, the table key it was found under. */
  function PairSum(t: Quint): int {
    Pow5(t.a) + Pow5(t.b)
  }

  /**
   The reports, described directly: `e` is a base below `n`, `(a, b)` is the
   pair the sum table stores for its sum, that sum is at most `e**5 // 2`,
   `(c, d)` is the pair stored for the rest of `e**5`, `b < c` and the four
   bases have gcd 1.
   */
  ghost predicate Reported(n: int, t: Quint) {
    && 1 <= t.e < n
    && PairSum(t) <= Pow5(t.e) / 2
    && GreatestRep(n, PairSum(t), Pair(t.a, t.b))
    && GreatestRep(n, Pow5(t.e) - PairSum(t), Pair(t.c, t.d))
    && t.b < t.c
    && Gcd4(t.a, t.b, t.c, t.d) == 1
  }

  /** A primitive solution in canonical order with every base below `n`. */
  ghost predicate PrimitiveSolution(n: int, t: Quint) {
    && 1 <= t.a <= t.b < t.c <= t.d < n
    && 1 <= t.e < n
    && Pow5(t.a) + Pow5(t.b) + Pow5(t.c) + Pow5(t.d) == Pow5(t.e)
    && Coprime4(t.a, t.b, t.c, t.d)
  }

  /** A line contributed by table entry `x` for power `pe`. */
  lemma HitReport(table: seq<Item>, pe: PowerEntry, x: Item, t: Quint)
    requires t in Hit(table, pe, x)
    ensures Lookup(table, pe.fifth - x.key) == Some(Pair(t.c, t.d))
    ensures t == Quint(x.value.a, x.value.b, t.c, t.d, pe.base)
    ensures t.b < t.c && Gcd4(t.a, t.b, t.c, t.d) == 1
  {
  }

  /** A line the inner loop reports for index `i` has `e == i + 1` and is `Reported`. */
  lemma EntryReportsSound(n: int, powers: seq<PowerEntry>, table: seq<Item>, i: int, t: Quint)
    requires PowersValid(n, powers) && AscendingKeys(table) && LookupSound(n, table)
    requires 0 <= i < |powers| && t in ScanEntry(table, powers[i])
    ensures t.e == i + 1 && Reported(n, t)
  {
    var pe := powers[i];
    BreakIsSound(table, pe);
    var j :| 0 <= j < |table| && table[j].key <= pe.fifth / 2 && t in Hit(table, pe, table[j]);
    var x := table[j];
    HitReport(table, pe, x, t);
    assert GreatestRep(n, x.key, x.value);
    var cd := Lookup(table, pe.fifth - x.key).value;
    assert GreatestRep(n, pe.fifth - x.key, cd);
  }

  /** A `Reported` line is found by the inner loop for its own `e`. */
  lemma EntryReportsComplete(n: int, powers: seq<PowerEntry>, table: seq<Item>, t: Quint)
    requires PowersValid(n, powers) && DistinctKeys(table) && AscendingKeys(table)
    requires LookupComplete(n, table)
    requires Reported(n, t)
    ensures t in ScanEntry(table, powers[t.e - 1])
  {
    var pe := powers[t.e - 1];
    var s := PairSum(t);
    assert Lookup(table, s) == Some(Pair(t.a, t.b));
    assert Lookup(table, Pow5(t.e) - s) == Some(Pair(t.c, t.d));
    LookupEntry(table, s, Pair(t.a, t.b));
    var j :| 0 <= j < |table| && table[j] == Entry(s, Pair(t.a, t.b));
    assert t in Hit(table, pe, table[j]);
    BreakIsSound(table, pe);
  }

  /** The inner loop for base `e` reports exactly the lines `Reported` describes for `e`. */
  lemma EntryReports(n: int, powers: seq<PowerEntry>, table: seq<Item>, i: int, t: Quint)
    requires ValidTables(n, powers, table)
    requires 0 <= i < |powers|
    ensures t in ScanEntry(table, powers[i]) <==> t.e == i + 1 && Reported(n, t)
  {
    if t in ScanEntry(table, powers[i]) {
      EntryReportsSound(n, powers, table, i, t);
    }
    if t.e == i + 1 && Reported(n, t) {
      EntryReportsComplete(n, powers, table, t);
    }
  }

  /** On valid tables, all workers together report exactly the `Reported` lines. */
  lemma WorkersReport(n: int, powers: seq<PowerEntry>, table: seq<Item>, poolSize: nat, t: Quint)
    requires ValidTables(n, powers, table) && poolSize >= 1
    ensures t in RunWorkers(powers, table, poolSize, 0) <==> Reported(n, t)
  {
    AllWorkersMembers(powers, table, poolSize, t);
    if t in RunWorkers(powers, table, poolSize, 0) {
      var i :| 0 <= i < |powers| && t in ScanEntry(table, powers[i]);
      EntryReports(n, powers, table, i, t);
    }
    if Reported(n, t) {
      EntryReports(n, powers, table, t.e - 1, t);
    }
  }

  /** The whole run, for any pool size, reports exactly the `Reported` lines. */
  lemma RunReports(n: int, poolSize: nat, t: Quint)
    requires poolSize >= 1
    ensures t in Run(n, poolSize) <==> Reported(n, t)
  {
    TablesValid(n);
    WorkersReport(n, Powers(n), SumTable(n), poolSize, t);
  }

  /** A reported line is a primitive solution with `a <= b < c <= d`. */
  lemma ReportedIsPrimitiveSolution(n: int, t: Quint)
    requires Reported(n, t)
    ensures PrimitiveSolution(n, t)
  {
    Gcd4IsOneIffCoprime(t.a, t.b, t.c, t.d);
  }

  /** Every line the program prints is a primitive solution of the equation. */
  lemma RunSound(n: int, poolSize: nat, t: Quint)
    requires poolSize >= 1
    requires t in Run(n, poolSize)
    ensures PrimitiveSolution(n, t)
  {
    RunReports(n, poolSize, t);
    ReportedIsPrimitiveSolution(n, t);
  }

  /** `WorkerSound` for any valid tables. */
  lemma WorkerSoundFor(n: int, powers: seq<PowerEntry>, table: seq<Item>, poolSize: nat, start: nat, t: Quint)
    requires ValidTables(n, powers, table) && poolSize >= 1
    requires t in Worker(powers, table, poolSize, start)
    ensures PrimitiveSolution(n, t)
    ensures t.e - 1 in StrideIndices(|powers|, start, poolSize)
  {
    WorkerMembers(powers, table, poolSize, start, t);
    var i :| i in StrideIndices(|powers|, start, poolSize) && t in ScanEntry(table, powers[i]);
    EntrySound(n, powers, table, i, t);
  }

  /** A line reported for index `i` is a primitive solution with `e == i + 1`. */
  lemma EntrySound(n: int, powers: seq<PowerEntry>, table: seq<Item>, i: int, t: Quint)
    requires ValidTables(n, powers, table)
    requires 0 <= i < |powers| && t in ScanEntry(table, powers[i])
    ensures t.e == i + 1 && PrimitiveSolution(n, t)
  {
    EntryReportsSound(n, powers, table, i, t);
    ReportedIsPrimitiveSolution(n, t);
  }

  /**
   Worker `start` prints only primitive solutions whose `e` is a base of its
   own slice `powers[start::pool_size]`.
   */
  lemma WorkerSound(n: int, poolSize: nat, start: nat, t: Quint)
    requires poolSize >= 1
    requires t in Worker(Powers(n), SumTable(n), poolSize, start)
    ensures PrimitiveSolution(n, t)
    ensures t.e - 1 in StrideIndices(|Powers(n)|, start, poolSize)
  {
    TablesValid(n);
    WorkerSoundFor(n, Powers(n), SumTable(n), poolSize, start, t);
  }

  /** Table keys are the fifth-power sums of the pairs stored under them. */
  ghost predicate KeysAreSums(table: seq<Item>) {
    forall j :: 0 <= j < |table| ==> table[j].key == Pow5(table[j].value.a) + Pow5(table[j].value.b)
  }

  /** The reference inner loop reports lines with strictly increasing `a**5 + b**5`. */
  lemma {:induction false} FilterFromAscending(table: seq<Item>, pe: PowerEntry, j: nat)
    requires AscendingKeys(table) && KeysAreSums(table)
    ensures forall k :: 0 <= k < |FilterFrom(table, pe, j)| ==>
              j < |table| && table[j].key <= PairSum(FilterFrom(table, pe, j)[k])
    ensures forall k, l :: 0 <= k < l < |FilterFrom(table, pe, j)| ==>
              PairSum(FilterFrom(table, pe, j)[k]) < PairSum(FilterFrom(table, pe, j)[l])
    decreases |table| - j
  {
    if j < |table| {
      FilterFromAscending(table, pe, j + 1);
      var r := FilterFrom(table, pe, j);
      var rest := FilterFrom(table, pe, j + 1);
      var h := if table[j].key <= pe.fifth / 2 then Hit(table, pe, table[j]) else [];
      assert r == h + rest;
      assert forall k :: 0 <= k < |h| ==> PairSum(h[k]) == table[j].key;
      assert forall k :: 0 <= k < |rest| ==> table[j].key < PairSum(rest[k]);
      forall k | 0 <= k < |r|
        ensures table[j].key <= PairSum(r[k])
      {
        if k < |h| {
          assert r[k] == h[k];
        } else {
          assert r[k] == rest[k - |h|];
        }
      }
    } else {
      assert FilterFrom(table, pe, j) == [];
    }
  }

  /** `EntryOutputAscending` for any valid tables. */
  lemma ScanEntryAscending(n: int, powers: seq<PowerEntry>, table: seq<Item>, i: int)
    requires ValidTables(n, powers, table) && 0 <= i < |powers|
    ensures forall k, l :: 0 <= k < l < |ScanEntry(table, powers[i])| ==>
              PairSum(ScanEntry(table, powers[i])[k]) < PairSum(ScanEntry(table, powers[i])[l])
  {
    assert KeysAreSums(table);
    BreakIsSound(table, powers[i]);
    FilterFromAscending(table, powers[i], 0);
  }

  /**
   For one base `e`, the lines come out in strictly ascending order of
   `a**5 + b**5`, the order of the sum table.
   */
  lemma EntryOutputAscending(n: int, i: int)
    requires 0 <= i < |Powers(n)|
    ensures forall k, l :: 0 <= k < l < |ScanEntry(SumTable(n), Powers(n)[i])| ==>
              PairSum(ScanEntry(SumTable(n), Powers(n)[i])[k]) < PairSum(ScanEntry(SumTable(n), Powers(n)[i])[l])
  {
    TablesValid(n);
    ScanEntryAscending(n, Powers(n), SumTable(n), i);
  }

  /**
   Completeness: a primitive solution is printed when both of its halves are
   the pairs the sum table stores for their sums.
   */
  lemma SolutionFound(n: int, poolSize: nat, t: Quint)
    requires poolSize >= 1
    requires PrimitiveSolution(n, t)
    requires GreatestRep(n, PairSum(t), Pair(t.a, t.b))
    requires GreatestRep(n, Pow5(t.c) + Pow5(t.d), Pair(t.c, t.d))
    ensures t in Run(n, poolSize)
  {
    Pow5Monotone(t.a, t.c);
    Pow5Monotone(t.b, t.d);
    Gcd4IsOneIffCoprime(t.a, t.b, t.c, t.d);
    assert Pow5(t.e) - PairSum(t) == Pow5(t.c) + Pow5(t.d);
    RunReports(n, poolSize, t);
  }

  /** No solution is printed for a bound of 3 or less. */
  lemma SmallBoundReportsNothing(n: int, poolSize: nat)
    requires poolSize >= 1 && n <= 3
    ensures Run(n, poolSize) == []
  {
    if |Run(n, poolSize)| > 0 {
      var t := Run(n, poolSize)[0];
      RunSound(n, poolSize, t);
      Pow5Monotone(1, t.a);
      Pow5Monotone(1, t.b);
      Pow5Monotone(2, t.c);
      Pow5Monotone(2, t.d);
      Pow5Monotone(t.e, 2);
    }
  }

  /** Every base `lo + k` (for `k < |roots|`) leaves a remainder strictly between two consecutive fifth powers. */
  predicate GapsFrom(s: int, lo: int, roots: seq<int>)
    decreases |roots|
  {
    |roots| == 0 ||
    (0 <= roots[0] && Pow5(roots[0]) < s - Pow5(lo) < Pow5(roots[0] + 1) && GapsFrom(s, lo + 1, roots[1..]))
  }

  /** The `k`-th gap condition of `GapsFrom`. */
  lemma {:induction false} GapsFromAt(s: int, lo: int, roots: seq<int>, k: int)
    requires GapsFrom(s, lo, roots) && 0 <= k < |roots|
    ensures 0 <= roots[k] && Pow5(roots[k]) < s - Pow5(lo + k) < Pow5(roots[k] + 1)
    decreases k
  {
    if k > 0 {
      GapsFromAt(s, lo + 1, roots[1..], k - 1);
    }
  }

  /**
   `p` is the greatest representation of `s` when no larger base `lo .. p.b-1`
   completes `s` (each leaves a remainder strictly between consecutive fifth
   powers) and no base below `lo` can be the larger one (`2 * (lo-1)**5 < s`).
   */
  lemma GreatestRepByGaps(n: int, s: int, p: Pair, lo: int, roots: seq<int>)
    requires IsRep(n, s, p)
    requires 1 <= lo && 2 * Pow5(lo - 1) < s
    requires lo + |roots| == p.b
    requires GapsFrom(s, lo, roots)
    ensures GreatestRep(n, s, p)
  {
    forall q | IsRep(n, s, q)
      ensures PairLe(q, p)
    {
      if q.a == p.a {
        Pow5Injective(q.b, p.b);
      } else if q.a > p.a {
        Pow5StrictMonotone(p.a, q.a);
        if q.b >= p.b {
          Pow5Monotone(p.b, q.b);
        } else if q.b < lo {
          Pow5Monotone(q.a, q.b);
          Pow5Monotone(q.b, lo - 1);
        } else {
          GapsFromAt(s, lo, roots, q.b - lo);
          NotAFifthPower(s - Pow5(q.b), roots[q.b - lo]);
        }
      }
    }
  }

  /** 27^5 + 84^5 has no other representation with a larger first base. */
  lemma FirstHalfStored(n: int)
    requires n >= 85
    ensures GreatestRep(n, Pow5(27) + Pow5(84), Pair(27, 84))
  {
    assert Pow5(27) + Pow5(84) == 4196468331;
    assert Pow5(73) == 2073071593;
    assert GapsFrom(4196468331, 74, [72, 71, 69, 68, 66, 64, 62, 58, 54, 48]);
    GreatestRepByGaps(n, 4196468331, Pair(27, 84), 74, [72, 71, 69, 68, 66, 64, 62, 58, 54, 48]);
  }

  /** 110^5 + 133^5 has no other representation with a larger first base. */
  lemma SecondHalfStored(n: int)
    requires n >= 134
    ensures GreatestRep(n, Pow5(110) + Pow5(133), Pair(110, 133))
  {
    assert Pow5(110) + Pow5(133) == 57720895893;
    assert Pow5(123) == 28153056843;
    assert GapsFrom(57720895893, 124, [123, 122, 121, 119, 118, 117, 115, 113, 112]);
    GreatestRepByGaps(n, 57720895893, Pair(110, 133), 124, [123, 122, 121, 119, 118, 117, 115, 113, 112]);
  }

  /**
   The classic counterexample to Euler's sum of powers conjecture,
   27^5 + 84^5 + 110^5 + 133^5 == 144^5, is printed for every bound above
   144 and every pool size.
   */
  lemma KnownSolutionReported(n: int, poolSize: nat)
    requires poolSize >= 1 && n >= 145
    ensures Quint(27, 84, 110, 133, 144) in Run(n, poolSize)
  {
    var t := Quint(27, 84, 110, 133, 144);
    FirstHalfStored(n);
    SecondHalfStored(n);
    assert Pow5(27) + Pow5(84) + Pow5(110) + Pow5(133) == Pow5(144);
    assert Gcd(27, 84) == 3;
    assert Gcd(3, 110) == 1;
    assert Gcd4(27, 84, 110, 133) == 1;
    Gcd4IsOneIffCoprime(27, 84, 110, 133);
    SolutionFound(n, poolSize, t);
  }
}
