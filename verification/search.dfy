/**
 The search: `Search.__call__(start)` scans the strided slice
 `powers[start::pool_size]` and, for every `(e, e5)` in it, walks the sum
 table in ascending order up to `e5 // 2`, reporting `(a, b, c, d, e)` when
 `e5 - val` is also a key, `b < c` and `gcd(a, b, c, d) == 1`. Each report
 (a `print` in the program) is appended to the returned sequence, and
 `pool.map` over `range(pool_size)` becomes the concatenation of the worker
 outputs in worker order.
 */
module Search {
  import opened Arith
  import opened Dict
  import opened Sorting
  import opened Tables

  /** A reported line `a b c d e`. */
  datatype Quint = Quint(a: int, b: int, c: int, d: int, e: int)

  /** `i` is reached from `start` in steps of `step`. */
  predicate OnStride(i: int, start: int, step: int)
    requires step >= 1
  {
    start <= i && (i - start) % step == 0
  }

  /** The stride from `start` is `start` followed by the stride from `start + step`. */
  lemma OnStrideStep(i: int, start: int, step: int)
    requires step >= 1
    ensures OnStride(i, start, step) <==> i == start || OnStride(i, start + step, step)
  {
    if start + step <= i {
      ModShift(step, i - (start + step), 1);
    }
  }

  /** An index on the stride has the remainder `start`. */
  lemma StrideToResidue(i: int, start: int, step: int)
    requires 0 <= start < step && start <= i && (i - start) % step == 0
    ensures i % step == start
  {
    var q := (i - start) / step;
    ExactQuotient(i - start, step);
    ModShift(step, start, q);
    SmallRemainder(start, step);
  }

  /** An index with remainder `start` lies on the stride. */
  lemma ResidueToStride(i: int, start: int, step: int)
    requires 0 <= start < step && 0 <= i && i % step == start
    ensures start <= i && (i - start) % step == 0
  {
    var q := i / step;
    Quotient(i, step);
    ModShift(step, 0, q);
    SmallRemainder(0, step);
  }

  /** For a start below the step, the stride from `start` is the residue class of `start`. */
  lemma OnStrideResidue(i: int, start: int, step: int)
    requires 0 <= start < step
    ensures OnStride(i, start, step) <==> 0 <= i && i % step == start
  {
    if OnStride(i, start, step) {
      StrideToResidue(i, start, step);
    }
    if 0 <= i && i % step == start {
      ResidueToStride(i, start, step);
    }
  }

  /**
   The indices visited by `s[start::step]` when `|s| == n`: `start`,
   `start + step`, `start + 2 * step`, ... in that order, while below `n`.
   */
  function StrideIndices(n: nat, start: nat, step: nat): (r: seq<nat>)
    requires step >= 1
    ensures forall k :: 0 <= k < |r| ==> r[k] < n
    ensures forall k :: 0 <= k < |r| ==> r[k] == start + k * step
    ensures forall i :: i in r <==> i < n && OnStride(i, start, step)
    decreases n - start
  {
    if start >= n then []
    else
      var rest := StrideIndices(n, start + step, step);
      var r := [start] + rest;
      assert forall k :: 1 <= k < |r| ==> r[k] == start + k * step by {
        forall k | 1 <= k < |r|
          ensures r[k] == start + k * step
        {
          assert r[k] == rest[k - 1] == start + step + (k - 1) * step;
          assert (k - 1) * step == k * step - step;
        }
      }
      assert forall i :: i in r <==> i < n && OnStride(i, start, step) by {
        forall i
          ensures i in r <==> i < n && OnStride(i, start, step)
        {
          OnStrideStep(i, start, step);
        }
      }
      r
  }

  /** `s[start::step]`, the slice a worker scans. */
  function Stride<T>(s: seq<T>, start: nat, step: nat): (r: seq<T>)
    requires step >= 1
    ensures |r| == |StrideIndices(|s|, start, step)|
    ensures forall k :: 0 <= k < |r| ==> r[k] == s[StrideIndices(|s|, start, step)[k]]
    decreases |s| - start
  {
    if start >= |s| then [] else [s[start]] + Stride(s, start + step, step)
  }

  /**
   Worker `w` of `poolSize` visits exactly the indices with residue `w`, so the
   slices of workers `0 .. poolSize-1` are pairwise disjoint and together cover
   every index of the power table once.
   */
  lemma StridesPartition(n: nat, poolSize: nat)
    requires poolSize >= 1
    ensures forall w, i :: 0 <= w < poolSize ==>
              (i in StrideIndices(n, w, poolSize) <==> 0 <= i < n && i % poolSize == w)
    ensures forall i :: 0 <= i < n ==> i in StrideIndices(n, i % poolSize, poolSize)
    ensures forall w1, w2, i ::
              (0 <= w1 < poolSize && 0 <= w2 < poolSize &&
               i in StrideIndices(n, w1, poolSize) && i in StrideIndices(n, w2, poolSize)) ==> w1 == w2
  {
    forall w, i | 0 <= w < poolSize
      ensures i in StrideIndices(n, w, poolSize) <==> 0 <= i < n && i % poolSize == w
    {
      OnStrideResidue(i, w, poolSize);
    }
    forall i | 0 <= i < n
      ensures i in StrideIndices(n, i % poolSize, poolSize)
    {
      OnStrideResidue(i, i % poolSize, poolSize);
    }
  }

  /** What one table entry `(val, (a, b))` contributes for the power `(e, e5)`. */
  function Hit(table: seq<Item>, pe: PowerEntry, x: Item): (r: seq<Quint>)
    ensures |r| <= 1
  {
    match Lookup(table, pe.fifth - x.key)
    case None => []
    case Some(cd) =>
      if x.value.b < cd.a && Gcd4(x.value.a, x.value.b, cd.a, cd.b) == 1
      then [Quint(x.value.a, x.value.b, cd.a, cd.b, pe.base)]
      else []
  }

  /** The inner loop from position `j`, stopping at the first `val > e5 // 2`. */
  function ScanFrom(table: seq<Item>, pe: PowerEntry, j: nat): seq<Quint>
    decreases |table| - j
  {
    if j >= |table| || table[j].key > pe.fifth / 2 then []
    else Hit(table, pe, table[j]) + ScanFrom(table, pe, j + 1)
  }

  /** The inner loop for one power `(e, e5)`, as the program runs it. */
  function ScanEntry(table: seq<Item>, pe: PowerEntry): seq<Quint> {
    ScanFrom(table, pe, 0)
  }

  /**
   Reference for the inner loop without the early exit: every entry from
   position `j` whose key is at most `e5 // 2` is tried, in table order.
   */
  function FilterFrom(table: seq<Item>, pe: PowerEntry, j: nat): (r: seq<Quint>)
    ensures forall t :: t in r <==>
              exists j' :: j <= j' < |table| && table[j'].key <= pe.fifth / 2 && t in Hit(table, pe, table[j'])
    decreases |table| - j
  {
    if j >= |table| then []
    else
      var h := if table[j].key <= pe.fifth / 2 then Hit(table, pe, table[j]) else [];
      var r := h + FilterFrom(table, pe, j + 1);
      assert forall t :: t in r <==> t in h || t in FilterFrom(table, pe, j + 1);
      r
  }

  /** Past the point where every key exceeds `e5 // 2`, the reference reports nothing. */
  lemma {:induction false} FilterPastHalf(table: seq<Item>, pe: PowerEntry, j: nat)
    requires forall k :: j <= k < |table| ==> table[k].key > pe.fifth / 2
    ensures FilterFrom(table, pe, j) == []
    decreases |table| - j
  {
    if j < |table| {
      FilterPastHalf(table, pe, j + 1);
    }
  }

  /** From any position, the loop with the `break` agrees with the reference. */
  lemma {:induction false} BreakSoundFrom(table: seq<Item>, pe: PowerEntry, j: nat)
    requires AscendingKeys(table)
    ensures ScanFrom(table, pe, j) == FilterFrom(table, pe, j)
    decreases |table| - j
  {
    if j < |table| {
      if table[j].key > pe.fifth / 2 {
        FilterPastHalf(table, pe, j + 1);
      } else {
        BreakSoundFrom(table, pe, j + 1);
      }
    }
  }

  /**
   The early `break` is sound: on a table with ascending keys the inner loop
   reports exactly what trying every entry with `val <= e5 // 2` would, in
   the same order.
   */
  lemma BreakIsSound(table: seq<Item>, pe: PowerEntry)
    requires AscendingKeys(table)
    ensures ScanEntry(table, pe) == FilterFrom(table, pe, 0)
  {
    BreakSoundFrom(table, pe, 0);
  }

  /** The reports for a run of powers, one after the other. */
  function ScanAll(table: seq<Item>, es: seq<PowerEntry>): (r: seq<Quint>)
    ensures forall t :: t in r <==> exists k :: 0 <= k < |es| && t in ScanEntry(table, es[k])
  {
    if |es| == 0 then []
    else
      var r := ScanEntry(table, es[0]) + ScanAll(table, es[1..]);
      assert forall k :: 1 <= k < |es| ==> es[k] == es[1..][k - 1];
      r
  }

  /** `Search(pool_size, powers, sums_of_powers)(start)`. */
  function Worker(powers: seq<PowerEntry>, table: seq<Item>, poolSize: nat, start: nat): seq<Quint>
    requires poolSize >= 1
  {
    ScanAll(table, Stride(powers, start, poolSize))
  }

  /**
   The inner loop of `Search.__call__` for one `(e, e5)`, with its early
   `break`; the lookup, filter and `print` of one entry are `Hit`, whose line
   (if any) is appended to `found`.
   */
  method ScanLoop(table: seq<Item>, pe: PowerEntry) returns (found: seq<Quint>)
    ensures found == ScanEntry(table, pe)
  {
    var half := pe.fifth / 2;
    found := [];
    var j := 0;
    while j < |table|
      invariant 0 <= j <= |table|
      invariant found + ScanFrom(table, pe, j) == ScanEntry(table, pe)
    {
      var x := table[j];
      if x.key > half {
        break;
      }
      assert ScanFrom(table, pe, j) == Hit(table, pe, x) + ScanFrom(table, pe, j + 1);
      ghost var before := found;
      found := found + Hit(table, pe, x);
      assert found + ScanFrom(table, pe, j + 1) == before + ScanFrom(table, pe, j);
      j := j + 1;
    }
  }

  /**
   `Search.__call__(start)`: the outer loop over `powers[start::pool_size]`.
   It prints exactly `Worker`'s lines.
   */
  method Call(powers: seq<PowerEntry>, table: seq<Item>, poolSize: nat, start: nat)
    returns (printed: seq<Quint>)
    requires poolSize >= 1
    ensures printed == Worker(powers, table, poolSize, start)
  {
    var slice := Stride(powers, start, poolSize);
    printed := [];
    var k := 0;
    while k < |slice|
      invariant 0 <= k <= |slice|
      invariant printed + ScanAll(table, slice[k..]) == ScanAll(table, slice)
    {
      var found := ScanLoop(table, slice[k]);
      assert slice[k..][1..] == slice[k + 1..];
      printed := printed + found;
      k := k + 1;
    }
  }

  /** `pool.map(search, range(w, pool_size))`, run one worker after another. */
  function RunWorkers(powers: seq<PowerEntry>, table: seq<Item>, poolSize: nat, w: nat): seq<Quint>
    requires poolSize >= 1
    decreases poolSize - w
  {
    if w >= poolSize then []
    else Worker(powers, table, poolSize, w) + RunWorkers(powers, table, poolSize, w + 1)
  }

  /** The whole program for bound `n` and `poolSize` workers. */
  function Run(n: int, poolSize: nat): seq<Quint>
    requires poolSize >= 1
  {
    RunWorkers(Powers(n), SumTable(n), poolSize, 0)
  }

  /** Worker `start` reports exactly what its slice's powers report. */
  lemma WorkerMembers(powers: seq<PowerEntry>, table: seq<Item>, poolSize: nat, start: nat, t: Quint)
    requires poolSize >= 1
    ensures t in Worker(powers, table, poolSize, start) <==>
            exists i :: i in StrideIndices(|powers|, start, poolSize) && t in ScanEntry(table, powers[i])
  {
    var idx := StrideIndices(|powers|, start, poolSize);
    var es := Stride(powers, start, poolSize);
    if i :| i in idx && t in ScanEntry(table, powers[i]) {
      var k :| 0 <= k < |idx| && idx[k] == i;
      assert es[k] == powers[i];
    }
  }

  /** Workers `w .. poolSize-1` report what the powers with remainder at least `w` report. */
  lemma {:induction false} RunWorkersMembers(powers: seq<PowerEntry>, table: seq<Item>, poolSize: nat, w: nat, t: Quint)
    requires poolSize >= 1
    ensures t in RunWorkers(powers, table, poolSize, w) <==>
            exists i :: 0 <= i < |powers| && w <= i % poolSize && t in ScanEntry(table, powers[i])
    decreases poolSize - w
  {
    StridesPartition(|powers|, poolSize);
    if w < poolSize {
      RunWorkersMembers(powers, table, poolSize, w + 1, t);
      WorkerMembers(powers, table, poolSize, w, t);
    } else {
      assert forall i :: 0 <= i < |powers| ==> i % poolSize < w;
    }
  }

  /**
   All workers together report what the powers of the whole table report,
   whatever the pool size.
   */
  lemma AllWorkersMembers(powers: seq<PowerEntry>, table: seq<Item>, poolSize: nat, t: Quint)
    requires poolSize >= 1
    ensures t in RunWorkers(powers, table, poolSize, 0) <==>
            exists i :: 0 <= i < |powers| && t in ScanEntry(table, powers[i])
  {
    RunWorkersMembers(powers, table, poolSize, 0, t);
  }

  /** The set of reported tuples does not depend on the number of workers. */
  lemma PoolSizeInvariance(powers: seq<PowerEntry>, table: seq<Item>, p1: nat, p2: nat)
    requires p1 >= 1 && p2 >= 1
    ensures forall t :: t in RunWorkers(powers, table, p1, 0) <==> t in RunWorkers(powers, table, p2, 0)
  {
    forall t
      ensures t in RunWorkers(powers, table, p1, 0) <==> t in RunWorkers(powers, table, p2, 0)
    {
      AllWorkersMembers(powers, table, p1, t);
      AllWorkersMembers(powers, table, p2, t);
    }
  }
}
