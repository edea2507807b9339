/**
 The two tables built once per run from the bound `n` (`N` in the program):
 the power table `[(a, a**5) for a in range(1, n)]` and the sum table
 `dict(sorted([(a5 + b5, (a, b)) for (a, a5), (b, b5) in
 combinations_with_replacement(powers, 2)]))`.
 */
module Tables {
  import opened Arith
  import opened Dict
  import opened Sorting

  /** One `(a, a**5)` tuple of the power table. */
  datatype PowerEntry = PowerEntry(base: int, fifth: int)

  /** The power table for bound `n`; `range(1, n)` is empty when `n <= 1`. */
  function Powers(n: int): (r: seq<PowerEntry>)
    ensures |r| == if n <= 1 then 0 else n - 1
    ensures forall i :: 0 <= i < |r| ==> r[i] == PowerEntry(i + 1, Pow5(i + 1))
  {
    if n <= 1 then [] else Powers(n - 1) + [PowerEntry(n - 1, Pow5(n - 1))]
  }

  /** The tuple `(a5 + b5, (a, b))` for two power-table entries. */
  function MakeItem(p: PowerEntry, q: PowerEntry): Item {
    Entry(p.fifth + q.fifth, Pair(p.base, q.base))
  }

  /** `p[i]` combined with each of `p[j], p[j+1], ...`. */
  function Row(p: seq<PowerEntry>, i: nat, j: nat): (r: seq<Item>)
    requires i < |p|
    ensures forall x :: x in r <==> exists j' :: j <= j' < |p| && x == MakeItem(p[i], p[j'])
    decreases |p| - j
  {
    if j >= |p| then [] else [MakeItem(p[i], p[j])] + Row(p, i, j + 1)
  }

  /** The tuples for the combinations `(p[i'], p[j'])` with `i <= i' <= j'`; the contract describes them as a set. */
  function CombosFrom(p: seq<PowerEntry>, i: nat): (r: seq<Item>)
    ensures forall x :: x in r <==>
              exists i', j' :: i <= i' <= j' < |p| && x == MakeItem(p[i'], p[j'])
    decreases |p| - i
  {
    if i >= |p| then []
    else
      var r := Row(p, i, i) + CombosFrom(p, i + 1);
      assert forall x :: x in r <==> x in Row(p, i, i) || x in CombosFrom(p, i + 1);
      r
  }

  /** The list comprehension over `combinations_with_replacement(p, 2)`. */
  function Combos(p: seq<PowerEntry>): seq<Item> {
    CombosFrom(p, 0)
  }

  /** `p` is a pair of bases `a <= b` below `n` whose fifth powers sum to `s`. */
  ghost predicate IsRep(n: int, s: int, p: Pair) {
    1 <= p.a <= p.b < n && Pow5(p.a) + Pow5(p.b) == s
  }

  /** `p` represents `s` and is the lexicographically greatest pair that does. */
  ghost predicate GreatestRep(n: int, s: int, p: Pair) {
    IsRep(n, s, p) && forall q :: IsRep(n, s, q) ==> PairLe(q, p)
  }

  /** The sum table for bound `n`. */
  function SumTable(n: int): seq<Item> {
    FromItems(Sort(Combos(Powers(n))))
  }

  /** The generated tuples are exactly the representations of their sums. */
  lemma CombosOfPowers(n: int, x: Item)
    ensures x in Combos(Powers(n)) <==> IsRep(n, x.key, x.value)
  {
    var p := Powers(n);
    if IsRep(n, x.key, x.value) {
      var i, j := x.value.a - 1, x.value.b - 1;
      assert 0 <= i <= j < |p| && x == MakeItem(p[i], p[j]);
    }
  }

  /** Every representation of `s` is among the sorted tuples. */
  lemma IsRepGenerated(n: int, s: int, q: Pair)
    requires IsRep(n, s, q)
    ensures Entry(s, q) in Sort(Combos(Powers(n)))
  {
    CombosOfPowers(n, Entry(s, q));
    assert Entry(s, q) in multiset(Combos(Powers(n)));
  }

  /** In a sorted list, the last tuple with a given sum carries the greatest pair. */
  lemma LastIsGreatest(items: seq<Item>, s: int, m: int, m': int)
    requires SortedItems(items) && LastWriteAt(items, s, m)
    requires 0 <= m' < |items| && items[m'].key == s
    ensures PairLe(items[m'].value, items[m].value)
  {
    assert m' <= m;
    if m' < m {
      assert ItemLe(items[m'], items[m]);
    }
  }

  /** Direction "table entry => greatest representation" of `SumTableLookup`. */
  lemma StoredIsGreatest(n: int, s: int, p: Pair)
    requires Lookup(SumTable(n), s) == Some(p)
    ensures GreatestRep(n, s, p)
  {
    var items := Sort(Combos(Powers(n)));
    FromItemsLookup(items, s, p);
    var m :| LastWriteAt(items, s, m) && items[m].value == p;
    assert items[m] in multiset(Combos(Powers(n)));
    CombosOfPowers(n, items[m]);
    forall q | IsRep(n, s, q)
      ensures PairLe(q, p)
    {
      IsRepGenerated(n, s, q);
      var m' :| 0 <= m' < |items| && items[m'] == Entry(s, q);
      LastIsGreatest(items, s, m, m');
    }
  }

  /**
   Python's `dict` keeps the last write and the tuples were sorted first, so
   the sum table maps `s` to the lexicographically greatest pair `(a, b)` with
   `a**5 + b**5 == s`, and to nothing when no pair below `n` sums to `s`.
   */
  lemma SumTableLookup(n: int, s: int, p: Pair)
    ensures Lookup(SumTable(n), s) == Some(p) <==> GreatestRep(n, s, p)
    ensures Lookup(SumTable(n), s) == None <==> forall q :: !IsRep(n, s, q)
  {
    var r := Lookup(SumTable(n), s);
    if r.Some? {
      StoredIsGreatest(n, s, r.value);
      if GreatestRep(n, s, p) {
        assert PairLe(p, r.value) && PairLe(r.value, p);
      }
    } else {
      NoStoredNoRep(n, s);
    }
  }

  lemma NoStoredNoRep(n: int, s: int)
    requires Lookup(SumTable(n), s) == None
    ensures forall q :: !IsRep(n, s, q)
  {
    var items := Sort(Combos(Powers(n)));
    FromItemsLookup(items, s, Pair(0, 0));
    forall q
      ensures !IsRep(n, s, q)
    {
      if IsRep(n, s, q) {
        IsRepGenerated(n, s, q);
      }
    }
  }

  /** Every entry of the sum table is a greatest representation of its key. */
  lemma SumTableEntries(n: int)
    ensures forall j :: 0 <= j < |SumTable(n)| ==>
              GreatestRep(n, SumTable(n)[j].key, SumTable(n)[j].value)
  {
    var t := SumTable(n);
    forall j | 0 <= j < |t|
      ensures GreatestRep(n, t[j].key, t[j].value)
    {
      LookupEntry(t, t[j].key, t[j].value);
      StoredIsGreatest(n, t[j].key, t[j].value);
    }
  }

  /** Every sum `a**5 + b**5` with `1 <= a <= b < n` is a key of the sum table. */
  lemma SumTableComplete(n: int, a: int, b: int)
    requires 1 <= a <= b < n
    ensures exists j :: 0 <= j < |SumTable(n)| && SumTable(n)[j].key == Pow5(a) + Pow5(b)
  {
    var t := SumTable(n);
    SumTableLookup(n, Pow5(a) + Pow5(b), Pair(a, b));
    var p := Lookup(t, Pow5(a) + Pow5(b)).value;
    LookupEntry(t, Pow5(a) + Pow5(b), p);
  }

  /** The sum table iterates its keys in strictly ascending order. */
  lemma SumTableAscending(n: int)
    ensures AscendingKeys(SumTable(n))
  {
    var items := Sort(Combos(Powers(n)));
    assert forall i, j :: 0 <= i < j < |items| ==> ItemLe(items[i], items[j]);
    FromItemsAscending(items);
  }

  /** The power table for bound `n`, as `Powers` describes it. */
  ghost predicate PowersValid(n: int, powers: seq<PowerEntry>) {
    && |powers| == (if n <= 1 then 0 else n - 1)
    && (forall i :: 0 <= i < |powers| ==> powers[i] == PowerEntry(i + 1, Pow5(i + 1)))
  }

  /** Whatever the table yields for a key is the greatest representation of that key. */
  ghost predicate LookupSound(n: int, table: seq<Item>) {
    && (forall j :: 0 <= j < |table| ==> GreatestRep(n, table[j].key, table[j].value))
    && (forall s :: Lookup(table, s).Some? ==> GreatestRep(n, s, Lookup(table, s).value))
  }

  /** Every greatest representation is what the table yields for its sum. */
  ghost predicate LookupComplete(n: int, table: seq<Item>) {
    forall s, p :: GreatestRep(n, s, p) ==> Lookup(table, s) == Some(p)
  }

  /** Everything the search relies on about its two tables for bound `n`. */
  ghost predicate ValidTables(n: int, powers: seq<PowerEntry>, table: seq<Item>) {
    && PowersValid(n, powers)
    && DistinctKeys(table)
    && AscendingKeys(table)
    && LookupSound(n, table)
    && LookupComplete(n, table)
  }

  /** The tables the program builds for bound `n` are valid. */
  lemma TablesValid(n: int)
    ensures ValidTables(n, Powers(n), SumTable(n))
  {
    SumTableAscending(n);
    SumTableEntries(n);
    forall s, p | GreatestRep(n, s, p)
      ensures Lookup(SumTable(n), s) == Some(p)
    {
      SumTableLookup(n, s, p);
    }
    forall s | Lookup(SumTable(n), s).Some?
      ensures GreatestRep(n, s, Lookup(SumTable(n), s).value)
    {
      StoredIsGreatest(n, s, Lookup(SumTable(n), s).value);
    }
  }
}
