/**
 Python's `sorted` applied to a list of `(sum, (a, b))` tuples: tuples are
 compared lexicographically, first by the sum, then by `a`, then by `b`.
 */
module Sorting {
  import opened Dict

  /** A pair of bases `(a, b)`. */
  datatype Pair = Pair(a: int, b: int)

  /** A `(sum, (a, b))` tuple, which is also a sum-table entry. */
  type Item = Entry<int, Pair>

  /** Python's `p <= q` on 2-tuples of integers. */
  predicate PairLe(p: Pair, q: Pair) {
    p.a < q.a || (p.a == q.a && p.b <= q.b)
  }

  /** Python's `x <= y` on `(sum, (a, b))` tuples. */
  predicate ItemLe(x: Item, y: Item) {
    x.key < y.key || (x.key == y.key && PairLe(x.value, y.value))
  }

  ghost predicate SortedItems(s: seq<Item>) {
    forall i, j :: 0 <= i < j < |s| ==> ItemLe(s[i], s[j])
  }

  /** Places `x` into an already sorted list. */
  function Insert(x: Item, s: seq<Item>): (r: seq<Item>)
    requires SortedItems(s)
    ensures SortedItems(r)
    ensures multiset(r) == multiset(s) + multiset{x}
  {
    if |s| == 0 then [x]
    else if ItemLe(x, s[0]) then [x] + s
    else
      var rest := Insert(x, s[1..]);
      assert s == [s[0]] + s[1..];
      assert forall j :: 0 <= j < |rest| ==> ItemLe(s[0], rest[j]) by {
        forall j | 0 <= j < |rest|
          ensures ItemLe(s[0], rest[j])
        {
          assert rest[j] in multiset(rest);
          if rest[j] != x {
            assert rest[j] in s[1..];
          }
        }
      }
      [s[0]] + rest
  }

  /** `sorted(s)`: the same tuples, in ascending order. */
  function Sort(s: seq<Item>): (r: seq<Item>)
    ensures SortedItems(r)
    ensures multiset(r) == multiset(s)
  {
    if |s| == 0 then []
    else
      assert s == [s[0]] + s[1..];
      Insert(s[0], Sort(s[1..]))
  }
}
