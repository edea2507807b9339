/**
 The observable behaviour of a Python `dict` built from a list of key/value
 pairs (`dict(items)`): keys are kept in order of first insertion, a key
 written again keeps its position and takes the later value.

 A dict is modelled as an association list of entries with distinct keys.
 */
module Dict {

  datatype Option<T> = None | Some(value: T)

  datatype Entry<K, V> = Entry(key: K, value: V)

  ghost predicate DistinctKeys<K, V>(d: seq<Entry<K, V>>) {
    forall i, j :: 0 <= i < j < |d| ==> d[i].key != d[j].key
  }

  /** Integer keys strictly increase along the list. */
  ghost predicate AscendingKeys<V>(d: seq<Entry<int, V>>) {
    forall i, j :: 0 <= i < j < |d| ==> d[i].key < d[j].key
  }

  ghost predicate HasKey<K, V>(d: seq<Entry<K, V>>, k: K) {
    exists i :: 0 <= i < |d| && d[i].key == k
  }

  /** The keys in iteration order (`list(d)`). */
  function Keys<K, V>(d: seq<Entry<K, V>>): (ks: seq<K>)
    ensures |ks| == |d|
    ensures forall i :: 0 <= i < |d| ==> ks[i] == d[i].key
  {
    if |d| == 0 then [] else [d[0].key] + Keys(d[1..])
  }

  /** Position of key `k` in `d`, if present. */
  function IndexOf<K(==), V>(d: seq<Entry<K, V>>, k: K): (r: Option<nat>)
    ensures r.Some? ==> r.value < |d| && d[r.value].key == k
    ensures r.None? <==> !HasKey(d, k)
  {
    if |d| == 0 then None
    else if d[0].key == k then Some(0)
    else
      match IndexOf(d[1..], k)
      case None =>
        assert forall i :: 0 < i < |d| ==> d[i] == d[1..][i - 1];
        None
      case Some(i) => Some(i + 1)
  }

  /** `d[k]` when `k in d`, `None` otherwise. */
  function Lookup<K(==), V>(d: seq<Entry<K, V>>, k: K): Option<V> {
    match IndexOf(d, k)
    case None => None
    case Some(i) => Some(d[i].value)
  }

  /** With distinct keys, a lookup finds exactly the entries of the list. */
  lemma LookupEntry<K, V>(d: seq<Entry<K, V>>, k: K, v: V)
    requires DistinctKeys(d)
    ensures Lookup(d, k) == Some(v) <==> exists i :: 0 <= i < |d| && d[i] == Entry(k, v)
    ensures Lookup(d, k) == None <==> !HasKey(d, k)
  {
    if i :| 0 <= i < |d| && d[i] == Entry(k, v) {
      assert IndexOf(d, k).value == i;
    }
  }

  /** `d[k] = v`: overwrite in place when `k` is present, append otherwise. */
  function Put<K(==), V>(d: seq<Entry<K, V>>, k: K, v: V): (r: seq<Entry<K, V>>)
    requires DistinctKeys(d)
    ensures DistinctKeys(r)
    ensures HasKey(d, k) ==> Keys(r) == Keys(d)
    ensures !HasKey(d, k) ==> Keys(r) == Keys(d) + [k]
  {
    match IndexOf(d, k)
    case Some(i) => d[i := Entry(k, v)]
    case None => d + [Entry(k, v)]
  }

  /** After `d[k] = v`, `k` maps to `v` and every other key is untouched. */
  lemma PutLookup<K, V>(d: seq<Entry<K, V>>, k: K, v: V, k': K)
    requires DistinctKeys(d)
    ensures Lookup(Put(d, k, v), k') == if k' == k then Some(v) else Lookup(d, k')
  {
    var r := Put(d, k, v);
    if k' == k {
      var i := if IndexOf(d, k).Some? then IndexOf(d, k).value else |d|;
      assert r[i] == Entry(k, v);
      LookupEntry(r, k, v);
    } else {
      assert forall i :: 0 <= i < |d| && d[i].key == k' ==> r[i] == d[i];
      assert forall i :: 0 <= i < |r| && r[i].key == k' ==> i < |d| && r[i] == d[i];
      match Lookup(d, k')
      case None =>
      case Some(w) =>
        LookupEntry(d, k', w);
        LookupEntry(r, k', w);
    }
  }

  /** `dict(items)`: the entries written left to right. */
  function FromItems<K(==), V>(items: seq<Entry<K, V>>): (d: seq<Entry<K, V>>)
    ensures DistinctKeys(d)
  {
    if |items| == 0 then []
    else
      var last := items[|items| - 1];
      Put(FromItems(items[..|items| - 1]), last.key, last.value)
  }

  /** `k` is written at position `m` and never again after it. */
  ghost predicate LastWriteAt<K, V>(items: seq<Entry<K, V>>, k: K, m: int) {
    0 <= m < |items| && items[m].key == k &&
    forall m' :: m < m' < |items| ==> items[m'].key != k
  }

  /** One step of `dict(items)`: the last item overrides its key, nothing else. */
  lemma FromItemsStep<K, V>(items: seq<Entry<K, V>>, k: K)
    requires |items| > 0
    ensures var last := items[|items| - 1];
            Lookup(FromItems(items), k) ==
              if last.key == k then Some(last.value) else Lookup(FromItems(items[..|items| - 1]), k)
  {
    var last := items[|items| - 1];
    PutLookup(FromItems(items[..|items| - 1]), last.key, last.value, k);
  }

  /** The last item is where its own key was last written. */
  lemma LastWriteFinal<K, V>(items: seq<Entry<K, V>>, k: K, v: V)
    requires |items| > 0 && items[|items| - 1].key == k
    ensures (exists m :: LastWriteAt(items, k, m) && items[m].value == v) <==> items[|items| - 1].value == v
  {
    assert LastWriteAt(items, k, |items| - 1);
  }

  /** An item with another key appended last does not move the last write of `k`. */
  lemma LastWriteAtOther<K, V>(items: seq<Entry<K, V>>, k: K, m: int)
    requires |items| > 0 && items[|items| - 1].key != k
    ensures LastWriteAt(items, k, m) <==> LastWriteAt(items[..|items| - 1], k, m)
  {
    var init := items[..|items| - 1];
    assert forall m' :: 0 <= m' < |init| ==> init[m'] == items[m'];
  }

  /** Appending an item with another key does not change where `k` was last written. */
  lemma LastWriteOther<K, V>(items: seq<Entry<K, V>>, k: K, v: V)
    requires |items| > 0 && items[|items| - 1].key != k
    ensures var init := items[..|items| - 1];
            (exists m :: LastWriteAt(items, k, m) && items[m].value == v) <==>
            (exists m :: LastWriteAt(init, k, m) && init[m].value == v)
  {
    var init := items[..|items| - 1];
    if m :| LastWriteAt(items, k, m) && items[m].value == v {
      LastWriteAtOther(items, k, m);
      assert init[m] == items[m];
    }
    if m :| LastWriteAt(init, k, m) && init[m].value == v {
      LastWriteAtOther(items, k, m);
      assert init[m] == items[m];
    }
  }

  /** Appending an item with another key does not write `k`. */
  lemma NeverWrittenOther<K, V>(items: seq<Entry<K, V>>, k: K)
    requires |items| > 0 && items[|items| - 1].key != k
    ensures var init := items[..|items| - 1];
            (forall m :: 0 <= m < |items| ==> items[m].key != k) <==>
            (forall m :: 0 <= m < |init| ==> init[m].key != k)
  {
    assert forall m :: 0 <= m < |items| - 1 ==> items[m] == items[..|items| - 1][m];
  }

  /**
   Last write wins: the dict maps `k` to `v` exactly when the last item with
   key `k` carries `v`; a key never written is absent.
   */
  lemma {:induction false} FromItemsLookup<K, V>(items: seq<Entry<K, V>>, k: K, v: V)
    ensures Lookup(FromItems(items), k) == Some(v) <==>
            exists m :: LastWriteAt(items, k, m) && items[m].value == v
    ensures Lookup(FromItems(items), k) == None <==>
            forall m :: 0 <= m < |items| ==> items[m].key != k
  {
    if |items| > 0 {
      var n := |items| - 1;
      FromItemsLookup(items[..n], k, v);
      FromItemsStep(items, k);
      if items[n].key == k {
        LastWriteFinal(items, k, v);
      } else {
        LastWriteOther(items, k, v);
        NeverWrittenOther(items, k);
      }
    }
  }

  /**
   Keys come out in order of first insertion, so items whose keys never
   decrease give a dict whose keys strictly increase.
   */
  lemma {:induction false} FromItemsAscending<V>(items: seq<Entry<int, V>>)
    requires forall i, j :: 0 <= i < j < |items| ==> items[i].key <= items[j].key
    ensures AscendingKeys(FromItems(items))
  {
    if |items| > 0 {
      var n := |items| - 1;
      var init := items[..n];
      var d0 := FromItems(init);
      var d := FromItems(items);
      var k := items[n].key;
      FromItemsAscending(init);
      forall i | 0 <= i < |d0|
        ensures d0[i].key <= k
      {
        FromItemsLookup(init, d0[i].key, d0[i].value);
        LookupEntry(d0, d0[i].key, d0[i].value);
        var m :| LastWriteAt(init, d0[i].key, m);
      }
      assert Keys(d) == Keys(d0) || Keys(d) == Keys(d0) + [k];
      forall i, j | 0 <= i < j < |d|
        ensures d[i].key < d[j].key
      {
        assert Keys(d)[i] == d[i].key && Keys(d)[j] == d[j].key;
        if j < |d0| {
          assert Keys(d0)[i] == d0[i].key && Keys(d0)[j] == d0[j].key;
        } else {
          assert Keys(d0)[i] == d0[i].key;
          assert d[i].key != d[j].key;
        }
      }
    }
  }
}
