# Euler's sum of powers search, modelled in Dafny

`euler-multiprocessing.py` searches for counterexamples to Euler's sum of
powers conjecture for fifth powers. It looks for positive integers with
`a^5 + b^5 + c^5 + d^5 == e^5` and every base below a bound `N`. It builds two
tables once:

- the power table `[(a, a**5) for a in range(1, N)]`;
- the sum table. This is a `dict` built from the *sorted* list of
  `(a**5 + b**5, (a, b))` tuples, one for each pair `a <= b` of power-table
  entries.

A pool of `pool_size` workers then runs `Search.__call__(start)`. Worker
`start` takes every `(e, e**5)` in the slice `powers[start::pool_size]`. It
walks the sum table in key order, stopping at the first sum above
`e**5 // 2`. For each sum `val` stored with `(a, b)` it looks up `e**5 - val`.
When that is a key too, stored with `(c, d)`, and `b < c` and
`gcd(a, b, c, d) == 1`, it prints `a b c d e`.

The model has six modules:

- `Arith`: fifth powers and their monotonicity, plus `gcd` of four numbers
  (Euclid's algorithm on absolute values) with its divisor characterisation.
- `Dict`: a Python `dict` as an association list. Keys keep their
  first-insertion order and a later write of the same key replaces the value.
  `dict(items)` is `FromItems`.
- `Sorting`: Python's `sorted` on `(sum, (a, b))` tuples with Python's
  lexicographic tuple order. It is an insertion sort with a sortedness and
  permutation contract.
- `Tables`: the power table and the sum table.
  - The dict keeps the *last* write and the tuples were sorted first.
  - So the sum table maps each sum `s` to the lexicographically greatest pair
    `(a, b)` with `a**5 + b**5 == s` and `1 <= a <= b < N`.
  - Its keys come out in strictly ascending order.
- `Search`: the search itself.
  - `Search.__call__` is the method `Call`, with the inner loop in `ScanLoop`.
    Both are proved equal to the functional `Worker` / `ScanEntry`.
  - Each `print` appends one `Quint(a, b, c, d, e)` to the returned sequence.
  - `pool.map(search, range(pool_size))` is `RunWorkers`: the workers' outputs
    concatenated in worker order.
- `Solutions`: what the program reports, stated without the tables.
  - `Reported` gives an exact description of the printed lines.
  - Every printed line is a primitive solution with `a <= b < c <= d`.
  - A primitive solution is printed whenever both of its halves are the pairs
    the table stores.
  - The result does not depend on the pool size.
  - The classic solution `27^5 + 84^5 + 110^5 + 133^5 == 144^5` is printed for
    every bound above 144, which includes the default bound of 150.

On a sum collision the program keeps the last write (the lexicographically
greatest pair), because `dict` keeps the last value for a repeated key and
the tuples are sorted before the dict is built.

## Model

| member | source | states |
|---|---|---|
| Tables.Powers | euler-multiprocessing.py:33 | The power table has `N - 1` entries (none when `N <= 1`), and entry `i` is `(i + 1, (i + 1)**5)`. |
| Tables.CombosFrom | euler-multiprocessing.py:35-36 | As a set, the generated tuples are exactly `(a5 + b5, (a, b))` for the entries `(a, a5) = p[i]` and `(b, b5) = p[j]` with `i <= j`, the index pairs of `combinations_with_replacement(powers, 2)`. |
| Tables.CombosOfPowers | euler-multiprocessing.py:33-36 | A tuple is generated from the power table exactly when its pair `1 <= a <= b < N` has fifth powers summing to its key. |
| Sorting.Sort | euler-multiprocessing.py:35 | `sorted` returns the same tuples (a permutation, as multisets) in nondecreasing Python tuple order. |
| Dict.IndexOf | euler-multiprocessing.py:18 | The membership test `k in d`: a found position holds key `k`, and nothing is found exactly when no entry has key `k`. |
| Dict.LookupEntry | euler-multiprocessing.py:18-19 | With distinct keys, `d[k]` is `v` exactly when `(k, v)` is an entry, and it is missing exactly when `k` is not a key. |
| Dict.Put | euler-multiprocessing.py:34-37 | Writing `d[k] = v` keeps the keys distinct, keeps the key order for a present key and appends a new key at the end. |
| Dict.PutLookup | euler-multiprocessing.py:34-37 | After `d[k] = v`, `k` maps to `v` and every other key maps to what it mapped to before. |
| Dict.FromItemsLookup | euler-multiprocessing.py:34-37 | `dict(items)` maps `k` to `v` exactly when the last item with key `k` carries `v`; a key no item carries is absent. |
| Dict.FromItemsAscending | euler-multiprocessing.py:34-37 | Items with nondecreasing keys give a dict whose iteration order has strictly increasing keys. |
| Tables.StoredIsGreatest | euler-multiprocessing.py:34-37 | Any pair the sum table stores for `s` represents `s` and is at least every other representation of `s` in tuple order. |
| Tables.SumTableLookup | euler-multiprocessing.py:34-37 | The sum table maps `s` to `p` exactly when `p` is the greatest representation of `s`; `s` is missing exactly when it has no representation. |
| Tables.SumTableComplete | euler-multiprocessing.py:34-37 | Every `a**5 + b**5` with `1 <= a <= b < N` is a key of the sum table. |
| Tables.SumTableAscending | euler-multiprocessing.py:34-37 | The keys of the sum table strictly increase in iteration order. |
| Tables.TablesValid | euler-multiprocessing.py:33-37 | Every property of the two tables that the search relies on holds of the tables the program builds. |
| Search.StrideIndices | euler-multiprocessing.py:13 | `powers[start::pool_size]` visits `start, start + pool_size, start + 2 * pool_size, ...` in that order, each once, stopping below `len(powers)`; these are exactly the indices below `len(powers)` reached from `start` in steps of `pool_size`. |
| Search.Stride | euler-multiprocessing.py:13 | Element `k` of the slice `s[start::step]` is `s` at the `k`-th visited index. |
| Search.StridesPartition | euler-multiprocessing.py:38-40 | Worker `w` visits exactly the indices with remainder `w` modulo `pool_size`, every index is visited by some worker, and no index is visited by two workers. |
| Search.FilterFrom | euler-multiprocessing.py:15-21 | The reference inner loop without the `break` reports a line exactly when some entry with `val <= e**5 // 2` produces it. |
| Search.BreakIsSound | euler-multiprocessing.py:14-17 | On a table with ascending keys, the loop that breaks at the first `val > half` reports the same lines, in the same order, as trying every entry with `val <= half`. |
| Search.ScanLoop | euler-multiprocessing.py:14-21 | The imperative inner loop, with its `break`, prints exactly the lines of `ScanEntry`. |
| Search.ScanAll | euler-multiprocessing.py:13-21 | A line is reported for a run of powers exactly when some power of the run reports it. |
| Search.Call | euler-multiprocessing.py:12-21 | `Search.__call__(start)` prints exactly `Worker`'s lines, in order. |
| Search.WorkerMembers | euler-multiprocessing.py:12-21 | Worker `start` reports a line exactly when some power at an index of its slice reports it. |
| Search.RunWorkersMembers | euler-multiprocessing.py:38-40 | Workers `w .. pool_size-1` together report a line exactly when a power whose index has remainder at least `w` reports it. |
| Search.AllWorkersMembers | euler-multiprocessing.py:38-40 | All workers together report a line exactly when some power of the whole power table reports it. |
| Search.PoolSizeInvariance | euler-multiprocessing.py:38-40 | Any two pool sizes report the same set of lines. |
| Solutions.EntryReportsSound | euler-multiprocessing.py:14-21 | A line reported for the power at index `i` has `e == i + 1` and satisfies `Reported`. |
| Solutions.EntryReportsComplete | euler-multiprocessing.py:14-21 | A line satisfying `Reported` is reported for the power of its own `e`. |
| Solutions.EntryReports | euler-multiprocessing.py:14-21 | The inner loop for index `i` reports a line exactly when the line's `e` is `i + 1` and the line satisfies `Reported`. |
| Solutions.WorkersReport | euler-multiprocessing.py:38-40 | On valid tables, the workers together report a line exactly when it satisfies `Reported`. |
| Solutions.RunReports | euler-multiprocessing.py:12-21 | For every pool size, the program prints a line exactly when `(a, b)` and `(c, d)` are the stored pairs for `val <= e**5 // 2` and `e**5 - val`, `b < c`, and the gcd is 1. |
| Solutions.ReportedIsPrimitiveSolution | euler-multiprocessing.py:18-20 | A line passing the lookup and filter is a solution with `1 <= a <= b < c <= d < N` and no common divisor above 1. |
| Solutions.RunSound | euler-multiprocessing.py:18-21 | Every printed line is a primitive solution of `a^5 + b^5 + c^5 + d^5 == e^5`. |
| Solutions.EntrySound | euler-multiprocessing.py:14-21 | A line reported for the power at index `i` has `e == i + 1` and is a primitive solution. |
| Solutions.WorkerSound | euler-multiprocessing.py:12-21 | Worker `start` prints only primitive solutions whose `e - 1` is an index of its own slice. |
| Solutions.FilterFromAscending | euler-multiprocessing.py:15-21 | The lines tried from position `j` have strictly increasing `a**5 + b**5`, none below the key at `j`. |
| Solutions.EntryOutputAscending | euler-multiprocessing.py:15-21 | For one `e`, lines come out in strictly increasing order of `a**5 + b**5`. |
| Solutions.SolutionFound | euler-multiprocessing.py:14-21 | A primitive solution whose two halves are the pairs the table stores for their sums is printed, for every pool size. |
| Solutions.SmallBoundReportsNothing | euler-multiprocessing.py:33-37 | With `N <= 3` nothing is printed. |
| Solutions.GreatestRepByGaps | euler-multiprocessing.py:34-37 | A pair is the stored representation of its sum when no larger second base leaves a fifth power as the remainder. |
| Solutions.FirstHalfStored | euler-multiprocessing.py:34-37 | For `N >= 85` the sum table stores `(27, 84)` for `27^5 + 84^5`. |
| Solutions.SecondHalfStored | euler-multiprocessing.py:34-37 | For `N >= 134` the sum table stores `(110, 133)` for `110^5 + 133^5`. |
| Solutions.KnownSolutionReported | euler-multiprocessing.py:12-21 | For every bound `N >= 145` and every pool size, `27 84 110 133 144` is printed. |
| Arith.Gcd4Divisors | euler-multiprocessing.py:20 | `k >= 1` divides `gcd(a, b, c, d)` exactly when it divides all four numbers. |
| Arith.Gcd4IsOneIffCoprime | euler-multiprocessing.py:20 | `gcd(a, b, c, d) == 1` exactly when the only positive common divisor of the four is 1. |

## Left out

- Command-line parsing (lines 24-31): `N` and `pool_size` are parameters of
  `Run`. Their defaults, 150 and 4, are not modelled. The known-solution lemma
  covers every bound above 144.
- The process pool (lines 38-40): the workers run one after another and
  their lines are concatenated in worker order. Real workers run
  concurrently, so stdout may interleave lines differently. The order-free
  statements (`RunReports`, `PoolSizeInvariance`) describe what any
  interleaving prints.
- `pool_size >= 1` is a precondition throughout, because `Pool(0)` and a
  slice step of 0 raise in Python. The error itself is not modelled.
- `print` writes to stdout. Here each line is a `Quint` appended to the
  result.
- `math.gcd` is a library call. It is replaced by Euclid's algorithm on
  absolute values, with its divisor characterisation proved.
- Hashing and the internal layout of `dict`, and the iterator machinery of
  `itertools.combinations_with_replacement`, are not modelled. Only their
  observable results are: insertion order, last-write-wins and generation
  order.
- Solutions.SolutionFound: completeness is stated only for solutions whose
  halves are the pairs the table stores. The program keeps one pair per sum,
  so a solution whose half is another representation of a shared sum is not
  printed.
