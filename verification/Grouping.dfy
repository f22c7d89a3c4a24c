/** Aggregation by key: what the analytics loops build in insertion-ordered dictionaries. */
module Grouping {
  import opened Wrappers

  // ---------- flattening maps ----------

  function FlatMap<A, B>(s: seq<A>, g: A -> seq<B>): seq<B> {
    if s == [] then [] else FlatMap(s[..|s| - 1], g) + g(s[|s| - 1])
  }

  lemma FlatMapSnoc<A, B>(s: seq<A>, x: A, g: A -> seq<B>)
    ensures FlatMap(s + [x], g) == FlatMap(s, g) + g(x)
  {
    assert (s + [x])[..|s|] == s;
  }

  lemma {:induction false} FlatMapConcat<A, B>(s: seq<A>, t: seq<A>, g: A -> seq<B>)
    ensures FlatMap(s + t, g) == FlatMap(s, g) + FlatMap(t, g)
  {
    if t == [] {
      assert s + t == s;
    } else {
      var init, x := t[..|t| - 1], t[|t| - 1];
      assert s + t == (s + init) + [x];
      FlatMapConcat(s, init, g);
      FlatMapSnoc(s + init, x, g);
      Assoc(FlatMap(s, g), FlatMap(init, g), g(x));
    }
  }

  lemma FlatMapOne<A, B>(x: A, g: A -> seq<B>)
    ensures FlatMap([x], g) == g(x)
  {
    FlatMapSnoc([], x, g);
    assert [] + [x] == [x];
  }

  lemma FlatMapTwo<A, B>(x: A, y: A, g: A -> seq<B>)
    ensures FlatMap([x, y], g) == g(x) + g(y)
  {
    FlatMapOne(x, g);
    FlatMapSnoc([x], y, g);
    assert [x] + [y] == [x, y];
  }

  lemma FlatMapAround<A, B>(a: seq<A>, mid: seq<A>, b: seq<A>, g: A -> seq<B>)
    ensures FlatMap(a + mid + b, g) == FlatMap(a, g) + FlatMap(mid, g) + FlatMap(b, g)
  {
    FlatMapConcat(a + mid, b, g);
    FlatMapConcat(a, mid, g);
  }

  predicate Perm<A(==)>(s: seq<A>, t: seq<A>) {
    multiset(s) == multiset(t)
  }

  lemma BagWithout<A>(t: seq<A>, i: nat)
    requires i < |t|
    ensures t == t[..i] + [t[i]] + t[i + 1..]
    ensures multiset(t) == multiset(t[..i] + t[i + 1..]) + multiset{t[i]}
  {
    assert t == t[..i] + [t[i]] + t[i + 1..];
    assert multiset(t[..i] + [t[i]] + t[i + 1..]) == multiset(t[..i]) + multiset{t[i]} + multiset(t[i + 1..]);
    assert multiset(t[..i] + t[i + 1..]) == multiset(t[..i]) + multiset(t[i + 1..]);
  }

  lemma BagLast<A>(s: seq<A>)
    requires s != []
    ensures multiset(s) == multiset(s[..|s| - 1]) + multiset{s[|s| - 1]}
  {
    assert s == s[..|s| - 1] + [s[|s| - 1]];
  }

  lemma BagCancel<A>(a: multiset<A>, b: multiset<A>, x: A)
    requires a + multiset{x} == b + multiset{x}
    ensures a == b
  {
    assert a == (a + multiset{x}) - multiset{x};
    assert b == (b + multiset{x}) - multiset{x};
  }

  /** A permutation of `s` is one of all but the last element of `s`, with the last put in somewhere. */
  lemma PermSplit<A>(s: seq<A>, t: seq<A>) returns (i: nat)
    requires Perm(s, t) && s != []
    ensures i < |t| && t[i] == s[|s| - 1] && Perm(s[..|s| - 1], t[..i] + t[i + 1..])
    ensures t == t[..i] + [t[i]] + t[i + 1..]
  {
    var x := s[|s| - 1];
    assert x in multiset(t) by {
      assert x in multiset(s);
    }
    i :| 0 <= i < |t| && t[i] == x;
    BagLast(s);
    BagWithout(t, i);
    BagCancel(multiset(s[..|s| - 1]), multiset(t[..i] + t[i + 1..]), x);
  }

  lemma EmptyPerm<A>(s: seq<A>, t: seq<A>)
    requires Perm(s, t)
    ensures s == [] <==> t == []
  {
    assert |multiset(s)| == |s| && |multiset(t)| == |t|;
  }

  lemma {:induction false} FlatMapPerm<A, B>(s: seq<A>, t: seq<A>, g: A -> seq<B>)
    requires Perm(s, t)
    ensures Perm(FlatMap(s, g), FlatMap(t, g))
  {
    if s == [] {
      EmptyPerm(s, t);
    } else {
      var i := PermSplit(s, t);
      FlatMapPerm(s[..|s| - 1], t[..i] + t[i + 1..], g);
      FlatMapConcat(t[..i], t[i + 1..], g);
      FlatMapConcat(t[..i] + [t[i]], t[i + 1..], g);
      FlatMapSnoc(t[..i], t[i], g);
    }
  }

  lemma {:induction false} DistinctCount<A>(s: seq<A>, x: A)
    requires Distinct(s)
    ensures multiset(s)[x] == if x in s then 1 else 0
  {
    if s != [] {
      DistinctCount(s[..|s| - 1], x);
      assert s == s[..|s| - 1] + [s[|s| - 1]];
    }
  }

  lemma DistinctPerm<A>(s: seq<A>, t: seq<A>)
    requires Distinct(s) && Distinct(t) && forall x :: x in s <==> x in t
    ensures Perm(s, t)
  {
    forall x: A | x in multiset(s) || x in multiset(t) ensures multiset(s)[x] == multiset(t)[x] {
      DistinctCount(s, x);
      DistinctCount(t, x);
    }
  }

  // ---------- grouping ----------

  /** The keys of `items`, each once, in order of first occurrence. */
  function Keys<K(==), V>(items: seq<(K, V)>): seq<K> {
    if items == [] then [] else
    var ks, k := Keys(items[..|items| - 1]), items[|items| - 1].0;
    if k in ks then ks else ks + [k]
  }

  lemma {:induction false} KeysAre<K, V>(items: seq<(K, V)>)
    ensures Distinct(Keys(items))
    ensures forall k :: k in Keys(items) <==> exists i :: 0 <= i < |items| && items[i].0 == k
  {
    if items != [] {
      KeysAre(items[..|items| - 1]);
      forall i | 0 <= i < |items| ensures items[i].0 in Keys(items) {
        assert i < |items| - 1 ==> items[..|items| - 1][i] == items[i];
      }
    }
  }

  function ValueAt<K(==), V>(k: K): ((K, V)) -> seq<V> {
    (item: (K, V)) => if item.0 == k then [item.1] else []
  }

  /** The values filed under `k`, in order. */
  function Values<K(==), V>(items: seq<(K, V)>, k: K): seq<V> {
    FlatMap(items, ValueAt(k))
  }

  /** One entry a key, in order of first occurrence. */
  function Grouped<K(==), V, W>(items: seq<(K, V)>, f: (K, seq<V>) -> W): seq<(K, W)> {
    var ks := Keys(items);
    seq(|ks|, i requires 0 <= i < |ks| => (ks[i], f(ks[i], Values(items, ks[i]))))
  }

  lemma ValuesSnoc<K, V>(items: seq<(K, V)>, k: K, v: V, key: K)
    ensures Values(items + [(k, v)], key) == if key == k then Values(items, key) + [v] else Values(items, key)
  {
    FlatMapSnoc(items, (k, v), ValueAt(key));
  }

  lemma KeysSnoc<K, V>(items: seq<(K, V)>, k: K, v: V)
    ensures Keys(items + [(k, v)]) == if k in Keys(items) then Keys(items) else Keys(items) + [k]
  {
    assert (items + [(k, v)])[..|items|] == items;
  }

  lemma {:induction false} NoValues<K, V>(items: seq<(K, V)>, k: K)
    ensures Values(items, k) == [] <==> k !in Keys(items)
  {
    if items != [] {
      NoValues(items[..|items| - 1], k);
    }
  }

  lemma GroupedNew<K, V, W>(items: seq<(K, V)>, k: K, v: V, f: (K, seq<V>) -> W)
    requires k !in Keys(items)
    ensures Grouped(items + [(k, v)], f) == Grouped(items, f) + [(k, f(k, [v]))]
  {
    var g, g' := Grouped(items, f), Grouped(items + [(k, v)], f);
    KeysSnoc(items, k, v);
    NoValues(items, k);
    ValuesSnoc(items, k, v, k);
    assert [] + [v] == [v];
    forall i | 0 <= i < |g| ensures g'[i] == g[i] {
      assert Keys(items)[i] in Keys(items);
      ValuesSnoc(items, k, v, Keys(items)[i]);
    }
  }

  lemma GroupedOld<K, V, W>(items: seq<(K, V)>, j: nat, v: V, f: (K, seq<V>) -> W)
    requires j < |Keys(items)|
    ensures var k := Keys(items)[j];
      Grouped(items + [(k, v)], f) == Grouped(items, f)[j := (k, f(k, Values(items, k) + [v]))]
  {
    var k := Keys(items)[j];
    var g, g' := Grouped(items, f), Grouped(items + [(k, v)], f);
    KeysSnoc(items, k, v);
    KeysAre(items);
    ValuesSnoc(items, k, v, k);
    forall i | 0 <= i < |g| && i != j ensures g'[i] == g[i] {
      assert Keys(items)[i] != k;
      ValuesSnoc(items, k, v, Keys(items)[i]);
    }
  }

  /** Filing one more item appends an entry or changes one in place. */
  lemma GroupedSnoc<K, V, W>(items: seq<(K, V)>, k: K, v: V, f: (K, seq<V>) -> W)
    ensures var g, g' := Grouped(items, f), Grouped(items + [(k, v)], f);
      if k !in Keys(items) then g' == g + [(k, f(k, [v]))] else
      exists j :: 0 <= j < |g| && Keys(items)[j] == k && g' == g[j := (k, f(k, Values(items, k) + [v]))]
  {
    if k in Keys(items) {
      var j :| 0 <= j < |Keys(items)| && Keys(items)[j] == k;
      GroupedOld(items, j, v, f);
    } else {
      GroupedNew(items, k, v, f);
    }
  }

  // ---------- grouping does not depend on the order of the items ----------

  ghost predicate OrderBlind<K(!new), V(!new), W>(f: (K, seq<V>) -> W) {
    forall k: K, s: seq<V>, t: seq<V> :: Perm(s, t) ==> f(k, s) == f(k, t)
  }

  function EntryOf<K(==), V, W>(items: seq<(K, V)>, f: (K, seq<V>) -> W): K -> seq<(K, W)> {
    (k: K) => [(k, f(k, Values(items, k)))]
  }

  lemma {:induction false} GroupedIsFlatMap<K, V, W>(items: seq<(K, V)>, f: (K, seq<V>) -> W, n: nat)
    requires n <= |Keys(items)|
    ensures FlatMap(Keys(items)[..n], EntryOf(items, f)) == Grouped(items, f)[..n]
  {
    if n > 0 {
      GroupedIsFlatMap(items, f, n - 1);
      assert Keys(items)[..n] == Keys(items)[..n - 1] + [Keys(items)[n - 1]];
      FlatMapSnoc(Keys(items)[..n - 1], Keys(items)[n - 1], EntryOf(items, f));
    }
  }

  lemma KeysPerm<K, V>(a: seq<(K, V)>, b: seq<(K, V)>)
    requires Perm(a, b)
    ensures Perm(Keys(a), Keys(b))
  {
    forall k ensures k in Keys(a) <==> k in Keys(b) {
      FlatMapPerm(a, b, ValueAt<K, V>(k));
      NoValues(a, k);
      NoValues(b, k);
      EmptyPerm(Values(a, k), Values(b, k));
    }
    KeysAre(a);
    KeysAre(b);
    DistinctPerm(Keys(a), Keys(b));
  }

  lemma GroupedIs<K, V, W>(items: seq<(K, V)>, f: (K, seq<V>) -> W)
    ensures FlatMap(Keys(items), EntryOf(items, f)) == Grouped(items, f)
  {
    GroupedIsFlatMap(items, f, |Keys(items)|);
    assert Keys(items)[..|Keys(items)|] == Keys(items);
    assert Grouped(items, f)[..|Keys(items)|] == Grouped(items, f);
  }

  lemma GroupedPerm<K(!new), V(!new), W>(a: seq<(K, V)>, b: seq<(K, V)>, f: (K, seq<V>) -> W)
    requires Perm(a, b) && OrderBlind(f)
    ensures Perm(Grouped(a, f), Grouped(b, f))
  {
    KeysPerm(a, b);
    GroupedIs(a, f);
    GroupedIs(b, f);
    forall k ensures EntryOf(a, f)(k) == EntryOf(b, f)(k) {
      FlatMapPerm(a, b, ValueAt<K, V>(k));
      assert Perm(Values(a, k), Values(b, k));
      assert f(k, Values(a, k)) == f(k, Values(b, k));
    }
    FlatMapSame(Keys(b), EntryOf(a, f), EntryOf(b, f));
    FlatMapPerm(Keys(a), Keys(b), EntryOf(a, f));
  }

  lemma {:induction false} FlatMapSame<A, B>(s: seq<A>, g: A -> seq<B>, h: A -> seq<B>)
    requires forall i :: 0 <= i < |s| ==> g(s[i]) == h(s[i])
    ensures FlatMap(s, g) == FlatMap(s, h)
  {
    if s != [] {
      FlatMapSame(s[..|s| - 1], g, h);
    }
  }

  // ---------- insertion-ordered dictionaries ----------

  /** A Python dictionary: `keys` in insertion order, and the value of each. */
  datatype Dict<K, V> = Dict(keys: seq<K>, values: map<K, V>) {
    function Put(k: K, v: V): Dict<K, V> {
      Dict(if k in keys then keys else keys + [k], values[k := v])
    }

    function Get(k: K, default: V): V {
      if k in values then values[k] else default
    }
  }

  /** The dictionary that files `items` by key and holds `f` of each group. */
  function Tabulate<K(==), V, W>(items: seq<(K, V)>, f: (K, seq<V>) -> W): Dict<K, W> {
    if items == [] then Dict([], map[]) else
    var k := items[|items| - 1].0;
    Tabulate(items[..|items| - 1], f).Put(k, f(k, Values(items, k)))
  }

  /** Filing one more item is one update of the dictionary. */
  lemma TabulateSnoc<K, V, W>(items: seq<(K, V)>, k: K, v: V, f: (K, seq<V>) -> W)
    ensures Tabulate(items + [(k, v)], f) == Tabulate(items, f).Put(k, f(k, Values(items, k) + [v]))
  {
    assert (items + [(k, v)])[..|items|] == items;
    ValuesSnoc(items, k, v, k);
  }

  lemma {:induction false} TabulateAt<K, V, W>(items: seq<(K, V)>, f: (K, seq<V>) -> W, key: K)
    ensures Tabulate(items, f).keys == Keys(items)
    ensures key in Tabulate(items, f).values <==> key in Keys(items)
    ensures key in Keys(items) ==> Tabulate(items, f).values[key] == f(key, Values(items, key))
  {
    if items != [] {
      var init := items[..|items| - 1];
      var (k, v) := items[|items| - 1];
      TabulateAt(init, f, key);
      assert items == init + [(k, v)];
      ValuesSnoc(init, k, v, key);
    }
  }

  /** Its keys are in order of first occurrence, and each holds `f` of its own group. */
  lemma TabulateIs<K, V, W>(items: seq<(K, V)>, f: (K, seq<V>) -> W)
    ensures Tabulate(items, f).keys == Keys(items)
    ensures forall k :: k in Keys(items) ==>
      k in Tabulate(items, f).values && Tabulate(items, f).values[k] == f(k, Values(items, k))
  {
    if items != [] {
      TabulateAt(items, f, items[0].0);
    }
    forall k | k in Keys(items)
      ensures k in Tabulate(items, f).values && Tabulate(items, f).values[k] == f(k, Values(items, k))
    {
      TabulateAt(items, f, k);
    }
  }

  /** Reading a group, the empty one standing in for a missing key. */
  lemma TabulateGet<K, V, W>(items: seq<(K, V)>, k: K, f: (K, seq<V>) -> W)
    ensures Tabulate(items, f).Get(k, f(k, [])) == f(k, Values(items, k))
  {
    TabulateAt(items, f, k);
    NoValues(items, k);
  }

  /** A row for each entry of a dictionary, in order. */
  function RowsFrom<K, W, R>(d: Dict<K, W>, row: (K, W) -> R): seq<R>
    requires forall k :: k in d.keys ==> k in d.values
  {
    seq(|d.keys|, i requires 0 <= i < |d.keys| => row(d.keys[i], d.values[d.keys[i]]))
  }

  function Second<K, V>(): ((K, V)) -> V {
    (p: (K, V)) => p.1
  }

  /** Rows made from the dictionary are rows made from the groups. */
  lemma RowsAre<K(!new), V(!new), W, R>(items: seq<(K, V)>, f: (K, seq<V>) -> W, row: (K, W) -> R, g: (K, seq<V>) -> R)
    requires forall k: K, vs: seq<V> :: row(k, f(k, vs)) == g(k, vs)
    ensures forall k :: k in Tabulate(items, f).keys ==> k in Tabulate(items, f).values
    ensures RowsFrom(Tabulate(items, f), row) == Map(Grouped(items, g), Second())
  {
    TabulateIs(items, f);
  }

  // ---------- sorting ----------

  /** Insert before the first element that does not outrank `x`. */
  function Insert<A>(x: A, ys: seq<A>, rank: A -> real): seq<A> {
    if ys == [] || rank(x) >= rank(ys[0]) then [x] + ys else [ys[0]] + Insert(x, ys[1..], rank)
  }

  /** Python's stable `sort(key=rank, reverse=True)`. */
  function SortDesc<A>(xs: seq<A>, rank: A -> real): seq<A> {
    if xs == [] then [] else Insert(xs[0], SortDesc(xs[1..], rank), rank)
  }

  ghost predicate Descending<A>(xs: seq<A>, rank: A -> real) {
    forall i, j :: 0 <= i < j < |xs| ==> rank(xs[i]) >= rank(xs[j])
  }

  function OfRank<A>(xs: seq<A>, rank: A -> real, r: real): seq<A> {
    if xs == [] then []
    else if rank(xs[0]) == r then [xs[0]] + OfRank(xs[1..], rank, r)
    else OfRank(xs[1..], rank, r)
  }

  lemma {:induction false} InsertPerm<A>(x: A, ys: seq<A>, rank: A -> real)
    ensures multiset(Insert(x, ys, rank)) == multiset{x} + multiset(ys)
  {
    if ys != [] && rank(x) < rank(ys[0]) {
      InsertPerm(x, ys[1..], rank);
      assert ys == [ys[0]] + ys[1..];
    }
  }

  lemma DescendingCons<A>(x: A, ys: seq<A>, rank: A -> real)
    requires Descending(ys, rank) && forall i :: 0 <= i < |ys| ==> rank(x) >= rank(ys[i])
    ensures Descending([x] + ys, rank)
  {
  }

  lemma {:induction false} InsertSorted<A>(x: A, ys: seq<A>, rank: A -> real)
    requires Descending(ys, rank)
    ensures Descending(Insert(x, ys, rank), rank)
  {
    if ys == [] || rank(x) >= rank(ys[0]) {
      DescendingCons(x, ys, rank);
    } else {
      var rest := Insert(x, ys[1..], rank);
      InsertSorted(x, ys[1..], rank);
      InsertPerm(x, ys[1..], rank);
      forall i | 0 <= i < |rest| ensures rank(ys[0]) >= rank(rest[i]) {
        assert rest[i] in multiset(rest);
        assert rest[i] == x || rest[i] in ys[1..];
      }
      DescendingCons(ys[0], rest, rank);
    }
  }

  lemma {:induction false} InsertStable<A>(x: A, ys: seq<A>, rank: A -> real, r: real)
    ensures OfRank(Insert(x, ys, rank), rank, r) ==
      if rank(x) == r then [x] + OfRank(ys, rank, r) else OfRank(ys, rank, r)
  {
    if ys == [] || rank(x) >= rank(ys[0]) {
      assert ([x] + ys)[1..] == ys;
    } else {
      var rest := Insert(x, ys[1..], rank);
      InsertStable(x, ys[1..], rank, r);
      assert ([ys[0]] + rest)[1..] == rest;
    }
  }

  lemma {:induction false} SortPerm<A>(xs: seq<A>, rank: A -> real)
    ensures Perm(SortDesc(xs, rank), xs)
  {
    if xs != [] {
      SortPerm(xs[1..], rank);
      InsertPerm(xs[0], SortDesc(xs[1..], rank), rank);
      assert xs == [xs[0]] + xs[1..];
    }
  }

  lemma {:induction false} SortRanks<A>(xs: seq<A>, rank: A -> real)
    ensures Descending(SortDesc(xs, rank), rank)
  {
    if xs != [] {
      SortRanks(xs[1..], rank);
      InsertSorted(xs[0], SortDesc(xs[1..], rank), rank);
    }
  }

  lemma {:induction false} SortStable<A>(xs: seq<A>, rank: A -> real, r: real)
    ensures OfRank(SortDesc(xs, rank), rank, r) == OfRank(xs, rank, r)
  {
    if xs != [] {
      SortStable(xs[1..], rank, r);
      InsertStable(xs[0], SortDesc(xs[1..], rank), rank, r);
    }
  }

  /** The sort ranks, keeps every element, and keeps the order of elements of equal rank. The first and
      the last determine its result (`SortDescUnique`). */
  lemma SortDescIs<A>(xs: seq<A>, rank: A -> real, r: real)
    ensures Descending(SortDesc(xs, rank), rank)
    ensures Perm(SortDesc(xs, rank), xs)
    ensures OfRank(SortDesc(xs, rank), rank, r) == OfRank(xs, rank, r)
  {
    SortRanks(xs, rank);
    SortPerm(xs, rank);
    SortStable(xs, rank, r);
  }

  /** The same elements of each rank, in the same order. */
  ghost predicate SameOfRank<A>(xs: seq<A>, ys: seq<A>, rank: A -> real) {
    forall r: real :: OfRank(xs, rank, r) == OfRank(ys, rank, r)
  }

  lemma {:induction false} NoneOfRank<A>(xs: seq<A>, rank: A -> real, r: real)
    requires forall i :: 0 <= i < |xs| ==> rank(xs[i]) != r
    ensures OfRank(xs, rank, r) == []
  {
    if xs != [] {
      NoneOfRank(xs[1..], rank, r);
    }
  }

  lemma HeadOfRank<A>(xs: seq<A>, ys: seq<A>, rank: A -> real)
    requires xs != [] && Descending(ys, rank)
    requires SameOfRank(xs, ys, rank)
    ensures ys != [] && rank(ys[0]) >= rank(xs[0])
  {
    var r := rank(xs[0]);
    assert OfRank(xs, rank, r) == OfRank(ys, rank, r);
    if ys == [] || rank(ys[0]) < r {
      NoneOfRank(ys, rank, r);
    }
  }

  lemma OfRankHead<A>(xs: seq<A>, rank: A -> real)
    requires xs != []
    ensures OfRank(xs, rank, rank(xs[0])) != [] && OfRank(xs, rank, rank(xs[0]))[0] == xs[0]
  {
  }

  /** Two ranked lists with the same elements of each rank, in the same order, are equal. */
  lemma {:induction false} RankedUnique<A>(xs: seq<A>, ys: seq<A>, rank: A -> real)
    requires Descending(xs, rank) && Descending(ys, rank)
    requires SameOfRank(xs, ys, rank)
    ensures xs == ys
  {
    if xs == [] {
      if ys != [] {
        HeadOfRank(ys, xs, rank);
      }
    } else {
      HeadOfRank(xs, ys, rank);
      HeadOfRank(ys, xs, rank);
      OfRankHead(xs, rank);
      OfRankHead(ys, rank);
      assert xs[0] == ys[0];
      forall r: real ensures OfRank(xs[1..], rank, r) == OfRank(ys[1..], rank, r) {
        assert OfRank(xs, rank, r) == OfRank(ys, rank, r);
        if rank(xs[0]) == r {
          assert OfRank(xs[1..], rank, r) == OfRank(xs, rank, r)[1..];
          assert OfRank(ys[1..], rank, r) == OfRank(ys, rank, r)[1..];
        }
      }
      RankedUnique(xs[1..], ys[1..], rank);
      assert xs == [xs[0]] + xs[1..] && ys == [ys[0]] + ys[1..];
    }
  }

  /** The sort is the one ranked list that keeps the order of elements of equal rank. */
  lemma SortDescUnique<A>(xs: seq<A>, ys: seq<A>, rank: A -> real)
    ensures ys == SortDesc(xs, rank) <==> Descending(ys, rank) && SameOfRank(ys, xs, rank)
  {
    var sorted := SortDesc(xs, rank);
    SortRanks(xs, rank);
    forall r: real ensures OfRank(sorted, rank, r) == OfRank(xs, rank, r) {
      SortStable(xs, rank, r);
    }
    assert SameOfRank(sorted, xs, rank);
    if Descending(ys, rank) && SameOfRank(ys, xs, rank) {
      forall r: real ensures OfRank(ys, rank, r) == OfRank(sorted, rank, r) {
        assert OfRank(ys, rank, r) == OfRank(xs, rank, r) == OfRank(sorted, rank, r);
      }
      RankedUnique(ys, sorted, rank);
    }
  }

  function Map<A, B>(xs: seq<A>, p: A -> B): seq<B> {
    seq(|xs|, i requires 0 <= i < |xs| => p(xs[i]))
  }

  lemma MapSnoc<A, B>(xs: seq<A>, x: A, p: A -> B)
    ensures Map(xs + [x], p) == Map(xs, p) + [p(x)]
  {
  }

  lemma {:induction false} InsertMap<A, B>(x: A, ys: seq<A>, rank: A -> real, p: A -> B, rankB: B -> real)
    requires rankB(p(x)) == rank(x) && forall i :: 0 <= i < |ys| ==> rankB(p(ys[i])) == rank(ys[i])
    ensures Map(Insert(x, ys, rank), p) == Insert(p(x), Map(ys, p), rankB)
  {
    hide Map;
    if ys == [] {
      MapCons(x, ys, p);
      MapNothing(ys, p);
    } else {
      MapTail(ys, p);
      if rank(x) >= rank(ys[0]) {
        MapCons(x, ys, p);
      } else {
        InsertMap(x, ys[1..], rank, p, rankB);
        MapCons(ys[0], Insert(x, ys[1..], rank), p);
      }
    }
  }

  lemma MapNothing<A, B>(xs: seq<A>, p: A -> B)
    requires xs == []
    ensures Map(xs, p) == []
  {
  }

  lemma MapCons<A, B>(x: A, xs: seq<A>, p: A -> B)
    ensures Map([x] + xs, p) == [p(x)] + Map(xs, p)
  {
  }

  lemma MapTail<A, B>(xs: seq<A>, p: A -> B)
    requires xs != []
    ensures Map(xs, p) != [] && Map(xs, p)[0] == p(xs[0]) && Map(xs, p)[1..] == Map(xs[1..], p)
  {
  }

  /** Sorting commutes with a projection that keeps the rank. */
  lemma {:induction false} SortDescMap<A(!new), B>(xs: seq<A>, rank: A -> real, p: A -> B, rankB: B -> real)
    requires forall x: A :: rankB(p(x)) == rank(x)
    ensures Map(SortDesc(xs, rank), p) == SortDesc(Map(xs, p), rankB)
  {
    if xs != [] {
      SortDescMap(xs[1..], rank, p, rankB);
      InsertMap(xs[0], SortDesc(xs[1..], rank), rank, p, rankB);
      assert Map(xs, p)[1..] == Map(xs[1..], p);
    }
  }
}
