/**
 * The tally objects of the frontend (`bySource`, `byDate`, `byYear`, `byDomain`, `counts`): a key
 * is bumped with `obj[k] = (obj[k] || 0) + 1`, then `Object.entries(obj)` is sorted with a
 * comparator and sliced. An object is kept as its entries in insertion order, and
 * `Array.prototype.sort`, which is stable, as a stable insertion sort.
 */
module Counting {
  /** One entry of a tally object. */
  datatype Entry<K> = Entry(key: K, count: nat)

  function Keys<K>(es: seq<Entry<K>>): (r: seq<K>)
    ensures |r| == |es| && forall i :: 0 <= i < |es| ==> r[i] == es[i].key
  {
    seq(|es|, i requires 0 <= i < |es| => es[i].key)
  }

  /** The count stored under `k`, `0` (the `|| 0`) when there is none. */
  function CountOf<K(==)>(es: seq<Entry<K>>, k: K): nat
  {
    if es == [] then 0 else if es[0].key == k then es[0].count else CountOf(es[1..], k)
  }

  /** The sum of the counts. */
  function Total<K>(es: seq<Entry<K>>): nat
  {
    if es == [] then 0 else es[0].count + Total(es[1..])
  }

  predicate DistinctKeys<K(==)>(es: seq<Entry<K>>)
  {
    forall i, j :: 0 <= i < j < |es| ==> es[i].key != es[j].key
  }

  predicate Positive<K>(es: seq<Entry<K>>)
  {
    forall i :: 0 <= i < |es| ==> es[i].count > 0
  }

  /** `obj[k] = (obj[k] || 0) + 1`: the entry of `k` goes up by one, or a new entry `k: 1` is added last. */
  function Bump<K(==)>(es: seq<Entry<K>>, k: K): (r: seq<Entry<K>>)
  {
    if es == [] then [Entry(k, 1)]
    else if es[0].key == k then [Entry(k, es[0].count + 1)] + es[1..]
    else [es[0]] + Bump(es[1..], k)
  }

  /** Bumping adds one to the count of `k` and touches no other count. */
  lemma {:induction false} BumpCount<K>(es: seq<Entry<K>>, k: K)
    ensures forall x :: CountOf(Bump(es, k), x) == CountOf(es, x) + (if x == k then 1 else 0)
    decreases |es|
  {
    if es != [] && es[0].key != k {
      BumpCount(es[1..], k);
      assert Bump(es, k)[1..] == Bump(es[1..], k);
    }
  }

  /** Bumping adds one to the total. */
  lemma {:induction false} BumpTotal<K>(es: seq<Entry<K>>, k: K)
    ensures Total(Bump(es, k)) == Total(es) + 1
    decreases |es|
  {
    if es != [] && es[0].key != k {
      BumpTotal(es[1..], k);
      assert Bump(es, k)[1..] == Bump(es[1..], k);
    } else if es != [] {
      assert Bump(es, k)[1..] == es[1..];
    }
  }

  /** Bumping keeps the order of the keys, adding `k` last when it is new. */
  lemma {:induction false} BumpKeys<K>(es: seq<Entry<K>>, k: K)
    ensures Keys(Bump(es, k)) == if k in Keys(es) then Keys(es) else Keys(es) + [k]
    decreases |es|
  {
    if es != [] {
      var r := Bump(es, k);
      KeysCons(es);
      if es[0].key != k {
        BumpKeys(es[1..], k);
        assert r[1..] == Bump(es[1..], k);
        KeysCons(r);
      } else {
        assert r[1..] == es[1..];
        KeysCons(r);
      }
    }
  }

  lemma KeysCons<K>(es: seq<Entry<K>>)
    requires es != []
    ensures Keys(es) == [es[0].key] + Keys(es[1..])
  {
  }

  /** Bumping keeps the keys distinct and the counts positive. */
  lemma BumpDistinct<K>(es: seq<Entry<K>>, k: K)
    requires DistinctKeys(es) && Positive(es)
    ensures DistinctKeys(Bump(es, k)) && Positive(Bump(es, k))
  {
    var r := Bump(es, k);
    BumpKeys(es, k);
    BumpCount(es, k);
    forall i, j | 0 <= i < j < |r| ensures r[i].key != r[j].key
    {
      assert Keys(r)[i] == r[i].key && Keys(r)[j] == r[j].key;
      if j < |es| {
        assert Keys(es)[i] == es[i].key && Keys(es)[j] == es[j].key;
      } else {
        assert k !in Keys(es) && r[j].key == k;
        assert Keys(es)[i] == es[i].key;
      }
    }
    forall i | 0 <= i < |r| ensures r[i].count > 0
    {
      CountOfEntry(r, i);
      if r[i].key in Keys(es) {
        var m :| 0 <= m < |es| && Keys(es)[m] == r[i].key;
        CountOfEntry(es, m);
      }
    }
  }

  /** The tally of a sequence of keys, bumped in order. */
  function Tally<K(==)>(ks: seq<K>): seq<Entry<K>>
  {
    if ks == [] then [] else Bump(Tally(ks[..|ks| - 1]), ks[|ks| - 1])
  }

  /** How many times `k` occurs. */
  function Occurrences<K(==)>(ks: seq<K>, k: K): nat
  {
    if ks == [] then 0 else Occurrences(ks[..|ks| - 1], k) + (if ks[|ks| - 1] == k then 1 else 0)
  }

  /**
   * `es` tallies `ks`: one positive entry per distinct key, each counting the occurrences of its
   * key, the counts adding up to the number of keys.
   */
  ghost predicate Tallies<K(!new)>(ks: seq<K>, es: seq<Entry<K>>)
  {
    && (forall x :: CountOf(es, x) == Occurrences(ks, x))
    && Total(es) == |ks|
    && DistinctKeys(es) && Positive(es)
    && (forall x :: x in Keys(es) <==> x in ks)
  }

  /**
   * The tally holds one positive entry per distinct key, in the order of first occurrence; each
   * counts the occurrences of its key, and the counts add up to the number of keys.
   */
  lemma TallySpec<K(!new)>(ks: seq<K>)
    ensures forall x :: CountOf(Tally(ks), x) == Occurrences(ks, x)
    ensures Total(Tally(ks)) == |ks|
    ensures DistinctKeys(Tally(ks)) && Positive(Tally(ks))
    ensures forall x :: x in Keys(Tally(ks)) <==> x in ks
  {
    TallyTallies(ks);
  }

  lemma {:induction false} TallyTallies<K(!new)>(ks: seq<K>)
    ensures Tallies(ks, Tally(ks))
  {
    if ks != [] {
      var init, last := ks[..|ks| - 1], ks[|ks| - 1];
      TallyTallies(init);
      assert ks == init + [last];
      BumpTallies(init, Tally(init), last);
    }
  }

  /** Bumping one more key keeps a tally. */
  lemma BumpTallies<K(!new)>(ks: seq<K>, es: seq<Entry<K>>, k: K)
    requires Tallies(ks, es)
    ensures Tallies(ks + [k], Bump(es, k))
  {
    var ks' := ks + [k];
    assert ks'[..|ks'| - 1] == ks;
    BumpCount(es, k);
    BumpTotal(es, k);
    BumpKeys(es, k);
    BumpDistinct(es, k);
    forall x ensures x in Keys(Bump(es, k)) <==> x in ks'
    {
      assert x in ks' <==> x in ks || x == k;
    }
  }

  /** With every count positive, there are no more entries than the counts add up to. */
  lemma {:induction false} PositiveTotal<K>(es: seq<Entry<K>>)
    requires Positive(es)
    ensures |es| <= Total(es)
  {
    if es != [] {
      PositiveTotal(es[1..]);
    }
  }

  /** A key's entry holds its count: with distinct keys, `CountOf` reads the entry itself. */
  lemma {:induction false} CountOfEntry<K>(es: seq<Entry<K>>, i: int)
    requires DistinctKeys(es) && 0 <= i < |es|
    ensures CountOf(es, es[i].key) == es[i].count
    decreases |es|
  {
    if i > 0 {
      assert es[1..][i - 1] == es[i];
      CountOfEntry(es[1..], i - 1);
    }
  }

  /** `lt(a, b)`: the comparator puts `a` strictly before `b`; a strict order. */
  ghost predicate StrictOrder<T(!new)>(lt: (T, T) -> bool)
  {
    (forall a :: !lt(a, a)) && forall a, b, c :: lt(a, b) && lt(b, c) ==> lt(a, c)
  }

  /** No element is put strictly before one that precedes it. */
  predicate SortedBy<T>(s: seq<T>, lt: (T, T) -> bool)
  {
    forall i, j :: 0 <= i < j < |s| ==> !lt(s[j], s[i])
  }

  /** Inserting after every element `x` does not go strictly before: what keeps the sort stable. */
  function Insert<T>(x: T, s: seq<T>, lt: (T, T) -> bool): (r: seq<T>)
    ensures multiset(r) == multiset(s) + multiset{x}
  {
    if s == [] then [x]
    else if lt(x, s[0]) then [x] + s
    else
      assert s == [s[0]] + s[1..];
      [s[0]] + Insert(x, s[1..], lt)
  }

  /** `Array.prototype.sort` with a comparator: a stable sort. */
  function Sort<T>(s: seq<T>, lt: (T, T) -> bool): (r: seq<T>)
    ensures multiset(r) == multiset(s)
  {
    if s == [] then []
    else
      assert s == s[..|s| - 1] + [s[|s| - 1]];
      Insert(s[|s| - 1], Sort(s[..|s| - 1], lt), lt)
  }

  /** Sorting moves entries without changing the sum of their counts. */
  lemma {:induction false} TotalInsert<K>(x: Entry<K>, s: seq<Entry<K>>, lt: (Entry<K>, Entry<K>) -> bool)
    ensures Total(Insert(x, s, lt)) == Total(s) + x.count
    decreases |s|
  {
    if s != [] && !lt(x, s[0]) {
      TotalInsert(x, s[1..], lt);
      assert Insert(x, s, lt)[1..] == Insert(x, s[1..], lt);
    } else if s != [] {
      assert ([x] + s)[1..] == s;
    }
  }

  lemma {:induction false} TotalSort<K>(s: seq<Entry<K>>, lt: (Entry<K>, Entry<K>) -> bool)
    ensures Total(Sort(s, lt)) == Total(s)
    decreases |s|
  {
    if s != [] {
      var init, x := s[..|s| - 1], s[|s| - 1];
      calc {
        Total(Sort(s, lt));
        { assert Sort(s, lt) == Insert(x, Sort(init, lt), lt); }
        Total(Insert(x, Sort(init, lt), lt));
        { TotalInsert(x, Sort(init, lt), lt); TotalSort(init, lt); }
        Total(init) + x.count;
        { TotalAppend(init, [x]); assert s == init + [x]; }
        Total(s);
      }
    }
  }

  lemma {:induction false} TotalAppend<K>(a: seq<Entry<K>>, b: seq<Entry<K>>)
    ensures Total(a + b) == Total(a) + Total(b)
    decreases |a|
  {
    if a == [] {
      assert a + b == b;
    } else {
      assert (a + b)[1..] == a[1..] + b;
      TotalAppend(a[1..], b);
    }
  }

  lemma {:induction false} InsertSorted<T(!new)>(x: T, s: seq<T>, lt: (T, T) -> bool)
    requires StrictOrder(lt) && SortedBy(s, lt)
    ensures SortedBy(Insert(x, s, lt), lt)
    decreases |s|
  {
    if s != [] && !lt(x, s[0]) {
      InsertSorted(x, s[1..], lt);
      var r := Insert(x, s, lt);
      forall j | 0 < j < |r| ensures !lt(r[j], r[0])
      {
        assert r[j] in multiset(r[1..]);
        assert multiset(r[1..]) == multiset(s[1..]) + multiset{x};
        if r[j] != x {
          var m :| 0 <= m < |s[1..]| && s[1..][m] == r[j];
          assert s[m + 1] == r[j];
        }
      }
    } else if s != [] {
      forall j | 0 < j < |s| + 1 ensures !lt(([x] + s)[j], x)
      {
        assert ([x] + s)[j] == s[j - 1];
      }
    }
  }

  /** The sort puts its result in the comparator's order. */
  lemma {:induction false} SortSorted<T(!new)>(s: seq<T>, lt: (T, T) -> bool)
    requires StrictOrder(lt)
    ensures SortedBy(Sort(s, lt), lt)
  {
    if s != [] {
      SortSorted(s[..|s| - 1], lt);
      InsertSorted(s[|s| - 1], Sort(s[..|s| - 1], lt), lt);
    }
  }

  /** `.slice(0, n)`. */
  function Take<T>(s: seq<T>, n: nat): (r: seq<T>)
    ensures |r| <= n && |r| <= |s| && r == s[..|r|]
    ensures |s| <= n ==> r == s
  {
    if |s| <= n then s else s[..n]
  }

  /** `(a, b) => b.count - a.count`: larger counts first. */
  function ByCountDesc<K>(): (Entry<K>, Entry<K>) -> bool
  {
    (a: Entry<K>, b: Entry<K>) => a.count > b.count
  }

  /** The `n` largest entries, by descending count, ties in insertion order. */
  function Top<K>(es: seq<Entry<K>>, n: nat): (r: seq<Entry<K>>)
  {
    Take(Sort(es, ByCountDesc()), n)
  }

  /**
   * The top entries are at most `n`, by descending count, taken from the entries, and when some
   * entry is left out, none left out counts more than one kept.
   */
  lemma TopSpec<K(!new)>(es: seq<Entry<K>>, n: nat)
    ensures var r := Top(es, n);
      |r| == (if |es| <= n then |es| else n)
      && (forall i, j :: 0 <= i < j < |r| ==> r[i].count >= r[j].count)
      && (forall i :: 0 <= i < |r| ==> r[i] in es)
      && (forall e :: e in es && e !in r ==> |r| == n && forall i :: 0 <= i < |r| ==> e.count <= r[i].count)
  {
    TopLength(es, n);
    TopSorted(es, n);
    forall i | 0 <= i < |Top(es, n)| ensures Top(es, n)[i] in es
    {
      TopFrom(es, n, i);
    }
    forall e | e in es && e !in Top(es, n)
      ensures |Top(es, n)| == n && forall i :: 0 <= i < |Top(es, n)| ==> e.count <= Top(es, n)[i].count
    {
      TopLeftOut(es, n, e);
    }
  }

  lemma SortLength<T>(s: seq<T>, lt: (T, T) -> bool)
    ensures |Sort(s, lt)| == |s|
  {
    assert |multiset(Sort(s, lt))| == |multiset(s)|;
  }

  /** As many top entries as entries, up to `n`. */
  lemma TopLength<K>(es: seq<Entry<K>>, n: nat)
    ensures |Top(es, n)| == (if |es| <= n then |es| else n)
  {
    SortLength(es, ByCountDesc());
  }

  /** The top entries come by descending count. */
  lemma TopSorted<K(!new)>(es: seq<Entry<K>>, n: nat)
    ensures var r := Top(es, n); forall i, j :: 0 <= i < j < |r| ==> r[i].count >= r[j].count
  {
    SortSorted(es, ByCountDesc<K>());
    var s, r := Sort(es, ByCountDesc<K>()), Top(es, n);
    forall i, j | 0 <= i < j < |r| ensures r[i].count >= r[j].count
    {
      assert r[i] == s[i] && r[j] == s[j];
    }
  }

  /** Every top entry is one of the entries. */
  lemma TopFrom<K>(es: seq<Entry<K>>, n: nat, i: int)
    requires 0 <= i < |Top(es, n)|
    ensures Top(es, n)[i] in es
  {
    var s := Sort(es, ByCountDesc<K>());
    assert Top(es, n)[i] == s[i];
    assert s[i] in multiset(s);
  }

  /** An entry left out leaves `n` entries, none counting less than it. */
  lemma TopLeftOut<K(!new)>(es: seq<Entry<K>>, n: nat, e: Entry<K>)
    requires e in es && e !in Top(es, n)
    ensures |Top(es, n)| == n && forall i :: 0 <= i < |Top(es, n)| ==> e.count <= Top(es, n)[i].count
  {
    var s, r := Sort(es, ByCountDesc<K>()), Top(es, n);
    SortSorted(es, ByCountDesc<K>());
    assert e in multiset(s);
    var j :| 0 <= j < |s| && s[j] == e;
    assert |r| <= j;
    forall i | 0 <= i < |r| ensures e.count <= r[i].count
    {
      assert r[i] == s[i];
    }
  }

  /** Code-unit order on strings, which `localeCompare` agrees with on ISO day strings. */
  predicate StrLt(a: string, b: string)
  {
    if a == [] then b != []
    else if b == [] then false
    else if a[0] != b[0] then a[0] < b[0]
    else StrLt(a[1..], b[1..])
  }

  lemma {:induction false} StrLtTransitive(a: string, b: string, c: string)
    requires StrLt(a, b) && StrLt(b, c)
    ensures StrLt(a, c)
    decreases |a|
  {
    if a != [] && b != [] && c != [] && a[0] == b[0] && b[0] == c[0] {
      StrLtTransitive(a[1..], b[1..], c[1..]);
    }
  }

  lemma {:induction false} StrLtIrreflexive(a: string)
    ensures !StrLt(a, a)
    decreases |a|
  {
    if a != [] {
      StrLtIrreflexive(a[1..]);
    }
  }

  lemma {:induction false} StrLtTotal(a: string, b: string)
    requires a != b
    ensures StrLt(a, b) || StrLt(b, a)
    decreases |a|
  {
    if a != [] && b != [] && a[0] == b[0] {
      assert a == [a[0]] + a[1..] && b == [b[0]] + b[1..];
      StrLtTotal(a[1..], b[1..]);
    }
  }

  /** `(a, b) => a.date.localeCompare(b.date)`: keys in ascending order. */
  function ByKeyAsc(): (Entry<string>, Entry<string>) -> bool
  {
    (a: Entry<string>, b: Entry<string>) => StrLt(a.key, b.key)
  }

  /** Sorting entries with distinct keys by key puts the keys in strictly ascending order. */
  lemma SortByKey(es: seq<Entry<string>>)
    requires DistinctKeys(es)
    ensures var r := Sort(es, ByKeyAsc());
      multiset(r) == multiset(es) && forall i, j :: 0 <= i < j < |r| ==> StrLt(r[i].key, r[j].key)
  {
    var lt := ByKeyAsc();
    forall a, b, c | lt(a, b) && lt(b, c) ensures lt(a, c)
    {
      StrLtTransitive(a.key, b.key, c.key);
    }
    forall a ensures !lt(a, a)
    {
      StrLtIrreflexive(a.key);
    }
    SortSorted(es, lt);
    var r := Sort(es, lt);
    forall i, j | 0 <= i < j < |r| ensures StrLt(r[i].key, r[j].key)
    {
      assert r[i] in multiset(es) && r[j] in multiset(es);
      var a :| 0 <= a < |es| && es[a] == r[i];
      var b :| 0 <= b < |es| && es[b] == r[j];
      DistinctMultiset(es, r, i, j, a, b);
      StrLtTotal(r[i].key, r[j].key);
    }
  }

  /** `(a, b) => Number(a.year) - Number(b.year)`: numeric keys in ascending order. */
  function ByNumberAsc(): (Entry<int>, Entry<int>) -> bool
  {
    (a: Entry<int>, b: Entry<int>) => a.key < b.key
  }

  /** Sorting entries with distinct numeric keys by key puts the keys in strictly ascending order. */
  lemma SortByNumber(es: seq<Entry<int>>)
    requires DistinctKeys(es)
    ensures var r := Sort(es, ByNumberAsc());
      multiset(r) == multiset(es) && forall i, j :: 0 <= i < j < |r| ==> r[i].key < r[j].key
  {
    var lt := ByNumberAsc();
    SortSorted(es, lt);
    var r := Sort(es, lt);
    forall i, j | 0 <= i < j < |r| ensures r[i].key < r[j].key
    {
      assert r[i] in multiset(es) && r[j] in multiset(es);
      var a :| 0 <= a < |es| && es[a] == r[i];
      var b :| 0 <= b < |es| && es[b] == r[j];
      DistinctMultiset(es, r, i, j, a, b);
    }
  }

  /** Two positions of a permutation of entries with distinct keys hold different keys. */
  lemma DistinctMultiset<K>(es: seq<Entry<K>>, r: seq<Entry<K>>, i: int, j: int, a: int, b: int)
    requires DistinctKeys(es) && multiset(r) == multiset(es)
    requires 0 <= i < j < |r| && 0 <= a < |es| && 0 <= b < |es| && es[a] == r[i] && es[b] == r[j]
    ensures r[i].key != r[j].key
  {
    EntryOnce(es, a);
    assert r == r[..j] + r[j..];
    assert multiset(r) == multiset(r[..j]) + multiset(r[j..]);
    assert r[..j][i] == r[i] && r[j..][0] == r[j];
    assert multiset(r[..j])[r[i]] >= 1 && multiset(r[j..])[r[j]] >= 1;
  }

  /** In entries with distinct keys every entry occurs once. */
  lemma {:induction false} EntryOnce<K>(es: seq<Entry<K>>, a: int)
    requires DistinctKeys(es) && 0 <= a < |es|
    ensures multiset(es)[es[a]] == 1
    decreases |es|
  {
    assert es == [es[0]] + es[1..];
    if a == 0 {
      assert es[0] !in es[1..];
    } else {
      EntryOnce(es[1..], a - 1);
      assert es[1..][a - 1] == es[a];
      assert es[0].key != es[a].key;
    }
  }
}
