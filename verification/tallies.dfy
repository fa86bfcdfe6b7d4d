/** The aggregator's dictionaries, as association lists in insertion order
    (a Python `dict` iterates in insertion order, and that order decides both
    the report's section order and how `sorted` breaks ties):

    - a `Tally` is `defaultdict(int)` / `Counter`, one count per key;
    - a `Groups` value is `defaultdict(list)`, one list of values per key;
    - `TopN` is `sorted(d.items(), key=count, reverse=True)[:n]`, which is also
      what `Counter.most_common(n)` returns. */
module Tallies {
  import opened Seqs

  type Tally<K> = seq<(K, nat)>
  type Groups<K, V> = seq<(K, seq<V>)>

  /** The keys of an association list, in order. */
  function KeysOf<K, V>(t: seq<(K, V)>): (r: seq<K>)
    ensures |r| == |t|
    ensures forall i :: 0 <= i < |t| ==> r[i] == t[i].0
  {
    if t == [] then [] else [t[0].0] + KeysOf(t[1..])
  }

  /** The sum of all counts. */
  function Total<K>(t: Tally<K>): nat {
    if t == [] then 0 else t[0].1 + Total(t[1..])
  }

  // ---------------------------------------------------------------- counting

  /** `d[k]` of a `defaultdict(int)`: the count stored for `k`, or 0. */
  function CountOf<K(==)>(t: Tally<K>, k: K): nat {
    if t == [] then 0 else if t[0].0 == k then t[0].1 else CountOf(t[1..], k)
  }

  /** In a tally without repeated keys, each entry holds the count `CountOf` reads. */
  lemma {:induction false} CountOfEntry<K>(t: Tally<K>, i: nat)
    requires Distinct(KeysOf(t))
    requires i < |t|
    ensures CountOf(t, t[i].0) == t[i].1
  {
    if i > 0 {
      assert KeysOf(t)[0] != KeysOf(t)[i];
      assert KeysOf(t[1..]) == KeysOf(t)[1..];
      CountOfEntry(t[1..], i - 1);
    }
  }

  /** `d[k] += 1`: increments the entry for `k`, or appends `(k, 1)`. */
  function Bump<K(==)>(t: Tally<K>, k: K): Tally<K> {
    if t == [] then [(k, 1)]
    else if t[0].0 == k then [(k, t[0].1 + 1)] + t[1..]
    else [t[0]] + Bump(t[1..], k)
  }

  /** Bumping adds one to the bumped key and leaves every other count alone. */
  lemma {:induction false} BumpCounts<K>(t: Tally<K>, k: K, j: K)
    ensures CountOf(Bump(t, k), j) == CountOf(t, j) + (if j == k then 1 else 0)
  {
    if t != [] && t[0].0 != k {
      BumpCounts(t[1..], k, j);
      assert ([t[0]] + Bump(t[1..], k))[1..] == Bump(t[1..], k);
    }
  }

  /** Bumping a new key appends it; bumping a known key keeps the key order. */
  lemma {:induction false} BumpKeys<K>(t: Tally<K>, k: K)
    ensures KeysOf(Bump(t, k)) == if k in KeysOf(t) then KeysOf(t) else KeysOf(t) + [k]
  {
    if t != [] && t[0].0 != k {
      BumpKeys(t[1..], k);
      assert ([t[0]] + Bump(t[1..], k))[1..] == Bump(t[1..], k);
      assert KeysOf(t)[1..] == KeysOf(t[1..]);
    }
  }

  /** Bumping adds one to the total. */
  lemma {:induction false} BumpTotal<K>(t: Tally<K>, k: K)
    ensures Total(Bump(t, k)) == Total(t) + 1
  {
    if t != [] && t[0].0 != k {
      BumpTotal(t[1..], k);
      assert ([t[0]] + Bump(t[1..], k))[1..] == Bump(t[1..], k);
    }
  }

  /** The loop `for k in ks: d[k] += 1` over an empty `defaultdict(int)`,
      which is also what `Counter(ks)` builds. */
  function TallyOf<K(==)>(ks: seq<K>): Tally<K> {
    if ks == [] then [] else Bump(TallyOf(ks[..|ks| - 1]), ks[|ks| - 1])
  }

  /** The tally holds each key that occurs, and only once. */
  lemma {:induction false} TallyOfKeys<K>(ks: seq<K>)
    ensures Distinct(KeysOf(TallyOf(ks)))
    ensures forall k :: k in KeysOf(TallyOf(ks)) <==> k in ks
  {
    if ks != [] {
      var init := ks[..|ks| - 1];
      var last := ks[|ks| - 1];
      assert ks == init + [last];
      TallyOfKeys(init);
      BumpKeys(TallyOf(init), last);
      if last !in KeysOf(TallyOf(init)) {
        DistinctSnoc(KeysOf(TallyOf(init)), last);
      }
    }
  }

  /** Appending one element keeps a first-occurrence order, with a new
      element listed last. */
  lemma OrderSnoc<K>(keys: seq<K>, init: seq<K>, last: K)
    requires InFirstOccurrenceOrder(keys, init)
    requires forall k :: k in keys <==> k in init
    ensures InFirstOccurrenceOrder(if last in keys then keys else keys + [last], init + [last])
  {
    var s := init + [last];
    forall x | x in init
      ensures IndexOf(s, x) == IndexOf(init, x) < |init|
    {
      IndexOfSnoc(init, last, x);
    }
    assert forall i :: 0 <= i < |keys| ==> keys[i] in init;
    if last !in keys {
      IndexOfSnoc(init, last, last);
      var ks := keys + [last];
      forall i, j | 0 <= i < j < |ks|
        ensures IndexOf(s, ks[i]) < IndexOf(s, ks[j])
      {
        if j < |keys| {
          assert ks[i] == keys[i] && ks[j] == keys[j];
        } else {
          assert ks[i] == keys[i];
        }
      }
    }
  }

  /** The tally lists its keys in order of first occurrence. */
  lemma {:induction false} TallyOfOrder<K>(ks: seq<K>)
    ensures InFirstOccurrenceOrder(KeysOf(TallyOf(ks)), ks)
  {
    if ks != [] {
      var init := ks[..|ks| - 1];
      var last := ks[|ks| - 1];
      assert ks == init + [last];
      TallyOfOrder(init);
      TallyOfKeys(init);
      BumpKeys(TallyOf(init), last);
      OrderSnoc(KeysOf(TallyOf(init)), init, last);
    }
  }

  /** The count stored for every key is its number of occurrences. */
  lemma {:induction false} TallyOfCounts<K>(ks: seq<K>, k: K)
    ensures CountOf(TallyOf(ks), k) == multiset(ks)[k]
  {
    if ks != [] {
      var init := ks[..|ks| - 1];
      assert ks == init + [ks[|ks| - 1]];
      TallyOfCounts(init, k);
      BumpCounts(TallyOf(init), ks[|ks| - 1], k);
    }
  }

  /** The counts add up to the number of keys tallied. */
  lemma {:induction false} TallyOfTotal<K>(ks: seq<K>)
    ensures Total(TallyOf(ks)) == |ks|
  {
    if ks != [] {
      TallyOfTotal(ks[..|ks| - 1]);
      BumpTotal(TallyOf(ks[..|ks| - 1]), ks[|ks| - 1]);
    }
  }

  /** Every entry of a tally holds its key's true, positive count. */
  lemma TallyOfEntries<K>(ks: seq<K>)
    ensures forall i :: 0 <= i < |TallyOf(ks)| ==>
              TallyOf(ks)[i].1 == multiset(ks)[TallyOf(ks)[i].0] > 0
  {
    var r := TallyOf(ks);
    TallyOfKeys(ks);
    assert forall i :: 0 <= i < |r| ==> r[i].0 == KeysOf(r)[i];
    forall i | 0 <= i < |r|
      ensures r[i].1 == multiset(ks)[r[i].0] > 0
    {
      CountOfEntry(r, i);
      TallyOfCounts(ks, r[i].0);
      assert r[i].0 in KeysOf(r);
    }
  }

  // ---------------------------------------------------------------- grouping

  /** `d[k]` of a `defaultdict(list)`: the list stored for `k`, or `[]`. */
  function ListOf<K(==), V>(g: Groups<K, V>, k: K): seq<V> {
    if g == [] then [] else if g[0].0 == k then g[0].1 else ListOf(g[1..], k)
  }

  /** In groups without repeated keys, each entry holds the list `ListOf` reads. */
  lemma {:induction false} ListOfEntry<K, V>(g: Groups<K, V>, i: nat)
    requires Distinct(KeysOf(g))
    requires i < |g|
    ensures ListOf(g, g[i].0) == g[i].1
  {
    if i > 0 {
      assert KeysOf(g)[0] != KeysOf(g)[i];
      assert KeysOf(g[1..]) == KeysOf(g)[1..];
      ListOfEntry(g[1..], i - 1);
    }
  }

  /** A key without an entry reads as the empty list. */
  lemma {:induction false} ListOfAbsent<K, V>(g: Groups<K, V>, k: K)
    requires k !in KeysOf(g)
    ensures ListOf(g, k) == []
  {
    if g != [] {
      assert KeysOf(g)[0] == g[0].0;
      assert KeysOf(g[1..]) == KeysOf(g)[1..];
      ListOfAbsent(g[1..], k);
    }
  }

  /** `d[k].append(v)`: extends the list for `k`, or appends `(k, [v])`. */
  function Push<K(==), V>(g: Groups<K, V>, k: K, v: V): Groups<K, V> {
    if g == [] then [(k, [v])]
    else if g[0].0 == k then [(k, g[0].1 + [v])] + g[1..]
    else [g[0]] + Push(g[1..], k, v)
  }

  /** Pushing extends the pushed key's list and leaves every other list alone. */
  lemma {:induction false} PushLists<K, V>(g: Groups<K, V>, k: K, v: V, j: K)
    ensures ListOf(Push(g, k, v), j) == ListOf(g, j) + (if j == k then [v] else [])
  {
    if g != [] && g[0].0 != k {
      PushLists(g[1..], k, v, j);
      assert ([g[0]] + Push(g[1..], k, v))[1..] == Push(g[1..], k, v);
    }
  }

  /** Pushing to a new key appends it; pushing to a known key keeps the key order. */
  lemma {:induction false} PushKeys<K, V>(g: Groups<K, V>, k: K, v: V)
    ensures KeysOf(Push(g, k, v)) == if k in KeysOf(g) then KeysOf(g) else KeysOf(g) + [k]
  {
    if g != [] && g[0].0 != k {
      PushKeys(g[1..], k, v);
      assert ([g[0]] + Push(g[1..], k, v))[1..] == Push(g[1..], k, v);
      assert KeysOf(g)[1..] == KeysOf(g[1..]);
    }
  }

  /** Pushing never leaves an empty list behind. */
  lemma {:induction false} PushNonEmpty<K, V>(g: Groups<K, V>, k: K, v: V)
    requires forall i :: 0 <= i < |g| ==> g[i].1 != []
    ensures forall i :: 0 <= i < |Push(g, k, v)| ==> Push(g, k, v)[i].1 != []
  {
    if g != [] && g[0].0 != k {
      PushNonEmpty(g[1..], k, v);
      assert ([g[0]] + Push(g[1..], k, v))[1..] == Push(g[1..], k, v);
    }
  }

  /** The values paired with `k`, in order. */
  function Select<K(==), V>(pairs: seq<(K, V)>, k: K): seq<V> {
    if pairs == [] then []
    else
      var last := pairs[|pairs| - 1];
      Select(pairs[..|pairs| - 1], k) + (if last.0 == k then [last.1] else [])
  }

  /** Selecting from a concatenation selects from each part. */
  lemma {:induction false} SelectConcat<K, V>(a: seq<(K, V)>, b: seq<(K, V)>, k: K)
    ensures Select(a + b, k) == Select(a, k) + Select(b, k)
    decreases |b|
  {
    if b == [] {
      assert a + b == a;
    } else {
      assert (a + b)[..|a + b| - 1] == a + b[..|b| - 1];
      SelectConcat(a, b[..|b| - 1], k);
    }
  }

  /** The loop `for (k, v) in pairs: d[k].append(v)` over an empty
      `defaultdict(list)`. */
  function GroupAll<K(==), V>(pairs: seq<(K, V)>): Groups<K, V> {
    if pairs == [] then []
    else
      var last := pairs[|pairs| - 1];
      Push(GroupAll(pairs[..|pairs| - 1]), last.0, last.1)
  }

  /** Grouping stores, under each key, all of that key's values in order. */
  lemma {:induction false} GroupAllLists<K, V>(pairs: seq<(K, V)>, k: K)
    ensures ListOf(GroupAll(pairs), k) == Select(pairs, k)
  {
    if pairs != [] {
      var last := pairs[|pairs| - 1];
      GroupAllLists(pairs[..|pairs| - 1], k);
      PushLists(GroupAll(pairs[..|pairs| - 1]), last.0, last.1, k);
    }
  }

  /** Grouping has one entry per key that occurs, none empty. */
  lemma {:induction false} GroupAllKeys<K, V>(pairs: seq<(K, V)>)
    ensures Distinct(KeysOf(GroupAll(pairs)))
    ensures forall k :: k in KeysOf(GroupAll(pairs)) <==> k in KeysOf(pairs)
    ensures forall i :: 0 <= i < |GroupAll(pairs)| ==> GroupAll(pairs)[i].1 != []
  {
    if pairs != [] {
      var init := pairs[..|pairs| - 1];
      var last := pairs[|pairs| - 1];
      assert KeysOf(pairs) == KeysOf(init) + [last.0];
      GroupAllKeys(init);
      PushKeys(GroupAll(init), last.0, last.1);
      PushNonEmpty(GroupAll(init), last.0, last.1);
    }
  }

  /** The `(label, link)` pairs one item contributes, one per label. */
  function Pairs<L, V>(ls: seq<L>, v: V): (r: seq<(L, V)>)
    ensures |r| == |ls|
    ensures forall j :: 0 <= j < |ls| ==> r[j] == (ls[j], v)
  {
    if ls == [] then [] else Pairs(ls[..|ls| - 1], v) + [(ls[|ls| - 1], v)]
  }

  /** The pairs produced by the nested loop
      `for item in items: for l in labels(item): emit (l, link(item))`. */
  function Tag<I, L, V>(items: seq<I>, labels: I -> seq<L>, link: I -> V): seq<(L, V)> {
    if items == [] then []
    else
      var last := items[|items| - 1];
      Tag(items[..|items| - 1], labels, link) + Pairs(labels(last), link(last))
  }

  /** Reference definition of a citation list: the links of the items whose
      labels include `l`, in item order. */
  function Citing<I, L(==), V>(items: seq<I>, labels: I -> seq<L>, link: I -> V, l: L): seq<V> {
    if items == [] then []
    else
      var last := items[|items| - 1];
      Citing(items[..|items| - 1], labels, link, l) + (if l in labels(last) then [link(last)] else [])
  }

  /** A label has citations exactly when some item carries it. */
  lemma {:induction false} CitingNonEmpty<I, L, V>(items: seq<I>, labels: I -> seq<L>, link: I -> V, l: L)
    ensures Citing(items, labels, link, l) != [] <==> exists i :: 0 <= i < |items| && l in labels(items[i])
    decreases |items|
  {
    if items != [] {
      var init := items[..|items| - 1];
      CitingNonEmpty(init, labels, link, l);
      assert forall i :: 0 <= i < |init| ==> init[i] == items[i];
      if exists i :: 0 <= i < |items| && l in labels(items[i]) {
        var i :| 0 <= i < |items| && l in labels(items[i]);
        if i < |init| {
          assert l in labels(init[i]);
        }
      }
    }
  }

  /** One item whose labels are duplicate-free contributes its link to `l` at
      most once, and exactly when `l` is among its labels. */
  lemma {:induction false} SelectPairs<L, V>(ls: seq<L>, v: V, l: L)
    requires Distinct(ls)
    ensures Select(Pairs(ls, v), l) == if l in ls then [v] else []
    decreases |ls|
  {
    if ls != [] {
      var init := ls[..|ls| - 1];
      var last := ls[|ls| - 1];
      var ps := Pairs(ls, v);
      assert ps == Pairs(init, v) + [(last, v)];
      assert ps[..|ps| - 1] == Pairs(init, v);
      assert Distinct(init);
      SelectPairs(init, v, l);
      assert ls == init + [last];
      if l == last {
        assert l !in init;
      }
    }
  }

  /** Grouping the tagged stream gives, for each label, exactly its citation list. */
  lemma {:induction false} SelectTag<I, L, V>(items: seq<I>, labels: I -> seq<L>, link: I -> V, l: L)
    requires forall i :: 0 <= i < |items| ==> Distinct(labels(items[i]))
    ensures Select(Tag(items, labels, link), l) == Citing(items, labels, link, l)
    decreases |items|
  {
    if items != [] {
      var last := items[|items| - 1];
      var init := items[..|items| - 1];
      SelectTag(init, labels, link, l);
      SelectConcat(Tag(init, labels, link), Pairs(labels(last), link(last)), l);
      SelectPairs(labels(last), link(last), l);
    }
  }

  // ---------------------------------------------------------------- ranking

  /** Grouping tagged items stores, under each label, the links of exactly
      the items carrying it, in item order. */
  lemma GroupTagLists<I, L, V>(items: seq<I>, labels: I -> seq<L>, link: I -> V, l: L)
    requires forall i :: 0 <= i < |items| ==> Distinct(labels(items[i]))
    ensures ListOf(GroupAll(Tag(items, labels, link)), l) == Citing(items, labels, link, l)
  {
    GroupAllLists(Tag(items, labels, link), l);
    SelectTag(items, labels, link, l);
  }

  /** In groups without an empty list, a key is listed exactly when it reads
      as a non-empty list. */
  lemma {:induction false} ListedIffNonEmpty<K, V>(g: Groups<K, V>, k: K)
    requires forall i :: 0 <= i < |g| ==> g[i].1 != []
    ensures k in KeysOf(g) <==> ListOf(g, k) != []
  {
    if g != [] {
      assert KeysOf(g) == [g[0].0] + KeysOf(g[1..]);
      if g[0].0 != k {
        assert forall i :: 0 <= i < |g[1..]| ==> g[1..][i] == g[i + 1];
        ListedIffNonEmpty(g[1..], k);
      }
    }
  }

  /** Grouping tagged items lists each label once, and a label is listed
      exactly when some item carries it. */
  lemma GroupTagKeys<I, L, V>(items: seq<I>, labels: I -> seq<L>, link: I -> V, l: L)
    requires forall i :: 0 <= i < |items| ==> Distinct(labels(items[i]))
    ensures Distinct(KeysOf(GroupAll(Tag(items, labels, link))))
    ensures l in KeysOf(GroupAll(Tag(items, labels, link))) <==> exists i :: 0 <= i < |items| && l in labels(items[i])
  {
    var g := GroupAll(Tag(items, labels, link));
    GroupAllKeys(Tag(items, labels, link));
    ListedIffNonEmpty(g, l);
    GroupTagLists(items, labels, link, l);
    CitingNonEmpty(items, labels, link, l);
  }

  /** Counts never increase from left to right. */
  predicate NonIncreasing<K>(t: Tally<K>) {
    forall i, j :: 0 <= i < j < |t| ==> t[i].1 >= t[j].1
  }

  /** The entries with count `c`, in their order. A sort is stable when it
      keeps each of these subsequences unchanged. */
  function WithCount<K>(t: Tally<K>, c: nat): (r: Tally<K>)
    ensures |r| <= |t|
    ensures forall i :: 0 <= i < |r| ==> r[i].1 == c
  {
    if t == [] then [] else (if t[0].1 == c then [t[0]] else []) + WithCount(t[1..], c)
  }

  /** Selecting by count distributes over concatenation. */
  lemma {:induction false} WithCountConcat<K>(a: Tally<K>, b: Tally<K>, c: nat)
    ensures WithCount(a + b, c) == WithCount(a, c) + WithCount(b, c)
  {
    if a == [] {
      assert a + b == b;
    } else {
      assert (a + b)[1..] == a[1..] + b;
      WithCountConcat(a[1..], b, c);
    }
  }

  /** Inserts `x` into a non-increasing tally before the first entry whose count
      it reaches, so that it precedes the equal entries that came later in the
      input (the sort is stable). */
  function InsertDesc<K>(x: (K, nat), t: Tally<K>): (r: Tally<K>)
    ensures multiset(r) == multiset(t) + multiset{x}
  {
    if t == [] || t[0].1 <= x.1 then [x] + t
    else
      assert t == [t[0]] + t[1..];
      [t[0]] + InsertDesc(x, t[1..])
  }

  /** A head that bounds every later count extends a non-increasing tally. */
  lemma NonIncreasingCons<K>(a: (K, nat), t: Tally<K>)
    requires NonIncreasing(t)
    requires forall y :: y in t ==> y.1 <= a.1
    ensures NonIncreasing([a] + t)
  {
    var r := [a] + t;
    forall i, j | 0 <= i < j < |r|
      ensures r[i].1 >= r[j].1
    {
      assert r[j] == t[j - 1];
      if i > 0 {
        assert r[i] == t[i - 1];
      }
    }
  }

  /** Insertion places `x` before every entry of equal count, which all came
      later in the input. */
  lemma {:induction false} InsertDescStable<K>(x: (K, nat), t: Tally<K>, c: nat)
    ensures WithCount(InsertDesc(x, t), c) == (if x.1 == c then [x] else []) + WithCount(t, c)
  {
    if t == [] || t[0].1 <= x.1 {
      assert ([x] + t)[1..] == t;
    } else {
      InsertDescStable(x, t[1..], c);
      assert ([t[0]] + InsertDesc(x, t[1..]))[1..] == InsertDesc(x, t[1..]);
    }
  }

  /** Insertion keeps a tally non-increasing. */
  lemma {:induction false} InsertDescSorted<K>(x: (K, nat), t: Tally<K>)
    requires NonIncreasing(t)
    ensures NonIncreasing(InsertDesc(x, t))
  {
    if t == [] || t[0].1 <= x.1 {
      forall y | y in t
        ensures y.1 <= x.1
      {
        var k :| 0 <= k < |t| && t[k] == y;
        assert t[0].1 >= t[k].1;
      }
      NonIncreasingCons(x, t);
    } else {
      var rest := InsertDesc(x, t[1..]);
      InsertDescSorted(x, t[1..]);
      forall y | y in rest
        ensures y.1 <= t[0].1
      {
        assert y in multiset(rest);
        if y != x {
          var k :| 1 <= k < |t| && t[k] == y;
        }
      }
      NonIncreasingCons(t[0], rest);
    }
  }

  /** `sorted(t, key=count, reverse=True)`: a stable insertion sort. The
      result is a non-increasing permutation, and entries of equal count keep
      their input order. */
  function SortDesc<K>(t: Tally<K>): (r: Tally<K>)
    ensures multiset(r) == multiset(t)
    ensures NonIncreasing(r)
    ensures forall c :: WithCount(r, c) == WithCount(t, c)
  {
    if t == [] then []
    else
      var rest := SortDesc(t[1..]);
      assert t == [t[0]] + t[1..];
      InsertDescSorted(t[0], rest);
      forall c
        ensures WithCount(InsertDesc(t[0], rest), c) == WithCount(t, c)
      {
        InsertDescStable(t[0], rest, c);
      }
      InsertDesc(t[0], rest)
  }

  /** In a non-increasing tally, every entry of a prefix has at least the
      count of every entry after it. */
  lemma PrefixOutranks<K>(s: Tally<K>, m: nat)
    requires NonIncreasing(s)
    requires m <= |s|
    ensures forall x, y :: x in s[m..] && y in s[..m] ==> y.1 >= x.1
  {
    forall x, y | x in s[m..] && y in s[..m]
      ensures y.1 >= x.1
    {
      var j :| 0 <= j < |s[m..]| && s[m..][j] == x;
      var i :| 0 <= i < m && s[..m][i] == y;
      assert s[i] == y && s[m + j] == x;
    }
  }

  /** A prefix of a non-increasing rearrangement of `t` is a ranking of `t`:
      it is non-increasing, drawn from `t`, and outranks every entry of `t`
      it leaves out. */
  lemma PrefixRanks<K>(t: Tally<K>, s: Tally<K>, m: nat)
    requires multiset(s) == multiset(t) && NonIncreasing(s)
    requires m <= |s|
    ensures NonIncreasing(s[..m])
    ensures multiset(s[..m]) <= multiset(t)
    ensures forall x :: x in t && x !in s[..m] ==> forall y :: y in s[..m] ==> y.1 >= x.1
  {
    var r := s[..m];
    assert s == r + s[m..];
    assert multiset(s) == multiset(r) + multiset(s[m..]);
    PrefixOutranks(s, m);
    forall x | x in t && x !in r
      ensures x in s[m..]
    {
      assert x in multiset(s);
    }
  }

  /** The `n` entries with the largest counts (`sorted(...)[:n]`). */
  function TopN<K(!new)>(t: Tally<K>, n: nat): (r: Tally<K>)
    ensures |r| == if n < |t| then n else |t|
    ensures NonIncreasing(r)
    ensures multiset(r) <= multiset(t)
    ensures forall x :: x in t && x !in r ==> forall y :: y in r ==> y.1 >= x.1
  {
    var s := SortDesc(t);
    var m := if n < |s| then n else |s|;
    PrefixRanks(t, s, m);
    assert Prefix(s, n) == s[..m];
    Prefix(s, n)
  }

  /** Ties are broken by input order: for each count, the entries of that
      count that a ranking keeps are the first ones of the input, in input
      order. */
  lemma TopNStable<K(!new)>(t: Tally<K>, n: nat, c: nat)
    ensures WithCount(TopN(t, n), c) <= WithCount(t, c)
  {
    var s := SortDesc(t);
    PrefixWithCount(s, n, c);
  }

  /** A prefix keeps a prefix of the entries of each count. */
  lemma PrefixWithCount<K>(s: Tally<K>, n: nat, c: nat)
    ensures WithCount(Prefix(s, n), c) <= WithCount(s, c)
  {
    var r := Prefix(s, n);
    assert s == r + s[|r|..];
    WithCountConcat(r, s[|r|..], c);
  }

  /** An entry of a sub-multiset is an entry of the whole. */
  lemma SubMember<T>(a: seq<T>, b: seq<T>, x: T)
    requires multiset(a) <= multiset(b)
    requires x in a
    ensures x in b
  {
    assert x in multiset(a);
  }

  /** The key of an entry is among the keys. */
  lemma KeyOfEntry<K, V>(t: seq<(K, V)>, x: (K, V))
    requires x in t
    ensures x.0 in KeysOf(t)
  {
    var j :| 0 <= j < |t| && t[j] == x;
    assert KeysOf(t)[j] == x.0;
  }

  /** Each key listed by a ranked tally carries its number of occurrences. */
  lemma TopCounts<K(!new)>(ks: seq<K>, n: nat)
    ensures var top := TopN(TallyOf(ks), n);
            forall i :: 0 <= i < |top| ==> top[i].1 == multiset(ks)[top[i].0] > 0
  {
    var subs := TallyOf(ks);
    var top := TopN(subs, n);
    TallyOfEntries(ks);
    forall i | 0 <= i < |top|
      ensures top[i].1 == multiset(ks)[top[i].0] > 0
    {
      SubMember(top, subs, top[i]);
      var j :| 0 <= j < |subs| && subs[j] == top[i];
    }
  }

  /** An entry whose key a ranking leaves out has no larger count than any
      listed entry. */
  lemma TopOutranksEntry<K(!new)>(t: Tally<K>, n: nat, x: (K, nat))
    requires x in t && x.0 !in KeysOf(TopN(t, n))
    ensures var top := TopN(t, n);
            forall i :: 0 <= i < |top| ==> top[i].1 >= x.1
  {
    var top := TopN(t, n);
    if x in top {
      KeyOfEntry(top, x);
    }
    assert top[..] == top;
  }

  /** The tally has an entry for every key that occurs, carrying its count. */
  lemma TallyEntryOf<K>(ks: seq<K>, k: K) returns (x: (K, nat))
    requires k in ks
    ensures x in TallyOf(ks) && x == (k, multiset(ks)[k])
  {
    var subs := TallyOf(ks);
    TallyOfKeys(ks);
    var j :| 0 <= j < |subs| && KeysOf(subs)[j] == k;
    TallyOfEntries(ks);
    x := subs[j];
  }

  /** No key left out of a ranked tally occurs more often than a listed one. */
  lemma TopOutranks<K(!new)>(ks: seq<K>, n: nat, k: K)
    ensures var top := TopN(TallyOf(ks), n);
            k in ks && k !in KeysOf(top) ==> forall i :: 0 <= i < |top| ==> top[i].1 >= multiset(ks)[k]
  {
    if k in ks && k !in KeysOf(TopN(TallyOf(ks), n)) {
      var x := TallyEntryOf(ks, k);
      TopOutranksEntry(TallyOf(ks), n, x);
    }
  }

  /** Ranking a tally keeps true counts: each listed key carries its number
      of occurrences, and no key left out occurs more often than a listed one. */
  lemma TopOfTally<K(!new)>(ks: seq<K>, n: nat)
    ensures var top := TopN(TallyOf(ks), n);
            && (forall i :: 0 <= i < |top| ==> top[i].1 == multiset(ks)[top[i].0] > 0)
            && (forall k :: k in ks && k !in KeysOf(top) ==>
                  forall i :: 0 <= i < |top| ==> top[i].1 >= multiset(ks)[k])
  {
    TopCounts(ks, n);
    forall k | k in ks && k !in KeysOf(TopN(TallyOf(ks), n)) {
      TopOutranks(ks, n, k);
    }
  }

  /** Entries with distinct keys are themselves distinct. */
  lemma DistinctEntries<K, V>(t: seq<(K, V)>)
    requires Distinct(KeysOf(t))
    ensures Distinct(t)
  {
    forall i, j | 0 <= i < j < |t|
      ensures t[i] != t[j]
    {
      assert KeysOf(t)[i] != KeysOf(t)[j];
    }
  }

  /** Two positions of a sub-multiset of entries with distinct keys carry
      different keys. */
  lemma KeyOnce<K, V>(t: seq<(K, V)>, top: seq<(K, V)>, i: nat, j: nat)
    requires Distinct(KeysOf(t)) && Distinct(t)
    requires multiset(top) <= multiset(t)
    requires i < j < |top|
    ensures top[i].0 != top[j].0
  {
    if top[i].0 == top[j].0 {
      SubMember(top, t, top[i]);
      SubMember(top, t, top[j]);
      var a :| 0 <= a < |t| && t[a] == top[i];
      var b :| 0 <= b < |t| && t[b] == top[j];
      assert KeysOf(t)[a] == KeysOf(t)[b];
      TwoPositionsCount(top, i, j);
      DistinctCount(t, top[i]);
      assert false;
    }
  }

  /** Ranking a tally whose keys are distinct lists every key at most once. */
  lemma TopNDistinctKeys<K(!new)>(t: Tally<K>, n: nat)
    requires Distinct(KeysOf(t))
    ensures Distinct(KeysOf(TopN(t, n)))
  {
    var top := TopN(t, n);
    DistinctEntries(t);
    forall i, j | 0 <= i < j < |top|
      ensures KeysOf(top)[i] != KeysOf(top)[j]
    {
      KeyOnce(t, top, i, j);
    }
  }

  /** Asking for at least as many entries as there are loses no key. */
  lemma TopNKeepsAll<K(!new)>(t: Tally<K>, n: nat)
    requires |t| <= n
    ensures forall k :: k in KeysOf(TopN(t, n)) <==> k in KeysOf(t)
  {
    var top := TopN(t, n);
    MultisetSubsetEqual(top, t);
    forall k
      ensures k in KeysOf(top) <==> k in KeysOf(t)
    {
      if k in KeysOf(t) {
        var j :| 0 <= j < |t| && KeysOf(t)[j] == k;
        SubMember(t, top, t[j]);
        KeyOfEntry(top, t[j]);
      }
      if k in KeysOf(top) {
        var i :| 0 <= i < |top| && KeysOf(top)[i] == k;
        SubMember(top, t, top[i]);
        KeyOfEntry(t, top[i]);
      }
    }
  }
}
