/** The ranking each report section does with
    `data.stream().sorted(cmp).limit(5)`: a stable sort, largest key first,
    cut to the first five. */
module Ranking {

  import opened JavaInts
  import opened IndexMetrics
  import opened Options

  const LIMIT: nat := 5

  /** The three sections' orderings: by `sizeGb`, by `shards`, by `ratio`. */
  datatype Criterion = BySize | ByShards | ByBalance

  /** Sorting with `comparingInt(i -> -i.shards)` is sorting by `shards`
      largest first, except that `-Integer.MIN_VALUE` overflows to itself,
      which ranks that value above every other. */
  function ShardKey(shards: Int32): (k: int)
    ensures shards != INT_MIN ==> k == shards
    ensures k > INT_MAX <==> shards == INT_MIN
  {
    if shards == INT_MIN then INT_MAX + 1 else shards
  }

  /** The key a section sorts on, largest first. */
  function Key(c: Criterion, x: IndexInfo): Quantity {
    match c
    case BySize => Finite(x.SizeCenti(), 100)
    case ByShards => Finite(ShardKey(x.shards), 1)
    case ByBalance => x.Ratio()
  }

  predicate Ranks(c: Criterion, x: IndexInfo, y: IndexInfo) {
    AtLeast(Key(c, x), Key(c, y))
  }

  /** What ranking first means for each comparator: a size at least as
      large; a shard count at least as large, with `Integer.MIN_VALUE`
      above all; a ratio at least as large, with no shards above all. */
  lemma RanksBy(c: Criterion, x: IndexInfo, y: IndexInfo)
    ensures c == BySize ==> (Ranks(c, x, y) <==> x.SizeCenti() >= y.SizeCenti())
    ensures c == ByShards ==> (Ranks(c, x, y) <==> ShardKey(x.shards) >= ShardKey(y.shards))
    ensures c == ByBalance && y.shards == 0 ==> (Ranks(c, x, y) <==> x.shards == 0)
    ensures c == ByBalance && x.shards == 0 ==> Ranks(c, x, y)
    ensures c == ByBalance && x.shards != 0 && y.shards != 0 ==>
      (Ranks(c, x, y) <==> GbPerShard(x) >= GbPerShard(y))
  {
    AtLeastMeaning(Key(c, x), Key(c, y));
    if x.shards != 0 {
      RatioValue(x);
    }
    if y.shards != 0 {
      RatioValue(y);
    }
  }

  /** `sizeGb / shards` as a real number. */
  function GbPerShard(x: IndexInfo): real
    requires x.shards != 0
  {
    (x.SizeCenti() as real / 100.0) / (x.shards as real)
  }

  lemma RatioValue(x: IndexInfo)
    requires x.shards != 0
    ensures (x.Ratio().num as real) / (x.Ratio().den as real) == GbPerShard(x)
  {
    var c, k := x.SizeCenti() as real, x.shards as real;
    assert (c / 100.0) / k == c / (100.0 * k);
    if x.shards < 0 {
      assert (-c) / (-100.0 * k) == c / (100.0 * k);
    }
  }

  /** Non-increasing by the section's key. */
  predicate SortedDesc(c: Criterion, s: seq<IndexInfo>) {
    forall i, j | 0 <= i < j < |s| :: Ranks(c, s[i], s[j])
  }

  /** Places `x` before the first element it ranks at least as high as. */
  function Insert(c: Criterion, x: IndexInfo, s: seq<IndexInfo>): (r: seq<IndexInfo>)
    ensures |r| == |s| + 1
    ensures multiset(r) == multiset(s) + multiset{x}
  {
    if s == [] || Ranks(c, x, s[0]) then [x] + s
    else
      assert s == [s[0]] + s[1..];
      [s[0]] + Insert(c, x, s[1..])
  }

  lemma {:induction false} InsertSorted(c: Criterion, x: IndexInfo, s: seq<IndexInfo>)
    requires SortedDesc(c, s)
    ensures SortedDesc(c, Insert(c, x, s))
  {
    if s == [] || Ranks(c, x, s[0]) {
      var r := [x] + s;
      forall i, j | 0 <= i < j < |r| ensures Ranks(c, r[i], r[j]) {
        if i == 0 && j > 1 {
          AtLeastTransitive(Key(c, x), Key(c, s[0]), Key(c, s[j - 1]));
        }
      }
    } else {
      InsertSorted(c, x, s[1..]);
      AtLeastTotal(Key(c, x), Key(c, s[0]));
      var t := Insert(c, x, s[1..]);
      var r := [s[0]] + t;
      forall j | 0 <= j < |t| ensures Ranks(c, s[0], t[j]) {
        assert t[j] in multiset(t);
        assert t[j] == x || t[j] in multiset(s[1..]);
        if t[j] != x {
          var k :| 0 <= k < |s[1..]| && s[1..][k] == t[j];
          assert s[k + 1] == t[j];
        }
      }
    }
  }

  /** The stable sort, largest key first. */
  function SortDesc(c: Criterion, s: seq<IndexInfo>): (r: seq<IndexInfo>)
    ensures |r| == |s|
    ensures multiset(r) == multiset(s)
    ensures SortedDesc(c, r)
  {
    if s == [] then []
    else
      assert s == [s[0]] + s[1..];
      var rest := SortDesc(c, s[1..]);
      InsertSorted(c, s[0], rest);
      Insert(c, s[0], rest)
  }

  /** `x`'s key is neither above nor below `q`: the sort treats them as
      tied. */
  predicate Tied(c: Criterion, x: IndexInfo, q: Quantity) {
    AtLeast(Key(c, x), q) && AtLeast(q, Key(c, x))
  }

  /** The elements of `s` whose key ties with `q`, in their order in `s`. */
  function WithKey(c: Criterion, s: seq<IndexInfo>, q: Quantity): seq<IndexInfo> {
    if s == [] then []
    else (if Tied(c, s[0], q) then [s[0]] else []) + WithKey(c, s[1..], q)
  }

  lemma {:induction false} WithKeyMembers(c: Criterion, s: seq<IndexInfo>, q: Quantity, x: IndexInfo)
    ensures x in WithKey(c, s, q) <==> x in s && Tied(c, x, q)
  {
    if s != [] {
      WithKeyMembers(c, s[1..], q, x);
      assert s == [s[0]] + s[1..];
    }
  }

  lemma {:induction false} WithKeyAppend(c: Criterion, a: seq<IndexInfo>, b: seq<IndexInfo>, q: Quantity)
    ensures WithKey(c, a + b, q) == WithKey(c, a, q) + WithKey(c, b, q)
  {
    if a == [] {
      assert a + b == b;
    } else {
      assert (a + b)[1..] == a[1..] + b;
      WithKeyAppend(c, a[1..], b, q);
    }
  }

  /** Two records tied with one key rank with each other. */
  lemma TiedRanks(c: Criterion, x: IndexInfo, y: IndexInfo, q: Quantity)
    requires Tied(c, x, q) && Tied(c, y, q)
    ensures Ranks(c, x, y)
  {
    AtLeastTransitive(Key(c, x), q, Key(c, y));
  }

  lemma {:induction false} InsertWithKey(c: Criterion, x: IndexInfo, s: seq<IndexInfo>, q: Quantity)
    ensures WithKey(c, Insert(c, x, s), q) == (if Tied(c, x, q) then [x] else []) + WithKey(c, s, q)
  {
    var r := Insert(c, x, s);
    if s == [] || Ranks(c, x, s[0]) {
      assert r[1..] == s;
    } else {
      InsertWithKey(c, x, s[1..], q);
      assert r[1..] == Insert(c, x, s[1..]);
      if Tied(c, x, q) && Tied(c, s[0], q) {
        // x would tie with s[0], and Insert would have placed it first
        TiedRanks(c, x, s[0], q);
        assert false;
      }
    }
  }

  /** Stability: within every set of tied keys the sort keeps the input
      order. */
  lemma {:induction false} SortStable(c: Criterion, s: seq<IndexInfo>, q: Quantity)
    ensures WithKey(c, SortDesc(c, s), q) == WithKey(c, s, q)
  {
    if s != [] {
      SortStable(c, s[1..], q);
      InsertWithKey(c, s[0], SortDesc(c, s[1..]), q);
    }
  }

  /** Two orders that are both sorted and keep the same order within every
      set of tied keys are the same. */
  lemma {:induction false} SortedOrderUnique(c: Criterion, u: seq<IndexInfo>, v: seq<IndexInfo>)
    requires SortedDesc(c, u) && SortedDesc(c, v)
    requires forall q :: WithKey(c, u, q) == WithKey(c, v, q)
    ensures u == v
    decreases |u| + |v|
  {
    if u == [] || v == [] {
      if u != [] {
        WithKeyMembers(c, u, Key(c, u[0]), u[0]);
        assert false;
      }
      if v != [] {
        WithKeyMembers(c, v, Key(c, v[0]), v[0]);
        assert false;
      }
    } else {
      HeadsEqual(c, u, v);
      forall q ensures WithKey(c, u[1..], q) == WithKey(c, v[1..], q) {
        SameTail(c, u, v, q);
      }
      SortedOrderUnique(c, u[1..], v[1..]);
      assert u == [u[0]] + u[1..] && v == [v[0]] + v[1..];
    }
  }

  lemma SameTail(c: Criterion, u: seq<IndexInfo>, v: seq<IndexInfo>, q: Quantity)
    requires u != [] && v != [] && u[0] == v[0]
    requires WithKey(c, u, q) == WithKey(c, v, q)
    ensures WithKey(c, u[1..], q) == WithKey(c, v[1..], q)
  {
    var h := if Tied(c, u[0], q) then [u[0]] else [];
    assert WithKey(c, u, q) == h + WithKey(c, u[1..], q);
    assert WithKey(c, v, q) == h + WithKey(c, v[1..], q);
    assert WithKey(c, u[1..], q) == (h + WithKey(c, u[1..], q))[|h|..];
    assert WithKey(c, v[1..], q) == (h + WithKey(c, v[1..], q))[|h|..];
  }

  lemma HeadsEqual(c: Criterion, u: seq<IndexInfo>, v: seq<IndexInfo>)
    requires SortedDesc(c, u) && SortedDesc(c, v) && u != [] && v != []
    requires forall q :: WithKey(c, u, q) == WithKey(c, v, q)
    ensures u[0] == v[0]
  {
    HeadsTie(c, u, v);
    HeadsTie(c, v, u);
    var q0 := Key(c, u[0]);
    assert Tied(c, v[0], q0);
    assert WithKey(c, u, q0)[0] == u[0];
    assert WithKey(c, v, q0)[0] == v[0];
    assert WithKey(c, u, q0) == WithKey(c, v, q0);
  }

  /** The head of a sorted sequence ranks at least as high as the head of
      any sequence with the same sets of tied elements. */
  lemma HeadsTie(c: Criterion, u: seq<IndexInfo>, v: seq<IndexInfo>)
    requires SortedDesc(c, u) && u != [] && v != []
    requires forall q :: WithKey(c, u, q) == WithKey(c, v, q)
    ensures Ranks(c, u[0], v[0])
  {
    var q := Key(c, v[0]);
    WithKeyMembers(c, v, q, v[0]);
    assert WithKey(c, u, q) == WithKey(c, v, q);
    WithKeyMembers(c, u, q, v[0]);
    var i :| 0 <= i < |u| && u[i] == v[0];
    if i > 0 {
      assert Ranks(c, u[0], u[i]);
    }
  }

  /** The model's sort is the only stable one: any sort that orders by the
      key and keeps tied elements in input order (as the sort of an ordered
      stream does) gives the same list. */
  lemma StableSortIsSortDesc(c: Criterion, s: seq<IndexInfo>, t: seq<IndexInfo>)
    requires SortedDesc(c, t)
    requires forall q :: WithKey(c, t, q) == WithKey(c, s, q)
    ensures t == SortDesc(c, s)
  {
    forall q ensures WithKey(c, t, q) == WithKey(c, SortDesc(c, s), q) {
      SortStable(c, s, q);
    }
    SortedOrderUnique(c, t, SortDesc(c, s));
  }

  /** `sorted(cmp).limit(5)`: the first five of the sorted list. */
  function Top(c: Criterion, data: seq<IndexInfo>): (r: seq<IndexInfo>)
    ensures |r| == if |data| < LIMIT then |data| else LIMIT
  {
    var sorted := SortDesc(c, data);
    sorted[..if |data| < LIMIT then |data| else LIMIT]
  }

  /** Every entry shown is a record of the input, shown no more often than
      it occurs there. */
  lemma TopFromInput(c: Criterion, data: seq<IndexInfo>)
    ensures multiset(Top(c, data)) <= multiset(data)
    ensures forall x | x in Top(c, data) :: x in data
  {
    var sorted := SortDesc(c, data);
    var top := Top(c, data);
    assert sorted == top + sorted[|top|..];
    assert multiset(sorted) == multiset(top) + multiset(sorted[|top|..]);
    forall x | x in top ensures x in data {
      assert x in multiset(top);
      assert x in multiset(data);
    }
  }

  /** The entries shown are in non-increasing order of the key. */
  lemma TopSorted(c: Criterion, data: seq<IndexInfo>)
    ensures SortedDesc(c, Top(c, data))
  {
  }

  /** A record left out ranks no higher than the last entry shown. */
  lemma TopDominates(c: Criterion, data: seq<IndexInfo>, x: IndexInfo)
    requires x in multiset(data) - multiset(Top(c, data))
    ensures |Top(c, data)| == LIMIT
    ensures Ranks(c, Top(c, data)[LIMIT - 1], x)
  {
    var sorted := SortDesc(c, data);
    var k := |Top(c, data)|;
    LeftOutIsLater(c, data, x);
    var j :| k <= j < |sorted| && sorted[j] == x;
    assert Ranks(c, sorted[k - 1], sorted[j]);
  }

  /** What the cut leaves out lies beyond it in the sorted list. */
  lemma LeftOutIsLater(c: Criterion, data: seq<IndexInfo>, x: IndexInfo)
    requires x in multiset(data) - multiset(Top(c, data))
    ensures exists j | |Top(c, data)| <= j < |SortDesc(c, data)| :: SortDesc(c, data)[j] == x
  {
    var sorted := SortDesc(c, data);
    var n := |Top(c, data)|;
    assert Top(c, data) == sorted[..n];
    CutLeftOut(sorted, n, x);
  }

  lemma CutLeftOut(s: seq<IndexInfo>, n: nat, x: IndexInfo)
    requires n <= |s| && x in multiset(s) - multiset(s[..n])
    ensures exists j | n <= j < |s| :: s[j] == x
  {
    var rest := s[n..];
    assert s == s[..n] + rest;
    assert multiset(s) == multiset(s[..n]) + multiset(rest);
    assert x in rest;
    var i :| 0 <= i < |rest| && rest[i] == x;
    assert s[n + i] == x;
  }

  /** Ties keep input order: the entries shown with a given key are the
      first ones of the input with that key. */
  lemma TopStable(c: Criterion, data: seq<IndexInfo>, q: Quantity)
    ensures WithKey(c, Top(c, data), q) <= WithKey(c, data, q)
  {
    var sorted := SortDesc(c, data);
    var top := Top(c, data);
    assert sorted == top + sorted[|top|..];
    WithKeyAppend(c, top, sorted[|top|..], q);
    SortStable(c, data, q);
  }

  /** The size section lists sizes in non-increasing order. */
  lemma SizesNonIncreasing(data: seq<IndexInfo>)
    ensures forall i, j | 0 <= i < j < |Top(BySize, data)| ::
      Top(BySize, data)[i].SizeCenti() >= Top(BySize, data)[j].SizeCenti()
  {
    var top := Top(BySize, data);
    forall i, j | 0 <= i < j < |top| ensures top[i].SizeCenti() >= top[j].SizeCenti() {
      assert Ranks(BySize, top[i], top[j]);
    }
  }

  /** The shard section lists shard counts in non-increasing order, for
      every input in which no count is `Integer.MIN_VALUE`. */
  lemma ShardsNonIncreasing(data: seq<IndexInfo>)
    requires forall x | x in data :: x.shards != INT_MIN
    ensures forall i, j | 0 <= i < j < |Top(ByShards, data)| ::
      Top(ByShards, data)[i].shards >= Top(ByShards, data)[j].shards
  {
    var top := Top(ByShards, data);
    TopFromInput(ByShards, data);
    forall i, j | 0 <= i < j < |top| ensures top[i].shards >= top[j].shards {
      assert Ranks(ByShards, top[i], top[j]);
      assert top[i] in data && top[j] in data;
    }
  }

  /** The overflow of `-Integer.MIN_VALUE` puts a record with that shard
      count at the head of the shard section. */
  lemma MinShardsRankFirst(data: seq<IndexInfo>, x: IndexInfo)
    requires x in data && x.shards == INT_MIN
    ensures Top(ByShards, data) != [] && Top(ByShards, data)[0].shards == INT_MIN
  {
    RankedAtLeast(ByShards, data, x);
  }

  /** Records without shards (infinite ratio) head the least-balanced
      section: no record with shards comes before one without. */
  lemma ZeroShardsFirst(data: seq<IndexInfo>)
    ensures forall i, j | 0 <= i < j < |Top(ByBalance, data)| ::
      Top(ByBalance, data)[j].shards == 0 ==> Top(ByBalance, data)[i].shards == 0
    ensures (exists x | x in data :: x.shards == 0) ==> Top(ByBalance, data)[0].shards == 0
  {
    var top := Top(ByBalance, data);
    forall i, j | 0 <= i < j < |top| && top[j].shards == 0 ensures top[i].shards == 0 {
      assert Ranks(ByBalance, top[i], top[j]);
    }
    if x :| x in data && x.shards == 0 {
      RankedAtLeast(ByBalance, data, x);
    }
  }

  /** The first entry shown ranks at least as high as every input record. */
  lemma RankedAtLeast(c: Criterion, data: seq<IndexInfo>, x: IndexInfo)
    requires x in data
    ensures Top(c, data) != [] && Ranks(c, Top(c, data)[0], x)
  {
    var top := Top(c, data);
    var sorted := SortDesc(c, data);
    assert x in multiset(sorted);
    var j :| 0 <= j < |sorted| && sorted[j] == x;
    assert top[0] == sorted[0];
    if j > 0 {
      assert Ranks(c, sorted[0], sorted[j]);
    }
  }

  /** Two indices of 10 GB on one shard and 50 GB on five: the larger one
      leads both the size and the shard ranking, and their equal ratios of
      10 GB per shard keep input order in the balance ranking. */
  lemma RankingExample()
    ensures var a := IndexInfo(Some("a"), 10_000_000_000, 1);
      var b := IndexInfo(Some("b"), 50_000_000_000, 5);
      Top(BySize, [a, b]) == [b, a] && Top(ByShards, [a, b]) == [b, a] && Top(ByBalance, [a, b]) == [a, b]
  {
    var a: IndexInfo := IndexInfo(Some("a"), 10_000_000_000, 1);
    var b: IndexInfo := IndexInfo(Some("b"), 50_000_000_000, 5);
    assert a.SizeCenti() == 1000 && b.SizeCenti() == 5000;
    assert [a, b][1..] == [b];
    assert SortDesc(BySize, [b]) == [b];
    assert Insert(BySize, a, [b]) == [b, a];
    assert Insert(ByShards, a, [b]) == [b, a];
    assert Insert(ByBalance, a, [b]) == [a, b];
  }

  /** The design's end-to-end example: 3 GB on one shard and 1 GB on five.
      The first leads by size and by ratio (printed as 3 and 0), the
      second by shard count. */
  lemma DesignExample()
    ensures var a := IndexInfo(Some("a"), 3_000_000_000, 1);
      var b := IndexInfo(Some("b"), 1_000_000_000, 5);
      Top(BySize, [a, b]) == [a, b] && Top(ByShards, [a, b]) == [b, a] && Top(ByBalance, [a, b]) == [a, b]
      && a.DisplayRatio() == 3 && b.DisplayRatio() == 0
  {
    var a: IndexInfo := IndexInfo(Some("a"), 3_000_000_000, 1);
    var b: IndexInfo := IndexInfo(Some("b"), 1_000_000_000, 5);
    assert a.SizeCenti() == 300 && b.SizeCenti() == 100;
    assert [a, b][1..] == [b];
    assert SortDesc(BySize, [b]) == [b];
    assert Insert(BySize, a, [b]) == [a, b];
    assert Insert(ByShards, a, [b]) == [b, a];
    assert Insert(ByBalance, a, [b]) == [a, b];
    assert FloorDiv(300, 100) == 3;
    assert FloorDiv(2 * 100 + 500, 2 * 500) == 0;
  }
}
