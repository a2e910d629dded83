/** The record built for each index (`LogAnalyzer.IndexInfo`) and the
    metrics its constructor derives from the raw size and shard count. */
module IndexMetrics {

  import opened Options
  import opened JavaInts

  type Pos = n: int | n > 0 witness 1

  /** A `double` that is never NaN: +infinity or the exact rational
      `num / den`. The ratios of this program are of this kind. */
  datatype Quantity = Infinite | Finite(num: int, den: Pos)

  /** `a >= b` as `Double.compare` orders values (infinity above all). */
  predicate AtLeast(a: Quantity, b: Quantity) {
    match a
    case Infinite => true
    case Finite(n1, d1) => b.Finite? && n1 * b.den >= b.num * d1
  }

  /** Only infinity is at least infinity, infinity is at least everything,
      and fractions over one denominator compare by their numerators. */
  lemma AtLeastMeaning(a: Quantity, b: Quantity)
    ensures b.Infinite? ==> (AtLeast(a, b) <==> a.Infinite?)
    ensures a.Infinite? ==> AtLeast(a, b)
    ensures a.Finite? && b.Finite? && a.den == b.den ==> (AtLeast(a, b) <==> a.num >= b.num)
    ensures a.Finite? && b.Finite? ==>
      (AtLeast(a, b) <==> (a.num as real) / (a.den as real) >= (b.num as real) / (b.den as real))
  {
    if a.Finite? && b.Finite? {
      FractionOrder(a.num, a.den, b.num, b.den);
    }
    if a.Finite? && b.Finite? && a.den == b.den && a.num < b.num {
      MulPreservesOrder(b.num, a.num + 1, a.den);
    }
  }

  /** Cross-multiplying by positive denominators keeps the order of two
      fractions. */
  lemma FractionOrder(n1: int, d1: Pos, n2: int, d2: Pos)
    ensures n1 * d2 >= n2 * d1 <==> (n1 as real) / (d1 as real) >= (n2 as real) / (d2 as real)
  {
    var x, y := (n1 as real) / (d1 as real), (n2 as real) / (d2 as real);
    var p := (d1 as real) * (d2 as real);
    assert x * (d1 as real) == n1 as real;
    assert y * (d2 as real) == n2 as real;
    assert x * p == (n1 * d2) as real;
    assert y * p == (n2 * d1) as real;
    assert p > 0.0;
  }

  lemma AtLeastTotal(a: Quantity, b: Quantity)
    ensures AtLeast(a, b) || AtLeast(b, a)
  {
  }

  lemma MulPreservesOrder(x: int, y: int, k: int)
    requires x >= y && k > 0
    ensures x * k >= y * k
  {
    assert x * k - y * k == (x - y) * k;
  }

  lemma {:induction false} AtLeastTransitive(a: Quantity, b: Quantity, c: Quantity)
    requires AtLeast(a, b) && AtLeast(b, c)
    ensures AtLeast(a, c)
  {
    if a.Finite? {
      var n1, d1, n2, d2, n3, d3 := a.num, a.den, b.num, b.den, c.num, c.den;
      // n1/d1 >= n2/d2 >= n3/d3, scaled to the common factor d1 * d2 * d3
      MulPreservesOrder(n1 * d2, n2 * d1, d3);
      MulPreservesOrder(n2 * d3, n3 * d2, d1);
      assert (n1 * d2) * d3 == (n1 * d3) * d2;
      assert (n2 * d1) * d3 == (n2 * d3) * d1;
      assert (n3 * d2) * d1 == (n3 * d1) * d2;
      if n1 * d3 < n3 * d1 {
        MulPreservesOrder(n3 * d1, n1 * d3 + 1, d2);
        assert false;
      }
    }
  }

  /** `roundGb`: the size in hundredths of a gigabyte (10^9 bytes), rounded
      half up as `Math.round(bytes / 1e9 * 100)` does. */
  function RoundGb(bytes: int): (centi: int)
    ensures 10_000_000 * centi - 5_000_000 <= bytes < 10_000_000 * centi + 5_000_000
  {
    (bytes + 5_000_000) / 10_000_000
  }

  /** A record of `index` (null when the row had no name), the primary store
      size in bytes and the primary shard count, with the fields that the
      constructor derives from them. */
  datatype IndexInfo = IndexInfo(index: Option<string>, sizeBytes: Int64, shards: Int32) {

    /** `sizeGb`, in hundredths of a gigabyte. */
    function SizeCenti(): (centi: int)
      ensures 10_000_000 * centi - 5_000_000 <= sizeBytes < 10_000_000 * centi + 5_000_000
    {
      RoundGb(sizeBytes)
    }

    /** `ratio`: `sizeGb / shards`, or +infinity when there are no shards. */
    function Ratio(): (q: Quantity)
      ensures q.Infinite? <==> shards == 0
      ensures q.Finite? ==> q.num * (100 * shards) == SizeCenti() * q.den
    {
      if shards == 0 then Infinite
      else if shards > 0 then Finite(SizeCenti(), 100 * shards)
      else Finite(-SizeCenti(), -100 * shards)
    }

    /** `recommendedShards`: one shard per whole 30 GB, and at least one. */
    function RecommendedShards(): (r: int)
      ensures r >= 1
      ensures SizeCenti() < 6000 ==> r == 1
      ensures SizeCenti() >= 3000 ==> 3000 * r <= SizeCenti() < 3000 * (r + 1)
    {
      // (int) (sizeGb / 30) truncates toward zero; below zero max(1, _) wins
      var whole := if SizeCenti() < 0 then 0 else SizeCenti() / 3000;
      if whole < 1 then 1 else whole
    }

    /** The balance ratio the least-balanced section prints:
        `(int) Math.floor(ratio)` for at most two shards, otherwise
        `(int) Math.round(ratio)`; what that means for the ratio is
        `DisplayRatioMeaning`. */
    function DisplayRatio(): (r: Int32)
      ensures shards == 0 ==> r == INT_MAX
    {
      if shards == 0 then
        // Math.floor(+infinity) is +infinity, which (int) clamps
        INT_MAX
      else
        var q := Ratio();
        if shards <= 2 then
          SaturateToInt(FloorDiv(q.num, q.den))
        else
          // Math.round(x) is the long floor(x + 1/2)
          WrapToInt(FloorDiv(2 * q.num + q.den, 2 * q.den))
    }
  }

  /** With the ratio as `q.num / q.den`, the displayed ratio is: for at most
      two shards, the floor when it fits in an `int`, clamped to the nearer
      end when it does not; for more shards, the ratio rounded half up when
      that fits, and in every case that rounding's low 32 bits. */
  lemma DisplayRatioMeaning(x: IndexInfo)
    ensures x.shards != 0 && x.shards <= 2 ==> ShowsFloor(x.DisplayRatio(), x.Ratio())
    ensures x.shards > 2 ==> ShowsRound(x.DisplayRatio(), x.Ratio())
  {
    if x.shards != 0 {
      var q := x.Ratio();
      if x.shards <= 2 {
        FloorInRange(q.num, q.den);
      } else {
        RoundInRange(q.num, q.den);
      }
    }
  }

  /** `(int) Math.floor(q)`: the floor of `q` when it fits in an `int`,
      otherwise the nearer end of the range. */
  predicate ShowsFloor(r: int, q: Quantity)
    requires q.Finite?
  {
    (q.den * INT_MIN <= q.num < q.den * (INT_MAX + 1) ==> r * q.den <= q.num < (r + 1) * q.den)
    && (q.num >= q.den * (INT_MAX + 1) ==> r == INT_MAX)
    && (q.num < q.den * INT_MIN ==> r == INT_MIN)
  }

  /** `(int) Math.round(q)`: `q` rounded half up when that fits in an
      `int`, and in every case the low 32 bits of that rounding. */
  predicate ShowsRound(r: int, q: Quantity)
    requires q.Finite?
  {
    (2 * q.den * INT_MIN <= 2 * q.num + q.den < 2 * q.den * (INT_MAX + 1) ==>
      (2 * r - 1) * q.den <= 2 * q.num < (2 * r + 1) * q.den)
    && (r - FloorDiv(2 * q.num + q.den, 2 * q.den)) % 0x1_0000_0000 == 0
  }

  lemma FloorInRange(n: int, d: Pos)
    ensures ShowsFloor(SaturateToInt(FloorDiv(n, d)), Finite(n, d))
  {
    var q := FloorDiv(n, d);
    if d * INT_MIN <= n < d * (INT_MAX + 1) {
      QuotientBounds(q, d, n, INT_MIN, INT_MAX + 1);
    }
    if n >= d * (INT_MAX + 1) && q < INT_MAX + 1 {
      MulPreservesOrder(INT_MAX + 1, q + 1, d);
    }
    if n < d * INT_MIN && q >= INT_MIN {
      MulPreservesOrder(q, INT_MIN, d);
    }
  }

  lemma RoundInRange(n: int, d: Pos)
    ensures ShowsRound(WrapToInt(FloorDiv(2 * n + d, 2 * d)), Finite(n, d))
  {
    var m := FloorDiv(2 * n + d, 2 * d);
    if 2 * d * INT_MIN <= 2 * n + d < 2 * d * (INT_MAX + 1) {
      QuotientBounds(m, 2 * d, 2 * n + d, INT_MIN, INT_MAX + 1);
      assert m * (2 * d) == (2 * m) * d && (m + 1) * (2 * d) == (2 * m + 1) * d + d;
    }
  }

  /** A quotient inherits the bounds of the dividend. */
  lemma QuotientBounds(q: int, d: Pos, x: int, lo: int, hi: int)
    requires q * d <= x < (q + 1) * d
    requires lo * d <= x < hi * d
    ensures lo <= q < hi
  {
    if q >= hi {
      MulPreservesOrder(q, hi, d);
    }
    if q < lo {
      MulPreservesOrder(lo, q + 1, d);
    }
  }

  /** The largest integer `q` with `q * d <= n`. */
  function FloorDiv(n: int, d: Pos): (q: int)
    ensures q * d <= n < (q + 1) * d
  {
    n / d
  }

  /** Worked values: 1 234 500 000 bytes is 1.23 GB; 95 GB recommends three
      shards and 10 GB one; a ratio of 7.8 shows as 7 over two shards (floor)
      and as 8 over three (round); no shards shows as `Integer.MAX_VALUE`. */
  lemma MetricExamples()
    ensures RoundGb(1_234_500_000) == 123
    ensures IndexInfo(Some("a"), 95_000_000_000, 1).RecommendedShards() == 3
    ensures IndexInfo(Some("b"), 10_000_000_000, 1).RecommendedShards() == 1
    ensures IndexInfo(Some("c"), 15_600_000_000, 2).DisplayRatio() == 7
    ensures IndexInfo(Some("d"), 23_400_000_000, 3).DisplayRatio() == 8
    ensures IndexInfo(None, 1_000_000_000, 0).DisplayRatio() == INT_MAX
    ensures IndexInfo(None, -1_500_000_000, 1).DisplayRatio() == -2
  {
  }
}
