/** The text report: three ranked sections appended in a fixed order to one
    `StringBuilder` (`appendLargestBySize`, `appendLargestByShards`,
    `appendLeastBalanced`, called from `main`). */
module Report {

  import opened Options
  import opened JavaInts
  import opened NumberText
  import opened IndexMetrics
  import opened Ranking
  import opened RowLoading

  /** `java.lang.StringBuilder`, of which only `append` is used. */
  class StringBuilder {
    var text: string

    constructor ()
      ensures text == ""
    {
      text := "";
    }

    method Append(s: string)
      modifies this
      ensures text == old(text) + s
    {
      text := text + s;
    }
  }

  const SIZE_HEADER := "Printing largest indexes by storage size\n"
  const SHARDS_HEADER := "Printing largest indexes by shard count\n"
  const BALANCE_HEADER := "Printing least balanced indexes\n"

  /** `String.format("%.2f", c / 100.0)`: a size in hundredths with two
      decimals. */
  function FormatCenti(c: int): (s: string)
    ensures |s| >= 4 && s[|s| - 3] == '.'
    ensures s[0] == '-' <==> c < 0
    decreases if c < 0 then 1 else 0
  {
    if c < 0 then "-" + FormatCenti(-c)
    else FormatNat(c / 100) + "." + [DigitChar(c % 100 / 10), DigitChar(c % 10)]
  }

  /** `%.2f` prints canonical text: after an optional "-", digits, a point
      and two digits, with a leading zero only when the whole part is 0.
      With `CentiRoundTrip` this leaves one text for each value. */
  lemma CentiCanonical(c: int)
    ensures var s := FormatCenti(c); var w := if c < 0 then s[1..] else s;
      |w| >= 4 && w[|w| - 3] == '.' && AllDigits(w[..|w| - 3]) && AllDigits(w[|w| - 2..])
      && (w[0] == '0' ==> |w| == 4)
  {
    var a := if c < 0 then -c else c;
    var s := FormatCenti(c);
    var w := FormatCenti(a);
    if c < 0 {
      assert s == "-" + w;
      assert s[1..] == w;
    }
    var whole := FormatNat(a / 100);
    var tail := [DigitChar(a % 100 / 10), DigitChar(a % 10)];
    assert w == whole + "." + tail;
    assert w[..|w| - 3] == whole && w[|w| - 2..] == tail;
    assert w[0] == whole[0];
  }

  /** `%s` of a name that may be null. */
  function NameText(index: Option<string>): (s: string)
    ensures index.Some? ==> s == index.value
    ensures index.None? ==> s == "null"
  {
    match index
    case None => "null"
    case Some(name) => name
  }

  function IndexLine(x: IndexInfo): string {
    "Index: " + NameText(x.index) + "\n"
  }

  function SizeLine(x: IndexInfo): string {
    "Size: " + FormatCenti(x.SizeCenti()) + " GB\n"
  }

  function ShardsLine(x: IndexInfo): string {
    "Shards: " + FormatDecimal(x.shards) + "\n"
  }

  function RatioLine(x: IndexInfo): string {
    "Balance Ratio: " + FormatDecimal(x.DisplayRatio()) + "\n"
  }

  function RecommendationLine(x: IndexInfo): string {
    "Recommended shard count is " + FormatDecimal(x.RecommendedShards()) + "\n"
  }

  /** The lines one entry of a section prints, in order. */
  function EntryText(c: Criterion, x: IndexInfo): (s: string)
    ensures IndexLine(x) <= s
  {
    var index := IndexLine(x);
    match c
    case BySize =>
      LeadsWith(index, SizeLine(x), "", "", "");
      index + SizeLine(x)
    case ByShards =>
      LeadsWith(index, ShardsLine(x), "", "", "");
      index + ShardsLine(x)
    case ByBalance =>
      LeadsWith(index, SizeLine(x), ShardsLine(x), RatioLine(x), RecommendationLine(x));
      index + SizeLine(x) + ShardsLine(x) + RatioLine(x) + RecommendationLine(x)
  }

  lemma LeadsWith(a: string, b: string, c: string, d: string, e: string)
    ensures a <= a + b && a <= a + b + c + d + e
  {
    assert (a + b + c + d + e)[..|a|] == a;
  }

  function EntriesText(c: Criterion, xs: seq<IndexInfo>): string {
    if xs == [] then "" else EntriesText(c, xs[..|xs| - 1]) + EntryText(c, xs[|xs| - 1])
  }

  function Header(c: Criterion): string {
    match c
    case BySize => SIZE_HEADER
    case ByShards => SHARDS_HEADER
    case ByBalance => BALANCE_HEADER
  }

  /** The blank line that the first two sections end with. */
  function Trailer(c: Criterion): string {
    if c == ByBalance then "" else "\n"
  }

  /** What one `append*` call adds to the buffer. */
  function Section(c: Criterion, data: seq<IndexInfo>): (s: string)
    ensures Header(c) <= s
  {
    Header(c) + EntriesText(c, Top(c, data)) + Trailer(c)
  }

  /** The whole report, in the order `main` builds it. */
  function ReportText(data: seq<IndexInfo>): (s: string)
    ensures Section(BySize, data) <= s
  {
    Section(BySize, data) + Section(ByShards, data) + Section(ByBalance, data)
  }

  lemma EntriesSnoc(c: Criterion, xs: seq<IndexInfo>, k: nat)
    requires k < |xs|
    ensures EntriesText(c, xs[..k + 1]) == EntriesText(c, xs[..k]) + EntryText(c, xs[k])
  {
    assert xs[..k + 1][..k] == xs[..k];
  }

  /** One loop step of an `append*` method: the text of entry `k` extends
      the text of entries `0..k-1` to that of entries `0..k`. */
  lemma EntryStep(c: Criterion, start: string, top: seq<IndexInfo>, k: nat, t: string)
    requires k < |top| && t == start + EntriesText(c, top[..k])
    ensures t + EntryText(c, top[k]) == start + EntriesText(c, top[..k + 1])
  {
    EntriesSnoc(c, top, k);
    Concat2(start, EntriesText(c, top[..k]), EntryText(c, top[k]));
  }

  /** The end of an `append*` method: header, entries and trailer make the
      section. */
  lemma SectionDone(c: Criterion, data: seq<IndexInfo>, before: string, t: string)
    requires t == before + Header(c) + EntriesText(c, Top(c, data)[..|Top(c, data)|])
    ensures t + Trailer(c) == before + Section(c, data)
  {
    var top := Top(c, data);
    assert top[..|top|] == top;
    Concat3(before, Header(c), EntriesText(c, top), Trailer(c));
  }

  // Regrouping concatenations, stated over plain strings so that the
  // solver does not look inside the report's literal text.

  lemma Concat2(s: string, a: string, b: string)
    ensures s + a + b == s + (a + b)
  {
  }

  lemma Concat3(s: string, a: string, b: string, c: string)
    ensures s + a + b + c == s + (a + b + c)
  {
  }

  lemma Concat5(s: string, a: string, b: string, c: string, d: string, e: string)
    ensures s + a + b + c + d + e == s + (a + b + c + d + e)
  {
  }

  /** The `forEach` action of `appendLargestBySize`. */
  method AppendSizeEntry(x: IndexInfo, out: StringBuilder)
    modifies out
    ensures out.text == old(out.text) + EntryText(BySize, x)
  {
    Concat3(out.text, "", IndexLine(x), SizeLine(x));
    out.Append(IndexLine(x));
    out.Append(SizeLine(x));
  }

  /** The `forEach` action of `appendLargestByShards`. */
  method AppendShardsEntry(x: IndexInfo, out: StringBuilder)
    modifies out
    ensures out.text == old(out.text) + EntryText(ByShards, x)
  {
    Concat3(out.text, "", IndexLine(x), ShardsLine(x));
    out.Append(IndexLine(x));
    out.Append(ShardsLine(x));
  }

  /** The `forEach` action of `appendLeastBalanced`. */
  method AppendBalanceEntry(x: IndexInfo, out: StringBuilder)
    modifies out
    ensures out.text == old(out.text) + EntryText(ByBalance, x)
  {
    ghost var start := out.text;
    var ratio := x.DisplayRatio();
    var ratioLine := "Balance Ratio: " + FormatDecimal(ratio) + "\n";
    out.Append(IndexLine(x));
    out.Append(SizeLine(x));
    out.Append(ShardsLine(x));
    out.Append(ratioLine);
    out.Append(RecommendationLine(x));
    BalanceEntryText(x, ratioLine);
    Concat5(start, IndexLine(x), SizeLine(x), ShardsLine(x), ratioLine, RecommendationLine(x));
  }

  lemma BalanceEntryText(x: IndexInfo, ratioLine: string)
    requires ratioLine == "Balance Ratio: " + FormatDecimal(x.DisplayRatio()) + "\n"
    ensures EntryText(ByBalance, x)
      == IndexLine(x) + SizeLine(x) + ShardsLine(x) + ratioLine + RecommendationLine(x)
  {
  }

  /** `appendLargestBySize`. */
  method AppendLargestBySize(data: seq<IndexInfo>, out: StringBuilder)
    modifies out
    ensures out.text == old(out.text) + Section(BySize, data)
  {
    out.Append(SIZE_HEADER);
    ghost var start := out.text;
    var top := Top(BySize, data);
    for k := 0 to |top|
      invariant out.text == start + EntriesText(BySize, top[..k])
    {
      EntryStep(BySize, start, top, k, out.text);
      AppendSizeEntry(top[k], out);
    }
    SectionDone(BySize, data, old(out.text), out.text);
    out.Append("\n");
  }

  /** `appendLargestByShards`. */
  method AppendLargestByShards(data: seq<IndexInfo>, out: StringBuilder)
    modifies out
    ensures out.text == old(out.text) + Section(ByShards, data)
  {
    out.Append(SHARDS_HEADER);
    ghost var start := out.text;
    var top := Top(ByShards, data);
    for k := 0 to |top|
      invariant out.text == start + EntriesText(ByShards, top[..k])
    {
      EntryStep(ByShards, start, top, k, out.text);
      AppendShardsEntry(top[k], out);
    }
    SectionDone(ByShards, data, old(out.text), out.text);
    out.Append("\n");
  }

  /** `appendLeastBalanced`: no blank line after the last entry. */
  method AppendLeastBalanced(data: seq<IndexInfo>, out: StringBuilder)
    modifies out
    ensures out.text == old(out.text) + Section(ByBalance, data)
  {
    out.Append(BALANCE_HEADER);
    ghost var start := out.text;
    var top := Top(ByBalance, data);
    for k := 0 to |top|
      invariant out.text == start + EntriesText(ByBalance, top[..k])
    {
      EntryStep(ByBalance, start, top, k, out.text);
      AppendBalanceEntry(top[k], out);
    }
    SectionDone(ByBalance, data, old(out.text), out.text);
    assert Trailer(ByBalance) == "";
    assert out.text + "" == out.text;
  }

  /** Lines 50-54 of `main`: the three sections into one fresh buffer. */
  method BuildReport(indices: seq<IndexInfo>) returns (output: string)
    ensures output == ReportText(indices)
  {
    var sb := new StringBuilder();
    AppendLargestBySize(indices, sb);
    AppendLargestByShards(indices, sb);
    AppendLeastBalanced(indices, sb);
    output := sb.text;
    Concat3("", Section(BySize, indices), Section(ByShards, indices), Section(ByBalance, indices));
  }

  /** `main` without its I/O: load the rows, then build the report. */
  method Analyze(raw: seq<Row>) returns (output: string, skipped: seq<Row>)
    ensures output == ReportText(Parsed(raw))
    ensures |skipped| == |raw| - |Parsed(raw)|
  {
    var indices;
    indices, skipped := ToIndexInfo(raw);
    ParsedCount(raw);
    output := BuildReport(indices);
  }

  /** The two-decimal text without its decimal point. */
  function WithoutPoint(s: string): string
    requires |s| >= 3
  {
    s[..|s| - 3] + s[|s| - 2..]
  }

  lemma {:induction false} CentiDigits(c: nat)
    ensures |FormatCenti(c)| >= 4 && FormatCenti(c)[|FormatCenti(c)| - 3] == '.'
    ensures AllDigits(WithoutPoint(FormatCenti(c))) && DigitsValue(WithoutPoint(FormatCenti(c))) == c
  {
    var whole := FormatNat(c / 100);
    var d1, d2 := DigitChar(c % 100 / 10), DigitChar(c % 10);
    var s := FormatCenti(c);
    assert s == whole + "." + [d1, d2];
    assert s[..|s| - 3] == whole;
    assert s[|s| - 2..] == [d1, d2];
    FormatNatValue(c / 100);
    DigitsSnoc(whole, d1);
    DigitsSnoc(whole + [d1], d2);
    assert WithoutPoint(s) == whole + [d1] + [d2];
  }

  /** `%.2f` of a size: removing its decimal point leaves the decimal text
      of the size in hundredths, and exactly two digits follow the point. */
  lemma CentiRoundTrip(c: int)
    requires LONG_MIN <= c <= LONG_MAX
    ensures |FormatCenti(c)| >= 4 && FormatCenti(c)[|FormatCenti(c)| - 3] == '.'
    ensures ParseLong(WithoutPoint(FormatCenti(c))) == Some(c)
  {
    if c >= 0 {
      CentiDigits(c);
    } else {
      CentiDigits(-c);
      var t := FormatCenti(-c);
      assert FormatCenti(c) == "-" + t;
      assert WithoutPoint(FormatCenti(c)) == "-" + WithoutPoint(t);
      assert ("-" + WithoutPoint(t))[1..] == WithoutPoint(t);
    }
  }

  /** 1.23 GB is printed as "1.23" and 3 GB as "3.00". */
  lemma FormatCentiExamples()
    ensures FormatCenti(123) == "1.23"
    ensures FormatCenti(300) == "3.00"
  {
  }

  /** An empty list gives a section with the header alone. */
  lemma EmptySection(c: Criterion)
    ensures Section(c, []) == Header(c) + Trailer(c)
  {
  }

  /** Entry `k` of a section is rendered from the `k`-th ranked record,
      after entries `0..k-1` and before the rest. */
  lemma SectionEntryAt(c: Criterion, data: seq<IndexInfo>, k: nat)
    requires k < |Top(c, data)|
    ensures var top := Top(c, data);
      Section(c, data) == Header(c) + EntriesText(c, top[..k]) + EntryText(c, top[k])
                          + EntriesText(c, top[k + 1..]) + Trailer(c)
  {
    var top := Top(c, data);
    EntriesSplit(c, top, k);
    Regroup3(Header(c), EntriesText(c, top[..k]), EntryText(c, top[k]), EntriesText(c, top[k + 1..]), Trailer(c));
  }

  lemma EntriesSplit(c: Criterion, xs: seq<IndexInfo>, k: nat)
    requires k < |xs|
    ensures EntriesText(c, xs) == EntriesText(c, xs[..k]) + EntryText(c, xs[k]) + EntriesText(c, xs[k + 1..])
  {
    var front, back := xs[..k + 1], xs[k + 1..];
    assert front + back == xs;
    EntriesAppend(c, front, back);
    EntriesSnoc(c, xs, k);
    Chain(EntriesText(c, xs), EntriesText(c, front), EntriesText(c, xs[..k]), EntryText(c, xs[k]), EntriesText(c, back));
  }

  lemma Chain(e: string, e1: string, a: string, b: string, r: string)
    requires e == e1 + r && e1 == a + b
    ensures e == a + b + r
  {
  }

  lemma Regroup3(h: string, a: string, b: string, d: string, t: string)
    ensures h + (a + b + d) + t == h + a + b + d + t
  {
  }

  lemma {:induction false} EntriesAppend(c: Criterion, a: seq<IndexInfo>, b: seq<IndexInfo>)
    ensures EntriesText(c, a + b) == EntriesText(c, a) + EntriesText(c, b)
    decreases |b|
  {
    if b == [] {
      assert a + b == a;
    } else {
      var b' := b[..|b| - 1];
      assert (a + b)[..|a + b| - 1] == a + b';
      EntriesAppend(c, a, b');
      Concat2(EntriesText(c, a), EntriesText(c, b'), EntryText(c, b[|b| - 1]));
    }
  }

  /** The least-balanced section ends with the recommendation line of its
      last entry, not with a blank line. */
  lemma BalanceSectionEnd(data: seq<IndexInfo>)
    requires data != []
    ensures var top := Top(ByBalance, data);
      EndsWith(Section(ByBalance, data), RecommendationLine(top[|top| - 1]))
  {
    var top := Top(ByBalance, data);
    BalanceEntriesEnd(top);
    var e := EntriesText(ByBalance, top);
    var rec := RecommendationLine(top[|top| - 1]);
    assert Trailer(ByBalance) == "";
    EndsWithAppend(Header(ByBalance), e, Trailer(ByBalance), rec);
  }

  lemma BalanceEntriesEnd(xs: seq<IndexInfo>)
    requires xs != []
    ensures EndsWith(EntriesText(ByBalance, xs), RecommendationLine(xs[|xs| - 1]))
  {
    var x := xs[|xs| - 1];
    var p := EntriesText(ByBalance, xs[..|xs| - 1]);
    assert EntriesText(ByBalance, xs) == p + EntryText(ByBalance, x);
    Regroup5(p, IndexLine(x), SizeLine(x), ShardsLine(x), RatioLine(x), RecommendationLine(x));
  }

  lemma Regroup5(p: string, a: string, b: string, d: string, e: string, f: string)
    ensures EndsWith(p + (a + b + d + e + f), f)
  {
    var front := p + a + b + d + e;
    assert p + (a + b + d + e + f) == front + f;
  }

  lemma EndsWithAppend(h: string, e: string, t: string, suffix: string)
    requires EndsWith(e, suffix) && t == ""
    ensures EndsWith(h + e + t, suffix)
  {
    assert h + e + t == h + e;
    assert (h + e)[|h + e| - |suffix|..] == e[|e| - |suffix|..];
  }

  predicate EndsWith(s: string, suffix: string) {
    |suffix| <= |s| && s[|s| - |suffix|..] == suffix
  }

  /** A malformed row changes nothing in the report. */
  lemma ReportIgnoresMalformed(a: seq<Row>, bad: Row, b: seq<Row>)
    requires ToRecord(bad).None?
    ensures ReportText(Parsed(a + [bad] + b)) == ReportText(Parsed(a + b))
  {
    SkipOnlyThatRow(a, bad, b);
  }
}
