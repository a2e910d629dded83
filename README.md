# LogAnalyzer index report, modelled in Dafny

`LogAnalyzer` reads the `_cat/indices` listing of an Elasticsearch cluster
(one row per index, with its name, primary store size in bytes and primary
shard count) and writes a text report with three sections: the five
largest indices by size, the five with the most shards, and the five least
balanced (the highest gigabytes per shard), each entry followed by a
recommended shard count of one per 30 GB.

The model covers the part of `LogAnalyzer.java` that decides what the
report says:

- `options.dfy`: `Option`, used for Java `null`.
- `java_ints.dfy`: `int` and `long` ranges, and the two narrowing
  conversions the report relies on.
- `number_text.dfy`: `Long.parseLong` and `Integer.parseInt` on ASCII
  text, the `%d` rendering, and the round trip between them.
- `index_metrics.dfy`: the `IndexInfo` record and the values its
  constructor derives: `sizeGb` (kept as whole hundredths of a gigabyte),
  `ratio` (an exact fraction or +infinity) and `recommendedShards`. It also
  holds the balance ratio printed by the third section, and the order
  `Double.compare` puts on ratios.
- `row_loading.dfy`: `toIndexInfo`, modelled as a function over the raw rows
  and as the loop that builds the list. A row whose size or shard count is
  missing or does not parse is skipped, and it is the only thing skipped.
- `ranking.dfy`: `sorted(cmp).limit(5)` for the three comparators. Sorting
  is an insertion sort, proved sorted, a permutation, stable, and the only
  stable sorted order. The size comparator `-i.sizeGb` is modelled as
  largest first. For `-i.shards`, the overflow of `-Integer.MIN_VALUE` is
  modelled exactly.
- `report.dfy`: the `StringBuilder` as a class whose text the three
  `append*` methods extend. Each method is proved to add exactly the text
  of its section, and `main` is proved to emit the sections in the order
  size, shards, balance.

Where the code and its design description differ, the model follows the
code:

- The design skips a row without an `index`. The code keeps it and
  prints its name as `null` (line 105; `RowLoading.NamelessRowKept`).
- The design asks for non-negative integers. `Long.parseLong` and
  `Integer.parseInt` also accept a leading `-` or `+`, so negative sizes
  and shard counts are kept (`NumberText.ParseInRange`).
- The design sorts the shard section by shard count. The code's comparator
  `-i.shards` overflows for `Integer.MIN_VALUE`, a value a negative count
  makes reachable, and ranks that record first (`Ranking.MinShardsRankFirst`).

Two points where the code reads differently from the design but prints the
same report:

- Only the first two sections end with a blank line, which the design
  allows for the last section.
- `recommendedShards` truncates `sizeGb / 30` toward zero rather than taking
  its floor, and the `max(1, _)` around it makes the two agree.

## Model

| member | source | states |
|---|---|---|
| IndexMetrics.RoundGb | src/main/java/org/example/LogAnalyzer.java:32-35 | the size in hundredths of a GB is the nearest whole hundredth to bytes / 10^7, with halves rounded up |
| IndexMetrics.IndexInfo.Ratio | src/main/java/org/example/LogAnalyzer.java:28 | the ratio is infinite exactly when there are no shards, and otherwise equals sizeGb / shards |
| IndexMetrics.IndexInfo.RecommendedShards | src/main/java/org/example/LogAnalyzer.java:29 | at least one shard; exactly one below 60 GB; from 30 GB up, the number of whole 30 GB in the size |
| IndexMetrics.IndexInfo.DisplayRatio | src/main/java/org/example/LogAnalyzer.java:146-148 | a record without shards prints Integer.MAX_VALUE, the value (int) Math.floor gives for an infinite ratio (the rest is stated by DisplayRatioMeaning) |
| IndexMetrics.DisplayRatioMeaning | src/main/java/org/example/LogAnalyzer.java:146-148 | with at most two shards, negative counts included, the printed ratio is its floor when that fits in an int and the nearer int bound otherwise; with more shards it is the ratio rounded half up when that fits, and always the low 32 bits of that rounding |
| IndexMetrics.IndexInfo.SizeCenti | src/main/java/org/example/LogAnalyzer.java:27 | sizeGb is the size rounded half up to the nearest hundredth of a GB |
| IndexMetrics.AtLeast | src/main/java/org/example/LogAnalyzer.java:143 | Double.compare(a, b) >= 0 on ratios: infinity above all, fractions by value (its meaning is stated by AtLeastMeaning) |
| IndexMetrics.AtLeastMeaning | src/main/java/org/example/LogAnalyzer.java:143 | only infinity is at least infinity, infinity is at least every ratio, fractions over one denominator compare by numerator, and two finite ratios compare as the real numbers they stand for |
| IndexMetrics.FractionOrder | src/main/java/org/example/LogAnalyzer.java:143 | cross-multiplying two fractions with positive denominators orders them as real numbers |
| IndexMetrics.AtLeastTotal | src/main/java/org/example/LogAnalyzer.java:143 | any two ratios are comparable under Double.compare |
| IndexMetrics.AtLeastTransitive | src/main/java/org/example/LogAnalyzer.java:143 | the ratio order is transitive, so the comparator is a valid total preorder |
| IndexMetrics.FloorDiv | src/main/java/org/example/LogAnalyzer.java:147 | Math.floor of a fraction: the integer q with q*d <= n < (q+1)*d |
| IndexMetrics.MetricExamples | src/main/java/org/example/LogAnalyzer.java:27-29 | 1 234 500 000 bytes is 1.23 GB; 95 GB gives 3 shards and 10 GB gives 1; sample ratios printed by floor and by rounding; zero shards print Integer.MAX_VALUE; -1.5 GB on one shard prints -2, the floor of -1.5 |
| JavaInts.WrapToInt | src/main/java/org/example/LogAnalyzer.java:148 | the (int) cast of a long keeps the value modulo 2^32 and leaves int-range values unchanged |
| JavaInts.SaturateToInt | src/main/java/org/example/LogAnalyzer.java:147 | the (int) cast of a double clamps to the int range and leaves in-range values unchanged |
| NumberText.ParseInRange | src/main/java/org/example/LogAnalyzer.java:106-107 | the empty text and a bare sign are rejected; digits with an optional leading "+" or "-" parse to their signed value when it is in the type's range and are rejected otherwise |
| NumberText.ParseRejectsNonDigit | src/main/java/org/example/LogAnalyzer.java:106-107 | text with a non-digit after the optional sign does not parse |
| NumberText.ParseRejectsOutOfRange | src/main/java/org/example/LogAnalyzer.java:106-107 | the decimal text of a value outside the range does not parse |
| NumberText.ParseLongRejects | src/main/java/org/example/LogAnalyzer.java:106 | "not-a-number", the empty text, a bare "-" and 2^63 are rejected by Long.parseLong |
| NumberText.FormatNat | src/main/java/org/example/LogAnalyzer.java:135 | %d of a natural number is a non-empty string of digits with no leading zero |
| NumberText.FormatDecimal | src/main/java/org/example/LogAnalyzer.java:152-154 | %d prints a "-" exactly for negative values, then the digits of the magnitude, which have the magnitude's value and no leading zero |
| NumberText.ParseLong | src/main/java/org/example/LogAnalyzer.java:106 | Long.parseLong accepts only values in the long range |
| NumberText.ParseInt | src/main/java/org/example/LogAnalyzer.java:107 | Integer.parseInt accepts only values in the int range |
| NumberText.FormatNatValue | src/main/java/org/example/LogAnalyzer.java:135 | the digits %d prints have the printed value |
| NumberText.ParseFormatRoundTrip | src/main/java/org/example/LogAnalyzer.java:106-107 | parsing the %d text of any in-range value gives that value back |
| NumberText.LongRoundTrip | src/main/java/org/example/LogAnalyzer.java:106 | Long.parseLong inverts %d on every long |
| NumberText.IntRoundTrip | src/main/java/org/example/LogAnalyzer.java:107 | Integer.parseInt inverts %d on every int |
| RowLoading.ToRecord | src/main/java/org/example/LogAnalyzer.java:104-111 | a row gives a record exactly when it is not null and both its size and its shard count parse; the record's name is the row's "index" value (null when absent), and its size and shard count are the parsed values |
| RowLoading.ToRecordOfRow | src/main/java/org/example/LogAnalyzer.java:105-108 | every record, nameless ones included, is recovered from the row that lists it |
| RowLoading.Parsed | src/main/java/org/example/LogAnalyzer.java:101-114 | the list toIndexInfo returns is no longer than its input (its contents are stated by ParsedMembers and ParsedAppend) |
| RowLoading.Skipped | src/main/java/org/example/LogAnalyzer.java:109-110 | the rows warned about are no more than the input (SkippedMalformed states which ones) |
| RowLoading.SkippedMalformed | src/main/java/org/example/LogAnalyzer.java:109-110 | every row warned about is a row of the input that does not parse |
| RowLoading.ParsedAppend | src/main/java/org/example/LogAnalyzer.java:103-112 | loading a concatenation of rows gives the concatenation of the records and of the skipped rows |
| RowLoading.SkipOnlyThatRow | src/main/java/org/example/LogAnalyzer.java:109-111 | a malformed row is reported as skipped; the records before and after it are unchanged |
| RowLoading.ParsedCount | src/main/java/org/example/LogAnalyzer.java:103-112 | every row is either kept or skipped |
| RowLoading.ParsedMembers | src/main/java/org/example/LogAnalyzer.java:103-108 | a record is in the list if and only if some row parses to it |
| RowLoading.ToIndexInfo | src/main/java/org/example/LogAnalyzer.java:101-114 | the loop builds the records and the skipped rows that Parsed and Skipped describe |
| RowLoading.OneRow | src/main/java/org/example/LogAnalyzer.java:104-111 | a single row is kept when it gives a record, and skipped otherwise |
| RowLoading.MalformedRowSkipped | src/main/java/org/example/LogAnalyzer.java:106-110 | a row with size "not-a-number" is skipped, and so is a JSON null element |
| RowLoading.NamelessRowKept | src/main/java/org/example/LogAnalyzer.java:105-108 | a row without "index" is kept, with a null name |
| RowLoading.ThreeBillion | src/main/java/org/example/LogAnalyzer.java:106 | a size above Integer.MAX_VALUE is parsed as a long |
| Ranking.Key | src/main/java/org/example/LogAnalyzer.java:119 | the sort key of each section: size, shard key, or ratio (the comparators at lines 119, 131 and 143; their meaning is stated by RanksBy) |
| Ranking.RanksBy | src/main/java/org/example/LogAnalyzer.java:119 | for the comparators at lines 119, 131 and 143, ranking first means a size at least as large; a shard key at least as large; or a ratio at least as large, with records without shards above all; between records with shards the balance order compares sizeGb / shards as real numbers |
| Ranking.RatioValue | src/main/java/org/example/LogAnalyzer.java:28 | the ratio a record keeps as a fraction is, as a real number, sizeGb / shards |
| Ranking.ShardKey | src/main/java/org/example/LogAnalyzer.java:131 | the shard sort key is the shard count, except Integer.MIN_VALUE, whose negation overflows and ranks it above every other count |
| Ranking.Insert | src/main/java/org/example/LogAnalyzer.java:119 | inserting adds exactly one element and keeps the others |
| Ranking.InsertSorted | src/main/java/org/example/LogAnalyzer.java:119 | inserting into a sorted list keeps it sorted |
| Ranking.SortDesc | src/main/java/org/example/LogAnalyzer.java:118-119 | the sort (the same for lines 130-131 and 142-143) is a permutation of its input, sorted by key, largest first |
| Ranking.WithKeyMembers | src/main/java/org/example/LogAnalyzer.java:119 | the records with a given key are exactly the input's records with that key |
| Ranking.InsertWithKey | src/main/java/org/example/LogAnalyzer.java:119 | an inserted element goes before its ties, which keeps earlier input first |
| Ranking.SortStable | src/main/java/org/example/LogAnalyzer.java:118-119 | within each key, the sort keeps input order, as the sort of an ordered stream must |
| Ranking.SortedOrderUnique | src/main/java/org/example/LogAnalyzer.java:118-119 | two sorted orders that agree on the order within every key are equal |
| Ranking.StableSortIsSortDesc | src/main/java/org/example/LogAnalyzer.java:118-119 | any stable sort by the key gives exactly the model's order |
| Ranking.Top | src/main/java/org/example/LogAnalyzer.java:120 | limit(5) keeps min(n, 5) entries |
| Ranking.TopFromInput | src/main/java/org/example/LogAnalyzer.java:118-120 | every entry shown comes from the input, and none is shown more often than it occurs |
| Ranking.TopSorted | src/main/java/org/example/LogAnalyzer.java:118-120 | the entries shown are in non-increasing key order |
| Ranking.TopDominates | src/main/java/org/example/LogAnalyzer.java:120 | when a record is left out, five entries are shown, and the last of them ranks at least as high as the left-out record |
| Ranking.LeftOutIsLater | src/main/java/org/example/LogAnalyzer.java:120 | a record that is left out sits past the cut in the sorted list |
| Ranking.TopStable | src/main/java/org/example/LogAnalyzer.java:118-120 | among tied records, the ones shown are the first ones of the input |
| Ranking.RankedAtLeast | src/main/java/org/example/LogAnalyzer.java:118-120 | the first entry ranks at least as high as every input record |
| Ranking.SizesNonIncreasing | src/main/java/org/example/LogAnalyzer.java:119 | the size section lists sizes in non-increasing order |
| Ranking.ShardsNonIncreasing | src/main/java/org/example/LogAnalyzer.java:131 | without Integer.MIN_VALUE, the shard section lists counts in non-increasing order |
| Ranking.MinShardsRankFirst | src/main/java/org/example/LogAnalyzer.java:131 | a record with Integer.MIN_VALUE shards heads the shard section |
| Ranking.ZeroShardsFirst | src/main/java/org/example/LogAnalyzer.java:143 | records without shards, whose ratio is infinite, come before every record with shards, and one of them heads the section if any exists |
| Ranking.DesignExample | src/main/java/org/example/LogAnalyzer.java:116-156 | 3 GB on 1 shard and 1 GB on 5 shards: the first leads by size and by ratio, the second by shards, and the ratios print as 3 and 0 |
| Ranking.RankingExample | src/main/java/org/example/LogAnalyzer.java:118-144 | with 10 GB on 1 shard and 50 GB on 5, the larger leads the size and shard rankings, and the equal ratios keep input order |
| Report.FormatCenti | src/main/java/org/example/LogAnalyzer.java:123 | %.2f of a size has exactly two digits after the point and a "-" exactly for negative sizes (CentiRoundTrip states its value, CentiCanonical its form) |
| Report.NameText | src/main/java/org/example/LogAnalyzer.java:122 | %s prints a name as itself and a null name as "null" |
| Report.EntryText | src/main/java/org/example/LogAnalyzer.java:121-124 | each entry opens with its Index line, followed by the criterion's lines (lines 122-123, 134-135 and 150-154) |
| Report.Section | src/main/java/org/example/LogAnalyzer.java:116-126 | a section opens with its header, followed by the entries of the ranked records and the trailer (SectionEntryAt, EmptySection and BalanceSectionEnd state the rest) |
| Report.ReportText | src/main/java/org/example/LogAnalyzer.java:52-54 | the report opens with the size section, followed by the shard and balance sections |
| Report.StringBuilder.constructor | src/main/java/org/example/LogAnalyzer.java:50 | a new builder is empty |
| Report.StringBuilder.Append | src/main/java/org/example/LogAnalyzer.java:117 | append adds its argument at the end of the text |
| Report.AppendSizeEntry | src/main/java/org/example/LogAnalyzer.java:121-124 | the lambda adds the index and size lines of one record |
| Report.AppendShardsEntry | src/main/java/org/example/LogAnalyzer.java:133-136 | the lambda adds the index and shard lines of one record |
| Report.AppendBalanceEntry | src/main/java/org/example/LogAnalyzer.java:145-155 | the lambda adds the index, size, shard, ratio and recommendation lines of one record |
| Report.AppendLargestBySize | src/main/java/org/example/LogAnalyzer.java:116-126 | the builder gains the header, one entry for each of the five largest records in rank order, and a blank line |
| Report.AppendLargestByShards | src/main/java/org/example/LogAnalyzer.java:128-138 | the builder gains the header, one entry for each of the five records with the most shards in rank order, and a blank line |
| Report.AppendLeastBalanced | src/main/java/org/example/LogAnalyzer.java:140-156 | the builder gains the header and one entry for each of the five least balanced records in rank order, with no trailing blank line |
| Report.BuildReport | src/main/java/org/example/LogAnalyzer.java:50-54 | the report is the size section, then the shard section, then the balance section |
| Report.Analyze | src/main/java/org/example/LogAnalyzer.java:43-54 | the report of the raw rows is built from the records that parse; one warning is issued per row that is dropped |
| Report.CentiRoundTrip | src/main/java/org/example/LogAnalyzer.java:123 | %.2f of a size prints exactly two decimals, and the text without the point parses back with Long.parseLong to the size in hundredths |
| Report.CentiCanonical | src/main/java/org/example/LogAnalyzer.java:123 | %.2f of a size is an optional "-", then digits with no leading zero unless the whole part is 0, a point and two digits; with CentiRoundTrip this fixes one text per size |
| Report.FormatCentiExamples | src/main/java/org/example/LogAnalyzer.java:123 | 1.23 GB prints as "1.23" and 3 GB as "3.00" |
| Report.EmptySection | src/main/java/org/example/LogAnalyzer.java:116-126 | with no records, a section is its header and trailer alone |
| Report.SectionEntryAt | src/main/java/org/example/LogAnalyzer.java:118-124 | entry k of a section is rendered from the k-th ranked record, between the entries before and after it |
| Report.EntriesAppend | src/main/java/org/example/LogAnalyzer.java:121-124 | the entries of two lists of records render as the concatenation of their texts |
| Report.BalanceSectionEnd | src/main/java/org/example/LogAnalyzer.java:140-156 | a non-empty balance section ends with the recommendation line of its last entry |
| Report.ReportIgnoresMalformed | src/main/java/org/example/LogAnalyzer.java:101-114 | inserting a malformed row anywhere in the input leaves the report unchanged |

## Left out

- JSON parsing (Jackson), file and HTTP input, and `LocalDate`: the model starts from the parsed rows. A row is a map from key to string, or null for a JSON null element. A key whose value is JSON null is modelled as an absent key; both make the parse throw.
- The file written by `FileWriter` and the messages printed by `System.out` and `System.err`: the report is returned as a string. The warnings are returned as the list of skipped rows.
- `getDataFromServer`, `getDataFromFile` and the `debug` switch: input and output only.
- IEEE double arithmetic: `sizeGb` and `ratio` are exact fractions. Java computes `bytes / 1e9 * 100` in doubles, so a size at an exact half-hundredth can round down at any magnitude: 145 000 000 bytes gives 0.14 GB in Java and 0.15 GB in the model. Ratios that are equal as fractions, such as 0.10 GB on 1 shard and 0.30 GB on 3, can differ as doubles, so Java orders them one way while the model ties them and keeps input order.
- Double.compare orders -0.0 below 0.0. A zero-size record with a negative shard count has ratio -0.0, and the model treats it as equal to 0.0.
- `%n` is modelled as "\n", and formatting is locale-independent.
- `Long.parseLong` and `Integer.parseInt` also accept non-ASCII Unicode digits; the model accepts ASCII digits only.
- Ranking.ShardsNonIncreasing: proved only for inputs without Integer.MIN_VALUE, because that count's key overflows to the top (Ranking.MinShardsRankFirst).
