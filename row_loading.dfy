/** `toIndexInfo`: turning the raw rows of the `_cat/indices` listing into
    records, skipping each row whose size or shard count does not parse. */
module RowLoading {

  import opened Options
  import opened JavaInts
  import opened NumberText
  import opened IndexMetrics

  /** One element of the parsed JSON array: `None` is a JSON `null`
      element; a key whose value is JSON `null` is modelled as absent. */
  type Row = Option<map<string, string>>

  const INDEX_KEY := "index"
  const SIZE_KEY := "pri.store.size"
  const SHARDS_KEY := "pri"

  /** `m.get(key)`: null when the key is absent. */
  function Get(m: map<string, string>, key: string): Option<string> {
    if key in m then Some(m[key]) else None
  }

  /** `Long.parseLong` / `Integer.parseInt` of a possibly null string:
      null throws, like malformed text. */
  function ParseLongField(v: Option<string>): (r: Option<int>)
    ensures r.Some? ==> LONG_MIN <= r.value <= LONG_MAX
  {
    match v
    case None => None
    case Some(s) => ParseLong(s)
  }

  function ParseIntField(v: Option<string>): (r: Option<int>)
    ensures r.Some? ==> INT_MIN <= r.value <= INT_MAX
  {
    match v
    case None => None
    case Some(s) => ParseInt(s)
  }

  /** The body of the `try`: the record a row gives, or `None` when any
      statement of the block throws (a null element, a size or shard field
      missing or malformed). A missing name does not throw. */
  function ToRecord(row: Row): (r: Option<IndexInfo>)
    ensures r.Some? <==> row.Some? && ParseLongField(Get(row.value, SIZE_KEY)).Some?
                                 && ParseIntField(Get(row.value, SHARDS_KEY)).Some?
    ensures r.Some? ==> r.value.index == Get(row.value, INDEX_KEY)
    ensures r.Some? ==> (r.value.sizeBytes as int == ParseLongField(Get(row.value, SIZE_KEY)).value
                         && r.value.shards as int == ParseIntField(Get(row.value, SHARDS_KEY)).value)
  {
    match row
    case None => None
    case Some(m) =>
      var idx := Get(m, INDEX_KEY);
      var sz := ParseLongField(Get(m, SIZE_KEY));
      var sh := ParseIntField(Get(m, SHARDS_KEY));
      if sz.Some? && sh.Some? then Some(IndexInfo(idx, sz.value, sh.value)) else None
  }

  /** The row that the listing gives for a record. */
  function RowOf(info: IndexInfo): Row {
    var sizeAndShards := map[SIZE_KEY := FormatDecimal(info.sizeBytes), SHARDS_KEY := FormatDecimal(info.shards)];
    match info.index
    case None => Some(sizeAndShards)
    case Some(name) => Some(sizeAndShards[INDEX_KEY := name])
  }

  /** Every record is recovered from the row that lists it, nameless
      records included. */
  lemma ToRecordOfRow(info: IndexInfo)
    ensures ToRecord(RowOf(info)) == Some(info)
  {
    var m := RowOf(info).value;
    assert Get(m, SIZE_KEY) == Some(FormatDecimal(info.sizeBytes));
    assert Get(m, SHARDS_KEY) == Some(FormatDecimal(info.shards));
    assert Get(m, INDEX_KEY) == info.index;
    LongRoundTrip(info.sizeBytes);
    IntRoundTrip(info.shards);
  }

  /** The records of the rows that parse, in input order. */
  function Parsed(raw: seq<Row>): (list: seq<IndexInfo>)
    ensures |list| <= |raw|
  {
    if raw == [] then []
    else if ToRecord(raw[0]).Some? then [ToRecord(raw[0]).value] + Parsed(raw[1..])
    else Parsed(raw[1..])
  }

  /** The rows warned about on standard error, in input order. */
  function Skipped(raw: seq<Row>): (warned: seq<Row>)
    ensures |warned| <= |raw|
  {
    if raw == [] then []
    else if ToRecord(raw[0]).Some? then Skipped(raw[1..])
    else [raw[0]] + Skipped(raw[1..])
  }

  /** Parsing a batch is parsing its parts: a row's outcome does not depend
      on its neighbours, and the order is kept. */
  lemma ParsedAppend(a: seq<Row>, b: seq<Row>)
    ensures Parsed(a + b) == Parsed(a) + Parsed(b)
    ensures Skipped(a + b) == Skipped(a) + Skipped(b)
  {
    ParsedListAppend(a, b);
    SkippedAppend(a, b);
  }

  lemma {:induction false} ParsedListAppend(a: seq<Row>, b: seq<Row>)
    ensures Parsed(a + b) == Parsed(a) + Parsed(b)
  {
    if a == [] {
      assert a + b == b;
    } else {
      var ab := a + b;
      assert ab[0] == a[0] && ab[1..] == a[1..] + b;
      ParsedListAppend(a[1..], b);
      var tail, rest := Parsed(a[1..]), Parsed(b);
      if ToRecord(a[0]).Some? {
        var info := ToRecord(a[0]).value;
        assert Parsed(ab) == [info] + (tail + rest);
        assert Parsed(a) == [info] + tail;
        assert [info] + (tail + rest) == [info] + tail + rest;
      } else {
        assert Parsed(ab) == tail + rest;
        assert Parsed(a) == tail;
      }
    }
  }

  lemma {:induction false} SkippedAppend(a: seq<Row>, b: seq<Row>)
    ensures Skipped(a + b) == Skipped(a) + Skipped(b)
  {
    if a == [] {
      assert a + b == b;
    } else {
      var ab := a + b;
      assert ab[0] == a[0] && ab[1..] == a[1..] + b;
      SkippedAppend(a[1..], b);
      var tail, rest := Skipped(a[1..]), Skipped(b);
      if ToRecord(a[0]).Some? {
        assert Skipped(ab) == tail + rest;
        assert Skipped(a) == tail;
      } else {
        var row := a[0];
        assert Skipped(ab) == [row] + (tail + rest);
        assert Skipped(a) == [row] + tail;
        assert [row] + (tail + rest) == [row] + tail + rest;
      }
    }
  }

  /** A malformed row is skipped and nothing else changes. */
  lemma {:induction false} SkipOnlyThatRow(a: seq<Row>, bad: Row, b: seq<Row>)
    requires ToRecord(bad).None?
    ensures Parsed(a + [bad] + b) == Parsed(a + b)
    ensures Skipped(a + [bad] + b) == Skipped(a) + [bad] + Skipped(b)
  {
    var one := [bad];
    SingleBadRow(bad);
    ParsedAppend(a + one, b);
    ParsedAppend(a, one);
    ParsedAppend(a, b);
    assert Parsed(a + one) == Parsed(a);
    assert Parsed(a + one + b) == Parsed(a) + Parsed(b);
    assert Skipped(a + one + b) == Skipped(a) + one + Skipped(b);
  }

  lemma SingleBadRow(bad: Row)
    requires ToRecord(bad).None?
    ensures Parsed([bad]) == [] && Skipped([bad]) == [bad]
  {
    assert [bad][1..] == [];
  }

  /** Only rows of the input that do not parse are warned about. */
  lemma {:induction false} SkippedMalformed(raw: seq<Row>)
    ensures forall row | row in Skipped(raw) :: row in raw && ToRecord(row).None?
  {
    if raw != [] {
      SkippedMalformed(raw[1..]);
      forall row | row in Skipped(raw) ensures row in raw && ToRecord(row).None? {
        if row != raw[0] {
          assert row in Skipped(raw[1..]);
          assert row in raw[1..];
        }
      }
    }
  }

  /** Every row is either kept or warned about. */
  lemma {:induction false} ParsedCount(raw: seq<Row>)
    ensures |Parsed(raw)| + |Skipped(raw)| == |raw|
  {
    if raw != [] {
      ParsedCount(raw[1..]);
    }
  }

  /** The records kept are exactly those some row parses to. */
  lemma {:induction false} ParsedMembers(raw: seq<Row>, info: IndexInfo)
    ensures info in Parsed(raw) <==> exists i | 0 <= i < |raw| :: ToRecord(raw[i]) == Some(info)
  {
    if raw != [] {
      ParsedMembers(raw[1..], info);
      if ToRecord(raw[0]) == Some(info) {
        assert info in Parsed(raw);
      }
      if exists i | 0 <= i < |raw[1..]| :: ToRecord(raw[1..][i]) == Some(info) {
        var i :| 0 <= i < |raw[1..]| && ToRecord(raw[1..][i]) == Some(info);
        assert ToRecord(raw[i + 1]) == Some(info);
      }
      if exists i | 0 <= i < |raw| :: ToRecord(raw[i]) == Some(info) {
        var i :| 0 <= i < |raw| && ToRecord(raw[i]) == Some(info);
        if i > 0 {
          assert ToRecord(raw[1..][i - 1]) == Some(info);
        }
      }
    }
  }

  /** `toIndexInfo`: one pass that appends each record to the list and
      reports each skipped row. */
  method ToIndexInfo(raw: seq<Row>) returns (list: seq<IndexInfo>, skipped: seq<Row>)
    ensures list == Parsed(raw)
    ensures skipped == Skipped(raw)
  {
    list, skipped := [], [];
    for i := 0 to |raw|
      invariant list == Parsed(raw[..i])
      invariant skipped == Skipped(raw[..i])
    {
      var row := raw[i];
      assert raw[..i + 1] == raw[..i] + [row];
      ParsedAppend(raw[..i], [row]);
      OneRow(row);
      var rec := ToRecord(row);
      if rec.Some? {
        list := list + [rec.value];
      } else {
        skipped := skipped + [row];
      }
    }
    assert raw[..|raw|] == raw;
  }

  lemma OneRow(row: Row)
    ensures Parsed([row]) == if ToRecord(row).Some? then [ToRecord(row).value] else []
    ensures Skipped([row]) == if ToRecord(row).None? then [row] else []
  {
    assert [row][1..] == [];
  }

  function Pow10(k: nat): nat {
    if k == 0 then 1 else 10 * Pow10(k - 1)
  }

  /** The malformed row of the design example is skipped, and so is a
      JSON `null` element. */
  lemma MalformedRowSkipped()
    ensures ToRecord(Some(map[INDEX_KEY := "x", SIZE_KEY := "not-a-number", SHARDS_KEY := "1"])) == None
    ensures ToRecord(None) == None
  {
    var m := map[INDEX_KEY := "x", SIZE_KEY := "not-a-number", SHARDS_KEY := "1"];
    assert Get(m, SIZE_KEY) == Some("not-a-number");
    ParseLongRejects();
  }

  /** A row without a name is kept, with a null name. */
  lemma NamelessRowKept()
    ensures ToRecord(Some(map[SIZE_KEY := "3000000000", SHARDS_KEY := "1"])).Some?
    ensures ToRecord(Some(map[SIZE_KEY := "3000000000", SHARDS_KEY := "1"])).value.index == None
  {
    var m := map[SIZE_KEY := "3000000000", SHARDS_KEY := "1"];
    assert Get(m, SIZE_KEY) == Some("3000000000");
    assert Get(m, SHARDS_KEY) == Some("1");
    assert INDEX_KEY !in m;
    ThreeBillion();
    assert AllDigits("1") && DigitsValue("1") == 1;
  }

  /** A size above `Integer.MAX_VALUE` is a valid `long`. */
  lemma ThreeBillion()
    ensures ParseLong("3000000000") == Some(3_000_000_000)
  {
    var digits := "3";
    for k := 1 to 10
      invariant AllDigits(digits) && digits == "3000000000"[..k]
      invariant DigitsValue(digits) == 3 * Pow10(k - 1)
    {
      DigitsSnoc(digits, '0');
      digits := digits + "0";
    }
    assert Pow10(9) == 1_000_000_000;
    assert digits == "3000000000";
  }
}
