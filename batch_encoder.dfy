/**
  The batch encoder of the publisher: the per-batch string table and the
  op-coded measurement records, appended to one flat JSON array.

  Wire layout of one batch:
    [n, s_0, ..., s_{n-1},  record, record, ...]
  where s_0 < ... < s_{n-1} are the distinct strings of the batch and each
  record is
    [T, (key, value) index pairs ..., op, value]
  with T index pairs: the common tags, the identity's tags, then
  ("name", identity name).
 */
module BatchEncoder {
  import opened Wrappers
  import opened Ids
  import opened Seqs
  import opened StrOrder

  /** One element of the JSON payload array. */
  datatype JsonItem = Int(i: int) | Str(s: string) | Num(x: real)

  /** String -> table index (a hash map in the source). */
  type StrTable = map<string, int>

  /** Aggregation operator the backend applies to a record. */
  datatype Op = Unknown | Add | Max

  /** The numeric value of each Op on the wire. */
  function OpCode(op: Op): int {
    match op
    case Unknown => -1
    case Add => 0
    case Max => 10
  }

  const AddStatistics: set<string> := {"count", "totalAmount", "totalTime", "totalOfSquares", "percentile"}
  const MaxStatistics: set<string> := {"max", "gauge", "activeTasks", "duration"}

  predicate HasStatistic(tags: Tags) {
    Find(tags, "statistic").Some?
  }

  predicate AllHaveStatistic(batch: seq<Measurement>) {
    forall i :: 0 <= i < |batch| ==> HasStatistic(batch[i].id.tags)
  }

  lemma AllHaveStatisticSuffix(batch: seq<Measurement>, k: nat)
    requires AllHaveStatistic(batch) && k <= |batch|
    ensures AllHaveStatistic(batch[k..])
  {
    forall i | 0 <= i < |batch[k..]|
      ensures HasStatistic(batch[k..][i].id.tags)
    {
      assert batch[k..][i] == batch[k + i];
    }
  }

  lemma AllHaveStatisticSlice(batch: seq<Measurement>, k: nat, l: nat)
    requires AllHaveStatistic(batch) && k <= l <= |batch|
    ensures AllHaveStatistic(batch[k..l])
  {
    forall i | 0 <= i < |batch[k..l]|
      ensures HasStatistic(batch[k..l][i].id.tags)
    {
      assert batch[k..l][i] == batch[k + i];
    }
  }

  /** The op for a measurement, from the value of its statistic tag. */
  function OpFromTags(tags: Tags): (op: Op)
    requires HasStatistic(tags)
    ensures op == Add <==> Find(tags, "statistic").value in AddStatistics
    ensures op == Max <==> Find(tags, "statistic").value in MaxStatistics
    ensures op == Unknown <==> Find(tags, "statistic").value !in AddStatistics + MaxStatistics
  {
    var stat := Find(tags, "statistic").value;
    if stat == "count" || stat == "totalAmount" || stat == "totalTime"
       || stat == "totalOfSquares" || stat == "percentile" then
      Add
    else if stat == "max" || stat == "gauge" || stat == "activeTasks" || stat == "duration" then
      Max
    else
      Unknown
  }

  // ---------------------------------------------------------------------
  // The string table

  /** Every key and every value of a tag collection. */
  function TagStrings(tags: Tags): set<string> {
    if tags == [] then {} else {tags[0].key, tags[0].value} + TagStrings(tags[1..])
  }

  /** The strings an identity contributes: its name and its tags' strings. */
  function IdStrings(id: Id): set<string> {
    {id.name} + TagStrings(id.tags)
  }

  function BatchStrings(batch: seq<Measurement>): set<string> {
    if batch == [] then {} else IdStrings(batch[0].id) + BatchStrings(batch[1..])
  }

  /** The strings of a batch's table: common tags, "name", and each measurement's identity. */
  function TableStrings(common: Tags, batch: seq<Measurement>): set<string> {
    TagStrings(common) + {"name"} + BatchStrings(batch)
  }

  lemma {:induction false} TagStringsMembers(tags: Tags, s: string)
    ensures s in TagStrings(tags) <==> exists i :: 0 <= i < |tags| && (tags[i].key == s || tags[i].value == s)
    decreases |tags|
  {
    if tags != [] {
      TagStringsMembers(tags[1..], s);
      if exists i :: 0 <= i < |tags| && (tags[i].key == s || tags[i].value == s) {
        var i :| 0 <= i < |tags| && (tags[i].key == s || tags[i].value == s);
        if i > 0 {
          assert tags[1..][i - 1] == tags[i];
        }
      }
    }
  }

  lemma {:induction false} BatchStringsMembers(batch: seq<Measurement>, s: string)
    ensures s in BatchStrings(batch) <==>
      exists i :: 0 <= i < |batch| && (batch[i].id.name == s || s in TagStrings(batch[i].id.tags))
    decreases |batch|
  {
    if batch != [] {
      BatchStringsMembers(batch[1..], s);
      if exists i :: 0 <= i < |batch| && (batch[i].id.name == s || s in TagStrings(batch[i].id.tags)) {
        var i :| 0 <= i < |batch| && (batch[i].id.name == s || s in TagStrings(batch[i].id.tags));
        if i > 0 {
          assert batch[1..][i - 1] == batch[i];
        }
      }
    }
  }

  /**
    The table holds exactly: each common tag's key and value, "name", and each
    measurement's name and tag keys and values, whatever its statistic.
   */
  lemma TableStringsExactly(common: Tags, batch: seq<Measurement>, s: string)
    ensures s in TableStrings(common, batch) <==>
      || s == "name"
      || (exists i :: 0 <= i < |common| && (common[i].key == s || common[i].value == s))
      || (exists i, j :: 0 <= i < |batch| && 0 <= j < |batch[i].id.tags| &&
            (batch[i].id.tags[j].key == s || batch[i].id.tags[j].value == s))
      || (exists i :: 0 <= i < |batch| && batch[i].id.name == s)
  {
    TagStringsMembers(common, s);
    BatchStringsMembers(batch, s);
    forall i | 0 <= i < |batch| {
      TagStringsMembers(batch[i].id.tags, s);
    }
  }

  /**
    The table index of each string: its position in the sorted table.
   */
  function RankTable(sorted: seq<string>): (r: StrTable)
    requires Distinct(sorted)
    ensures forall s :: s in r <==> s in sorted
    ensures forall i :: 0 <= i < |sorted| ==> r[sorted[i]] == i
    ensures forall s :: s in r ==> 0 <= r[s] < |sorted| && sorted[r[s]] == s
  {
    map i | 0 <= i < |sorted| :: sorted[i] := i
  }

  /** The table section of a payload: the count, then the strings in order. */
  function Header(sorted: seq<string>): seq<JsonItem> {
    [Int(|sorted|)] + seq(|sorted|, k requires 0 <= k < |sorted| => Str(sorted[k]))
  }

  /** Adds each key and value of tags to the table's key set (value 0 for now). */
  method InternTags(strings: StrTable, tags: Tags) returns (r: StrTable)
    ensures r.Keys == strings.Keys + TagStrings(tags)
  {
    r := strings;
    var i := 0;
    while i < |tags|
      invariant 0 <= i <= |tags|
      invariant r.Keys + TagStrings(tags[i..]) == strings.Keys + TagStrings(tags)
    {
      assert tags[i..] == [tags[i]] + tags[i + 1..];
      r := r[tags[i].key := 0];
      r := r[tags[i].value := 0];
      i := i + 1;
    }
  }

  /** The first half of build_str_table: a map whose keys are the batch's strings. */
  method CollectStrings(common: Tags, batch: seq<Measurement>) returns (strings: StrTable)
    ensures strings.Keys == TableStrings(common, batch)
  {
    strings := InternTags(map[], common);
    strings := strings["name" := 0];
    var k := 0;
    while k < |batch|
      invariant 0 <= k <= |batch|
      invariant strings.Keys + BatchStrings(batch[k..]) == TableStrings(common, batch)
    {
      assert batch[k..] == [batch[k]] + batch[k + 1..];
      strings := strings[batch[k].id.name := 0];
      strings := InternTags(strings, batch[k].id.tags);
      k := k + 1;
    }
    assert batch[k..] == [];
  }

  /**
    The vector of the map's keys, filled in the map's (unspecified) iteration
    order and then sorted with std::sort.
   */
  method SortedKeys(strings: StrTable) returns (sorted: seq<string>)
    ensures sorted == SortedOf(strings.Keys)
  {
    var a := KeysOf(strings);
    Sort(a);
    assert forall x :: x in a[..] <==> x in multiset(a[..]);
    SortedOfSorted(strings.Keys);
    SortedUnique(a[..], SortedOf(strings.Keys));
    sorted := a[..];
  }

  /** The keys of the table, each once, in the table's iteration order, in a new vector. */
  method KeysOf(strings: StrTable) returns (a: array<string>)
    ensures fresh(a) && a.Length == |strings.Keys|
    ensures forall x :: x in strings.Keys <==> x in a[..]
    ensures Distinct(a[..])
  {
    a := new string[|strings.Keys|];
    var rem := strings.Keys;
    var n := 0;
    while rem != {}
      invariant 0 <= n <= a.Length && n + |rem| == a.Length
      invariant rem <= strings.Keys
      invariant forall x :: x in strings.Keys <==> x in rem || x in a[..n]
      invariant forall x :: x in rem ==> x !in a[..n]
      invariant forall i, j :: 0 <= i < j < n ==> a[i] != a[j]
      decreases |rem|
    {
      var s :| s in rem;
      a[n] := s;
      assert a[..n + 1] == a[..n] + [s];
      n := n + 1;
      rem := rem - {s};
    }
    assert a[..n] == a[..];
  }

  /** Rewrites every string's index to its position in the sorted vector. */
  method AssignRanks(strings: StrTable, sorted: seq<string>) returns (r: StrTable)
    requires Distinct(sorted) && forall x :: x in strings <==> x in sorted
    ensures r == RankTable(sorted)
  {
    r := strings;
    for i := 0 to |sorted|
      invariant r.Keys == strings.Keys
      invariant forall j :: 0 <= j < i ==> r[sorted[j]] == j
    {
      r := r[sorted[i] := i];
    }
    assert r == RankTable(sorted);
  }

  /** Pushes the table section: the count, then the sorted strings. */
  method PushTable(payload: seq<JsonItem>, sorted: seq<string>) returns (p: seq<JsonItem>)
    ensures p == payload + Header(sorted)
  {
    p := payload + [Int(|sorted|)];
    for i := 0 to |sorted|
      invariant p == payload + [Int(|sorted|)] + seq(i, k requires 0 <= k < i => Str(sorted[k]))
    {
      p := p + [Str(sorted[i])];
    }
  }

  /**
    build_str_table: collects the batch's strings, sorts them, gives each
    string its sorted position as index, and pushes [n, s_0, ..., s_{n-1}].
   */
  method BuildStrTable(payload: seq<JsonItem>, common: Tags, batch: seq<Measurement>)
    returns (p: seq<JsonItem>, strings: StrTable)
    ensures strings.Keys == TableStrings(common, batch)
    ensures strings == RankTable(SortedOf(TableStrings(common, batch)))
    ensures p == payload + Header(SortedOf(TableStrings(common, batch)))
  {
    strings := CollectStrings(common, batch);
    var sorted := SortedKeys(strings);
    SortedOfSorted(strings.Keys);
    strings := AssignRanks(strings, sorted);
    p := PushTable(payload, sorted);
  }

  // ---------------------------------------------------------------------
  // Records

  /** The (key index, value index) pairs of a tag collection, in order. */
  function TagIndices(table: StrTable, tags: Tags): (r: seq<JsonItem>)
    requires TagStrings(tags) <= table.Keys
    ensures |r| == 2 * |tags|
  {
    if tags == [] then []
    else [Int(table[tags[0].key]), Int(table[tags[0].value])] + TagIndices(table, tags[1..])
  }

  /** T: the number of index pairs in a measurement's record. */
  function TotalTags(common: Tags, m: Measurement): nat {
    |m.id.tags| + 1 + |common|
  }

  /** All strings a measurement's record refers to are in the table. */
  predicate Covers(table: StrTable, common: Tags, m: Measurement) {
    TagStrings(common) + {"name"} + IdStrings(m.id) <= table.Keys
  }

  lemma CoversParts(table: StrTable, common: Tags, m: Measurement)
    requires Covers(table, common, m)
    ensures TagStrings(common) <= table.Keys && TagStrings(m.id.tags) <= table.Keys
    ensures "name" in table && m.id.name in table
  {
  }

  /** The index pairs of a record: common tags, identity tags, then name. */
  function RecordPairs(table: StrTable, common: Tags, m: Measurement): (r: seq<JsonItem>)
    requires Covers(table, common, m)
    ensures |r| == 2 * TotalTags(common, m)
  {
    TagIndices(table, common) + TagIndices(table, m.id.tags)
      + [Int(table["name"]), Int(table[m.id.name])]
  }

  /**
    The record appended for one measurement: nothing when its statistic is not
    recognised, otherwise 2T + 3 items: T, the T index pairs, the op code and
    the value.
   */
  function Record(table: StrTable, common: Tags, m: Measurement): (r: seq<JsonItem>)
    requires HasStatistic(m.id.tags) && Covers(table, common, m)
    ensures OpFromTags(m.id.tags) == Unknown ==> r == []
    ensures OpFromTags(m.id.tags) != Unknown ==>
      && |r| == 2 * TotalTags(common, m) + 3
      && r[0] == Int(TotalTags(common, m))
      && r[|r| - 2] == Int(OpCode(OpFromTags(m.id.tags)))
      && r[|r| - 1] == Num(m.value)
  {
    var op := OpFromTags(m.id.tags);
    if op == Unknown then []
    else [Int(TotalTags(common, m))] + RecordPairs(table, common, m) + [Int(OpCode(op)), Num(m.value)]
  }

  /** The records of a batch, in order. */
  function Records(table: StrTable, common: Tags, batch: seq<Measurement>): seq<JsonItem>
    requires AllHaveStatistic(batch) && TableStrings(common, batch) <= table.Keys
  {
    if batch == [] then []
    else
      AllHaveStatisticSuffix(batch, 1);
      Record(table, common, batch[0]) + Records(table, common, batch[1..])
  }

  /** The whole payload of one batch, with the table built from the batch's strings. */
  ghost function EncodeBatch(common: Tags, batch: seq<Measurement>): seq<JsonItem>
    requires AllHaveStatistic(batch)
  {
    var sorted := SortedOf(TableStrings(common, batch));
    SortedOfSorted(TableStrings(common, batch));
    Header(sorted) + Records(RankTable(sorted), common, batch)
  }

  /** add_tags: appends the index pair of each tag; every string must be in the table. */
  method AddTags(payload: seq<JsonItem>, table: StrTable, tags: Tags) returns (p: seq<JsonItem>)
    requires TagStrings(tags) <= table.Keys
    ensures p == payload + TagIndices(table, tags)
  {
    p := payload;
    var i := 0;
    while i < |tags|
      invariant 0 <= i <= |tags|
      invariant TagStrings(tags[i..]) <= table.Keys
      invariant p + TagIndices(table, tags[i..]) == payload + TagIndices(table, tags)
    {
      assert tags[i..] == [tags[i]] + tags[i + 1..];
      var k := table[tags[i].key];
      var v := table[tags[i].value];
      p := p + [Int(k), Int(v)];
      i := i + 1;
    }
    assert tags[i..] == [];
  }

  /** append_measurement: appends the record of one measurement. */
  method AppendMeasurement(payload: seq<JsonItem>, table: StrTable, common: Tags, m: Measurement)
    returns (p: seq<JsonItem>)
    requires HasStatistic(m.id.tags) && Covers(table, common, m)
    ensures p == payload + Record(table, common, m)
  {
    p := payload;
    var op := OpFromTags(m.id.tags);
    if op != Unknown {
      p := p + [Int(|m.id.tags| + 1 + |common|)];
      p := AddTags(p, table, common);
      p := AddTags(p, table, m.id.tags);
      var nameIdx := table["name"];
      var nameValueIdx := table[m.id.name];
      p := p + [Int(nameIdx), Int(nameValueIdx)];
      p := p + [Int(OpCode(op)), Num(m.value)];
      RecordAssoc(payload, [Int(TotalTags(common, m))], TagIndices(table, common),
        TagIndices(table, m.id.tags), [Int(nameIdx), Int(nameValueIdx)], [Int(OpCode(op)), Num(m.value)]);
    }
  }

  /** The pieces appended one after another make up payload + record. */
  lemma RecordAssoc<T>(payload: seq<T>, head: seq<T>, c: seq<T>, t: seq<T>, n: seq<T>, tail: seq<T>)
    ensures ((((payload + head) + c) + t) + n) + tail == payload + ((head + (c + t + n)) + tail)
  {
  }

  /** The loop of measurements_to_json: appends the record of every measurement, in order. */
  method AppendRecords(payload: seq<JsonItem>, table: StrTable, common: Tags, batch: seq<Measurement>)
    returns (p: seq<JsonItem>)
    requires AllHaveStatistic(batch) && TableStrings(common, batch) <= table.Keys
    ensures p == payload + Records(table, common, batch)
  {
    p := payload;
    var i := 0;
    while i < |batch|
      invariant 0 <= i <= |batch|
      invariant TableStrings(common, batch[i..]) <= table.Keys
      invariant AllHaveStatistic(batch[i..])
      invariant p + Records(table, common, batch[i..]) == payload + Records(table, common, batch)
    {
      RecordsCons(table, common, batch[i..]);
      assert batch[i..][0] == batch[i] && batch[i..][1..] == batch[i + 1..];
      ConcatAssoc(p, Record(table, common, batch[i]), Records(table, common, batch[i + 1..]));
      p := AppendMeasurement(p, table, common, batch[i]);
      i := i + 1;
    }
    assert batch[i..] == [];
  }

  /**
    measurements_to_json: the payload of one batch, and the batch's size
    (which counts measurements that produced no record).
   */
  method MeasurementsToJson(common: Tags, batch: seq<Measurement>) returns (payload: seq<JsonItem>, added: int)
    requires AllHaveStatistic(batch)
    ensures payload == EncodeBatch(common, batch)
    ensures added == |batch|
  {
    var strings;
    payload, strings := BuildStrTable([], common, batch);
    EmptyPrefix(Header(SortedOf(TableStrings(common, batch))));
    payload := AppendRecords(payload, strings, common, batch);
    added := |batch|;
  }

  // ---------------------------------------------------------------------
  // Reading a payload back

  /** What the backend recovers from one record. */
  datatype Decoded = Decoded(tags: Tags, op: int, value: real)

  datatype DecodedBatch = DecodedBatch(strings: seq<string>, records: seq<Decoded>)

  /** Reads (key index, value index) pairs back into tags. */
  function DecodePairs(strings: seq<string>, items: seq<JsonItem>): Option<Tags>
    decreases |items|
  {
    if items == [] then Some([])
    else if |items| >= 2 && items[0].Int? && items[1].Int?
         && 0 <= items[0].i < |strings| && 0 <= items[1].i < |strings| then
      var rest := DecodePairs(strings, items[2..]);
      if rest.None? then None
      else Some([Tag(strings[items[0].i], strings[items[1].i])] + rest.value)
    else None
  }

  /** Reads the records that follow the table. */
  function DecodeRecords(strings: seq<string>, items: seq<JsonItem>): Option<seq<Decoded>>
    decreases |items|
  {
    if items == [] then Some([])
    else if items[0].Int? && 0 <= items[0].i && 2 * items[0].i + 3 <= |items| then
      var t := items[0].i;
      var pairs := DecodePairs(strings, items[1..1 + 2 * t]);
      var op := items[1 + 2 * t];
      var value := items[2 + 2 * t];
      if pairs.Some? && op.Int? && value.Num? then
        var rest := DecodeRecords(strings, items[2 * t + 3..]);
        if rest.None? then None
        else Some([Decoded(pairs.value, op.i, value.x)] + rest.value)
      else None
    else None
  }

  /** Reads a whole payload: the table, then the records. */
  function Decode(payload: seq<JsonItem>): Option<DecodedBatch> {
    if |payload| == 0 || !payload[0].Int? then None
    else
      var n := payload[0].i;
      if n < 0 || |payload| <= n then None
      else if !(forall k :: 1 <= k <= n ==> payload[k].Str?) then None
      else
        var strings := seq(n, k requires 0 <= k < n => payload[k + 1].s);
        var records := DecodeRecords(strings, payload[n + 1..]);
        if records.None? then None
        else Some(DecodedBatch(strings, records.value))
  }

  /**
    What a batch means: for each measurement with a recognised statistic, in
    order, its full tag list (common tags, its own tags, name), op code and value.
   */
  function Expected(common: Tags, batch: seq<Measurement>): seq<Decoded>
    requires AllHaveStatistic(batch)
  {
    if batch == [] then []
    else
      var m := batch[0];
      var op := OpFromTags(m.id.tags);
      AllHaveStatisticSuffix(batch, 1);
      (if op == Unknown then []
       else [Decoded(common + m.id.tags + [Tag("name", m.id.name)], OpCode(op), m.value)])
      + Expected(common, batch[1..])
  }

  /** Every index in the table points back at the string it stands for. */
  ghost predicate IndexesInto(table: StrTable, strings: seq<string>) {
    forall s :: s in table ==> 0 <= table[s] < |strings| && strings[table[s]] == s
  }

  lemma {:induction false} DecodePairsAppend(strings: seq<string>, a: seq<JsonItem>, b: seq<JsonItem>)
    requires DecodePairs(strings, a).Some? && DecodePairs(strings, b).Some?
    ensures DecodePairs(strings, a + b) == Some(DecodePairs(strings, a).value + DecodePairs(strings, b).value)
    decreases |a|
  {
    if a == [] {
      assert a + b == b;
      assert DecodePairs(strings, a).value + DecodePairs(strings, b).value == DecodePairs(strings, b).value;
    } else {
      DecodePairsHead(strings, a);
      var ab := a + b;
      assert ab[0] == a[0] && ab[1] == a[1] && ab[2..] == a[2..] + b;
      DecodePairsAppend(strings, a[2..], b);
      DecodePairsUnfold(strings, ab);
      var tg := Tag(strings[a[0].i], strings[a[1].i]);
      ConcatAssoc([tg], DecodePairs(strings, a[2..]).value, DecodePairs(strings, b).value);
    }
  }

  /** A non-empty run that decodes starts with a valid index pair. */
  lemma DecodePairsHead(strings: seq<string>, items: seq<JsonItem>)
    requires items != [] && DecodePairs(strings, items).Some?
    ensures |items| >= 2 && items[0].Int? && items[1].Int?
    ensures 0 <= items[0].i < |strings| && 0 <= items[1].i < |strings|
    ensures DecodePairs(strings, items[2..]).Some?
    ensures DecodePairs(strings, items).value
      == [Tag(strings[items[0].i], strings[items[1].i])] + DecodePairs(strings, items[2..]).value
  {
  }

  /** A valid index pair in front of a decodable run decodes to its tag in front. */
  lemma DecodePairsUnfold(strings: seq<string>, items: seq<JsonItem>)
    requires |items| >= 2 && items[0].Int? && items[1].Int?
    requires 0 <= items[0].i < |strings| && 0 <= items[1].i < |strings|
    requires DecodePairs(strings, items[2..]).Some?
    ensures DecodePairs(strings, items)
      == Some([Tag(strings[items[0].i], strings[items[1].i])] + DecodePairs(strings, items[2..]).value)
  {
  }

  lemma {:induction false} DecodeTagIndices(table: StrTable, strings: seq<string>, tags: Tags)
    requires IndexesInto(table, strings) && TagStrings(tags) <= table.Keys
    ensures DecodePairs(strings, TagIndices(table, tags)) == Some(tags)
    decreases |tags|
  {
    if tags != [] {
      DecodeTagIndices(table, strings, tags[1..]);
      assert TagIndices(table, tags)[2..] == TagIndices(table, tags[1..]);
      assert tags == [tags[0]] + tags[1..];
    }
  }

  lemma DecodeNamePair(table: StrTable, strings: seq<string>, name: string)
    requires IndexesInto(table, strings) && "name" in table && name in table
    ensures DecodePairs(strings, [Int(table["name"]), Int(table[name])]) == Some([Tag("name", name)])
  {
    var n: seq<JsonItem> := [Int(table["name"]), Int(table[name])];
    assert 0 <= table["name"] < |strings| && strings[table["name"]] == "name";
    assert 0 <= table[name] < |strings| && strings[table[name]] == name;
    assert |n| >= 2 && n[0].Int? && n[1].Int?;
    assert n[2..] == [];
    assert DecodePairs(strings, n[2..]) == Some([]);
    assert DecodePairs(strings, n).value == [Tag(strings[n[0].i], strings[n[1].i])] + [];
    assert [Tag(strings[n[0].i], strings[n[1].i])] + [] == [Tag("name", name)];
  }

  lemma DecodeRecordPairs(table: StrTable, strings: seq<string>, common: Tags, m: Measurement)
    requires IndexesInto(table, strings) && Covers(table, common, m)
    ensures DecodePairs(strings, RecordPairs(table, common, m))
      == Some(common + m.id.tags + [Tag("name", m.id.name)])
  {
    CoversParts(table, common, m);
    var c := TagIndices(table, common);
    var t := TagIndices(table, m.id.tags);
    var n: seq<JsonItem> := [Int(table["name"]), Int(table[m.id.name])];
    DecodeTagIndices(table, strings, common);
    DecodeTagIndices(table, strings, m.id.tags);
    DecodeNamePair(table, strings, m.id.name);
    DecodePairsAppend(strings, t, n);
    DecodePairsAppend(strings, c, t + n);
    ConcatAssoc(c, t, n);
    ConcatAssoc(common, m.id.tags, [Tag("name", m.id.name)]);
  }

  /** One record in front of others decodes to its tags, op code and value in front of theirs. */
  lemma DecodeOneRecord(strings: seq<string>, t: nat, pairs: seq<JsonItem>, tags: Tags, op: int, v: real,
                        rest: seq<JsonItem>, decoded: seq<Decoded>)
    requires |pairs| == 2 * t && DecodePairs(strings, pairs) == Some(tags)
    requires DecodeRecords(strings, rest) == Some(decoded)
    ensures DecodeRecords(strings, [Int(t)] + pairs + [Int(op), Num(v)] + rest)
      == Some([Decoded(tags, op, v)] + decoded)
  {
    var items := [Int(t)] + pairs + [Int(op), Num(v)] + rest;
    assert items[0] == Int(t) && 2 * t + 3 <= |items|;
    assert items[1..1 + 2 * t] == pairs;
    assert items[1 + 2 * t] == Int(op);
    assert items[2 + 2 * t] == Num(v);
    assert items[2 * t + 3..] == rest;
  }

  /** Records unfolds one measurement at a time. */
  lemma RecordsCons(table: StrTable, common: Tags, batch: seq<Measurement>)
    requires batch != [] && AllHaveStatistic(batch) && TableStrings(common, batch) <= table.Keys
    ensures AllHaveStatistic(batch[1..]) && TableStrings(common, batch[1..]) <= table.Keys
    ensures HasStatistic(batch[0].id.tags) && Covers(table, common, batch[0])
    ensures Records(table, common, batch)
      == Record(table, common, batch[0]) + Records(table, common, batch[1..])
  {
    AllHaveStatisticSuffix(batch, 1);
  }

  /** Expected unfolds one measurement at a time. */
  lemma ExpectedCons(common: Tags, batch: seq<Measurement>)
    requires batch != [] && AllHaveStatistic(batch)
    ensures AllHaveStatistic(batch[1..]) && HasStatistic(batch[0].id.tags)
    ensures OpFromTags(batch[0].id.tags) == Unknown ==> Expected(common, batch) == Expected(common, batch[1..])
    ensures OpFromTags(batch[0].id.tags) != Unknown ==>
      Expected(common, batch)
        == [Decoded(common + batch[0].id.tags + [Tag("name", batch[0].id.name)],
                    OpCode(OpFromTags(batch[0].id.tags)), batch[0].value)]
           + Expected(common, batch[1..])
  {
    AllHaveStatisticSuffix(batch, 1);
  }

  /** The step of DecodeRecordsOfRecords: the first measurement in front of the decoded rest. */
  lemma DecodeRecordsStep(table: StrTable, strings: seq<string>, common: Tags, batch: seq<Measurement>)
    requires IndexesInto(table, strings)
    requires batch != [] && AllHaveStatistic(batch) && TableStrings(common, batch) <= table.Keys
    requires AllHaveStatistic(batch[1..]) && TableStrings(common, batch[1..]) <= table.Keys
    requires DecodeRecords(strings, Records(table, common, batch[1..])) == Some(Expected(common, batch[1..]))
    ensures DecodeRecords(strings, Records(table, common, batch)) == Some(Expected(common, batch))
  {
    var m := batch[0];
    RecordsCons(table, common, batch);
    ExpectedCons(common, batch);
    var op := OpFromTags(m.id.tags);
    var rest := Records(table, common, batch[1..]);
    var expRest := Expected(common, batch[1..]);
    if op != Unknown {
      var pairs := RecordPairs(table, common, m);
      var tags := common + m.id.tags + [Tag("name", m.id.name)];
      DecodeRecordPairs(table, strings, common, m);
      DecodeOneRecord(strings, TotalTags(common, m), pairs, tags, OpCode(op), m.value, rest, expRest);
      assert Records(table, common, batch)
        == [Int(TotalTags(common, m))] + pairs + [Int(OpCode(op)), Num(m.value)] + rest;
      assert Expected(common, batch) == [Decoded(tags, OpCode(op), m.value)] + expRest;
    } else {
      assert Records(table, common, batch) == rest;
    }
  }

  lemma {:induction false} DecodeRecordsOfRecords(table: StrTable, strings: seq<string>,
                                                 common: Tags, batch: seq<Measurement>)
    requires IndexesInto(table, strings)
    requires AllHaveStatistic(batch) && TableStrings(common, batch) <= table.Keys
    ensures DecodeRecords(strings, Records(table, common, batch)) == Some(Expected(common, batch))
    decreases |batch|
  {
    if batch != [] {
      RecordsCons(table, common, batch);
      DecodeRecordsOfRecords(table, strings, common, batch[1..]);
      DecodeRecordsStep(table, strings, common, batch);
    }
  }

  /** A table followed by decodable records decodes to that table and those records. */
  lemma DecodeHeader(sorted: seq<string>, records: seq<JsonItem>, decoded: seq<Decoded>)
    requires DecodeRecords(sorted, records) == Some(decoded)
    ensures Decode(Header(sorted) + records) == Some(DecodedBatch(sorted, decoded))
  {
    var payload := Header(sorted) + records;
    var n := |sorted|;
    assert payload[0] == Int(n);
    assert forall k :: 1 <= k <= n ==> payload[k] == Str(sorted[k - 1]);
    assert payload[n + 1..] == records;
    assert seq(n, k requires 0 <= k < n => payload[k + 1].s) == sorted;
  }

  /**
    Decoding a batch's payload gives back its sorted table and, for each
    measurement with a recognised statistic, in order, exactly its tags,
    op code and value; the others leave no record.
   */
  lemma DecodeEncodeBatch(common: Tags, batch: seq<Measurement>)
    requires AllHaveStatistic(batch)
    ensures Decode(EncodeBatch(common, batch))
      == Some(DecodedBatch(SortedOf(TableStrings(common, batch)), Expected(common, batch)))
  {
    var sorted := SortedOf(TableStrings(common, batch));
    SortedOfSorted(TableStrings(common, batch));
    var table := RankTable(sorted);
    assert IndexesInto(table, sorted);
    DecodeRecordsOfRecords(table, sorted, common, batch);
    DecodeHeader(sorted, Records(table, common, batch), Expected(common, batch));
  }
}
