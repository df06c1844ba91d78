/**
  One send cycle of the publisher, apart from the transport: the snapshot is
  cut into consecutive batches, each batch is encoded, and the status code
  of each posted batch is turned into an update of the "sent" or the
  "error" counter.
 */
module Sending {
  import opened Wrappers
  import opened Ids
  import opened Seqs
  import opened BatchEncoder
  import opened Registries

  // ---------------------------------------------------------------------
  // Batching

  function Min(a: int, b: int): int {
    if a < b then a else b
  }

  /** The consecutive batches of at most `b` elements the send loop cuts `xs` into. */
  function Chunks<T>(xs: seq<T>, b: nat): (r: seq<seq<T>>)
    requires b > 0
    ensures forall i :: 0 <= i < |r| ==> 0 < |r[i]| <= b
    ensures forall i :: 0 <= i < |r| - 1 ==> |r[i]| == b
    decreases |xs|
  {
    if xs == [] then []
    else
      var k := Min(b, |xs|);
      [xs[..k]] + Chunks(xs[k..], b)
  }

  function Flatten<T>(xss: seq<seq<T>>): seq<T> {
    if xss == [] then [] else xss[0] + Flatten(xss[1..])
  }

  /** Concatenating the batches, in order, gives back the snapshot. */
  lemma {:induction false} ChunksFlatten<T>(xs: seq<T>, b: nat)
    requires b > 0
    ensures Flatten(Chunks(xs, b)) == xs
    decreases |xs|
  {
    if xs != [] {
      var k := Min(b, |xs|);
      ChunksFlatten(xs[k..], b);
      assert Chunks(xs, b)[1..] == Chunks(xs[k..], b);
      assert xs == xs[..k] + xs[k..];
    }
  }

  /**
    There are ceil(N / B) batches: the least count c with N <= c * B, so
    that (c - 1) * B < N.
   */
  lemma {:induction false} ChunksCount<T>(xs: seq<T>, b: nat)
    requires b > 0
    ensures |xs| <= |Chunks(xs, b)| * b
    ensures xs != [] ==> (|Chunks(xs, b)| - 1) * b < |xs|
    ensures xs == [] <==> Chunks(xs, b) == []
    decreases |xs|
  {
    if xs != [] {
      var k := Min(b, |xs|);
      var c := |Chunks(xs[k..], b)|;
      ChunksCount(xs[k..], b);
      assert |Chunks(xs, b)| == c + 1;
      assert (c + 1) * b == c * b + b;
      if |xs| <= b {
        assert xs[k..] == [];
      }
    }
  }

  /** One batch is cut from the front at a time. */
  lemma ChunksCons<T>(xs: seq<T>, b: nat)
    requires b > 0 && xs != []
    ensures Chunks(xs, b) == [xs[..Min(b, |xs|)]] + Chunks(xs[Min(b, |xs|)..], b)
  {
  }

  /** What each batch encodes to. */
  ghost function EncodeAll(common: Tags, batches: seq<seq<Measurement>>): (r: seq<seq<JsonItem>>)
    requires forall i :: 0 <= i < |batches| ==> AllHaveStatistic(batches[i])
    decreases |batches|
  {
    if batches == [] then []
    else [EncodeBatch(common, batches[0])] + EncodeAll(common, batches[1..])
  }

  /** Batch i encodes to the payload of the i-th batch. */
  lemma {:induction false} EncodeAllAt(common: Tags, batches: seq<seq<Measurement>>, i: nat)
    requires forall j :: 0 <= j < |batches| ==> AllHaveStatistic(batches[j])
    requires i < |batches|
    ensures |EncodeAll(common, batches)| == |batches|
    ensures EncodeAll(common, batches)[i] == EncodeBatch(common, batches[i])
    decreases i
  {
    EncodeAllLength(common, batches);
    EncodeAllUnfold(common, batches);
    if i > 0 {
      EncodeAllAt(common, batches[1..], i - 1);
      assert batches[1..][i - 1] == batches[i];
      var rest := EncodeAll(common, batches[1..]);
      assert ([EncodeBatch(common, batches[0])] + rest)[i] == rest[i - 1];
    }
  }

  lemma EncodeAllUnfold(common: Tags, batches: seq<seq<Measurement>>)
    requires forall j :: 0 <= j < |batches| ==> AllHaveStatistic(batches[j])
    requires batches != []
    ensures EncodeAll(common, batches) == [EncodeBatch(common, batches[0])] + EncodeAll(common, batches[1..])
  {
  }

  lemma {:induction false} EncodeAllLength(common: Tags, batches: seq<seq<Measurement>>)
    requires forall j :: 0 <= j < |batches| ==> AllHaveStatistic(batches[j])
    ensures |EncodeAll(common, batches)| == |batches|
    decreases |batches|
  {
    if batches != [] {
      EncodeAllLength(common, batches[1..]);
    }
  }

  /** The size of each batch. */
  function Lengths<T>(xss: seq<seq<T>>): (r: seq<int>)
    ensures |r| == |xss|
    ensures forall i :: 0 <= i < |r| ==> r[i] == |xss[i]|
    decreases |xss|
  {
    if xss == [] then [] else [|xss[0]|] + Lengths(xss[1..])
  }

  /** Every batch of a snapshot whose measurements all carry a statistic carries them too. */
  lemma {:induction false} ChunksHaveStatistic(xs: seq<Measurement>, b: nat)
    requires b > 0 && AllHaveStatistic(xs)
    ensures forall i :: 0 <= i < |Chunks(xs, b)| ==> AllHaveStatistic(Chunks(xs, b)[i])
    decreases |xs|
  {
    if xs != [] {
      var k := Min(b, |xs|);
      AllHaveStatisticSuffix(xs, k);
      ChunksHaveStatistic(xs[k..], b);
      assert AllHaveStatistic(xs[..k]) by {
        forall i | 0 <= i < |xs[..k]|
          ensures HasStatistic(xs[..k][i].id.tags)
        {
          assert xs[..k][i] == xs[i];
        }
      }
      forall i | 0 <= i < |Chunks(xs, b)|
        ensures AllHaveStatistic(Chunks(xs, b)[i])
      {
        if i > 0 {
          assert Chunks(xs, b)[i] == Chunks(xs[k..], b)[i - 1];
        }
      }
    }
  }

  /** The encoded batches of a snapshot. */
  ghost function EncodeChunks(common: Tags, xs: seq<Measurement>, b: nat): seq<seq<JsonItem>>
    requires b > 0 && AllHaveStatistic(xs)
  {
    ChunksHaveStatistic(xs, b);
    EncodeAll(common, Chunks(xs, b))
  }

  /** One batch is cut at `from`: it ends at `to`, and the rest starts there. */
  lemma ChunksFrom<T>(xs: seq<T>, from: nat, to: nat, b: nat)
    requires b > 0 && from < |xs| && to == from + Min(b, |xs| - from)
    ensures Chunks(xs[from..], b) == [xs[from..to]] + Chunks(xs[to..], b)
  {
    var rest := xs[from..];
    assert rest[..to - from] == xs[from..to];
    assert rest[to - from..] == xs[to..];
    ChunksCons(rest, b);
  }

  lemma EncodeAllCons(common: Tags, batch: seq<Measurement>, batches: seq<seq<Measurement>>)
    requires AllHaveStatistic(batch)
    requires forall i :: 0 <= i < |batches| ==> AllHaveStatistic(batches[i])
    ensures forall i :: 0 <= i < |[batch] + batches| ==> AllHaveStatistic(([batch] + batches)[i])
    ensures EncodeAll(common, [batch] + batches) == [EncodeBatch(common, batch)] + EncodeAll(common, batches)
  {
    assert ([batch] + batches)[1..] == batches;
  }

  lemma LengthsCons<T>(xs: seq<T>, xss: seq<seq<T>>)
    ensures Lengths([xs] + xss) == [|xs|] + Lengths(xss)
  {
    assert ([xs] + xss)[1..] == xss;
  }

  /** One step of the batching loop, on the encoded batches and their sizes. */
  lemma ChunksStep(common: Tags, xs: seq<Measurement>, from: nat, to: nat, b: nat)
    requires b > 0 && AllHaveStatistic(xs) && from < |xs| && to == from + Min(b, |xs| - from)
    ensures AllHaveStatistic(xs[from..to]) && AllHaveStatistic(xs[from..]) && AllHaveStatistic(xs[to..])
    ensures EncodeChunks(common, xs[from..], b)
      == [EncodeBatch(common, xs[from..to])] + EncodeChunks(common, xs[to..], b)
  {
    AllHaveStatisticSuffix(xs, from);
    AllHaveStatisticSuffix(xs, to);
    AllHaveStatisticSlice(xs, from, to);
    ChunksHaveStatistic(xs[to..], b);
    ChunksFrom(xs, from, to, b);
    EncodeAllCons(common, xs[from..to], Chunks(xs[to..], b));
  }

  /** One step of the batching loop, on the batch sizes. */
  lemma LengthsStep<T>(xs: seq<T>, from: nat, to: nat, b: nat)
    requires b > 0 && from < |xs| && to == from + Min(b, |xs| - from)
    ensures Lengths(Chunks(xs[from..], b)) == [to - from] + Lengths(Chunks(xs[to..], b))
  {
    ChunksFrom(xs, from, to, b);
    LengthsCons(xs[from..to], Chunks(xs[to..], b));
  }

  /**
    The body of the batching loop: cut min(batch size, what is left)
    measurements from `from`, and encode them.
   */
  method CutBatch(common: Tags, measurements: seq<Measurement>, from: nat, batchSize: int)
    returns (payload: seq<JsonItem>, added: int, to: nat)
    requires batchSize > 0 && AllHaveStatistic(measurements) && from < |measurements|
    ensures to == from + Min(batchSize, |measurements| - from) && to <= |measurements|
    ensures payload == EncodeBatch(common, measurements[from..to])
    ensures added == to - from
  {
    var toEnd := |measurements| - from;
    var toAdvance := Min(batchSize, toEnd);
    to := from + toAdvance;
    AllHaveStatisticSlice(measurements, from, to);
    payload, added := MeasurementsToJson(common, measurements[from..to]);
  }

  /**
    The batching loop of send_metrics: from the front of the snapshot, cut
    min(batch size, what is left) measurements, encode them, record the
    batch's size, and advance.
   */
  method EncodeBatches(common: Tags, measurements: seq<Measurement>, batchSize: int)
    returns (batches: seq<seq<JsonItem>>, sizes: seq<int>)
    requires batchSize > 0 && AllHaveStatistic(measurements)
    ensures batches == EncodeChunks(common, measurements, batchSize)
    ensures sizes == Lengths(Chunks(measurements, batchSize))
  {
    ChunksHaveStatistic(measurements, batchSize);
    batches := [];
    sizes := [];
    var from := 0;
    var end := |measurements|;
    assert measurements[from..] == measurements;
    EmptyPrefix(EncodeChunks(common, measurements, batchSize));
    EmptyPrefix(Lengths(Chunks(measurements, batchSize)));
    while from != end
      invariant 0 <= from <= end
      invariant AllHaveStatistic(measurements[from..])
      invariant batches + EncodeChunks(common, measurements[from..], batchSize)
          == EncodeChunks(common, measurements, batchSize)
      invariant sizes + Lengths(Chunks(measurements[from..], batchSize))
          == Lengths(Chunks(measurements, batchSize))
      decreases end - from
    {
      var payload, added, to := CutBatch(common, measurements, from, batchSize);
      ChunksStep(common, measurements, from, to, batchSize);
      LengthsStep(measurements, from, to, batchSize);
      ConcatAssoc(batches, [payload], EncodeChunks(common, measurements[to..], batchSize));
      ConcatAssoc(sizes, [added], Lengths(Chunks(measurements[to..], batchSize)));
      batches := batches + [payload];
      sizes := sizes + [added];
      from := to;
    }
    assert measurements[from..] == [];
    EmptySuffix(batches);
    EmptySuffix(sizes);
  }

  // ---------------------------------------------------------------------
  // Status accounting

  /** A request to add `amount` to the counter with identity `id`. */
  datatype CounterAdd = CounterAdd(id: Id, amount: int)

  function DigitChar(d: nat): char
    requires d < 10
  {
    ('0' as int + d) as char
  }

  /** The decimal digits of `n`, most significant first, no leading zeros. */
  function Digits(n: nat): (r: string)
    ensures |r| > 0 && r[0] != '-'
    ensures forall k :: 0 <= k < |r| ==> '0' <= r[k] <= '9'
    ensures n > 0 ==> r[0] != '0'
    ensures n == 0 ==> r == "0"
    decreases n
  {
    if n < 10 then [DigitChar(n)] else Digits(n / 10) + [DigitChar(n % 10)]
  }

  /** std::to_string of an int: an optional minus sign and the digits. */
  function DecimalString(n: int): string {
    if n < 0 then "-" + Digits(-n) else Digits(n)
  }

  function DigitValue(c: char): int {
    if '0' <= c <= '9' then c as int - '0' as int else 0
  }

  function ParseDigits(s: string): int
    decreases |s|
  {
    if s == [] then 0 else ParseDigits(s[..|s| - 1]) * 10 + DigitValue(s[|s| - 1])
  }

  /** Reads back a decimal string. */
  function ParseDecimal(s: string): int {
    if |s| > 0 && s[0] == '-' then -ParseDigits(s[1..]) else ParseDigits(s)
  }

  lemma {:induction false} ParseDigitsOfDigits(n: nat)
    ensures ParseDigits(Digits(n)) == n
    decreases n
  {
    if n >= 10 {
      ParseDigitsOfDigits(n / 10);
      var s := Digits(n);
      assert s == Digits(n / 10) + [DigitChar(n % 10)];
      assert s[..|s| - 1] == Digits(n / 10);
      assert DigitValue(s[|s| - 1]) == n % 10;
      assert n == n / 10 * 10 + n % 10;
    }
  }

  /** Reading back the decimal string of a status code gives the code. */
  lemma ParseDecimalString(n: int)
    ensures ParseDecimal(DecimalString(n)) == n
  {
    if n < 0 {
      ParseDigitsOfDigits(-n);
      assert DecimalString(n)[1..] == Digits(-n);
    } else {
      ParseDigitsOfDigits(n);
    }
  }

  /** The counter a successfully posted batch's size is added to. */
  const SentId: Id := CreateId("spectator.measurementsSent", [])

  /** The counter a failed batch's size is added to, tagged with the status code. */
  function ErrId(code: int): Id {
    CreateId("spectator.measurementsErr", SetTag([Tag("error", "httpError")], "statusCode", DecimalString(code)))
  }

  /** The error counter is named measurementsErr and tagged error=httpError and statusCode=<code>. */
  lemma ErrIdTags(code: int)
    ensures ErrId(code).name == "spectator.measurementsErr"
    ensures Find(ErrId(code).tags, "error") == Some("httpError")
    ensures Find(ErrId(code).tags, "statusCode") == Some(DecimalString(code))
  {
  }

  /** Different status codes are counted by different error counters. */
  lemma ErrIdInjective(a: int, b: int)
    requires a != b
    ensures ErrId(a) != ErrId(b)
  {
    ParseDecimalString(a);
    ParseDecimalString(b);
    ErrIdTags(a);
    ErrIdTags(b);
  }

  /** update_sent: the whole count goes to the untagged measurementsSent counter. */
  function UpdateSent(numSent: int): (r: CounterAdd)
    ensures r.id.name == "spectator.measurementsSent" && r.id.tags == []
    ensures r.amount == numSent
  {
    CounterAdd(SentId, numSent)
  }

  /**
    update_http_err: the whole count goes to the measurementsErr counter
    tagged error=httpError and statusCode=<code>, whose tag reads back as
    the code and which is never the sent counter.
   */
  function UpdateHttpErr(code: int, numNotSent: int): (r: CounterAdd)
    ensures r.id.name == "spectator.measurementsErr"
    ensures Find(r.id.tags, "error") == Some("httpError")
    ensures Find(r.id.tags, "statusCode") == Some(DecimalString(code))
    ensures ParseDecimal(Find(r.id.tags, "statusCode").value) == code
    ensures r.id != SentId
    ensures r.amount == numNotSent
  {
    ErrIdTags(code);
    ParseDecimalString(code);
    CounterAdd(ErrId(code), numNotSent)
  }

  /**
    The counter updates of one cycle: for the i-th returned status code, the
    i-th batch's size goes to the "sent" counter on 200 and to the error
    counter of that code otherwise.
   */
  function StatusUpdates(codes: seq<int>, sizes: seq<int>): seq<CounterAdd>
    requires |codes| <= |sizes|
    decreases |codes|
  {
    if codes == [] then []
    else [StatusUpdate(codes[0], sizes[0])] + StatusUpdates(codes[1..], sizes[1..])
  }

  /** The update for one batch of `size` measurements answered with `code`. */
  function StatusUpdate(code: int, size: int): (r: CounterAdd)
    ensures r.amount == size
  {
    if code == 200 then UpdateSent(size) else UpdateHttpErr(code, size)
  }

  /** StatusUpdates from position i on, one code at a time. */
  lemma StatusUpdatesFrom(codes: seq<int>, sizes: seq<int>, i: nat)
    requires |codes| <= |sizes| && i < |codes|
    ensures StatusUpdates(codes[i..], sizes[i..])
      == [StatusUpdate(codes[i], sizes[i])] + StatusUpdates(codes[i + 1..], sizes[i + 1..])
  {
    assert codes[i..][1..] == codes[i + 1..] && sizes[i..][1..] == sizes[i + 1..];
  }

  /** The status loop of send_metrics. */
  method HandleStatuses(codes: seq<int>, sizes: seq<int>) returns (updates: seq<CounterAdd>)
    requires |codes| <= |sizes|
    ensures updates == StatusUpdates(codes, sizes)
  {
    updates := [];
    var i := 0;
    while i < |codes|
      invariant 0 <= i <= |codes|
      invariant updates + StatusUpdates(codes[i..], sizes[i..]) == StatusUpdates(codes, sizes)
    {
      StatusUpdatesFrom(codes, sizes, i);
      ConcatAssoc(updates, [StatusUpdate(codes[i], sizes[i])], StatusUpdates(codes[i + 1..], sizes[i + 1..]));
      if codes[i] != 200 {
        updates := updates + [UpdateHttpErr(codes[i], sizes[i])];
      } else {
        updates := updates + [UpdateSent(sizes[i])];
      }
      i := i + 1;
    }
  }

  /** Total amount added to the counter `id`. */
  function AmountTo(updates: seq<CounterAdd>, id: Id): int
    decreases |updates|
  {
    if updates == [] then 0
    else (if updates[0].id == id then updates[0].amount else 0) + AmountTo(updates[1..], id)
  }

  /** Total amount added across all counters. */
  function Total(updates: seq<CounterAdd>): int
    decreases |updates|
  {
    if updates == [] then 0 else updates[0].amount + Total(updates[1..])
  }

  function Sum(xs: seq<int>): int
    decreases |xs|
  {
    if xs == [] then 0 else xs[0] + Sum(xs[1..])
  }

  /** Sum of the sizes of the batches whose status code is `code`. */
  function SizesWithCode(codes: seq<int>, sizes: seq<int>, code: int): int
    requires |codes| <= |sizes|
    decreases |codes|
  {
    if codes == [] then 0
    else (if codes[0] == code then sizes[0] else 0) + SizesWithCode(codes[1..], sizes[1..], code)
  }

  /** The "sent" counter grows by the sizes of exactly the batches answered 200. */
  lemma {:induction false} SentAmount(codes: seq<int>, sizes: seq<int>)
    requires |codes| <= |sizes|
    ensures AmountTo(StatusUpdates(codes, sizes), SentId) == SizesWithCode(codes, sizes, 200)
    decreases |codes|
  {
    if codes != [] {
      SentAmount(codes[1..], sizes[1..]);
    }
  }

  /**
    The error counter of a code other than 200 grows by the sizes of exactly
    the batches answered with that code.
   */
  lemma {:induction false} ErrAmount(codes: seq<int>, sizes: seq<int>, code: int)
    requires |codes| <= |sizes| && code != 200
    ensures AmountTo(StatusUpdates(codes, sizes), ErrId(code)) == SizesWithCode(codes, sizes, code)
    decreases |codes|
  {
    if codes != [] {
      ErrAmount(codes[1..], sizes[1..], code);
      if codes[0] != code && codes[0] != 200 {
        ErrIdInjective(codes[0], code);
      }
    }
  }

  /** Together the two counters grow by the sizes of all batches that got a status. */
  lemma {:induction false} TotalAmount(codes: seq<int>, sizes: seq<int>)
    requires |codes| <= |sizes|
    ensures Total(StatusUpdates(codes, sizes)) == Sum(sizes[..|codes|])
    decreases |codes|
  {
    if codes != [] {
      TotalAmount(codes[1..], sizes[1..]);
      TotalAmountStep(codes, sizes);
    }
  }

  lemma TotalAmountStep(codes: seq<int>, sizes: seq<int>)
    requires 0 < |codes| <= |sizes|
    requires Total(StatusUpdates(codes[1..], sizes[1..])) == Sum(sizes[1..][..|codes| - 1])
    ensures Total(StatusUpdates(codes, sizes)) == Sum(sizes[..|codes|])
  {
    var u := StatusUpdate(codes[0], sizes[0]);
    var rest := StatusUpdates(codes[1..], sizes[1..]);
    calc {
      Total(StatusUpdates(codes, sizes));
      Total([u] + rest);
      { TotalCons(u, rest); }
      u.amount + Total(rest);
      sizes[0] + Sum(sizes[1..][..|codes| - 1]);
      { SumPrefix(sizes, |codes|); }
      Sum(sizes[..|codes|]);
    }
  }

  lemma TotalCons(u: CounterAdd, rest: seq<CounterAdd>)
    ensures Total([u] + rest) == u.amount + Total(rest)
  {
    assert ([u] + rest)[1..] == rest;
  }

  lemma SumPrefix(xs: seq<int>, n: nat)
    requires 0 < n <= |xs|
    ensures Sum(xs[..n]) == xs[0] + Sum(xs[1..][..n - 1])
  {
    assert xs[..n][1..] == xs[1..][..n - 1];
  }

  /** No error counter is the "sent" counter. */
  lemma SentIsNoErr(code: int)
    ensures ErrId(code) != SentId
  {
    assert ErrId(code).name != SentId.name;
  }
}
