/**
 The sending side of the sample stream (mock/handler/start_run.py, `_send_carrier_samples`): a sample
 matrix goes out in chunks of up to a hundred columns, each flattened column by column.
 */
module SampleSender {
  import opened Common
  import opened SampleBlob
  import opened SampleDecoder

  const CHUNK_SIZE := 100

  /** One carrier's samples on the wire: `rows[i][j]` is the raw element of channel position i at time j.
      Positions beyond the channel list are the padding a data converter may add. */
  datatype Feed = Feed(path: seq<byte>, channels: seq<AdcChannel>, kind: DataType, rows: seq<seq<seq<byte>>>,
                       count: nat)

  /** What can be sent: a rectangular matrix of elements. */
  predicate Shaped(f: Feed) {
    && |f.path| < WORD32
    && |f.channels| <= |f.rows| < WORD32
    && f.count > 0 && ChunkCount(f.count) <= WORD32
    && ElementSize(f.kind) > 0
    && forall i :: 0 <= i < |f.rows| ==> ProperRow(f, f.rows[i])
  }

  /** And what arrives as samples: at least one channel. */
  predicate Proper(f: Feed) {
    Shaped(f) && f.channels != []
  }

  predicate ProperRow(f: Feed, row: seq<seq<byte>>) {
    |row| == f.count && forall j :: 0 <= j < |row| ==> |row[j]| == ElementSize(f.kind)
  }

  function ChunkCount(count: nat): nat {
    (count + CHUNK_SIZE - 1) / CHUNK_SIZE
  }

  function Start(k: nat): nat {
    CHUNK_SIZE * k
  }

  function End(f: Feed, k: nat): nat {
    if Start(k) + CHUNK_SIZE < f.count then Start(k) + CHUNK_SIZE else f.count
  }

  /** The first `n` elements of column `s`. */
  function ColumnBytes(f: Feed, s: nat, n: nat): (b: seq<byte>)
    requires Shaped(f) && s < f.count && n <= |f.rows|
    ensures |b| == n * ElementSize(f.kind)
  {
    if n == 0 then []
    else
      assert ProperRow(f, f.rows[n - 1]);
      assert n * ElementSize(f.kind) == (n - 1) * ElementSize(f.kind) + ElementSize(f.kind);
      ColumnBytes(f, s, n - 1) + f.rows[n - 1][s]
  }

  /** `flatten(order="F")` of columns `start` to `start + n`. */
  function Flat(f: Feed, start: nat, n: nat): (b: seq<byte>)
    requires Shaped(f) && start + n <= f.count
    ensures |b| == n * (|f.rows| * ElementSize(f.kind))
  {
    if n == 0 then []
    else
      var width := |f.rows| * ElementSize(f.kind);
      assert n * width == (n - 1) * width + width;
      Flat(f, start, n - 1) + ColumnBytes(f, start + n - 1, |f.rows|)
  }

  function ChunkMessage(f: Feed, start: nat, end: nat, chunk: uint32): Message
    requires Shaped(f) && start <= end <= f.count && end - start <= CHUNK_SIZE
  {
    RunData(Some(f.path), Some(DaqData(Flat(f, start, end - start), f.kind, end - start, |f.rows|, f.channels)),
            Some(chunk))
  }

  function MessageOf(f: Feed, k: nat): Message
    requires Shaped(f) && k < ChunkCount(f.count)
  {
    ChunkMessage(f, Start(k), End(f, k), k)
  }

  function Messages(f: Feed, n: nat): (ms: seq<Message>)
    requires Shaped(f) && n <= ChunkCount(f.count)
    ensures |ms| == n && forall k :: 0 <= k < n ==> ms[k] == MessageOf(f, k)
  {
    if n == 0 then [] else Messages(f, n - 1) + [MessageOf(f, n - 1)]
  }

  /** The channel entries of the mock server: gain one, offset zero, probe equal to the channel. */
  function MockChannels(n: nat): (cs: seq<AdcChannel>)
    requires n < WORD32
    ensures |cs| == n && forall i :: 0 <= i < n ==> cs[i] == AdcChannel(i, 1.0, 0.0, i)
  {
    if n == 0 then [] else MockChannels(n - 1) + [AdcChannel(n - 1, 1.0, 0.0, n - 1)]
  }

  function MockFeed(mac: seq<byte>, rows: seq<seq<seq<byte>>>, count: nat): Feed
    requires |rows| < WORD32
  {
    Feed([47] + mac, MockChannels(|rows|), Float(32), rows, count)
  }

  /** `samples[:, :n]`. */
  function FirstColumns(rows: seq<seq<seq<byte>>>, n: nat): (r: seq<seq<seq<byte>>>)
    requires forall i :: 0 <= i < |rows| ==> n <= |rows[i]|
    ensures |r| == |rows| && forall i :: 0 <= i < |r| ==> r[i] == rows[i][..n]
  {
    if rows == [] then [] else [rows[0][..n]] + FirstColumns(rows[1..], n)
  }

  lemma FirstColumnsShaped(mac: seq<byte>, rows: seq<seq<seq<byte>>>, count: nat, n: nat)
    requires |rows| < WORD32 && Shaped(MockFeed(mac, rows, count)) && 0 < n <= count
    ensures forall i :: 0 <= i < |rows| ==> n <= |rows[i]|
    ensures Shaped(MockFeed(mac, FirstColumns(rows, n), n))
  {
    var f := MockFeed(mac, rows, count);
    assert forall i :: 0 <= i < |rows| ==> ProperRow(f, rows[i]);
    var g := MockFeed(mac, FirstColumns(rows, n), n);
    assert ChunkCount(n) <= ChunkCount(count);
    forall i | 0 <= i < |rows| ensures ProperRow(g, g.rows[i]) {
      assert g.rows[i] == rows[i][..n];
    }
  }

  /** How many samples go out: half of them under the fewer-samples error injection. */
  function Kept(count: nat, fewer: bool): nat {
    if fewer then count / 2 else count
  }

  lemma KeptHalf(count: nat)
    ensures Kept(count, false) == count && 2 * Kept(count, true) <= count < 2 * Kept(count, true) + 2
  {
  }

  /** What the mock server announces: its address behind a slash, 32-bit floats, and channel i on probe i, unscaled. */
  lemma MockFeedIs(mac: seq<byte>, rows: seq<seq<seq<byte>>>, count: nat, i: nat)
    requires |rows| < WORD32
    ensures var f := MockFeed(mac, rows, count);
            && f.path == [0x2F] + mac && f.kind == Float(32) && f.rows == rows && f.count == count
            && |f.channels| == |rows| && (i < |rows| ==> f.channels[i] == AdcChannel(i, 1.0, 0.0, i))
  {
  }

  /** `_send_carrier_samples` of the generated samples. */
  method SendCarrierSamples(mac: seq<byte>, generated: seq<seq<seq<byte>>>, count: nat, fewer: bool)
    returns (sent: seq<Message>)
    requires |generated| < WORD32 && (count > 0 ==> Shaped(MockFeed(mac, generated, count)))
    ensures Kept(count, fewer) == 0 ==> sent == []
    ensures var n := Kept(count, fewer);
            n > 0 ==> (forall i :: 0 <= i < |generated| ==> n <= |generated[i]|) &&
                      Shaped(MockFeed(mac, FirstColumns(generated, n), n)) &&
                      sent == Messages(MockFeed(mac, FirstColumns(generated, n), n), ChunkCount(n))
  {
    hide ProperRow, Flat, ColumnBytes, MockChannels, ChunkCount, Shaped, FirstColumns, Messages, MessageOf;
    sent := [];
    var actual := if fewer then count / 2 else count;
    if actual == 0 {
      return;
    }
    FirstColumnsShaped(mac, generated, count, actual);
    var rows := FirstColumns(generated, actual);
    ghost var f := MockFeed(mac, rows, actual);
    NoMessages(f);
    var chunk, start: nat := 0, 0;
    while start < actual
      invariant start == CHUNK_SIZE * chunk && chunk <= ChunkCount(actual)
      invariant sent == Messages(f, chunk)
      decreases actual - start
    {
      ChunksLeft(actual, chunk);
      NextMessage(mac, rows, actual, chunk);
      var end := if start + CHUNK_SIZE < actual then start + CHUNK_SIZE else actual;
      var data := FlattenColumns(f, rows, start, end);
      var daq := DaqData(data, Float(32), end - start, |rows|, MockChannels(|rows|));
      sent := sent + [RunData(Some([47] + mac), Some(daq), Some(chunk))];
      chunk := chunk + 1;
      start := start + CHUNK_SIZE;
    }
    ChunksLeft(actual, chunk);
  }

  lemma ChunksLeft(count: nat, chunk: nat)
    requires chunk <= ChunkCount(count)
    ensures CHUNK_SIZE * chunk < count <==> chunk < ChunkCount(count)
  {
  }

  lemma NoMessages(f: Feed)
    requires Shaped(f)
    ensures Messages(f, 0) == []
  {
  }

  lemma NextMessage(mac: seq<byte>, rows: seq<seq<seq<byte>>>, count: nat, k: nat)
    requires |rows| < WORD32 && Shaped(MockFeed(mac, rows, count)) && k < ChunkCount(count)
    ensures Start(k) <= End(MockFeed(mac, rows, count), k) <= count
    ensures k < WORD32 && End(MockFeed(mac, rows, count), k) - Start(k) < WORD32
    ensures var f := MockFeed(mac, rows, count);
            var daq := DaqData(Flat(f, Start(k), End(f, k) - Start(k)), Float(32), End(f, k) - Start(k), |rows|,
                               MockChannels(|rows|));
            Messages(f, k + 1) == Messages(f, k) + [RunData(Some([47] + mac), Some(daq), Some(k))]
  {
    hide Flat, ProperRow, MockChannels;
    ChunksLeft(count, k);
  }

  /** `chunk_samples.flatten(order="F").tobytes()`. */
  method FlattenColumns(ghost f: Feed, rows: seq<seq<seq<byte>>>, start: nat, end: nat) returns (data: seq<byte>)
    requires Shaped(f) && rows == f.rows && start <= end <= f.count
    ensures data == Flat(f, start, end - start)
  {
    data := [];
    for s := start to end
      invariant data == Flat(f, start, s - start)
    {
      for i := 0 to |rows|
        invariant data == Flat(f, start, s - start) + ColumnBytes(f, s, i)
      {
        assert ProperRow(f, rows[i]);
        data := data + rows[i][s];
      }
    }
  }

  /** The messages of a carrier: one for every hundred samples begun, numbered from zero, a hundred samples in
      each but the last. */
  lemma ChunkSizes(f: Feed, k: nat)
    requires Shaped(f) && k < ChunkCount(f.count)
    ensures 100 * (ChunkCount(f.count) - 1) < f.count <= 100 * ChunkCount(f.count)
    ensures var m := MessageOf(f, k);
            && m.RunData? && m.path == Some(f.path) && m.chunk == Some(k) && m.data.Some?
            && m.data.value.stride == |f.rows| && m.data.value.channels == f.channels && m.data.value.kind == f.kind
            && m.data.value.count == if k < ChunkCount(f.count) - 1 then 100 else f.count - 100 * k
  {
    hide Flat, ProperRow;
  }

  // ---------------------------------------------------------------- where an element lands

  lemma {:induction false} ColumnBytesAt(f: Feed, s: nat, n: nat, ch: nat)
    requires Shaped(f) && s < f.count && ch < n <= |f.rows|
    ensures ch * ElementSize(f.kind) + ElementSize(f.kind) <= n * ElementSize(f.kind)
    ensures ColumnBytes(f, s, n)[ch * ElementSize(f.kind)..ch * ElementSize(f.kind) + ElementSize(f.kind)]
         == f.rows[ch][s]
  {
    var size := ElementSize(f.kind);
    assert (n - 1 - ch) * size >= 0;
    assert ProperRow(f, f.rows[ch]);
    if ch < n - 1 {
      ColumnBytesAt(f, s, n - 1, ch);
    }
  }

  lemma {:induction false} FlatAt(f: Feed, start: nat, n: nat, s: nat, ch: nat)
    requires Shaped(f) && start + n <= f.count && s < n && ch < |f.rows|
    ensures var size := ElementSize(f.kind); var at := (s * |f.rows| + ch) * size;
            0 <= at <= at + size <= |Flat(f, start, n)| && Flat(f, start, n)[at..at + size] == f.rows[ch][start + s]
  {
    hide Flat, ColumnBytes, Shaped, ElementSize;
    var size, r := ElementSize(f.kind), |f.rows|;
    var a, b, at := Flat(f, start, n - 1), ColumnBytes(f, start + n - 1, r), (s * r + ch) * size;
    FlatEnd(f, start, n);
    FlatOffset(s, r, ch, size, n);
    if s < n - 1 {
      FlatAt(f, start, n - 1, s, ch);
      InLeft(a, b, at, size);
    } else {
      ColumnBytesAt(f, start + s, r, ch);
      InRight(a, b, ch * size, size);
    }
  }

  lemma FlatEnd(f: Feed, start: nat, n: nat)
    requires Shaped(f) && start + n <= f.count && n > 0
    ensures Flat(f, start, n) == Flat(f, start, n - 1) + ColumnBytes(f, start + n - 1, |f.rows|)
  {
    hide ColumnBytes, Shaped;
  }

  lemma InLeft(a: seq<byte>, b: seq<byte>, at: nat, n: nat)
    requires at + n <= |a|
    ensures (a + b)[at..at + n] == a[at..at + n]
  {
  }

  lemma InRight(a: seq<byte>, b: seq<byte>, at: nat, n: nat)
    requires at + n <= |b|
    ensures (a + b)[|a| + at..|a| + at + n] == b[at..at + n]
  {
  }

  lemma FlatOffset(s: nat, r: nat, ch: nat, size: nat, n: nat)
    requires ch < r && s < n
    ensures (s * r + ch) * size == s * (r * size) + ch * size
    ensures ch * size + size <= r * size
    ensures s * (r * size) + r * size <= n * (r * size)
  {
    Distributes(s * r, ch, size);
    Associates(s, r, size);
    Distributes(ch, 1, size);
    Monotone(ch + 1, r, size);
    Distributes(s, 1, r * size);
    Monotone(s + 1, n, r * size);
  }
}
