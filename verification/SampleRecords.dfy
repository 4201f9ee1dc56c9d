/**
 One sample message through the pipeline: what the sender flattens, the decoder converts, the builder
 lays out and the parser reads back is a record holding exactly the message's share of every signal.
 */
module SampleRecords {
  import opened Common
  import opened SampleBlob
  import opened SampleDecoder
  import opened SampleSender

  /** The value a run should report for channel position `i` at time `j`. */
  function Sample(codec: Codec, f: Feed, i: nat, j: nat): Cell
    requires Proper(f) && i < |f.channels| && j < f.count
  {
    assert ProperRow(f, f.rows[i]);
    Store(codec, Scaled(Read(codec, f.kind, f.rows[i][j]), f.channels[i].gain, f.channels[i].offset))
  }

  /** The signal of channel position `i` from time `lo` up to `hi`. */
  function Signal(codec: Codec, f: Feed, i: nat, lo: nat, hi: nat): (r: seq<Cell>)
    requires Proper(f) && i < |f.channels| && lo <= hi <= f.count
    ensures |r| == hi - lo && forall k :: 0 <= k < hi - lo ==> r[k] == Sample(codec, f, i, lo + k)
  {
    if lo == hi then [] else Signal(codec, f, i, lo, hi - 1) + [Sample(codec, f, i, hi - 1)]
  }

  function SignalRows(codec: Codec, f: Feed, lo: nat, hi: nat, n: nat): (rows: seq<seq<Cell>>)
    requires Proper(f) && n <= |f.channels| && lo <= hi <= f.count
    ensures |rows| == n && forall i :: 0 <= i < n ==> rows[i] == Signal(codec, f, i, lo, hi)
  {
    if n == 0 then [] else SignalRows(codec, f, lo, hi, n - 1) + [Signal(codec, f, n - 1, lo, hi)]
  }

  lemma ChunkBounds(f: Feed, k: nat)
    requires Proper(f) && k < ChunkCount(f.count)
    ensures Start(k) < End(f, k) <= f.count && End(f, k) - Start(k) <= CHUNK_SIZE
    ensures k + 1 < ChunkCount(f.count) ==> End(f, k) == Start(k + 1)
    ensures k + 1 == ChunkCount(f.count) ==> End(f, k) == f.count
  {
    hide ProperRow, ElementSize;
  }

  function RecordAt(codec: Codec, f: Feed, k: nat): ChunkRecord
    requires Proper(f) && k < ChunkCount(f.count)
  {
    ChunkBounds(f, k);
    ChunkRecord(k, f.path, SAMPLE_TYPE_OP, |f.channels|,
                SignalRows(codec, f, Start(k), End(f, k), |f.channels|), Some(Probes(f.channels)))
  }

  function DataOf(f: Feed, k: nat): DaqData
    requires Proper(f) && k < ChunkCount(f.count)
  {
    MessageOf(f, k).data.value
  }

  lemma DataShape(f: Feed, k: nat)
    requires Proper(f) && k < ChunkCount(f.count) && Start(k) < End(f, k) <= f.count
    ensures var d := DataOf(f, k);
            && d.data == Flat(f, Start(k), End(f, k) - Start(k)) && d.count == End(f, k) - Start(k)
            && d.stride == |f.rows| >= |f.channels| && d.channels == f.channels && d.kind == f.kind
  {
    hide Flat;
  }

  lemma ChunkHasValues(f: Feed, k: nat)
    requires Proper(f) && k < ChunkCount(f.count)
    ensures HasValues(DataOf(f, k)) && InBounds(DataOf(f, k)) && Acceptable(MessageOf(f, k))
  {
    hide Flat, ProperRow, ElementSize;
    ChunkBounds(f, k);
    var n, r, size := End(f, k) - Start(k), |f.rows|, ElementSize(f.kind);
    Positive(n, r, size);
    assert |Flat(f, Start(k), n)| == n * (r * size);
    WithinStride(DataOf(f, k));
  }

  lemma Positive(n: nat, r: nat, size: nat)
    requires n > 0 && r > 0 && size > 0
    ensures r * n > 0 && r * n * size == n * (r * size) > 0
  {
    assert r * n > 0;
    assert r * n * size == n * (r * size);
    assert (r * n) * size > 0;
  }

  /** The element the decoder reads is the one the sender put there. */
  lemma ElementSent(f: Feed, k: nat, s: nat, i: nat)
    requires Proper(f) && k < ChunkCount(f.count) && s < End(f, k) - Start(k) && i < |f.channels|
    ensures InBounds(DataOf(f, k)) && s < DataOf(f, k).count
    ensures Start(k) + s < f.count && Element(DataOf(f, k), s, i) == f.rows[i][Start(k) + s]
  {
    hide HasValues, InBounds, Flat, Shaped, ElementSize, DataOf, Start, End, ChunkCount;
    ChunkHasValues(f, k);
    ChunkBounds(f, k);
    DataShape(f, k);
    FlatAt(f, Start(k), End(f, k) - Start(k), s, i);
  }

  /** Row `i` of the decoded chunk is the chunk's share of signal `i`. */
  lemma RowIsSignal(codec: Codec, f: Feed, k: nat, i: nat)
    requires Proper(f) && k < ChunkCount(f.count) && i < |f.channels| && InBounds(DataOf(f, k))
    requires Start(k) < End(f, k) <= f.count
    ensures var d, n := DataOf(f, k), End(f, k) - Start(k);
            |Columns(codec, d, n)| >= n * |f.channels| &&
            Row(Columns(codec, d, n), |f.channels|, n, i) == Signal(codec, f, i, Start(k), End(f, k))
  {
    hide *;
    var d, n := DataOf(f, k), End(f, k) - Start(k);
    DataShape(f, k);
    forall s | 0 <= s < n
      ensures Row(Columns(codec, d, n), |f.channels|, n, i)[s] == Signal(codec, f, i, Start(k), End(f, k))[s]
    {
      CellIsSample(codec, f, k, i, s);
      assert Signal(codec, f, i, Start(k), End(f, k))[s] == Sample(codec, f, i, Start(k) + s);
    }
  }

  lemma CellIsSample(codec: Codec, f: Feed, k: nat, i: nat, s: nat)
    requires Proper(f) && k < ChunkCount(f.count) && i < |f.channels| && InBounds(DataOf(f, k))
    requires Start(k) < End(f, k) <= f.count && s < End(f, k) - Start(k)
    ensures var n := End(f, k) - Start(k);
            var raw := Columns(codec, DataOf(f, k), n);
            |raw| >= n * |f.channels| && Row(raw, |f.channels|, n, i)[s] == Sample(codec, f, i, Start(k) + s)
  {
    hide HasValues, InBounds, Element, Shaped, Proper, ElementSize, Columns, Row, Scaled, Store, Read, Flat, DataOf,
         Start, End, ChunkCount;
    var d, n := DataOf(f, k), End(f, k) - Start(k);
    DataShape(f, k);
    ColumnsAt(codec, d, n, s, i);
    RowCell(Columns(codec, d, n), |f.channels|, n, i, s);
    ElementSent(f, k, s, i);
  }

  function ChunkContent(codec: Codec, f: Feed, k: nat): Content
    requires Proper(f) && k < ChunkCount(f.count) && InBounds(DataOf(f, k))
  {
    Content(f.path, Columns(codec, DataOf(f, k), DataOf(f, k).count), |f.channels|, SAMPLE_TYPE_OP, k,
            Probes(f.channels))
  }

  lemma ContentSent(codec: Codec, f: Feed, k: nat)
    requires Proper(f) && k < ChunkCount(f.count)
    ensures InBounds(DataOf(f, k)) && Sampled(MessageOf(f, k)) && Acceptable(MessageOf(f, k))
    ensures ContentOf(codec, MessageOf(f, k)) == Some(ChunkContent(codec, f, k))
  {
    hide HasValues, InBounds, Columns, Flat, ProperRow, SampleCount;
    ChunkHasValues(f, k);
  }

  lemma ContentCount(codec: Codec, f: Feed, k: nat)
    requires Proper(f) && k < ChunkCount(f.count) && InBounds(DataOf(f, k))
    ensures var c := ChunkContent(codec, f, k); c.channels > 0 && SampleCount(c) == End(f, k) - Start(k) > 0
    ensures |ChunkContent(codec, f, k).samples| == (End(f, k) - Start(k)) * |f.channels|
  {
    hide Columns, ProperRow, ElementSize, InBounds, Flat;
    ChunkBounds(f, k);
    CountOfColumns(|ChunkContent(codec, f, k).samples|, |f.channels|, End(f, k) - Start(k));
  }

  lemma RowSent(codec: Codec, f: Feed, k: nat, i: nat)
    requires Proper(f) && k < ChunkCount(f.count) && InBounds(DataOf(f, k)) && i < |f.channels|
    ensures var c, n := ChunkContent(codec, f, k), End(f, k) - Start(k);
            Start(k) < End(f, k) <= f.count && |c.samples| >= n * |f.channels| &&
            Row(c.samples, |f.channels|, n, i) == Signal(codec, f, i, Start(k), End(f, k))
  {
    hide Columns, Row, Signal, Proper, InBounds, Flat, Start, End, ChunkCount;
    ChunkBounds(f, k);
    RowIsSignal(codec, f, k, i);
  }

  lemma RowsSent(codec: Codec, f: Feed, k: nat)
    requires Proper(f) && k < ChunkCount(f.count) && InBounds(DataOf(f, k))
    ensures var c, n := ChunkContent(codec, f, k), End(f, k) - Start(k);
            Start(k) < End(f, k) <= f.count && |c.samples| >= n * |f.channels| &&
            Rows(c.samples, |f.channels|, n, |f.channels|) == SignalRows(codec, f, Start(k), End(f, k), |f.channels|)
  {
    hide *;
    ChunkBounds(f, k);
    ContentCount(codec, f, k);
    var c, n, channels := ChunkContent(codec, f, k), End(f, k) - Start(k), |f.channels|;
    forall i | 0 <= i < channels ensures Row(c.samples, channels, n, i) == Signal(codec, f, i, Start(k), End(f, k)) {
      RowSent(codec, f, k, i);
    }
  }

  lemma RecordSent(codec: Codec, f: Feed, k: nat)
    requires Proper(f) && k < ChunkCount(f.count) && InBounds(DataOf(f, k))
    ensures var c := ChunkContent(codec, f, k);
            c.channels > 0 && SampleCount(c) > 0 && RecordOf(c) == RecordAt(codec, f, k)
  {
    hide SampleCount, Columns, Rows, SignalRows, Proper, InBounds, DataOf, Start, End, ChunkCount;
    ContentCount(codec, f, k);
    RowsSent(codec, f, k);
  }

  /** Main result for one message: whatever its position, size, stride, gains, offsets and probes, the
      record the session buffers is the sender's chunk with every sample converted. */
  lemma MessageDelivered(codec: Codec, f: Feed, k: nat)
    requires Proper(f) && k < ChunkCount(f.count)
    ensures Sampled(MessageOf(f, k)) && Acceptable(MessageOf(f, k))
    ensures ContentOf(codec, MessageOf(f, k)).Some?
    ensures Parse(Blob(ContentOf(codec, MessageOf(f, k)).value)) == Some(RecordAt(codec, f, k))
  {
    hide *;
    ContentSent(codec, f, k);
    RecordSent(codec, f, k);
    BlobRoundTrip(ChunkContent(codec, f, k));
  }
}
