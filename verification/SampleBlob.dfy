/**
 The binary blob between the C++ sample decoder and the Python session: written by
 `DecodedSampleBlob::build` (channel/sample_decoding_data_channel.cpp), read by `_parse_sample_blob`
 (redac/session.py).  A double is an opaque cell of eight bytes.
 */
module SampleBlob {
  import opened Common

  const HEADER_SIZE := 24
  const WORD32 := 0x1_0000_0000
  const SAMPLE_TYPE_OP := 0
  const SAMPLE_TYPE_OP_END := 1

  type uint32 = x: int | 0 <= x < WORD32
  type Cell = s: seq<byte> | |s| == 8 witness [0, 0, 0, 0, 0, 0, 0, 0]

  // ---------------------------------------------------------------- little-endian words

  function U32(n: uint32): (s: seq<byte>)
    ensures |s| == 4
  {
    [n % 256, n / 256 % 256, n / 256 / 256 % 256, n / 256 / 256 / 256]
  }

  function ReadU32(b: seq<byte>, at: nat): uint32
    requires at + 4 <= |b|
  {
    b[at] as int + 256 * b[at + 1] as int + 65536 * b[at + 2] as int + 16777216 * b[at + 3] as int
  }

  lemma ReadWritten(b: seq<byte>, at: nat, n: uint32)
    requires at + 4 <= |b| && b[at..at + 4] == U32(n)
    ensures ReadU32(b, at) == n
  {
    assert b[at] == b[at..at + 4][0] && b[at + 1] == b[at..at + 4][1];
    assert b[at + 2] == b[at..at + 4][2] && b[at + 3] == b[at..at + 4][3];
  }

  function Words(ns: seq<uint32>): (s: seq<byte>)
    ensures |s| == 4 * |ns|
  {
    if ns == [] then [] else U32(ns[0]) + Words(ns[1..])
  }

  function Cells(cs: seq<Cell>): (s: seq<byte>)
    ensures |s| == 8 * |cs|
  {
    if cs == [] then [] else cs[0] + Cells(cs[1..])
  }

  lemma {:induction false} WordAt(ns: seq<uint32>, i: nat)
    requires i < |ns|
    ensures Words(ns)[4 * i..4 * i + 4] == U32(ns[i])
  {
    if i > 0 {
      WordAt(ns[1..], i - 1);
      assert Words(ns)[4 * i..4 * i + 4] == Words(ns[1..])[4 * (i - 1)..4 * (i - 1) + 4];
    }
  }

  lemma {:induction false} CellAt(cs: seq<Cell>, i: nat)
    requires i < |cs|
    ensures Cells(cs)[8 * i..8 * i + 8] == cs[i]
  {
    if i > 0 {
      CellAt(cs[1..], i - 1);
      assert Cells(cs)[8 * i..8 * i + 8] == Cells(cs[1..])[8 * (i - 1)..8 * (i - 1) + 8];
    }
  }

  // ---------------------------------------------------------------- layout

  /** `align_up_to_double` of the builder. */
  function AlignUp(v: nat): nat {
    (v + 7) / 8 * 8
  }

  /** The parser's padding rule. */
  function PadTo8(v: nat): nat {
    if v % 8 != 0 then v + (8 - v % 8) else v
  }

  /** Both sides of the interface agree on every offset, and it is the least aligned one. */
  lemma AlignmentsAgree(v: nat)
    ensures AlignUp(v) == PadTo8(v)
    ensures AlignUp(v) % 8 == 0 && v <= AlignUp(v) < v + 8
  {
    var q, r := v / 8, v % 8;
    assert v == 8 * q + r;
    if r == 0 {
      Eights(q, 7);
    } else {
      assert v + 7 == 8 * (q + 1) + (r - 1);
      Eights(q + 1, r - 1);
    }
  }

  lemma Eights(q: nat, r: nat)
    requires r < 8
    ensures (8 * q + r) / 8 == q && (q * 8) % 8 == 0
  {
  }

  /** What is put into a blob. */
  datatype Content = Content(path: seq<byte>, samples: seq<Cell>, channels: uint32, kind: uint32,
                             chunk: uint32, probes: seq<uint32>)

  function SampleCount(c: Content): nat {
    if c.channels > 0 then |c.samples| / c.channels else 0
  }

  /** Sizes that fit the header fields; a probe section, if any, has one entry per channel. */
  predicate Fits(c: Content) {
    |c.path| < WORD32 && SampleCount(c) < WORD32 && (c.probes == [] || |c.probes| == c.channels)
  }

  function Header(c: Content): (h: seq<uint32>)
    requires Fits(c)
    ensures |h| == 6
  {
    [|c.path|, SampleCount(c), c.channels, c.kind, c.chunk, if c.probes == [] then 0 else 1]
  }

  function BaseOffset(c: Content): nat {
    HEADER_SIZE + |c.path| + 4 * |c.probes|
  }

  /** The blob, section by section. */
  function Blob(c: Content): (b: seq<byte>)
    requires Fits(c)
    ensures |b| == AlignUp(BaseOffset(c)) + 8 * |c.samples|
  {
    Words(Header(c)) + c.path + Words(c.probes) + Zeros(AlignUp(BaseOffset(c)) - BaseOffset(c)) + Cells(c.samples)
  }

  /** `DecodedSampleBlob::build`: zero-filled buffer, sections copied at moving offsets. */
  method Build(c: Content) returns (blob: array<byte>)
    requires Fits(c)
    ensures fresh(blob) && blob[..] == Blob(c)
  {
    hide Words, Cells, Header, Blob, AlignUp, SampleCount, Fits;
    AlignmentsAgree(BaseOffset(c));
    var probeBytes := 4 * |c.probes|;
    var baseOffset := HEADER_SIZE + |c.path| + probeBytes;
    var samplesOffset := AlignUp(baseOffset);
    blob := new byte[samplesOffset + 8 * |c.samples|](_ => 0);
    CopyInto(blob, 0, Words(Header(c)));
    var offset := HEADER_SIZE;
    CopyInto(blob, offset, c.path);
    offset := offset + |c.path|;
    if c.probes != [] {
      CopyInto(blob, offset, Words(c.probes));
    }
    assert forall i :: 0 <= i < |c.path| ==> blob[HEADER_SIZE + i] == c.path[i];
    assert forall i :: 0 <= i < probeBytes ==> blob[offset + i] == Words(c.probes)[i];
    CopyInto(blob, samplesOffset, Cells(c.samples));
    BlobSections(c, blob[..]);
  }

  /** `memcpy` into the blob. */
  method CopyInto(a: array<byte>, at: nat, bytes: seq<byte>)
    requires at + |bytes| <= a.Length
    modifies a
    ensures forall i :: 0 <= i < a.Length ==> a[i] == if at <= i < at + |bytes| then bytes[i - at] else old(a[i])
  {
    forall i | 0 <= i < |bytes| {
      a[at + i] := bytes[i];
    }
  }

  /** A byte string is the blob if it is so in every section. */
  lemma BlobSections(c: Content, b: seq<byte>)
    requires Fits(c) && |b| == |Blob(c)|
    requires forall i :: 0 <= i < HEADER_SIZE ==> b[i] == Words(Header(c))[i]
    requires forall i :: 0 <= i < |c.path| ==> b[HEADER_SIZE + i] == c.path[i]
    requires forall i :: 0 <= i < 4 * |c.probes| ==> b[HEADER_SIZE + |c.path| + i] == Words(c.probes)[i]
    requires forall i :: BaseOffset(c) <= i < AlignUp(BaseOffset(c)) ==> b[i] == 0
    requires forall i :: 0 <= i < 8 * |c.samples| ==> b[AlignUp(BaseOffset(c)) + i] == Cells(c.samples)[i]
    ensures b == Blob(c)
  {
    hide Words, Cells, Zeros, U32;
    var p, q, r := HEADER_SIZE, HEADER_SIZE + |c.path|, BaseOffset(c);
    var s := AlignUp(r);
    assert b[..p] == Words(Header(c));
    assert b[p..q] == c.path;
    assert b[q..r] == Words(c.probes);
    assert b[r..s] == Zeros(s - r);
    assert b[s..] == Cells(c.samples);
    assert b == b[..p] + b[p..q] + b[q..r] + b[r..s] + b[s..];
  }

  /** Words are little-endian on both sides. */
  lemma LittleEndian()
    ensures U32(0x12345678) == [0x78, 0x56, 0x34, 0x12] && ReadU32([0x78, 0x56, 0x34, 0x12], 0) == 0x12345678
  {
  }

  // ---------------------------------------------------------------- reading

  /** One decoded chunk as the session buffers it; `rows` has a row per channel. */
  datatype ChunkRecord = ChunkRecord(chunk: nat, path: seq<byte>, kind: nat, channels: nat,
                                     rows: seq<seq<Cell>>, probes: Option<seq<nat>>)

  /** `np.frombuffer`. */
  function RawCells(b: seq<byte>, at: nat, n: nat): (cs: seq<Cell>)
    requires at + 8 * n <= |b|
    ensures |cs| == n && forall k :: 0 <= k < n ==> cs[k] == b[at + 8 * k..at + 8 * k + 8]
  {
    if n == 0 then [] else RawCells(b, at, n - 1) + [b[at + 8 * (n - 1)..at + 8 * n]]
  }

  /** `struct.unpack_from("<nI")`. */
  function RawWords(b: seq<byte>, at: nat, n: nat): (ns: seq<nat>)
    requires at + 4 * n <= |b|
    ensures |ns| == n && forall k :: 0 <= k < n ==> ns[k] == ReadU32(b, at + 4 * k)
  {
    if n == 0 then [] else RawWords(b, at, n - 1) + [ReadU32(b, at + 4 * (n - 1))]
  }

  lemma IndexBelow(i: nat, j: nat, channels: nat, count: nat)
    requires i < channels && j < count
    ensures 0 <= j * channels + i < count * channels
  {
    Distributes(j, 1, channels);
    Monotone(j + 1, count, channels);
  }

  lemma Distributes(a: nat, b: nat, c: nat)
    ensures (a + b) * c == a * c + b * c
  {
  }

  lemma Associates(a: nat, b: nat, c: nat)
    ensures (a * b) * c == a * (b * c)
  {
  }

  lemma Monotone(a: nat, b: nat, c: nat)
    requires a <= b
    ensures a * c <= b * c
  {
  }

  /** Row `i` of a column-major table: every `channels`-th cell. */
  function Row(raw: seq<Cell>, channels: nat, count: nat, i: nat): (row: seq<Cell>)
    requires i < channels && |raw| >= count * channels
    ensures |row| == count
  {
    if count == 0 then []
    else
      IndexBelow(i, count - 1, channels, count);
      Row(raw, channels, count - 1, i) + [raw[(count - 1) * channels + i]]
  }

  lemma {:induction false} RowCell(raw: seq<Cell>, channels: nat, count: nat, i: nat, j: nat)
    requires i < channels && |raw| >= count * channels && j < count
    ensures 0 <= j * channels + i < |raw| && Row(raw, channels, count, i)[j] == raw[j * channels + i]
  {
    IndexBelow(i, j, channels, count);
    if j < count - 1 {
      assert |raw| >= (count - 1) * channels;
      RowCell(raw, channels, count - 1, i, j);
    }
  }

  /** `reshape((channels, count), order="F")`. */
  function Rows(raw: seq<Cell>, channels: nat, count: nat, n: nat): (rows: seq<seq<Cell>>)
    requires n <= channels && |raw| >= count * channels
    ensures |rows| == n && forall i :: 0 <= i < n ==> rows[i] == Row(raw, channels, count, i)
  {
    if n == 0 then [] else Rows(raw, channels, count, n - 1) + [Row(raw, channels, count, n - 1)]
  }

  /** `_parse_sample_blob` up to the buffered record; None stands for an ignored blob or an exception. */
  function Parse(b: seq<byte>): Option<ChunkRecord> {
    if |b| < HEADER_SIZE then None else ParseSections(b, RawWords(b, 0, 6))
  }

  /** What follows a header of six words. */
  function ParseSections(b: seq<byte>, h: seq<nat>): Option<ChunkRecord>
    requires |h| == 6 && |b| >= HEADER_SIZE
  {
    var pathLen, count, channels, hasProbes := h[0], h[1], h[2], h[5] != 0;
    if channels == 0 || count == 0 then None
    else
      var pathEnd := HEADER_SIZE + pathLen;
      var probeEnd := pathEnd + if hasProbes then 4 * channels else 0;
      var at := PadTo8(probeEnd);
      if at + 8 * (count * channels) > |b| then None
      else
        Some(ChunkRecord(h[4], b[HEADER_SIZE..pathEnd], h[3], channels,
                         Rows(RawCells(b, at, count * channels), channels, count, channels),
                         if hasProbes then Some(RawWords(b, pathEnd, channels)) else None))
  }

  // ---------------------------------------------------------------- round trip

  /** What the session should end up with. */
  function RecordOf(c: Content): ChunkRecord
    requires c.channels > 0
  {
    var n := SampleCount(c);
    assert n * c.channels <= |c.samples|;
    ChunkRecord(c.chunk, c.path, c.kind, c.channels, Rows(c.samples, c.channels, n, c.channels),
                if c.probes == [] then None else Some(c.probes))
  }

  lemma Sections(c: Content)
    requires Fits(c)
    ensures var b, p, q, r := Blob(c), HEADER_SIZE, HEADER_SIZE + |c.path|, BaseOffset(c);
            var s := AlignUp(r);
            b[..p] == Words(Header(c)) && b[p..q] == c.path && b[q..r] == Words(c.probes) && b[s..] == Cells(c.samples)
  {
    hide Words, Cells, Zeros, U32;
  }

  lemma WordReadAt(b: seq<byte>, at: nat, ns: seq<uint32>, k: nat)
    requires at + 4 * |ns| <= |b| && b[at..at + 4 * |ns|] == Words(ns) && k < |ns|
    ensures ReadU32(b, at + 4 * k) == ns[k]
  {
    hide *;
    WordAt(ns, k);
    SliceOfSlice(b, at, at + 4 * |ns|, 4 * k, 4 * k + 4);
    ReadWritten(b, at + 4 * k, ns[k]);
  }

  lemma SliceOfSlice(b: seq<byte>, low: nat, high: nat, i: nat, j: nat)
    requires low <= high <= |b| && i <= j <= high - low
    ensures b[low..high][i..j] == b[low + i..low + j]
  {
    var s := b[low..high];
    assert forall k :: i <= k < j ==> s[k] == b[low + k];
  }

  lemma WordsRead(b: seq<byte>, at: nat, ns: seq<uint32>)
    requires at + 4 * |ns| <= |b| && b[at..at + 4 * |ns|] == Words(ns)
    ensures RawWords(b, at, |ns|) == ns
  {
    hide *;
    forall k | 0 <= k < |ns| ensures ReadU32(b, at + 4 * k) == ns[k] {
      WordReadAt(b, at, ns, k);
    }
  }

  lemma CellsRead(b: seq<byte>, at: nat, cs: seq<Cell>, n: nat)
    requires at + 8 * |cs| <= |b| && b[at..at + 8 * |cs|] == Cells(cs) && n <= |cs|
    ensures RawCells(b, at, n) == cs[..n]
  {
    hide *;
    forall k | 0 <= k < n ensures b[at + 8 * k..at + 8 * k + 8] == cs[k] {
      CellReadAt(b, at, cs, k);
    }
  }

  lemma CellReadAt(b: seq<byte>, at: nat, cs: seq<Cell>, k: nat)
    requires at + 8 * |cs| <= |b| && b[at..at + 8 * |cs|] == Cells(cs) && k < |cs|
    ensures b[at + 8 * k..at + 8 * k + 8] == cs[k]
  {
    hide *;
    CellAt(cs, k);
    SliceOfSlice(b, at, at + 8 * |cs|, 8 * k, 8 * k + 8);
  }

  lemma HeaderRead(c: Content)
    requires Fits(c)
    ensures RawWords(Blob(c), 0, 6) == Header(c)
  {
    hide Blob, Header, Words, RawWords;
    Sections(c);
    assert Blob(c)[0..24] == Blob(c)[..24];
    WordsRead(Blob(c), 0, Header(c));
  }

  lemma ProbesRead(c: Content)
    requires Fits(c)
    ensures RawWords(Blob(c), HEADER_SIZE + |c.path|, |c.probes|) == c.probes
  {
    hide Blob, Words, RawWords;
    Sections(c);
    WordsRead(Blob(c), HEADER_SIZE + |c.path|, c.probes);
  }

  lemma SamplesRead(c: Content, n: nat)
    requires Fits(c) && n <= |c.samples|
    ensures RawCells(Blob(c), AlignUp(BaseOffset(c)), n) == c.samples[..n]
  {
    hide Blob, Cells, RawCells, AlignUp;
    var b, s := Blob(c), AlignUp(BaseOffset(c));
    Sections(c);
    assert b[s..s + 8 * |c.samples|] == b[s..];
    CellsRead(b, s, c.samples, n);
  }

  lemma {:induction false} RowPrefix(raw: seq<Cell>, more: seq<Cell>, channels: nat, count: nat, i: nat)
    requires i < channels && |raw| >= count * channels && raw <= more
    ensures Row(more, channels, count, i) == Row(raw, channels, count, i)
  {
    if count > 0 {
      IndexBelow(i, count - 1, channels, count);
      RowPrefix(raw, more, channels, count - 1, i);
    }
  }

  /** Main result: for every path length, channel count and optional probe section, what the C++ builder
      lays out is what the Python parser reads back, and nothing is read from an empty blob. */
  lemma BlobRoundTrip(c: Content)
    requires Fits(c)
    ensures Parse(Blob(c)) == if c.channels == 0 || SampleCount(c) == 0 then None else Some(RecordOf(c))
  {
    hide RawWords, Rows;
    HeaderRead(c);
    if c.channels > 0 && SampleCount(c) > 0 {
      SectionsRead(c);
    }
  }

  /** The layout in absolute terms: six words, */
  lemma HeaderLayout(c: Content)
    requires Fits(c)
    ensures var b, n := Blob(c), if c.channels > 0 then |c.samples| / c.channels else 0;
            && |b| >= 24 && ReadU32(b, 0) == |c.path| && ReadU32(b, 4) == n && ReadU32(b, 8) == c.channels
            && ReadU32(b, 12) == c.kind && ReadU32(b, 16) == c.chunk
            && ReadU32(b, 20) == (if c.probes == [] then 0 else 1)
  {
    hide Blob, ReadU32, RawWords, AlignUp;
    AlignmentsAgree(BaseOffset(c));
    HeaderRead(c);
    var b, h := Blob(c), Header(c);
    assert h[0] == ReadU32(b, 0 + 4 * 0) && h[1] == ReadU32(b, 0 + 4 * 1) && h[2] == ReadU32(b, 0 + 4 * 2);
    assert h[3] == ReadU32(b, 0 + 4 * 3) && h[4] == ReadU32(b, 0 + 4 * 4) && h[5] == ReadU32(b, 0 + 4 * 5);
  }

  /** the path at byte 24, the probes behind it, and the samples from the next multiple of eight on, with nothing
      behind them. */
  lemma SectionLayout(c: Content, k: nat)
    requires Fits(c)
    ensures |Blob(c)| >= 24 + |c.path| + 4 * |c.probes| && Blob(c)[24..24 + |c.path|] == c.path
    ensures k < |c.probes| ==> ReadU32(Blob(c), 24 + |c.path| + 4 * k) == c.probes[k]
    ensures exists at: nat {:trigger at % 8} ::
              && at % 8 == 0 && 24 + |c.path| + 4 * |c.probes| <= at < 32 + |c.path| + 4 * |c.probes|
              && |Blob(c)| == at + 8 * |c.samples|
              && (k < |c.samples| ==> Blob(c)[at + 8 * k..at + 8 * k + 8] == c.samples[k])
  {
    hide Blob, Words, Cells, ReadU32, AlignUp, RawWords, Header;
    AlignmentsAgree(BaseOffset(c));
    Sections(c);
    ProbesRead(c);
    SampleAt(c, k);
    assert AlignUp(BaseOffset(c)) % 8 == 0;
  }

  lemma SampleAt(c: Content, k: nat)
    requires Fits(c)
    ensures var at := AlignUp(BaseOffset(c));
            k < |c.samples| ==> Blob(c)[at + 8 * k..at + 8 * k + 8] == c.samples[k]
  {
    hide Blob, Cells, AlignUp;
    Sections(c);
    var b, at := Blob(c), AlignUp(BaseOffset(c));
    if k < |c.samples| {
      CellAt(c.samples, k);
      assert b[at..][8 * k..8 * k + 8] == b[at + 8 * k..at + 8 * k + 8];
    }
  }

  lemma SectionsRead(c: Content)
    requires Fits(c) && c.channels > 0 && SampleCount(c) > 0
    ensures ParseSections(Blob(c), Header(c)) == Some(RecordOf(c))
  {
    var b, n, at := Blob(c), SampleCount(c), AlignUp(BaseOffset(c));
    CountTimesChannels(c);
    assert b[HEADER_SIZE..HEADER_SIZE + |c.path|] == c.path by { Sections(c); }
    AlignmentsAgree(BaseOffset(c));
    ProbesRead(c);
    SamplesRead(c, n * c.channels);
    SamplesRows(c, n);
    hide Rows, RawWords, RawCells, Words, Cells, PadTo8, AlignUp, Blob, SampleCount;
    SectionsParse(b, Header(c), c, n, at);
  }

  lemma SamplesRows(c: Content, n: nat)
    requires n * c.channels <= |c.samples|
    ensures Rows(c.samples[..n * c.channels], c.channels, n, c.channels) == Rows(c.samples, c.channels, n, c.channels)
  {
    RowsPrefix(c.samples[..n * c.channels], c.samples, c.channels, n, c.channels);
  }

  /** The parser's result from the sections it has located. */
  lemma SectionsParse(b: seq<byte>, h: seq<nat>, c: Content, n: nat, at: nat)
    requires |h| == 6 && |b| >= HEADER_SIZE && c.channels > 0 && n > 0
    requires h[0] == |c.path| && h[1] == n && h[2] == c.channels && h[3] == c.kind && h[4] == c.chunk
    requires (h[5] != 0) == (c.probes != []) && (c.probes == [] || |c.probes| == c.channels)
    requires PadTo8(HEADER_SIZE + |c.path| + if c.probes == [] then 0 else 4 * c.channels) == at
    requires at + 8 * (n * c.channels) <= |b| && b[HEADER_SIZE..HEADER_SIZE + |c.path|] == c.path
    requires HEADER_SIZE + |c.path| + 4 * |c.probes| <= |b|
    requires c.probes != [] ==> RawWords(b, HEADER_SIZE + |c.path|, |c.probes|) == c.probes
    ensures ParseSections(b, h)
         == Some(ChunkRecord(c.chunk, c.path, c.kind, c.channels,
                             Rows(RawCells(b, at, n * c.channels), c.channels, n, c.channels),
                             if c.probes == [] then None else Some(c.probes)))
  {
    hide RawWords, RawCells, Rows;
  }

  lemma CountTimesChannels(c: Content)
    requires c.channels > 0
    ensures SampleCount(c) * c.channels <= |c.samples|
  {
  }

  lemma {:induction false} RowsPrefix(raw: seq<Cell>, more: seq<Cell>, channels: nat, count: nat, n: nat)
    requires n <= channels && |raw| >= count * channels && raw <= more
    ensures Rows(more, channels, count, n) == Rows(raw, channels, count, n)
  {
    if n > 0 {
      RowPrefix(raw, more, channels, count, n - 1);
      RowsPrefix(raw, more, channels, count, n - 1);
    }
  }
}
