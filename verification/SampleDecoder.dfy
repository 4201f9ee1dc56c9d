/**
 Decoding of sample messages (channel/sample_decoding_data_channel.cpp): `decode_daq_data` and
 `handle_data_message`.  How raw bytes become a number and how a number becomes a double's eight bytes
 is a parameter; gain and offset are real arithmetic.
 */
module SampleDecoder {
  import opened Common
  import opened SampleBlob
  import opened SampleQueue

  datatype DataType = Unset | Float(bits: nat) | Integer(signed: bool, bits: nat)

  datatype AdcChannel = AdcChannel(idx: uint32, gain: real, offset: real, probe: uint32)

  datatype DaqData = DaqData(data: seq<byte>, kind: DataType, count: uint32, stride: uint32,
                             channels: seq<AdcChannel>)

  datatype Codec = Codec(read: (DataType, seq<byte>) -> real, store: real -> Cell)

  function Read(codec: Codec, kind: DataType, raw: seq<byte>): real { codec.read(kind, raw) }

  function Store(codec: Codec, x: real): Cell { codec.store(x) }

  datatype Decoded = Decoded(samples: seq<Cell>, channels: uint32, probes: seq<uint32>)

  /** `element_size` of `get_data_type_info`; zero where it has no reader. */
  function ElementSize(t: DataType): nat {
    match t
    case Float(bits) => if bits == 32 then 4 else if bits == 64 then 8 else 0
    case Integer(_, bits) => if bits == 16 then 2 else if bits == 32 then 4 else 0
    case Unset => 0
  }

  /** The four early returns: no values, no data, unknown type, data too short. */
  predicate HasValues(d: DaqData) {
    && d.stride * d.count != 0
    && d.data != []
    && ElementSize(d.kind) != 0
    && |d.data| >= d.stride * d.count * ElementSize(d.kind)
  }

  /** The last element the conversion loops read lies in the data.  The decoder checks the data against the
      stride only, so a channel list longer than the stride can still run past the end. */
  predicate InBounds(d: DaqData) {
    d.count > 0 && ((d.count - 1) * d.stride + |d.channels|) * ElementSize(d.kind) <= |d.data|
  }

  /** What the decoder needs of a message it takes values from, so as not to read past its data. */
  predicate Decodable(d: DaqData) {
    |d.channels| < WORD32 && (HasValues(d) ==> InBounds(d))
  }

  lemma WithinStride(d: DaqData)
    requires HasValues(d) && |d.channels| <= d.stride
    ensures InBounds(d)
  {
    hide ElementSize;
    assert d.count > 0;
    LastColumn(d.count, d.stride, |d.channels|, ElementSize(d.kind));
  }

  lemma LastColumn(count: nat, stride: nat, channels: nat, size: nat)
    requires count > 0 && channels <= stride
    ensures ((count - 1) * stride + channels) * size <= stride * count * size
  {
    hide *;
    Distributes(count - 1, 1, stride);
    Monotone((count - 1) * stride + channels, count * stride, size);
    assert count * stride == stride * count;
  }

  lemma ElementInRange(count: nat, stride: nat, channels: nat, size: nat, s: nat, ch: nat)
    requires s < count && ch < channels
    ensures 0 <= (s * stride + ch) * size <= (s * stride + ch) * size + size
              <= ((count - 1) * stride + channels) * size
  {
    hide *;
    Monotone(s, count - 1, stride);
    var k := s * stride + ch;
    Distributes(k, 1, size);
    Monotone(k + 1, (count - 1) * stride + channels, size);
  }

  /** The bytes of the element at column `s` of channel position `ch`. */
  function Element(d: DaqData, s: nat, ch: nat): seq<byte>
    requires InBounds(d) && s < d.count && ch < |d.channels|
  {
    ElementInRange(d.count, d.stride, |d.channels|, ElementSize(d.kind), s, ch);
    var size := ElementSize(d.kind);
    d.data[(s * d.stride + ch) * size..(s * d.stride + ch) * size + size]
  }

  /** Reader, then gain and offset, then the double's bytes. */
  function Convert(codec: Codec, kind: DataType, gain: real, offset: real, raw: seq<byte>): Cell {
    Store(codec, Scaled(Read(codec, kind, raw), gain, offset))
  }

  function Scaled(x: real, gain: real, offset: real): real { x * gain + offset }

  /** The converted value of channel position `ch` in column `s`. */
  function Value(codec: Codec, d: DaqData, s: nat, ch: nat): Cell
    requires InBounds(d) && s < d.count && ch < |d.channels|
  {
    Convert(codec, d.kind, d.channels[ch].gain, d.channels[ch].offset, Element(d, s, ch))
  }

  /** The first `n` decoded values of column `s`. */
  function Column(codec: Codec, d: DaqData, s: nat, n: nat): (r: seq<Cell>)
    requires InBounds(d) && s < d.count && n <= |d.channels|
    ensures |r| == n && forall i :: 0 <= i < n ==> r[i] == Value(codec, d, s, i)
  {
    if n == 0 then []
    else Column(codec, d, s, n - 1) + [Value(codec, d, s, n - 1)]
  }

  /** The first `n` columns. */
  function Columns(codec: Codec, d: DaqData, n: nat): (r: seq<Cell>)
    requires InBounds(d) && n <= d.count
    ensures |r| == n * |d.channels|
  {
    if n == 0 then [] else Columns(codec, d, n - 1) + Column(codec, d, n - 1, |d.channels|)
  }

  lemma {:induction false} ColumnsAt(codec: Codec, d: DaqData, n: nat, s: nat, i: nat)
    requires InBounds(d) && s < n <= d.count && i < |d.channels|
    ensures 0 <= s * |d.channels| + i < |Columns(codec, d, n)|
    ensures Columns(codec, d, n)[s * |d.channels| + i] == Value(codec, d, s, i)
  {
    hide Value, InBounds, Convert;
    IndexBelow(i, s, |d.channels|, n);
    if s < n - 1 {
      ColumnsAt(codec, d, n - 1, s, i);
    }
  }

  function Probes(channels: seq<AdcChannel>): (p: seq<uint32>)
    ensures |p| == |channels| && forall i :: 0 <= i < |p| ==> p[i] == channels[i].probe
  {
    if channels == [] then [] else [channels[0].probe] + Probes(channels[1..])
  }

  /** The decoder's result; None is the exception for a message without channel entries. */
  function DecodeSpec(codec: Codec, d: DaqData): (r: Option<Decoded>)
    requires Decodable(d)
    ensures r.Some? ==> Fits(Content([], r.value.samples, r.value.channels, 0, 0, r.value.probes))
  {
    if !HasValues(d) then Some(Decoded([], 0, []))
    else if d.channels == [] then None
    else
      var columns := Columns(codec, d, d.count);
      assert SampleCount(Content([], columns, |d.channels|, 0, 0, [])) == d.count by {
        CountOfColumns(|columns|, |d.channels|, d.count);
      }
      Some(Decoded(columns, |d.channels|, Probes(d.channels)))
  }

  lemma CountOfColumns(total: nat, channels: nat, count: nat)
    requires channels > 0 && total == count * channels
    ensures total / channels == count
  {
    assert total % channels == 0 && total / channels == count by {
      DivideExact(count, channels);
    }
  }

  lemma DivideExact(k: nat, n: nat)
    requires n > 0
    ensures (k * n) / n == k && (k * n) % n == 0
  {
    var q, r := (k * n) / n, (k * n) % n;
    assert n * (k - q) == r;
    assert k - q >= 1 ==> n * (k - q) >= n;
    assert k - q <= -1 ==> n * (q - k) >= n;
  }

  /** The readers there are, and how many bytes each takes. */
  lemma ElementSizes(kind: DataType)
    ensures ElementSize(kind) in {0, 2, 4, 8}
    ensures ElementSize(kind) == 8 <==> kind == Float(64)
    ensures ElementSize(kind) == 4 <==> kind == Float(32) || kind == Integer(true, 32) || kind == Integer(false, 32)
    ensures ElementSize(kind) == 2 <==> kind == Integer(true, 16) || kind == Integer(false, 16)
  {
  }

  /** Nothing comes of a message without values, data, reader or enough bytes; one without channel entries ends
      in an exception. */
  lemma NotDecoded(codec: Codec, d: DaqData)
    requires Decodable(d)
    ensures DecodeSpec(codec, d) == Some(Decoded([], 0, [])) <==>
            d.stride * d.count == 0 || d.data == [] || ElementSize(d.kind) == 0 ||
            |d.data| < d.stride * d.count * ElementSize(d.kind)
    ensures DecodeSpec(codec, d) == None <==> HasValues(d) && d.channels == []
  {
    hide ElementSize, Columns, InBounds;
  }

  /** Main result: in every other message the sample of channel position `i` at time `s` is the element that
      stands there in the data, read, times the channel's gain plus its offset. */
  lemma DecodedAt(codec: Codec, d: DaqData, s: nat, i: nat)
    requires Decodable(d) && HasValues(d) && s < d.count && i < |d.channels|
    ensures DecodeSpec(codec, d).Some?
    ensures var r := DecodeSpec(codec, d).value;
            && r.channels == |d.channels| && |r.samples| == d.count * |d.channels|
            && |r.probes| == |d.channels| && r.probes[i] == d.channels[i].probe
    ensures var r, size := DecodeSpec(codec, d).value, ElementSize(d.kind);
            var from, to := (s * d.stride + i) * size, s * |d.channels| + i;
            && 0 <= to < |r.samples| && 0 <= from <= from + size <= |d.data|
            && exists y {:trigger Store(codec, y)} ::
                 && r.samples[to] == Store(codec, y)
                 && y == Read(codec, d.kind, d.data[from..from + size]) * d.channels[i].gain + d.channels[i].offset
  {
    hide ElementSize, Columns, HasValues, InBounds, Value, Element, Convert, Scaled, Store, Read;
    ValuesInBounds(d);
    ColumnsAt(codec, d, d.count, s, i);
    ValueMeans(codec, d, s, i);
  }

  lemma ValueMeans(codec: Codec, d: DaqData, s: nat, i: nat)
    requires InBounds(d) && s < d.count && i < |d.channels|
    ensures var size := ElementSize(d.kind);
            var from := (s * d.stride + i) * size;
            && 0 <= from <= from + size <= |d.data|
            && exists y {:trigger Store(codec, y)} ::
                 && Value(codec, d, s, i) == Store(codec, y)
                 && y == Read(codec, d.kind, d.data[from..from + size]) * d.channels[i].gain + d.channels[i].offset
  {
    hide ElementSize, Element, Scaled, Store, Read, InBounds;
    ElementInData(d, s, i);
    var x := Read(codec, d.kind, Element(d, s, i));
    var y := Scaled(x, d.channels[i].gain, d.channels[i].offset);
    ScaledMeans(x, d.channels[i].gain, d.channels[i].offset);
    assert Value(codec, d, s, i) == Store(codec, y);
  }

  /** Gain first, then offset. */
  lemma ScaledMeans(x: real, gain: real, offset: real)
    ensures Scaled(x, gain, offset) == x * gain + offset
  {
  }

  lemma ValuesInBounds(d: DaqData)
    requires Decodable(d) && HasValues(d)
    ensures InBounds(d)
  {
  }

  lemma ElementInData(d: DaqData, s: nat, i: nat)
    requires InBounds(d) && s < d.count && i < |d.channels|
    ensures var size := ElementSize(d.kind);
            var from := (s * d.stride + i) * size;
            0 <= from <= from + size <= |d.data| && Element(d, s, i) == d.data[from..from + size]
  {
    hide ElementSize;
    ElementInRange(d.count, d.stride, |d.channels|, ElementSize(d.kind), s, i);
  }

  /** `decode_daq_data`: gathers the channel entries, then converts in place column by column. */
  method DecodeDaqData(codec: Codec, d: DaqData) returns (r: Option<Decoded>)
    requires Decodable(d)
    ensures r == DecodeSpec(codec, d)
  {
    hide Columns, Column, Convert, Element, SampleCount, Fits, ElementSize;
    var size := ElementSize(d.kind);
    if d.stride * d.count == 0 || d.data == [] || size == 0 || |d.data| < d.stride * d.count * size {
      return Some(Decoded([], 0, []));
    }
    var n := |d.channels|;
    if n == 0 {
      return None;
    }
    var gains, offsets, probes := GatherChannels(d.channels);
    var samples := ConvertAll(codec, d, gains, offsets);
    r := Some(Decoded(samples, n, probes));
  }

  method GatherChannels(channels: seq<AdcChannel>)
    returns (gains: seq<real>, offsets: seq<real>, probes: seq<uint32>)
    ensures |gains| == |offsets| == |channels| && probes == Probes(channels)
    ensures forall i :: 0 <= i < |channels| ==> gains[i] == channels[i].gain && offsets[i] == channels[i].offset
  {
    gains, offsets, probes := [], [], [];
    for k := 0 to |channels|
      invariant |gains| == |offsets| == |probes| == k
      invariant forall i :: 0 <= i < k ==> gains[i] == channels[i].gain && offsets[i] == channels[i].offset
      invariant forall i :: 0 <= i < k ==> probes[i] == channels[i].probe
    {
      gains := gains + [channels[k].gain];
      offsets := offsets + [channels[k].offset];
      probes := probes + [channels[k].probe];
    }
  }

  method ConvertAll(codec: Codec, d: DaqData, gains: seq<real>, offsets: seq<real>) returns (samples: seq<Cell>)
    requires InBounds(d) && 0 < |d.channels|
    requires |gains| == |offsets| == |d.channels|
    requires forall i :: 0 <= i < |gains| ==> gains[i] == d.channels[i].gain && offsets[i] == d.channels[i].offset
    ensures samples == Columns(codec, d, d.count)
  {
    hide Column, Convert, Element, InBounds, Value;
    var n := |d.channels|;
    var decoded := new Cell[n * d.count];
    for sample := 0 to d.count
      invariant sample * n <= decoded.Length && decoded[..sample * n] == Columns(codec, d, sample)
    {
      IndexBelow(n - 1, sample, n, d.count);
      ConvertColumn(codec, d, gains, offsets, decoded, sample, sample * n);
      assert (sample + 1) * n == sample * n + n;
    }
    samples := decoded[..];
    assert samples == decoded[..d.count * n];
  }

  /** The inner loop: column `sample`, written from index `base` on. */
  method ConvertColumn(codec: Codec, d: DaqData, gains: seq<real>, offsets: seq<real>, decoded: array<Cell>,
                       sample: nat, base: nat)
    requires InBounds(d) && 0 < |d.channels|
    requires |gains| == |offsets| == |d.channels|
    requires forall i :: 0 <= i < |gains| ==> gains[i] == d.channels[i].gain && offsets[i] == d.channels[i].offset
    requires sample < d.count && base + |d.channels| <= decoded.Length
    modifies decoded
    ensures decoded[..base + |d.channels|] == old(decoded[..base]) + Column(codec, d, sample, |d.channels|)
  {
    hide Column, InBounds, Convert, Element, Value;
    var n, size := |d.channels|, ElementSize(d.kind);
    for ch := 0 to n
      invariant decoded[..base + ch] == old(decoded[..base]) + Column(codec, d, sample, ch)
    {
      var at := (sample * d.stride + ch) * size;
      ColumnStep(codec, d, sample, ch, at);
      decoded[base + ch] := Convert(codec, d.kind, gains[ch], offsets[ch], d.data[at..at + size]);
      assert decoded[..base + ch + 1] == decoded[..base + ch] + [decoded[base + ch]];
    }
  }

  lemma ColumnStep(codec: Codec, d: DaqData, s: nat, ch: nat, at: int)
    requires InBounds(d) && s < d.count && ch < |d.channels|
    requires at == (s * d.stride + ch) * ElementSize(d.kind)
    ensures 0 <= at <= at + ElementSize(d.kind) <= |d.data|
    ensures Column(codec, d, s, ch + 1)
         == Column(codec, d, s, ch)
          + [Convert(codec, d.kind, d.channels[ch].gain, d.channels[ch].offset, d.data[at..at + ElementSize(d.kind)])]
  {
    hide Convert;
    ElementInRange(d.count, d.stride, |d.channels|, ElementSize(d.kind), s, ch);
  }

  // ---------------------------------------------------------------- messages

  datatype Message =
    | RunData(path: Option<seq<byte>>, data: Option<DaqData>, chunk: Option<uint32>)
    | RunDataEnd(path: Option<seq<byte>>, data: Option<DaqData>, chunk: Option<uint32>)
    | OtherMessage

  predicate Sampled(m: Message) {
    !m.OtherMessage? && m.path.Some? && m.data.Some?
  }

  predicate Acceptable(m: Message) {
    Sampled(m) ==> Decodable(m.data.value) && |m.path.value| < WORD32
  }

  /** What is put into the blob for a sampled message; None is the decoder's exception. */
  function ContentOf(codec: Codec, m: Message): (c: Option<Content>)
    requires Sampled(m) && Acceptable(m)
    ensures c.Some? ==> Fits(c.value)
  {
    var d := DecodeSpec(codec, m.data.value);
    if d.None? then None
    else
      var kind := if m.RunData? then SAMPLE_TYPE_OP else SAMPLE_TYPE_OP_END;
      var chunk := if m.chunk.Some? then m.chunk.value else 0;
      Some(Content(m.path.value, d.value.samples, d.value.channels, kind, chunk, d.value.probes))
  }

  /** Operation samples are marked 0, final values 1; a message without a run counts as chunk 0. */
  lemma BlobContent(codec: Codec, m: Message)
    requires Sampled(m) && Acceptable(m) && ContentOf(codec, m).Some?
    ensures var c, d := ContentOf(codec, m).value, DecodeSpec(codec, m.data.value).value;
            && c.path == m.path.value && c.samples == d.samples && c.channels == d.channels && c.probes == d.probes
            && (m.RunData? ==> c.kind == 0) && (m.RunDataEnd? ==> c.kind == 1)
            && (m.chunk.Some? ==> c.chunk == m.chunk.value) && (m.chunk.None? ==> c.chunk == 0)
  {
    hide DecodeSpec;
  }

  /** What a message adds to the queue. */
  function Queued(codec: Codec, m: Message, slotSize: nat): (items: seq<seq<byte>>)
    requires Acceptable(m)
  {
    if !Sampled(m) || ContentOf(codec, m).None? then []
    else
      var blob := Blob(ContentOf(codec, m).value);
      if |blob| <= slotSize then [blob] else []
  }

  /** `handle_data_message`; `ok` is false when the original leaves by an exception. */
  method HandleDataMessage(codec: Codec, m: Message, out: LockFreeBuffer) returns (ok: bool)
    requires Acceptable(m) && out.Valid()
    modifies out
    ensures out.Valid() && out.queue == old(out.queue) + Queued(codec, m, out.slotSize)
    ensures ok <==> Sampled(m) ==> Queued(codec, m, out.slotSize) != []
  {
    ok := true;
    if m.OtherMessage? || m.path.None? || m.data.None? {
      return;
    }
    var d := DecodeDaqData(codec, m.data.value);
    if d.None? {
      return false;
    }
    var chunk := if m.chunk.Some? then m.chunk.value else 0;
    var kind := if m.RunData? then SAMPLE_TYPE_OP else SAMPLE_TYPE_OP_END;
    var blob := Build(Content(m.path.value, d.value.samples, d.value.channels, kind, chunk, d.value.probes));
    ok := out.TryPut(blob[..]);
  }
}
