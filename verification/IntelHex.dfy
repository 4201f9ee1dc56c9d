/**
 The Intel HEX firmware loader of util/updater.py.

 `Convert` is the parser on values; `Hex2Bin` is the original's loop over an index, a 256-byte record
 buffer that is never cleared, and a growing image.
 */
module IntelHex {
  import opened Common

  const KIND_DATA := 0x00
  const KIND_EOF := 0x01
  const KIND_EXT_LIN_ADDR := 0x04
  const KIND_START_LIN_ADDR := 0x05
  const FW_BASE_ADDR := 0x6000_0000
  const COLON: byte := 0x3A
  const BUFFER_SIZE := 256

  predicate IsSpace(b: byte) {
    b == 0x20 || 0x09 <= b <= 0x0D
  }

  /** `_decode_nibble`; None stands for the ValueError. */
  function DecodeNibble(b: byte): (n: Option<nat>)
    ensures n.Some? ==> n.value < 16
  {
    if 0x30 <= b <= 0x39 then Some(b - 0x30)
    else if 0x41 <= b <= 0x46 then Some(b - 0x41 + 10)
    else if 0x61 <= b <= 0x66 then Some(b - 0x61 + 10)
    else None
  }

  // ---------------------------------------------------------------- reading

  /** `decode_8`; None stands for the IndexError or ValueError. */
  function ReadByte(data: seq<byte>, i: nat): Option<byte> {
    if i + 2 > |data| || DecodeNibble(data[i]).None? || DecodeNibble(data[i + 1]).None? then None
    else Some(DecodeNibble(data[i]).value * 16 + DecodeNibble(data[i + 1]).value)
  }

  /** `n` consecutive `decode_8`s. */
  function ReadBytes(data: seq<byte>, i: nat, n: nat): (r: Option<seq<byte>>)
    ensures r.Some? ==> |r.value| == n && i + 2 * n <= |data| + (if n == 0 then i else 0)
    decreases n
  {
    if n == 0 then Some([])
    else
      match ReadByte(data, i)
      case None => None
      case Some(b) =>
        match ReadBytes(data, i + 2, n - 1)
        case None => None
        case Some(bs) => Some([b] + bs)
  }

  function Sum(bs: seq<byte>): nat {
    if bs == [] then 0 else bs[0] + Sum(bs[1..])
  }

  /** All bytes of the record whose length field is at `i`: length, address, kind, data, checksum. */
  function ReadRecord(data: seq<byte>, i: nat): (r: Option<seq<byte>>)
    ensures r.Some? ==> |r.value| >= 5 && |r.value| == r.value[0] as int + 5 && i + 2 * |r.value| <= |data|
  {
    match ReadByte(data, i)
    case None => None
    case Some(count) => ReadBytes(data, i, count as int + 5)
  }

  // ---------------------------------------------------------------- loading

  /** Loader state between records; `buffer` still holds bytes of earlier records. */
  datatype State = State(base: nat, buffer: seq<byte>, image: seq<byte>)

  const START := State(0, Zeros(BUFFER_SIZE), [])

  /** `result.extend(zeros)` and slice assignment. */
  function WriteAt(image: seq<byte>, offset: nat, bytes: seq<byte>): (r: seq<byte>)
    ensures |r| == if offset + |bytes| > |image| then offset + |bytes| else |image|
    ensures forall i :: 0 <= i < |r| ==>
              r[i] == if offset <= i < offset + |bytes| then bytes[i - offset] else if i < |image| then image[i] else 0
  {
    var end := offset + |bytes|;
    var grown := if end > |image| then image + Zeros(end - |image|) else image;
    grown[..offset] + bytes + grown[end..]
  }

  /** A big-endian 16-bit field. */
  function Word16(hi: byte, lo: byte): nat {
    hi as int * 256 + lo as int
  }

  /** One record applied; None stands for the empty result. `rec` is laid out as `ReadRecord` gives it. */
  function Apply(st: State, rec: seq<byte>): Option<State>
    requires |st.buffer| == BUFFER_SIZE && |rec| >= 5 && |rec| == rec[0] as int + 5
  {
    var count: nat, addr, kind := rec[0], Word16(rec[1], rec[2]), rec[3];
    var buffer := rec[4..4 + count] + st.buffer[count..];
    if kind == KIND_EXT_LIN_ADDR then Some(State(Word16(buffer[0], buffer[1]) * 65536, buffer, st.image))
    else if kind == KIND_DATA then
      if st.base < FW_BASE_ADDR then None
      else Some(State(st.base, buffer, WriteAt(st.image, st.base + addr - FW_BASE_ADDR, buffer[..count])))
    else if kind == KIND_START_LIN_ADDR then Some(State(st.base, buffer, st.image))
    else None
  }

  /** The parser from index `i` on. */
  function Convert(data: seq<byte>, i: nat, st: State): Option<seq<byte>>
    requires |st.buffer| == BUFFER_SIZE
    decreases |data| - i
  {
    if i >= |data| then None
    else if IsSpace(data[i]) then Convert(data, i + 1, st)
    else if data[i] != COLON then None
    else
      match ReadRecord(data, i + 1)
      case None => None
      case Some(rec) =>
        if Sum(rec) % 256 != 0 then None
        else if rec[3] == KIND_EOF then Some(st.image)
        else
          match Apply(st, rec)
          case None => None
          case Some(st') => Convert(data, i + 1 + 2 * |rec|, st')
  }

  /** `hex2bin` as a function: every failure is the empty image. */
  function Binary(data: seq<byte>): seq<byte> {
    var r := Convert(data, 0, START);
    if r.Some? then r.value else []
  }

  // ---------------------------------------------------------------- the loop

  lemma {:induction false} ReadBytesSnoc(data: seq<byte>, i: nat, n: nat)
    ensures ReadBytes(data, i, n + 1)
         == if ReadBytes(data, i, n).None? || ReadByte(data, i + 2 * n).None? then None
            else Some(ReadBytes(data, i, n).value + [ReadByte(data, i + 2 * n).value])
    decreases n
  {
    if n == 0 {
      assert ReadBytes(data, i + 2, 0) == Some([]);
      if ReadByte(data, i).Some? { assert [ReadByte(data, i).value] + [] == [] + [ReadByte(data, i).value]; }
    } else {
      ReadBytesSnoc(data, i + 2, n - 1);
      var a := ReadBytes(data, i + 2, n - 1);
      var b := ReadByte(data, i + 2 * n);
      if ReadByte(data, i).Some? && a.Some? && b.Some? {
        assert [ReadByte(data, i).value] + (a.value + [b.value]) == [ReadByte(data, i).value] + a.value + [b.value];
      }
    }
  }

  /** `hex2bin`. */
  method Hex2Bin(data: seq<byte>) returns (result: seq<byte>)
    ensures result == Binary(data)
  {
    hide Apply, ReadRecord, Sum;
    var buffer := new byte[BUFFER_SIZE](_ => 0);
    var base: nat, idx: nat := 0, 0;
    var image: seq<byte> := [];
    assert buffer[..] == Zeros(BUFFER_SIZE);
    while idx < |data|
      invariant Convert(data, idx, State(base, buffer[..], image)) == Convert(data, 0, START)
      decreases |data| - idx
    {
      var c := data[idx];
      if IsSpace(c) { idx := idx + 1; continue; }
      if c != COLON { return []; }
      ghost var st := State(base, buffer[..], image);
      var ok, rec := FillRecord(data, idx + 1, buffer);
      if !ok { return []; }
      if Sum(rec) % 256 != 0 { return []; }
      if rec[3] == KIND_EOF { return image; }
      ok, base, image := Dispatch(rec, buffer[..], base, image, st);
      if !ok { return []; }
      idx := idx + 1 + 2 * |rec|;
    }
    return [];
  }

  /** The body's branches on the record kind, the record already being in the buffer. */
  method Dispatch(rec: seq<byte>, buffer: seq<byte>, base0: nat, image0: seq<byte>, ghost st: State)
    returns (ok: bool, base: nat, image: seq<byte>)
    requires |rec| >= 5 && |rec| == rec[0] as int + 5 && |st.buffer| == BUFFER_SIZE
    requires buffer == rec[4..4 + rec[0] as int] + st.buffer[rec[0]..] && st.base == base0 && st.image == image0
    ensures ok <==> Apply(st, rec).Some?
    ensures ok ==> Apply(st, rec).value == State(base, buffer, image)
  {
    var count: nat, addr, kind := rec[0], Word16(rec[1], rec[2]), rec[3];
    base, image := base0, image0;
    if kind == KIND_EXT_LIN_ADDR {
      base := Word16(buffer[0], buffer[1]) * 65536;
    } else if kind == KIND_DATA {
      if base < FW_BASE_ADDR { return false, base, image; }
      image := WriteAt(image, base + addr - FW_BASE_ADDR, buffer[..count]);
    } else if kind != KIND_START_LIN_ADDR {
      return false, base, image;
    }
    ok := true;
  }

  /** The body's decoding part: header, data bytes into the shared buffer, checksum. */
  method FillRecord(data: seq<byte>, start: nat, buffer: array<byte>) returns (ok: bool, rec: seq<byte>)
    requires buffer.Length == BUFFER_SIZE
    modifies buffer
    ensures ok <==> ReadRecord(data, start).Some?
    ensures ok ==> rec == ReadRecord(data, start).value
    ensures ok ==> buffer[..] == rec[4..4 + rec[0] as int] + old(buffer[..])[rec[0]..]
  {
    hide ReadBytes, ReadByte;
    ok, rec := ReadHeader(data, start);
    if !ok { PrefixFails(data, start, 4); return; }
    ReadFirst(data, start, 4);
    var count: nat := rec[0];
    ok, rec := FillPayload(data, start, rec, buffer);
    if !ok { PrefixFails(data, start, 4 + count); return; }
    ReadBytesSnoc(data, start, 4 + count);
    var checksum := ReadByte(data, start + 2 * (4 + count));
    if checksum.None? { return false, rec; }
    CloseRecord(rec, count, checksum.value);
    rec := rec + [checksum.value];
  }

  /** Length, address and type. */
  method ReadHeader(data: seq<byte>, start: nat) returns (ok: bool, rec: seq<byte>)
    ensures if ok then ReadBytes(data, start, 4) == Some(rec) else ReadBytes(data, start, 4).None?
  {
    hide ReadBytes, ReadByte;
    ReadNone(data, start);
    rec := [];
    for i := 0 to 4
      invariant ReadBytes(data, start, i) == Some(rec)
    {
      var b := ReadByte(data, start + 2 * i);
      ReadBytesSnoc(data, start, i);
      if b.None? { LongerFails(data, start, i + 1, 4); return false, rec; }
      rec := rec + [b.value];
    }
    ok := true;
  }

  /** The loop that puts the data bytes into the shared buffer. */
  method FillPayload(data: seq<byte>, start: nat, header: seq<byte>, buffer: array<byte>)
    returns (ok: bool, rec: seq<byte>)
    requires buffer.Length == BUFFER_SIZE && |header| == 4 && ReadBytes(data, start, 4) == Some(header)
    modifies buffer
    ensures if ok then ReadBytes(data, start, 4 + header[0] as int) == Some(rec)
            else ReadBytes(data, start, 4 + header[0] as int).None?
    ensures ok ==> |rec| == 4 + header[0] as int && rec[0] == header[0]
    ensures ok ==> buffer[..] == rec[4..] + old(buffer[..])[header[0]..]
  {
    hide ReadBytes, ReadByte;
    rec := header;
    ghost var was := buffer[..];
    assert rec[4..] == [] && was[0..] == was;
    for i := 0 to header[0]
      invariant |rec| == 4 + i && rec[0] == header[0]
      invariant ReadBytes(data, start, 4 + i) == Some(rec) && buffer[..] == rec[4..] + was[i..]
    {
      var b := ReadByte(data, start + 2 * (4 + i));
      ReadBytesSnoc(data, start, 4 + i);
      if b.None? { LongerFails(data, start, 4 + i + 1, 4 + header[0] as int); return false, rec; }
      PutNext(buffer[..], rec, was, b.value);
      ghost var before := buffer[..];
      buffer[i] := b.value;
      assert buffer[..] == before[i := b.value];
      rec := rec + [b.value];
    }
    ok := true;
  }

  lemma CloseRecord(body: seq<byte>, count: nat, checksum: byte)
    requires |body| == 4 + count
    ensures (body + [checksum])[4..4 + count] == body[4..]
  {
  }

  lemma ReadNone(data: seq<byte>, i: nat)
    ensures ReadBytes(data, i, 0) == Some([])
  {
  }

  /** The next byte of a record, put behind those already in the buffer. */
  lemma PutNext(buffer: seq<byte>, rec: seq<byte>, was: seq<byte>, b: byte)
    requires |rec| >= 4 && |rec| - 4 < |was| && buffer == rec[4..] + was[|rec| - 4..]
    ensures |buffer| == |was| && buffer[|rec| - 4 := b] == (rec + [b])[4..] + was[|rec| - 3..]
  {
  }

  lemma ReadFirst(data: seq<byte>, i: nat, n: nat)
    requires n > 0 && ReadBytes(data, i, n).Some?
    ensures ReadByte(data, i) == Some(ReadBytes(data, i, n).value[0])
  {
  }

  /** A record fails to read if one of its prefixes fails to read. */
  lemma PrefixFails(data: seq<byte>, i: nat, n: nat)
    requires 0 < n && ReadBytes(data, i, n).None?
    requires n > 5 ==> ReadByte(data, i).Some? && n <= ReadByte(data, i).value as int + 5
    ensures ReadRecord(data, i).None?
  {
    if ReadByte(data, i).Some? {
      LongerFails(data, i, n, ReadByte(data, i).value as int + 5);
    }
  }

  lemma {:induction false} LongerFails(data: seq<byte>, i: nat, n: nat, m: nat)
    requires n <= m && ReadBytes(data, i, n).None?
    ensures ReadBytes(data, i, m).None?
    decreases n
  {
    if ReadByte(data, i).Some? && n > 0 {
      LongerFails(data, i + 2, n - 1, m - 1);
    }
  }
}
