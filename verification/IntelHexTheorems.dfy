/**
 What the firmware loader promises: a well-formed file yields exactly the image its records denote,
 and damage to any one byte of a record outside its length field yields nothing.
 */
module IntelHexTheorems {
  import opened Common
  import opened IntelHex

  // ---------------------------------------------------------------- well-formed text

  /** A record as it stands in a file: preceding whitespace, its hex digits, the bytes they spell. */
  datatype Line = Line(space: seq<byte>, digits: seq<byte>, rec: seq<byte>)

  ghost predicate Spells(digits: seq<byte>, rec: seq<byte>) {
    |digits| == 2 * |rec| && forall k :: 0 <= k < |rec| ==> ReadByte(digits, 2 * k) == Some(rec[k])
  }

  /** Digits of either case, any whitespace before the colon, a correct length and checksum. */
  ghost predicate WellSpelled(l: Line) {
    && (forall i :: 0 <= i < |l.space| ==> IsSpace(l.space[i]))
    && |l.rec| >= 5 && |l.rec| == l.rec[0] as int + 5
    && Spells(l.digits, l.rec) && Sum(l.rec) % 256 == 0
  }

  function Text(l: Line): seq<byte> {
    l.space + [COLON] + l.digits
  }

  function Texts(ls: seq<Line>): seq<byte> {
    if ls == [] then [] else Text(ls[0]) + Texts(ls[1..])
  }

  // ---------------------------------------------------------------- what records denote

  function Payload(rec: seq<byte>): seq<byte>
    requires |rec| >= 5
  {
    rec[4..|rec| - 1]
  }

  /** Bytes that a data record puts at an offset of the image. */
  datatype Write = Write(offset: nat, bytes: seq<byte>)

  predicate Covers(w: Write, i: int) {
    w.offset <= i < w.offset + |w.bytes|
  }

  /** The last write to cell `i`, if any. */
  function ByteAt(ws: seq<Write>, i: nat): Option<byte> {
    if ws == [] then None
    else if ByteAt(ws[1..], i).Some? then ByteAt(ws[1..], i)
    else if Covers(ws[0], i) then Some(ws[0].bytes[i - ws[0].offset])
    else None
  }

  /** One past the highest cell any write reaches. */
  function Extent(ws: seq<Write>): nat {
    if ws == [] then 0
    else
      var e := ws[0].offset + |ws[0].bytes|;
      if e > Extent(ws[1..]) then e else Extent(ws[1..])
  }

  /** The image: last write wins, gaps are zero. */
  ghost predicate ImageOf(image: seq<byte>, ws: seq<Write>) {
    && |image| == Extent(ws)
    && forall i :: 0 <= i < |image| ==>
         image[i] == if ByteAt(ws, i).Some? then ByteAt(ws, i).value else 0
  }

  /** Correctly written records of any type but end-of-file. */
  ghost predicate Records(ls: seq<Line>) {
    forall k :: 0 <= k < |ls| ==> WellSpelled(ls[k]) && ls[k].rec[3] != KIND_EOF
  }

  /** The record buffer once a record has been read: its data in front of what earlier records left. */
  function After(buffer: seq<byte>, rec: seq<byte>): (r: seq<byte>)
    requires |buffer| == BUFFER_SIZE && |rec| >= 5 && |rec| == rec[0] as int + 5
    ensures |r| == BUFFER_SIZE
  {
    Payload(rec) + buffer[|Payload(rec)|..]
  }

  /** The address base an extended linear address record sets. */
  function NewBase(buffer: seq<byte>, rec: seq<byte>): nat
    requires |buffer| == BUFFER_SIZE && |rec| >= 5 && |rec| == rec[0] as int + 5
  {
    Word16(After(buffer, rec)[0], After(buffer, rec)[1]) * 65536
  }

  /** As the format has it, the base comes from the record's two data bytes; a shorter record is completed from
      earlier records. */
  lemma NewBaseBytes(buffer: seq<byte>, rec: seq<byte>)
    requires |buffer| == BUFFER_SIZE && |rec| >= 5 && |rec| == rec[0] as int + 5
    ensures |Payload(rec)| >= 2 ==> NewBase(buffer, rec) == Word16(Payload(rec)[0], Payload(rec)[1]) * 65536
    ensures |Payload(rec)| == 1 ==> NewBase(buffer, rec) == Word16(Payload(rec)[0], buffer[1]) * 65536
    ensures |Payload(rec)| == 0 ==> NewBase(buffer, rec) == Word16(buffer[0], buffer[1]) * 65536
  {
  }

  /** So an address record without data after an entry point record takes the entry point's upper half. */
  lemma StaleAddress(buffer: seq<byte>, start: seq<byte>, addr: seq<byte>)
    requires |buffer| == BUFFER_SIZE && |start| >= 7 && |start| == start[0] as int + 5
    requires |addr| == 5 && addr[0] == 0 && addr[3] == KIND_EXT_LIN_ADDR
    ensures NewBase(After(buffer, start), addr) == Word16(Payload(start)[0], Payload(start)[1]) * 65536
  {
  }

  /** The files the loader accepts, from an address base and buffer on: every data record stands at a base of at
      least the firmware's, and there are no record types besides data and the two linear address types. */
  ghost predicate Loadable(base: nat, buffer: seq<byte>, ls: seq<Line>)
    requires |buffer| == BUFFER_SIZE && Records(ls)
    decreases |ls|
  {
    ls != [] ==>
      var rec, next := ls[0].rec, After(buffer, ls[0].rec);
      if rec[3] == KIND_DATA then base >= FW_BASE_ADDR && Loadable(base, next, ls[1..])
      else if rec[3] == KIND_EXT_LIN_ADDR then Loadable(NewBase(buffer, rec), next, ls[1..])
      else rec[3] == KIND_START_LIN_ADDR && Loadable(base, next, ls[1..])
  }

  /** The data records as writes, rebased. */
  ghost function Writes(base: nat, buffer: seq<byte>, ls: seq<Line>): seq<Write>
    requires |buffer| == BUFFER_SIZE && Records(ls) && Loadable(base, buffer, ls)
    decreases |ls|
  {
    if ls == [] then []
    else
      var rec, next := ls[0].rec, After(buffer, ls[0].rec);
      if rec[3] == KIND_DATA then
        [Write(base + Word16(rec[1], rec[2]) - FW_BASE_ADDR, Payload(rec))] + Writes(base, next, ls[1..])
      else if rec[3] == KIND_EXT_LIN_ADDR then Writes(NewBase(buffer, rec), next, ls[1..])
      else Writes(base, next, ls[1..])
  }

  // ---------------------------------------------------------------- parsing one line

  lemma {:induction false} SkipSpaces(data: seq<byte>, i: nat, n: nat, st: State)
    requires |st.buffer| == BUFFER_SIZE && i + n <= |data|
    requires forall k :: i <= k < i + n ==> IsSpace(data[k])
    ensures Convert(data, i, st) == Convert(data, i + n, st)
    decreases n
  {
    if n > 0 { SkipSpaces(data, i + 1, n - 1, st); }
  }

  lemma {:induction false} ReadSpelled(data: seq<byte>, i: nat, rec: seq<byte>, n: nat)
    requires n <= |rec| && forall k :: 0 <= k < n ==> ReadByte(data, i + 2 * k) == Some(rec[k])
    ensures ReadBytes(data, i, n) == Some(rec[..n])
  {
    hide ReadByte, ReadBytes;
    ReadNone(data, i);
    if n > 0 {
      ReadSpelled(data, i, rec, n - 1);
      ReadBytesSnoc(data, i, n - 1);
      assert rec[..n] == rec[..n - 1] + [rec[n - 1]];
    }
  }

  /** Digits read the same inside a file as on their own. */
  lemma ReadInside(data: seq<byte>, i: nat, digits: seq<byte>, k: nat)
    requires At(data, i, digits) && k + 2 <= |digits|
    ensures ReadByte(data, i + k) == ReadByte(digits, k)
  {
    assert data[i + k] == digits[k];
    assert data[i + (k + 1)] == digits[k + 1];
  }

  ghost predicate At(data: seq<byte>, i: nat, text: seq<byte>) {
    i + |text| <= |data| && forall k :: 0 <= k < |text| ==> data[i + k] == text[k]
  }

  lemma AtParts(data: seq<byte>, i: nat, a: seq<byte>, b: seq<byte>)
    requires At(data, i, a + b)
    ensures At(data, i, a) && At(data, i + |a|, b)
  {
    forall k | 0 <= k < |b| ensures data[i + |a| + k] == b[k] {
      assert data[i + (|a| + k)] == (a + b)[|a| + k];
    }
    forall k | 0 <= k < |a| ensures data[i + k] == a[k] {
      assert data[i + k] == (a + b)[k];
    }
  }

  /** Whitespace and the colon in front of digits. */
  lemma ReachDigits(data: seq<byte>, i: nat, space: seq<byte>, digits: seq<byte>, st: State)
    requires |st.buffer| == BUFFER_SIZE && At(data, i, space + [COLON] + digits)
    requires forall k :: 0 <= k < |space| ==> IsSpace(space[k])
    ensures var c := i + |space|;
            && At(data, c + 1, digits) && data[c] == COLON && c < |data|
            && Convert(data, i, st) == Convert(data, c, st)
  {
    hide Convert;
    AtParts(data, i, space + [COLON], digits);
    AtParts(data, i, space, [COLON]);
    var c := i + |space|;
    assert data[c + 0] == [COLON][0];
    forall k | i <= k < c ensures IsSpace(data[k]) {
      assert data[i + (k - i)] == space[k - i];
    }
    SkipSpaces(data, i, |space|, st);
  }

  lemma ConvertLine(data: seq<byte>, i: nat, l: Line, st: State)
    requires |st.buffer| == BUFFER_SIZE && WellSpelled(l) && At(data, i, Text(l))
    ensures Convert(data, i, st)
         == if l.rec[3] == KIND_EOF then Some(st.image)
            else if Apply(st, l.rec).None? then None
            else Convert(data, i + |Text(l)|, Apply(st, l.rec).value)
  {
    hide Convert, Apply, ReadRecord;
    var c := i + |l.space|;
    assert Convert(data, i, st) == Convert(data, c, st) && data[c] == COLON && At(data, c + 1, l.digits) by {
      ReachDigits(data, i, l.space, l.digits, st);
    }
    assert ReadRecord(data, c + 1) == Some(l.rec) by {
      RecordAt(data, c + 1, l.digits, l.rec);
    }
    ConvertRecord(data, c, l.rec, st);
  }

  lemma RecordAt(data: seq<byte>, start: nat, digits: seq<byte>, rec: seq<byte>)
    requires At(data, start, digits) && Spells(digits, rec) && |rec| >= 5 && |rec| == rec[0] as int + 5
    ensures ReadRecord(data, start) == Some(rec)
  {
    forall k | 0 <= k < |rec| ensures ReadByte(data, start + 2 * k) == Some(rec[k]) {
      ReadInside(data, start, digits, 2 * k);
    }
    ReadSpelled(data, start, rec, |rec|);
    assert rec[..|rec|] == rec;
    assert ReadByte(data, start + 2 * 0) == Some(rec[0]);
  }

  lemma ConvertUnreadable(data: seq<byte>, c: nat, st: State)
    requires |st.buffer| == BUFFER_SIZE && c < |data| && data[c] == COLON && ReadRecord(data, c + 1).None?
    ensures Convert(data, c, st) == None
  {
  }

  /** What the parser does at a colon with a readable record. */
  lemma ConvertRecord(data: seq<byte>, c: nat, rec: seq<byte>, st: State)
    requires |st.buffer| == BUFFER_SIZE && c < |data| && data[c] == COLON
    requires ReadRecord(data, c + 1) == Some(rec)
    ensures Convert(data, c, st)
         == if Sum(rec) % 256 != 0 then None
            else if rec[3] == KIND_EOF then Some(st.image)
            else if Apply(st, rec).None? then None
            else Convert(data, c + 1 + 2 * |rec|, Apply(st, rec).value)
  {
    hide Apply, ReadBytes, ReadByte, Sum;
  }

  // ---------------------------------------------------------------- parsing many lines

  function FoldWrites(image: seq<byte>, ws: seq<Write>): seq<byte>
    decreases |ws|
  {
    if ws == [] then image else FoldWrites(WriteAt(image, ws[0].offset, ws[0].bytes), ws[1..])
  }

  lemma {:induction false} FoldIsImage(image: seq<byte>, ws: seq<Write>)
    ensures var r := FoldWrites(image, ws);
            && |r| == (if Extent(ws) > |image| then Extent(ws) else |image|)
            && forall i :: 0 <= i < |r| ==>
                 r[i] == if ByteAt(ws, i).Some? then ByteAt(ws, i).value else if i < |image| then image[i] else 0
    decreases |ws|
  {
    if ws != [] {
      FoldIsImage(WriteAt(image, ws[0].offset, ws[0].bytes), ws[1..]);
    }
  }

  /** What applying a record does, in terms of what it denotes. */
  lemma ApplyRecord(st: State, rec: seq<byte>)
    requires |st.buffer| == BUFFER_SIZE && |rec| >= 5 && |rec| == rec[0] as int + 5
    ensures Apply(st, rec)
         == if rec[3] == KIND_DATA then
              if st.base < FW_BASE_ADDR then None
              else Some(State(st.base, After(st.buffer, rec),
                              WriteAt(st.image, st.base + Word16(rec[1], rec[2]) - FW_BASE_ADDR, Payload(rec))))
            else if rec[3] == KIND_EXT_LIN_ADDR then
              Some(State(NewBase(st.buffer, rec), After(st.buffer, rec), st.image))
            else if rec[3] == KIND_START_LIN_ADDR then Some(State(st.base, After(st.buffer, rec), st.image))
            else None
  {
    hide WriteAt;
    var count: nat := rec[0];
    assert rec[4..4 + count] == Payload(rec);
    assert (Payload(rec) + st.buffer[count..])[..count] == Payload(rec);
  }

  /** A list of records is refused, or leaves the parser behind it with the writes done: exactly as it is
      loadable or not. */
  lemma {:induction false} ConvertLines(data: seq<byte>, i: nat, ls: seq<Line>, st: State) returns (st': State)
    requires |st.buffer| == BUFFER_SIZE && Records(ls) && At(data, i, Texts(ls))
    ensures |st'.buffer| == BUFFER_SIZE
    ensures !Loadable(st.base, st.buffer, ls) ==> Convert(data, i, st) == None
    ensures Loadable(st.base, st.buffer, ls) ==>
              Convert(data, i, st) == Convert(data, i + |Texts(ls)|, st') &&
              st'.image == FoldWrites(st.image, Writes(st.base, st.buffer, ls))
    decreases |ls|
  {
    hide Convert, Spells, IsSpace, Sum, Text, Apply, After, NewBase, WriteAt;
    st' := st;
    if ls != [] {
      assert WellSpelled(ls[0]) && ls[0].rec[3] != KIND_EOF;
      AtParts(data, i, Text(ls[0]), Texts(ls[1..]));
      ConvertLine(data, i, ls[0], st);
      ApplyRecord(st, ls[0].rec);
      hide WellSpelled, At;
      if Apply(st, ls[0].rec).Some? {
        st' := ConvertLines(data, i + |Text(ls[0])|, ls[1..], Apply(st, ls[0].rec).value);
      }
    }
  }

  /** Main result: a file of correctly written records closed by an end-of-file record, however it is spaced and
      whatever follows the end, is accepted if and only if it is loadable, and then converts to the image its
      records denote. */
  lemma FileLoads(ls: seq<Line>, end: Line, tail: seq<byte>)
    requires Records(ls) && WellSpelled(end) && end.rec[3] == KIND_EOF
    ensures var r := Convert(Texts(ls) + Text(end) + tail, 0, START);
            (r.Some? <==> Loadable(0, START.buffer, ls)) &&
            (r.Some? ==> ImageOf(r.value, Writes(0, START.buffer, ls)))
  {
    hide Texts, Text, Loadable, Writes, Convert, FoldWrites, Apply, Records;
    var data := Texts(ls) + Text(end) + tail;
    assert At(data, 0, Texts(ls));
    assert At(data, |Texts(ls)|, Text(end));
    hide At;
    var st := ConvertLines(data, 0, ls, START);
    ConvertLine(data, |Texts(ls)|, end, st);
    if Loadable(0, START.buffer, ls) {
      FoldIsImage([], Writes(0, START.buffer, ls));
    }
  }

  /** What is refused: data before any address record, or below the firmware's base, and any other type. */
  lemma RefusedFirst(ls: seq<Line>, end: Line, tail: seq<byte>)
    requires Records(ls) && ls != [] && WellSpelled(end) && end.rec[3] == KIND_EOF
    requires ls[0].rec[3] != KIND_EXT_LIN_ADDR && ls[0].rec[3] != KIND_START_LIN_ADDR
    ensures Binary(Texts(ls) + Text(end) + tail) == []
  {
    hide Convert, Texts, Text, Records;
    FileLoads(ls, end, tail);
  }

  // ---------------------------------------------------------------- damage

  lemma {:induction false} SumUpdate(bs: seq<byte>, k: nat, b: byte)
    requires k < |bs|
    ensures Sum(bs[k := b]) + bs[k] == Sum(bs) + b
  {
    if k == 0 {
      assert bs[0 := b][1..] == bs[1..];
    } else {
      assert bs[k := b][1..] == bs[1..][k - 1 := b];
      SumUpdate(bs[1..], k - 1, b);
    }
  }

  /** Reading where every byte but the `k`-th is as in `rec`. */
  lemma {:induction false} ReadDamaged(data: seq<byte>, i: nat, rec: seq<byte>, k: nat, n: nat)
    requires k < n <= |rec|
    requires forall m :: 0 <= m < n && m != k ==> ReadByte(data, i + 2 * m) == Some(rec[m])
    ensures ReadBytes(data, i, n)
         == if ReadByte(data, i + 2 * k).None? then None else Some(rec[..n][k := ReadByte(data, i + 2 * k).value])
  {
    hide ReadByte, ReadBytes;
    var b := ReadByte(data, i + 2 * k);
    ReadBytesSnoc(data, i, n - 1);
    if k == n - 1 {
      ReadSpelled(data, i, rec, n - 1);
      if b.Some? { assert rec[..n][k := b.value] == rec[..n - 1] + [b.value]; }
    } else {
      ReadDamaged(data, i, rec, k, n - 1);
      if b.Some? { assert rec[..n][k := b.value] == rec[..n - 1][k := b.value] + [rec[n - 1]]; }
    }
  }

  /** A record whose `k`-th byte no longer spells what it did is never accepted. */
  lemma DamagedLineRejected(data: seq<byte>, i: nat, l: Line, digits: seq<byte>, k: nat, st: State)
    requires |st.buffer| == BUFFER_SIZE && WellSpelled(l) && At(data, i, l.space + [COLON] + digits)
    requires 0 < k < |l.rec| && |digits| == |l.digits|
    requires forall m :: 0 <= m < |l.rec| && m != k ==> ReadByte(digits, 2 * m) == Some(l.rec[m])
    requires ReadByte(digits, 2 * k) != Some(l.rec[k])
    ensures Convert(data, i, st) == None
  {
    hide Convert, Apply, ReadRecord, Sum;
    ReachDigits(data, i, l.space, digits, st);
    var c := i + |l.space|;
    DamagedRecord(data, c + 1, digits, l.rec, k);
    if ReadRecord(data, c + 1).Some? {
      ConvertRecord(data, c, ReadRecord(data, c + 1).value, st);
    } else {
      ConvertUnreadable(data, c, st);
    }
  }

  lemma DamagedRecord(data: seq<byte>, start: nat, digits: seq<byte>, rec: seq<byte>, k: nat)
    requires At(data, start, digits) && |digits| == 2 * |rec| && |rec| >= 5 && |rec| == rec[0] as int + 5
    requires 0 < k < |rec| && Sum(rec) % 256 == 0
    requires forall m :: 0 <= m < |rec| && m != k ==> ReadByte(digits, 2 * m) == Some(rec[m])
    requires ReadByte(digits, 2 * k) != Some(rec[k])
    ensures var r := ReadRecord(data, start); r.Some? ==> Sum(r.value) % 256 != 0
  {
    hide ReadBytes, ReadByte, Sum;
    forall m | 0 <= m < |rec| ensures ReadByte(data, start + 2 * m) == ReadByte(digits, 2 * m) {
      ReadInside(data, start, digits, 2 * m);
    }
    ReadDamaged(data, start, rec, k, |rec|);
    assert rec[..|rec|] == rec;
    assert ReadByte(data, start + 2 * 0) == Some(rec[0]);
    var b := ReadByte(data, start + 2 * k);
    if b.Some? {
      SumUpdate(rec, k, b.value);
      ByteBelowSum(rec, k);
      NotAMultiple(Sum(rec), rec[k], b.value);
    }
  }

  lemma NotAMultiple(sum: nat, was: byte, now: byte)
    requires sum % 256 == 0 && was <= sum && was != now
    ensures (sum - was + now) % 256 != 0
  {
  }

  lemma {:induction false} ByteBelowSum(bs: seq<byte>, k: nat)
    requires k < |bs|
    ensures bs[k] <= Sum(bs)
  {
    if k > 0 { ByteBelowSum(bs[1..], k - 1); }
  }

  /** Main result: changing the value of any one hex digit outside the length field of any record up to
      and including the end-of-file record, whether to another digit or to no digit at all, makes the
      whole file yield the empty result. */
  lemma OneDigitDamageDetected(ls: seq<Line>, l: Line, tail: seq<byte>, d: nat, c: byte)
    requires Records(ls)
    requires WellSpelled(l) && 2 <= d < |l.digits|
    requires DecodeNibble(c) != DecodeNibble(l.digits[d])
    ensures var data := Texts(ls) + Text(l) + tail;
            var j := |Texts(ls)| + |l.space| + 1 + d;
            data[j] == l.digits[d] && Binary(data[j := c]) == []
  {
    hide Convert, Loadable, DecodeNibble, ReadByte, Records, Texts, WellSpelled;
    var digits := l.digits[d := c];
    DamagedText(Texts(ls), l, tail, d, c);
    DamagedDigits(l, d, c);
    var damaged := Texts(ls) + (l.space + [COLON] + digits) + tail;
    var st := ConvertLines(damaged, 0, ls, START);
    DamagedLineRejected(damaged, |Texts(ls)|, l, digits, d / 2, st);
    hide *;
  }

  lemma DamagedText(before: seq<byte>, l: Line, tail: seq<byte>, d: nat, c: byte)
    requires WellSpelled(l) && d < |l.digits|
    ensures var data := before + Text(l) + tail;
            var j := |before| + |l.space| + 1 + d;
            var text := l.space + [COLON] + l.digits[d := c];
            data[j] == l.digits[d] && data[j := c] == before + text + tail &&
            At(data[j := c], 0, before) && At(data[j := c], |before|, text) && d / 2 < |l.rec|
  {
  }

  /** Changing the value of one digit changes exactly the byte it belongs to. */
  lemma DamagedDigits(l: Line, d: nat, c: byte)
    requires WellSpelled(l) && d < |l.digits| && DecodeNibble(c) != DecodeNibble(l.digits[d])
    ensures var digits := l.digits[d := c];
            && (forall m :: 0 <= m < |l.rec| && m != d / 2 ==> ReadByte(digits, 2 * m) == Some(l.rec[m]))
            && ReadByte(digits, 2 * (d / 2)) != Some(l.rec[d / 2])
  {
    hide ReadByte, DecodeNibble;
    var digits := l.digits[d := c];
    assert Spells(l.digits, l.rec);
    forall m | 0 <= m < |l.rec| && m != d / 2 ensures ReadByte(digits, 2 * m) == Some(l.rec[m]) {
      assert ReadByte(l.digits, 2 * m) == Some(l.rec[m]);
      ReadElsewhere(l.digits, d, c, 2 * m);
    }
    assert ReadByte(l.digits, 2 * (d / 2)) == Some(l.rec[d / 2]);
    ReadChanged(l.digits, d, c);
  }

  lemma ReadElsewhere(digits: seq<byte>, d: nat, c: byte, k: nat)
    requires d < |digits| && d != k && d != k + 1
    ensures ReadByte(digits[d := c], k) == ReadByte(digits, k)
  {
    hide DecodeNibble;
  }

  lemma ReadChanged(digits: seq<byte>, d: nat, c: byte)
    requires d < |digits| && ReadByte(digits, 2 * (d / 2)).Some? && DecodeNibble(c) != DecodeNibble(digits[d])
    ensures ReadByte(digits[d := c], 2 * (d / 2)) != ReadByte(digits, 2 * (d / 2))
  {
    hide DecodeNibble;
  }
}
