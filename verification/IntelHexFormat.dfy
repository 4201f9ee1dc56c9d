/**
 The format in absolute terms: what digits spell, what records look like byte by byte, and which image a written
 file comes back as (Intel's Hexadecimal Object File Format Specification; util/updater.py).
 */
module IntelHexFormat {
  import opened Common
  import opened IntelHex
  import opened IntelHexTheorems

  // ---------------------------------------------------------------- digits

  /** The sixteen digits in either case, and nothing else. */
  lemma NibbleSpelled(b: byte, n: nat)
    ensures DecodeNibble(b) == Some(n) <==>
            (n < 10 && b as int == 48 + n) || (10 <= n < 16 && (b as int == 55 + n || b as int == 87 + n))
  {
  }

  /** Space, and tab to carriage return. */
  lemma SpacesSkipped(b: byte)
    ensures IsSpace(b) <==> b in {9, 10, 11, 12, 13, 32}
  {
  }

  /** The upper-case digit of a nibble. */
  function Digit(n: nat): byte
    requires n < 16
  {
    if n < 10 then 48 + n else 55 + n
  }

  /** A byte is its high digit and then its low one. */
  function Digits(rec: seq<byte>): (d: seq<byte>)
    ensures |d| == 2 * |rec|
    ensures forall k :: 0 <= k < |rec| ==>
              d[2 * k] == Digit(rec[k] as int / 16) && d[2 * k + 1] == Digit(rec[k] as int % 16)
  {
    if rec == [] then []
    else Digits(rec[..|rec| - 1]) + [Digit(rec[|rec| - 1] as int / 16), Digit(rec[|rec| - 1] as int % 16)]
  }

  lemma PairSpelled(digits: seq<byte>, i: nat, b: byte)
    requires i + 2 <= |digits| && digits[i] == Digit(b as int / 16) && digits[i + 1] == Digit(b as int % 16)
    ensures ReadByte(digits, i) == Some(b)
  {
    NibbleSpelled(digits[i], b as int / 16);
    NibbleSpelled(digits[i + 1], b as int % 16);
  }

  lemma DigitsSpell(rec: seq<byte>)
    ensures Spells(Digits(rec), rec)
  {
    hide ReadByte, Digits;
    forall k | 0 <= k < |rec| ensures ReadByte(Digits(rec), 2 * k) == Some(rec[k]) {
      PairSpelled(Digits(rec), 2 * k, rec[k]);
    }
  }

  // ---------------------------------------------------------------- records

  /** A record: length, address high byte first, type, data, and the byte that makes the sum a multiple of 256. */
  function Record(addr: nat, kind: byte, bytes: seq<byte>): (rec: seq<byte>)
    requires addr < 65536 && |bytes| < 256
    ensures |rec| == |bytes| + 5 && rec[0] as int == |bytes|
    ensures rec[1] as int == addr / 256 && rec[2] as int == addr % 256
    ensures rec[3] == kind && rec[4..|rec| - 1] == bytes
  {
    var body: seq<byte> := [|bytes|, addr / 256, addr % 256, kind] + bytes;
    var checksum: byte := (256 - Sum(body) % 256) % 256;
    body + [checksum]
  }

  lemma {:induction false} SumEnd(bs: seq<byte>, b: byte)
    ensures Sum(bs + [b]) == Sum(bs) + b as int
  {
    if bs != [] {
      SumEnd(bs[1..], b);
      assert (bs + [b])[1..] == bs[1..] + [b];
    } else {
      assert [b][1..] == [];
    }
  }

  lemma RecordSum(addr: nat, kind: byte, bytes: seq<byte>)
    requires addr < 65536 && |bytes| < 256
    ensures Sum(Record(addr, kind, bytes)) % 256 == 0
  {
    hide Sum;
    var body: seq<byte> := [|bytes|, addr / 256, addr % 256, kind] + bytes;
    var checksum: byte := (256 - Sum(body) % 256) % 256;
    SumEnd(body, checksum);
    Complement(Sum(body));
  }

  lemma Complement(n: nat)
    ensures (n + (256 - n % 256) % 256) % 256 == 0
  {
  }

  /** A record on a line of its own. */
  function LineOf(rec: seq<byte>): Line {
    Line([10], Digits(rec), rec)
  }

  lemma LineWellSpelled(addr: nat, kind: byte, bytes: seq<byte>)
    requires addr < 65536 && |bytes| < 256
    ensures WellSpelled(LineOf(Record(addr, kind, bytes)))
  {
    hide Digits, Sum, ReadByte, Record;
    RecordSum(addr, kind, bytes);
    DigitsSpell(Record(addr, kind, bytes));
    SpacesSkipped(10);
  }

  // ---------------------------------------------------------------- a written file

  /** A file that puts some bytes at a 32-bit address: the upper half in a type 4 record, then the data, then the
      end. */
  function FileOf(address: nat, bytes: seq<byte>): seq<byte>
    requires address < 0x1_0000_0000 && |bytes| < 256
  {
    var upper, lower := address / 65536, address % 65536;
    Text(LineOf(Record(0, 4, [upper / 256, upper % 256])))
    + Text(LineOf(Record(lower, 0, bytes)))
    + Text(LineOf(Record(0, 1, [])))
  }

  /** Main result: it comes back as those bytes, behind as many zeros as the address lies above 0x60000000; below
      that base nothing comes back. */
  lemma WrittenFileLoads(address: nat, bytes: seq<byte>)
    requires address < 0x1_0000_0000 && |bytes| < 256
    ensures address >= 0x6000_0000 ==> Binary(FileOf(address, bytes)) == Zeros(address - 0x6000_0000) + bytes
    ensures address < 0x6000_0000 ==> Binary(FileOf(address, bytes)) == []
  {
    hide Convert, Text, Record, Digits, WellSpelled, Texts, Zeros, Records, Loadable, Writes;
    var upper, lower := address / 65536, address % 65536;
    var a, b := LineOf(Record(0, 4, [upper / 256, upper % 256])), LineOf(Record(lower, 0, bytes));
    var end := LineOf(Record(0, 1, []));
    LineWellSpelled(0, 4, [upper / 256, upper % 256]);
    LineWellSpelled(lower, 0, bytes);
    LineWellSpelled(0, 1, []);
    TwoLines(a, b);
    FileLoads([a, b], end, []);
    assert Texts([a, b]) + Text(end) + [] == FileOf(address, bytes);
    TwoRecordsMean(address, bytes, a, b);
  }

  lemma TwoLines(a: Line, b: Line)
    requires WellSpelled(a) && WellSpelled(b) && a.rec[3] != 1 && b.rec[3] != 1
    ensures Records([a, b]) && Texts([a, b]) == Text(a) + Text(b)
  {
    hide WellSpelled, Text;
    assert [a, b][1..] == [b] && [b][1..] == [];
    assert Texts([b]) == Text(b) + Texts([]);
    assert Text(b) + [] == Text(b);
  }

  lemma TwoRecordsMean(address: nat, bytes: seq<byte>, a: Line, b: Line)
    requires address < 0x1_0000_0000 && |bytes| < 256 && Records([a, b])
    requires a.rec == Record(0, 4, [address / 65536 / 256, address / 65536 % 256])
    requires b.rec == Record(address % 65536, 0, bytes)
    ensures Loadable(0, START.buffer, [a, b]) <==> address >= 0x6000_0000
    ensures forall image :: Loadable(0, START.buffer, [a, b]) && ImageOf(image, Writes(0, START.buffer, [a, b])) ==>
              image == Zeros(address - 0x6000_0000) + bytes
  {
    hide Record, Records, Loadable, Writes, NewBase, After;
    var buffer := After(START.buffer, a.rec);
    var base := NewBase(START.buffer, a.rec);
    LastRecord(a, b);
    AddressRecord(0, START.buffer, a, b);
    DataRecord(base, buffer, b);
    NewBaseBytes(START.buffer, a.rec);
    assert base == address / 65536 * 65536;
    if Loadable(base, buffer, [b]) {
      var w := Write(address - 0x6000_0000, bytes);
      forall image | ImageOf(image, [w]) ensures image == Zeros(w.offset) + w.bytes {
        OneWrite(image, w);
      }
    }
  }

  lemma LastRecord(a: Line, b: Line)
    requires Records([a, b])
    ensures Records([b])
  {
    assert [a, b][1] == b;
  }

  /** A type 4 record in front sets the base. */
  lemma AddressRecord(base: nat, buffer: seq<byte>, a: Line, b: Line)
    requires |buffer| == BUFFER_SIZE && Records([a, b]) && Records([b])
    requires |a.rec| >= 5 && |a.rec| == a.rec[0] as int + 5 && a.rec[3] == 4
    ensures var next, buf := NewBase(buffer, a.rec), After(buffer, a.rec);
            && (Loadable(base, buffer, [a, b]) <==> Loadable(next, buf, [b]))
            && (Loadable(next, buf, [b]) ==> Writes(base, buffer, [a, b]) == Writes(next, buf, [b]))
  {
    hide NewBase, After, WellSpelled;
    assert [a, b][1..] == [b] && [a, b][0] == a;
  }

  /** A type 0 record writes at its address, high byte first. */
  lemma DataRecord(base: nat, buffer: seq<byte>, b: Line)
    requires |buffer| == BUFFER_SIZE && Records([b]) && b.rec[3] == 0
    ensures Loadable(base, buffer, [b]) <==> base >= 0x6000_0000
    ensures base >= 0x6000_0000 ==>
              Writes(base, buffer, [b])
              == [Write(base + 256 * b.rec[1] as int + b.rec[2] as int - 0x6000_0000, b.rec[4..|b.rec| - 1])]
  {
    hide NewBase, After, WellSpelled;
    assert [b][1..] == [] && [b][0] == b && WellSpelled(b);
    RecordLength(b);
    assert Loadable(base, After(buffer, b.rec), []);
    assert base >= 0x6000_0000 ==> Writes(base, After(buffer, b.rec), []) == [];
  }

  lemma RecordLength(b: Line)
    requires WellSpelled(b)
    ensures |b.rec| >= 5 && |b.rec| == b.rec[0] as int + 5
  {
  }

  lemma OneWrite(image: seq<byte>, w: Write)
    requires ImageOf(image, [w])
    ensures image == Zeros(w.offset) + w.bytes
  {
    assert [w][1..] == [] && Extent([]) == 0;
    assert Extent([w]) == w.offset + |w.bytes|;
    forall i | 0 <= i < |image| ensures image[i] == (Zeros(w.offset) + w.bytes)[i] {
      assert ByteAt([], i) == None;
      assert ByteAt([w], i) == if Covers(w, i) then Some(w.bytes[i - w.offset]) else None;
    }
  }

  /** The end-of-file line as the format writes it. */
  lemma EndLine()
    ensures Record(0, 1, []) == [0, 0, 0, 1, 0xFF]
    ensures Text(LineOf(Record(0, 1, []))) == [10, 58, 48, 48, 48, 48, 48, 48, 48, 49, 70, 70]
  {
    hide Sum;
    var body: seq<byte> := [0, 0, 0, 1];
    SumOfFour(0, 0, 0, 1);
    var none: seq<byte> := [];
    assert body + none == body;
  }

  /** The line that sets the base to 0x60000000. */
  lemma BaseLine()
    ensures Record(0, 4, [0x60, 0]) == [2, 0, 0, 4, 0x60, 0, 0x9A]
  {
    hide Sum;
    var body: seq<byte> := [2, 0, 0, 4];
    SumOfFour(2, 0, 0, 4);
    SumEnd(body, 0x60);
    SumEnd(body + [0x60], 0);
    assert body + [0x60] + [0] == body + [0x60, 0];
  }

  lemma SumOfFour(a: byte, b: byte, c: byte, d: byte)
    ensures Sum([a, b, c, d]) == a as int + b as int + c as int + d as int
  {
    hide Sum;
    var none: seq<byte> := [];
    SumOfNone();
    SumEnd(none, a);
    SumEnd([a], b);
    SumEnd([a, b], c);
    SumEnd([a, b, c], d);
    assert none + [a] == [a] && [a] + [b] == [a, b] && [a, b] + [c] == [a, b, c] && [a, b, c] + [d] == [a, b, c, d];
  }

  lemma SumOfNone()
    ensures Sum([]) == 0
  {
  }

  /** The record types: 0 is data, 4 an address, 5 is skipped, any other but the end is refused. */
  lemma TypesMean(st: State, rec: seq<byte>)
    requires |st.buffer| == 256 && |rec| >= 5 && |rec| == rec[0] as int + 5
    ensures rec[3] == 5 ==> Apply(st, rec).Some? && Apply(st, rec).value.base == st.base &&
                            Apply(st, rec).value.image == st.image
    ensures rec[3] == 4 ==> Apply(st, rec).Some? && Apply(st, rec).value.image == st.image
    ensures rec[3] == 0 ==> (Apply(st, rec).Some? <==> st.base >= 0x6000_0000)
    ensures rec[3] !in {0, 4, 5} ==> Apply(st, rec) == None
  {
    hide WriteAt;
  }

  /** Type 1 ends the file: what stands behind it is not read. */
  lemma EndMeans(data: seq<byte>, c: nat, rec: seq<byte>, st: State)
    requires |st.buffer| == 256 && c < |data| && data[c] == 58 && ReadRecord(data, c + 1) == Some(rec)
    requires Sum(rec) % 256 == 0 && rec[3] == 1
    ensures Convert(data, c, st) == Some(st.image)
  {
    hide ReadRecord, Sum;
  }

  // ---------------------------------------------------------------- what is refused

  /** Without an end-of-file record nothing comes back. */
  lemma NoEndRefused(ls: seq<Line>)
    requires Records(ls)
    ensures Binary(Texts(ls)) == []
  {
    hide Convert, Texts, Records, Loadable;
    var data := Texts(ls);
    assert At(data, 0, data);
    var st := ConvertLines(data, 0, ls, START);
    PastTheEnd(data, st);
  }

  lemma PastTheEnd(data: seq<byte>, st: State)
    requires |st.buffer| == BUFFER_SIZE
    ensures Convert(data, |data|, st) == None
  {
  }

  /** A byte between records that is neither whitespace nor a colon refuses the file. */
  lemma JunkRefused(ls: seq<Line>, junk: byte, tail: seq<byte>)
    requires Records(ls) && junk !in {9, 10, 11, 12, 13, 32, 58}
    ensures Binary(Texts(ls) + [junk] + tail) == []
  {
    hide Convert, Texts, Records, Loadable;
    var data := Texts(ls) + [junk] + tail;
    assert At(data, 0, Texts(ls));
    var st := ConvertLines(data, 0, ls, START);
    JunkStops(data, |Texts(ls)|, st);
  }

  lemma JunkStops(data: seq<byte>, i: nat, st: State)
    requires |st.buffer| == BUFFER_SIZE && i < |data| && data[i] !in {9, 10, 11, 12, 13, 32, 58}
    ensures Convert(data, i, st) == None
  {
  }
}
