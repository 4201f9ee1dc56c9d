/**
 Base 128 varints as native/pybrid/varint.h writes and reads them, and the byte-by-byte decoder
 of mock/connection.py.  Bytes and 64-bit words are bounded integers: `x & 0x7F` is `x % 128`,
 `x >> 7` is `x / 128`, and `|` is `BitOr`, bit by bit.
 */
module Varint {
  import opened Common

  const WORD := 0x1_0000_0000_0000_0000
  type uint64 = x: int | 0 <= x < WORD

  const MAX_VARINT_SIZE := 10

  /** What a successful decode yields: bytes consumed and the value. */
  datatype Decoded = Decoded(consumed: nat, value: nat)

  // ---------------------------------------------------------------- the format

  /** The canonical encoding: seven bits a byte, least significant group first. */
  function Encode(v: nat): (s: seq<byte>)
    ensures |s| >= 1
  {
    if v >= 128 then [v % 128 + 128] + Encode(v / 128) else [v]
  }

  /** Index of the first byte without the continuation bit, or `|s|` if there is none. */
  function Terminator(s: seq<byte>): (k: nat)
    ensures k <= |s|
    ensures k < |s| ==> s[k] < 128
    ensures forall i :: 0 <= i < k ==> s[i] >= 128
  {
    if s == [] || s[0] < 128 then 0 else 1 + Terminator(s[1..])
  }

  /** The little-endian base-128 number spelled by the low seven bits of every byte. */
  function Value(s: seq<byte>): nat {
    if s == [] then 0 else s[0] % 128 + 128 * Value(s[1..])
  }

  /** What a 64-bit decoder must return: nothing without a terminator in the first ten bytes. */
  function Decode(s: seq<byte>): Option<Decoded> {
    var k := Terminator(s);
    if k < |s| && k < MAX_VARINT_SIZE then Some(Decoded(k + 1, Value(s[..k + 1]) % WORD)) else None
  }

  function Pow128(n: nat): (p: nat)
    ensures p >= 1
  {
    if n == 0 then 1 else 128 * Pow128(n - 1)
  }

  // ---------------------------------------------------------------- bitwise or

  function BitOr(a: nat, b: nat): nat
    decreases a + b
  {
    if a == 0 && b == 0 then 0 else 2 * BitOr(a / 2, b / 2) + if a % 2 == 1 || b % 2 == 1 then 1 else 0
  }

  function Pow2(n: nat): (p: nat)
    ensures p >= 1
  {
    if n == 0 then 1 else 2 * Pow2(n - 1)
  }

  lemma {:induction false} OrZero(b: nat)
    ensures BitOr(0, b) == b
  {
    if b > 0 { OrZero(b / 2); }
  }

  /** Or-ing in bits above all bits of `a` adds them. */
  lemma {:induction false} OrAdds(a: nat, c: nat, k: nat)
    requires a < Pow2(k)
    ensures BitOr(a, c * Pow2(k)) == a + c * Pow2(k)
    decreases k
  {
    if k == 0 {
      OrZero(c);
    } else {
      OrAdds(a / 2, c, k - 1);
      Doubled(c, Pow2(k - 1));
    }
    hide Pow2;
  }

  lemma Doubled(c: nat, p: nat)
    ensures c * (2 * p) == 2 * (c * p)
  {
  }

  lemma {:induction false} SevenBits(i: nat)
    ensures Pow128(i) == Pow2(7 * i)
  {
    if i > 0 {
      SevenBits(i - 1);
      SevenDoublings(7 * (i - 1));
    }
  }

  lemma SevenDoublings(n: nat)
    ensures Pow2(n + 7) == 128 * Pow2(n)
  {
    assert Pow2(n + 2) == 4 * Pow2(n);
    assert Pow2(n + 4) == 4 * Pow2(n + 2);
    assert Pow2(n + 6) == 4 * Pow2(n + 4);
  }

  lemma OrGroupAdds(before: nat, low: nat, i: nat)
    requires before < Pow128(i)
    ensures BitOr(before, low * Pow128(i)) == before + low * Pow128(i)
  {
    SevenBits(i);
    OrAdds(before, low, 7 * i);
  }

  /** The continuation bit. */
  lemma OrContinuation(low: nat)
    requires low < 128
    ensures BitOr(low, 128) == low + 128
  {
    SevenBits(1);
    assert Pow128(1) == 128;
    OrAdds(low, 1, 7);
  }

  // ---------------------------------------------------------------- facts about the format

  lemma {:induction false} TerminatorIs(s: seq<byte>, k: nat)
    requires k < |s| && s[k] < 128
    requires forall i :: 0 <= i < k ==> s[i] >= 128
    ensures Terminator(s) == k
  {
    if k > 0 { TerminatorIs(s[1..], k - 1); }
  }

  lemma {:induction false} TerminatorNone(s: seq<byte>)
    requires forall i :: 0 <= i < |s| ==> s[i] >= 128
    ensures Terminator(s) == |s|
  {
    if s != [] { TerminatorNone(s[1..]); }
  }

  /** Every byte of an encoding but the last carries the continuation bit. */
  lemma {:induction false} EncodeShape(v: nat)
    ensures var s := Encode(v);
            s[|s| - 1] < 128 && forall i :: 0 <= i < |s| - 1 ==> s[i] >= 128
  {
    if v >= 128 {
      EncodeShape(v / 128);
      var s := Encode(v);
      var t := Encode(v / 128);
      forall i | 0 <= i < |s| - 1 ensures s[i] >= 128 {
        if i > 0 { assert s[i] == t[i - 1]; }
      }
      assert s[|s| - 1] == t[|t| - 1];
    }
  }

  lemma {:induction false} ValueOfEncode(v: nat)
    ensures Value(Encode(v)) == v
  {
    if v >= 128 {
      ValueOfEncode(v / 128);
      assert Encode(v)[1..] == Encode(v / 128);
    } else {
      assert Encode(v)[1..] == [];
    }
  }

  lemma {:induction false} EncodeLength(v: nat, n: nat)
    requires v < Pow128(n + 1)
    ensures |Encode(v)| <= n + 1
  {
    if v >= 128 {
      assert Pow128(n + 1) == 128 * Pow128(n);
      if n > 0 { EncodeLength(v / 128, n - 1); }
    }
  }

  lemma Pow128Word()
    ensures WORD <= Pow128(10)
    ensures Pow128(9) * 2 == WORD
    ensures Pow128(3) == 2097152
  {
    assert Pow128(1) == 128;
    assert Pow128(2) == 16384;
    assert Pow128(3) == 2097152;
    assert Pow128(4) == 128 * 2097152;
    assert Pow128(5) == 128 * 128 * 2097152;
    assert Pow128(6) == 128 * 128 * 128 * 2097152;
    assert Pow128(7) == 128 * Pow128(6);
    assert Pow128(8) == 128 * Pow128(7);
    assert Pow128(9) == 128 * Pow128(8);
    assert Pow128(10) == 128 * Pow128(9);
  }

  lemma EncodeFits(v: uint64)
    ensures |Encode(v)| <= MAX_VARINT_SIZE
  {
    Pow128Word();
    EncodeLength(v, 9);
  }

  /** Decoding undoes encoding for every 64-bit value, whatever follows on the stream. */
  lemma DecodeEncode(v: uint64, tail: seq<byte>)
    ensures Decode(Encode(v) + tail) == Some(Decoded(|Encode(v)|, v))
  {
    EncodeFits(v);
    EncodeShape(v);
    ValueOfEncode(v);
    DecodeTerminated(Encode(v), tail, v);
  }

  lemma DecodeTerminated(e: seq<byte>, tail: seq<byte>, v: uint64)
    requires 0 < |e| <= MAX_VARINT_SIZE && Value(e) == v
    requires e[|e| - 1] < 128 && forall i :: 0 <= i < |e| - 1 ==> e[i] >= 128
    ensures Decode(e + tail) == Some(Decoded(|e|, v))
  {
    hide Value, Terminator;
    TerminatorIs(e + tail, |e| - 1);
    assert (e + tail)[..|e|] == e;
  }

  /** No strict prefix of an encoding decodes. */
  lemma StrictPrefixRejected(v: uint64, k: nat)
    requires k < |Encode(v)|
    ensures Decode(Encode(v)[..k]) == None
  {
    EncodeShape(v);
    TerminatorNone(Encode(v)[..k]);
  }

  /** Once a decode has succeeded, later bytes cannot change it. */
  lemma DecodeStable(s: seq<byte>, t: seq<byte>)
    requires Decode(s).Some?
    ensures Decode(s + t) == Decode(s)
    ensures Decode(s).value.consumed <= |s|
  {
    var k := Terminator(s);
    TerminatorIs(s + t, k);
    assert (s + t)[..k + 1] == s[..k + 1];
  }

  // ---------------------------------------------------------------- the loops

  lemma {:induction false} ValueAppend(s: seq<byte>, b: byte)
    ensures Value(s + [b]) == Value(s) + (b % 128) * Pow128(|s|)
    ensures Value(s) < Pow128(|s|)
  {
    if s == [] {
      assert Value([b]) == b % 128 + 128 * Value([b][1..]);
    } else {
      ValueAppend(s[1..], b);
      assert (s + [b])[1..] == s[1..] + [b];
      assert (s + [b])[0] == s[0];
      var p := Pow128(|s| - 1);
      assert Pow128(|s|) == 128 * p;
      assert 128 * ((b % 128) * p) == (b % 128) * (128 * p);
    }
  }

  lemma {:induction false} Pow128Monotone(m: nat, n: nat)
    requires m <= n
    ensures Pow128(m) <= Pow128(n)
  {
    if m < n { Pow128Monotone(m, n - 1); }
  }

  /** `uint64(low) << 7*i`: bits that would leave the word are lost. */
  function ShiftLeft7(low: nat, i: nat): uint64 {
    (low * Pow128(i)) % WORD
  }

  /** Or-ing group `i` into `out` spells the first `i + 1` groups; only the tenth loses bits. */
  lemma OrGroup(s: seq<byte>, i: nat)
    requires i < |s| && i < MAX_VARINT_SIZE
    ensures BitOr(Value(s[..i]), ShiftLeft7(s[i] % 128, i)) == Value(s[..i + 1]) % WORD
    ensures i < 9 ==> Value(s[..i + 1]) % WORD == Value(s[..i + 1])
  {
    hide Value, Pow128, BitOr;
    ValueAppend(s[..i], s[i]);
    assert s[..i] + [s[i]] == s[..i + 1];
    if i < 9 {
      Pow128Word();
      Pow128Monotone(i + 1, 9);
      assert Value(s[..i + 1]) < Pow128(i + 1) by { ValueAppend(s[..i + 1], 0); }
      EarlyGroup(Value(s[..i]), Value(s[..i + 1]), s[i] % 128, i);
      OrGroupAdds(Value(s[..i]), s[i] % 128, i);
    } else {
      Pow128Word();
      LastGroup(Value(s[..9]), s[9] % 128);
      assert Pow128(9) == WORD / 2;
      OrGroupAdds(Value(s[..9]), s[9] % 128 % 2, 9);
    }
  }

  lemma EarlyGroup(before: nat, after: nat, low: nat, i: nat)
    requires after == before + low * Pow128(i) && after < WORD
    ensures ShiftLeft7(low, i) == low * Pow128(i) && after % WORD == after
  {
    hide Pow128;
  }

  lemma LastGroup(v: nat, low: nat)
    requires v < WORD / 2 && low < 128
    ensures (low * (WORD / 2)) % WORD == (low % 2) * (WORD / 2)
    ensures (v + low * (WORD / 2)) % WORD == v + (low % 2) * (WORD / 2)
  {
    HalfWords(0, low / 2, low % 2);
    HalfWords(v, low / 2, low % 2);
    assert low == 2 * (low / 2) + low % 2;
  }

  lemma HalfWords(v: nat, h: nat, r: nat)
    requires v < 0x8000_0000_0000_0000 && r < 2
    ensures (v + (2 * h + r) * 0x8000_0000_0000_0000) % 0x1_0000_0000_0000_0000 == v + r * 0x8000_0000_0000_0000
  {
    hide *;
    assert v + (2 * h + r) * 0x8000_0000_0000_0000
        == h * 0x1_0000_0000_0000_0000 + (v + r * 0x8000_0000_0000_0000);
    WordRemainder(h, v + r * 0x8000_0000_0000_0000);
  }

  lemma WordRemainder(h: nat, x: nat)
    requires x < 0x1_0000_0000_0000_0000
    ensures (h * 0x1_0000_0000_0000_0000 + x) % 0x1_0000_0000_0000_0000 == x
  {
  }

  /** `encode_varint`: fills a buffer of at least ten bytes and touches no other cell. */
  method EncodeVarint(value: uint64, buf: array<byte>) returns (n: nat)
    requires buf.Length >= MAX_VARINT_SIZE
    modifies buf
    ensures n == |Encode(value)| <= MAX_VARINT_SIZE
    ensures buf[..n] == Encode(value)
    ensures forall j :: n <= j < buf.Length ==> buf[j] == old(buf[j])
  {
    EncodeFits(value);
    hide Encode;
    var v: nat := value;
    n := 0;
    while v >= 128
      invariant n + |Encode(v)| == |Encode(value)|
      invariant buf[..n] + Encode(v) == Encode(value)
      invariant forall j :: n <= j < buf.Length ==> buf[j] == old(buf[j])
      decreases v
    {
      ghost var before := buf[..n];
      EncodeUnfolds(v);
      OrContinuation(v % 128);
      buf[n] := BitOr(v % 128, 128);
      assert buf[..n + 1] == before + [v % 128 + 128];
      n := n + 1;
      v := v / 128;
    }
    EncodeUnfolds(v);
    buf[n] := v % 128;
    n := n + 1;
  }

  lemma EncodeUnfolds(v: nat)
    ensures v >= 128 ==> Encode(v) == [v % 128 + 128] + Encode(v / 128)
    ensures v < 128 ==> Encode(v) == [v % 128]
  {
  }

  /** `varint_size`: the encoded length without encoding. */
  method VarintSize(value: uint64) returns (size: nat)
    ensures size == |Encode(value)|
  {
    size := 1;
    var v: nat := value;
    while v >= 128
      invariant size + |Encode(v)| == |Encode(value)| + 1
      decreases v
    {
      size := size + 1;
      v := v / 128;
    }
  }

  lemma ValueOfNone()
    ensures Value([]) == 0
  {
  }

  /** `decode_varint`: consumed is 0 when the varint is incomplete or longer than ten bytes. */
  method DecodeVarint(buf: array<byte>, len: nat) returns (consumed: nat, out: uint64)
    requires len <= buf.Length
    ensures Decode(buf[..len]).None? ==> consumed == 0
    ensures Decode(buf[..len]).Some? ==> Decode(buf[..len]) == Some(Decoded(consumed, out)) && consumed > 0
  {
    hide Value, BitOr, ShiftLeft7, Terminator;
    out := 0;
    var i := 0;
    ghost var s := buf[..len];
    ValueOfNone();
    assert s[..0] == [];
    while i < len && i < MAX_VARINT_SIZE
      invariant i <= len && i <= MAX_VARINT_SIZE
      invariant forall j :: 0 <= j < i ==> buf[j] >= 128
      invariant i < MAX_VARINT_SIZE ==> out == Value(s[..i])
    {
      OrGroup(s, i);
      out := BitOr(out, ShiftLeft7(buf[i] % 128, i));
      if buf[i] < 128 {
        TerminatorIs(s, i);
        return i + 1, out;
      }
      i := i + 1;
    }
    if i == len {
      TerminatorNone(s);
    }
    return 0, out;
  }

  lemma GroupRead(s: seq<byte>, i: nat)
    requires i < |s|
    ensures BitOr(Value(s[..i]), (s[i] % 128) * Pow128(i)) == Value(s[..i + 1])
  {
    hide Value, Pow128, BitOr;
    ValueAppend(s[..i], s[i]);
    assert s[..i] + [s[i]] == s[..i + 1];
    OrGroupAdds(Value(s[..i]), s[i] % 128, i);
  }

  /** `_recv_varint` of the mock server: reads until a terminator, with no ten-byte limit. */
  method RecvVarint(stream: seq<byte>) returns (r: Option<Decoded>)
    ensures r == DecodeUnbounded(stream)
  {
    hide Value, BitOr, Terminator;
    var pos: nat, scale: nat, result: nat := 0, 1, 0;
    ValueOfNone();
    assert stream[..0] == [];
    while pos < |stream|
      invariant pos <= |stream|
      invariant forall j :: 0 <= j < pos ==> stream[j] >= 128
      invariant scale == Pow128(pos)
      invariant result == Value(stream[..pos])
    {
      GroupRead(stream, pos);
      result := BitOr(result, (stream[pos] % 128) * scale);
      if stream[pos] < 128 {
        TerminatorIs(stream, pos);
        return Some(Decoded(pos + 1, result));
      }
      pos := pos + 1;
      scale := 128 * scale;
    }
    TerminatorNone(stream);
    return None;
  }

  /** The unbounded decoder's answer on `s`. */
  function DecodeUnbounded(s: seq<byte>): Option<Decoded> {
    var k := Terminator(s);
    if k < |s| then Some(Decoded(k + 1, Value(s[..k + 1]))) else None
  }

  /** The two decoders of the framing agree exactly on the prefixes whose value fits a 64-bit word
      and whose terminator is among the first ten bytes. */
  lemma DecodersAgree(s: seq<byte>)
    ensures Decode(s) == DecodeUnbounded(s)
       <==> (DecodeUnbounded(s).Some? ==>
               DecodeUnbounded(s).value.consumed <= MAX_VARINT_SIZE && DecodeUnbounded(s).value.value < WORD)
  {
    var k := Terminator(s);
    if k < |s| && k < MAX_VARINT_SIZE {
      var v := Value(s[..k + 1]);
      assert v < WORD <==> v % WORD == v;
    }
  }
}
