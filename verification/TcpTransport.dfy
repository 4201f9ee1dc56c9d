/**
 Varint-framed message reassembly of native/pybrid/transport/tcp_transport.cpp.

 `Parse` is the reference: it reads the framing off the whole stream at once.  The transport sees
 the stream in arbitrary pieces and keeps a reassembly buffer that it shifts in place.
 */
module TcpTransport {
  import opened Common
  import opened Varint

  /** DEFAULT_TCP_MESSAGE_SIZE and the initial size of the reassembly buffer. */
  const MAX_MESSAGE := 262084
  const INITIAL_BUFFER := MAX_VARINT_SIZE + MAX_MESSAGE

  type Message = seq<byte>

  /** A message as `send` accepts it. */
  predicate Sendable(m: Message) {
    |m| <= MAX_MESSAGE
  }

  /** The wire form of a message. */
  function Frame(m: Message): seq<byte> {
    Encode(|m|) + m
  }

  function Frames(ms: seq<Message>): seq<byte> {
    if ms == [] then [] else Frame(ms[0]) + Frames(ms[1..])
  }

  /** Outcome of parsing: whole messages, unread tail, and whether the peer kept the size limit. */
  datatype Parsed = Parsed(messages: seq<Message>, rest: seq<byte>, ok: bool)

  /** What the head of a byte string allows the receiver to do. */
  datatype Head = Incomplete | TooLong | Whole(headerSize: nat, size: nat)

  function HeadOf(s: seq<byte>): (h: Head)
    ensures h.Whole? ==> 0 < h.headerSize <= h.size <= |s| && h.size - h.headerSize <= MAX_MESSAGE
  {
    match Decode(s)
    case None => Incomplete
    case Some(d) =>
      if d.value > MAX_MESSAGE then TooLong
      else if |s| < d.consumed + d.value then Incomplete
      else Whole(d.consumed, d.consumed + d.value)
  }

  /** Parse a whole stream: the simple specification. */
  function Parse(s: seq<byte>): Parsed
    decreases |s|
  {
    match HeadOf(s)
    case Incomplete => Parsed([], s, true)
    case TooLong => Parsed([], s, false)
    case Whole(h, n) =>
      Prepend(s[h..n], Parse(s[n..]))
  }

  lemma HeadStable(s: seq<byte>, t: seq<byte>)
    requires !HeadOf(s).Incomplete?
    ensures HeadOf(s + t) == HeadOf(s)
  {
    DecodeStable(s, t);
  }

  function Prepend(m: Message, p: Parsed): Parsed {
    Parsed([m] + p.messages, p.rest, p.ok)
  }

  /** Parsing resumed after more bytes arrived; a protocol error is final. */
  function Resume(p: Parsed, t: seq<byte>): Parsed {
    if p.ok then
      var q := Parse(p.rest + t);
      Parsed(p.messages + q.messages, q.rest, q.ok)
    else Parsed(p.messages, p.rest + t, false)
  }

  lemma ResumePrepend(m: Message, p: Parsed, t: seq<byte>)
    ensures Resume(Prepend(m, p), t) == Prepend(m, Resume(p, t))
  {
    var q := Parse(p.rest + t);
    assert [m] + p.messages + q.messages == [m] + (p.messages + q.messages);
  }

  /** Parsing in two pieces is parsing at once: the residue of the first piece carries everything. */
  lemma {:induction false} ParseSplit(s: seq<byte>, t: seq<byte>)
    ensures Parse(s + t) == Resume(Parse(s), t)
    decreases |s|
  {
    match HeadOf(s)
    case Incomplete =>
      assert [] + Parse(s + t).messages == Parse(s + t).messages;
    case TooLong =>
      HeadStable(s, t);
    case Whole(h, n) =>
      HeadStable(s, t);
      assert (s + t)[n..] == s[n..] + t && (s + t)[h..n] == s[h..n];
      ParseSplit(s[n..], t);
      ResumePrepend(s[h..n], Parse(s[n..]), t);
  }

  // ---------------------------------------------------------------- what parsing means

  /** `s` is `ms`, each behind its length; no length is above the limit. */
  ghost predicate WholeMessages(s: seq<byte>, ms: seq<Message>)
    decreases |ms|
  {
    if ms == [] then s == []
    else
      && Decode(s).Some? && Decode(s).value.value == |ms[0]| <= 262084
      && Decode(s).value.consumed + |ms[0]| <= |s|
      && s[Decode(s).value.consumed..][..|ms[0]|] == ms[0]
      && WholeMessages(s[Decode(s).value.consumed + |ms[0]|..], ms[1..])
  }

  /** A length above the limit stands at the head. */
  predicate Oversized(s: seq<byte>) {
    Decode(s).Some? && Decode(s).value.value > 262084
  }

  /** The head is the beginning of a message: its length, or the message behind it, is not all there. */
  predicate Unfinished(s: seq<byte>) {
    Decode(s).None? || (!Oversized(s) && |s| < Decode(s).value.consumed + Decode(s).value.value)
  }

  /** Whatever stream is parsed: whole messages, and behind them an unfinished one or, exactly when the stream is
      refused, a length above 262084. */
  lemma {:induction false} ParseMeans(s: seq<byte>)
    ensures var p := Parse(s);
            && |p.rest| <= |s| && s[|s| - |p.rest|..] == p.rest
            && WholeMessages(s[..|s| - |p.rest|], p.messages)
            && (p.ok ==> Unfinished(p.rest)) && (!p.ok ==> Oversized(p.rest))
    decreases |s|
  {
    hide WholeMessages, Oversized, Unfinished, Decode, HeadOf;
    HeadMeans(s);
    NoMessages();
    assert s[..0] == [];
    match HeadOf(s)
    case Incomplete =>
    case TooLong =>
    case Whole(h, n) =>
      ParseMeans(s[n..]);
      var q := Parse(s[n..]);
      var whole := s[..|s| - |q.rest|];
      DecodeShorter(s, |whole|);
      assert whole[n..] == s[n..][..|s[n..]| - |q.rest|];
      assert whole[h..n] == s[h..n];
      WholeCons(whole, h, s[h..n], q.messages);
  }

  lemma {:induction false} NoMessages()
    ensures WholeMessages([], [])
  {
  }

  lemma {:induction false} WholeCons(s: seq<byte>, h: nat, m: Message, ms: seq<Message>)
    requires Decode(s) == Some(Decoded(h, |m|)) && |m| <= 262084 && h + |m| <= |s| && s[h..h + |m|] == m
    requires WholeMessages(s[h + |m|..], ms)
    ensures WholeMessages(s, [m] + ms)
  {
    hide Decode;
    assert ([m] + ms)[1..] == ms && s[h..][..|m|] == s[h..h + |m|];
  }

  /** The head in terms of its varint. */
  lemma HeadMeans(s: seq<byte>)
    ensures HeadOf(s).Incomplete? <==> Unfinished(s)
    ensures HeadOf(s).TooLong? <==> Oversized(s)
    ensures HeadOf(s).Whole? ==>
              var h, n := HeadOf(s).headerSize, HeadOf(s).size;
              Decode(s) == Some(Decoded(h, n - h)) && n - h <= 262084 && h <= n <= |s|
    ensures Decode(s).Some? && Decode(s).value.value <= 262084 &&
            Decode(s).value.consumed + Decode(s).value.value <= |s| ==>
              HeadOf(s) == Whole(Decode(s).value.consumed, Decode(s).value.consumed + Decode(s).value.value)
  {
    hide Decode;
  }

  /** A varint that decodes does so from any prefix that holds it. */
  lemma DecodeShorter(s: seq<byte>, n: nat)
    requires Decode(s).Some? && Decode(s).value.consumed <= n <= |s|
    ensures Decode(s[..n]) == Decode(s)
  {
    var k := Terminator(s);
    TerminatorIs(s[..n], k);
    assert s[..n][..k + 1] == s[..k + 1];
  }

  /** And there is no other way to read it: messages, rest and refusal are determined by the bytes. */
  lemma {:induction false} ParseIsOnly(a: seq<byte>, ms: seq<Message>, rest: seq<byte>)
    requires WholeMessages(a, ms) && (Unfinished(rest) || Oversized(rest))
    ensures Parse(a + rest) == Parsed(ms, rest, !Oversized(rest))
    decreases |ms|
  {
    hide Oversized, Unfinished, Decode, HeadOf;
    if ms == [] {
      assert a + rest == rest;
      HeadMeans(rest);
      NotBoth(rest);
    } else {
      var h, n := Decode(a).value.consumed, Decode(a).value.consumed + |ms[0]|;
      DecodeStable(a, rest);
      HeadMeans(a + rest);
      assert (a + rest)[n..] == a[n..] + rest && (a + rest)[h..n] == a[h..][..|ms[0]|];
      ParseIsOnly(a[n..], ms[1..], rest);
      assert [ms[0]] + ms[1..] == ms;
    }
  }

  lemma NotBoth(s: seq<byte>)
    ensures !(Unfinished(s) && Oversized(s))
  {
    hide Decode;
  }

  /** A stream is refused exactly if, behind some whole messages, a varint above 262084 decodes. */
  lemma {:induction false} RefusedExactly(s: seq<byte>)
    ensures !Parse(s).ok <==>
            exists n: nat, ms {:trigger WholeMessages(s[..n], ms)} ::
              n <= |s| && WholeMessages(s[..n], ms) && Oversized(s[n..])
  {
    ParseMeans(s);
    hide WholeMessages, Oversized, Unfinished, Parse;
    if n: nat, ms :| n <= |s| && WholeMessages(s[..n], ms) && Oversized(s[n..]) {
      assert s[..n] + s[n..] == s;
      ParseIsOnly(s[..n], ms, s[n..]);
    }
    if !Parse(s).ok {
      var n := |s| - |Parse(s).rest|;
      assert WholeMessages(s[..n], Parse(s).messages) && s[n..] == Parse(s).rest;
    }
  }

  /** In particular at once when the length has arrived, whatever follows. */
  lemma OversizedRefused(v: nat, tail: seq<byte>)
    requires 262084 < v < 0x1_0000_0000_0000_0000
    ensures Parse(Encode(v) + tail) == Parsed([], Encode(v) + tail, false)
  {
    DecodeEncode(v, tail);
    assert [] + (Encode(v) + tail) == Encode(v) + tail;
    ParseIsOnly([], [], Encode(v) + tail);
  }

  // ---------------------------------------------------------------- well-formed streams

  lemma FrameHead(m: Message, tail: seq<byte>)
    requires Sendable(m)
    ensures HeadOf(Frame(m) + tail) == Whole(|Encode(|m|)|, |Frame(m)|)
    ensures (Frame(m) + tail)[|Encode(|m|)|..|Frame(m)|] == m
    ensures (Frame(m) + tail)[|Frame(m)|..] == tail
  {
    assert Frame(m) + tail == Encode(|m|) + (m + tail);
    DecodeEncode(|m|, m + tail);
  }

  lemma FrameStrictPrefix(m: Message, k: nat)
    requires Sendable(m) && k < |Frame(m)|
    ensures HeadOf(Frame(m)[..k]) == Incomplete
  {
    var e := Encode(|m|);
    if k < |e| {
      assert Frame(m)[..k] == e[..k];
      StrictPrefixRejected(|m|, k);
    } else {
      assert Frame(m)[..k] == e + m[..k - |e|];
      DecodeEncode(|m|, m[..k - |e|]);
    }
  }

  /** A stream of frames cut anywhere parses to exactly the finished messages, in order, and the
      unfinished tail. */
  lemma {:induction false} ParseFrames(ms: seq<Message>, next: Message, k: nat)
    requires (forall m :: m in ms ==> Sendable(m)) && Sendable(next) && k < |Frame(next)|
    ensures Parse(Frames(ms) + Frame(next)[..k]) == Parsed(ms, Frame(next)[..k], true)
    decreases |ms|
  {
    hide HeadOf, Frame;
    var cut := Frame(next)[..k];
    if ms == [] {
      assert Frames(ms) + cut == cut;
      FrameStrictPrefix(next, k);
    } else {
      var rest := Frames(ms[1..]) + cut;
      assert Frames(ms) + cut == Frame(ms[0]) + rest;
      FrameHead(ms[0], rest);
      ParseFrames(ms[1..], next, k);
      assert ms == [ms[0]] + ms[1..];
    }
  }

  // ---------------------------------------------------------------- segmentation

  function Concat(pieces: seq<seq<byte>>): seq<byte> {
    if pieces == [] then [] else pieces[0] + Concat(pieces[1..])
  }

  /** The incremental receiver on values: each piece is appended to the residue and the residue is
      parsed as far as it goes; a protocol error stops reading for good. */
  function Receive(state: Parsed, pieces: seq<seq<byte>>): Parsed
    decreases |pieces|
  {
    if pieces == [] || !state.ok then state
    else Receive(Resume(state, pieces[0]), pieces[1..])
  }

  /** Two parses agree on what was delivered and, while the stream is legal, on what is buffered. */
  predicate Agree(r: Parsed, p: Parsed) {
    r.messages == p.messages && r.ok == p.ok && (p.ok ==> r.rest == p.rest)
  }

  lemma {:induction false} ReceiveFrom(s: seq<byte>, pieces: seq<seq<byte>>)
    ensures Agree(Receive(Parse(s), pieces), Parse(s + Concat(pieces)))
    decreases |pieces|
  {
    hide Parse, HeadOf;
    if pieces == [] {
      assert s + Concat(pieces) == s;
    } else if !Parse(s).ok {
      ParseSplit(s, Concat(pieces));
    } else {
      var s' := s + pieces[0];
      assert Receive(Parse(s), pieces) == Receive(Parse(s'), pieces[1..]) by {
        ParseSplit(s, pieces[0]);
        ReceiveStep(Parse(s), pieces);
      }
      assert s + Concat(pieces) == s' + Concat(pieces[1..]);
      ReceiveFrom(s', pieces[1..]);
    }
  }

  lemma ReceiveStep(state: Parsed, pieces: seq<seq<byte>>)
    requires pieces != [] && state.ok
    ensures Receive(state, pieces) == Receive(Resume(state, pieces[0]), pieces[1..])
  {
  }

  const NOTHING := Parsed([], [], true)

  /** Segmentation does not matter: for every byte stream and every way of cutting it into reads,
      the receiver delivers what parsing the whole stream delivers. */
  lemma SegmentationIrrelevant(pieces: seq<seq<byte>>)
    ensures Agree(Receive(NOTHING, pieces), Parse(Concat(pieces)))
  {
    assert Parse([]) == NOTHING;
    ReceiveFrom([], pieces);
    assert [] + Concat(pieces) == Concat(pieces);
  }

  /** Framing round trip over any segmentation: the messages sent come out whole and in order, and
      only the unfinished frame is kept. */
  lemma FramedStreamDelivered(ms: seq<Message>, next: Message, k: nat, pieces: seq<seq<byte>>)
    requires (forall m :: m in ms ==> Sendable(m)) && Sendable(next) && k < |Frame(next)|
    requires Concat(pieces) == Frames(ms) + Frame(next)[..k]
    ensures Receive(NOTHING, pieces) == Parsed(ms, Frame(next)[..k], true)
  {
    ParseFrames(ms, next, k);
    SegmentationIrrelevant(pieces);
  }

  // ---------------------------------------------------------------- buffer occupancy

  /** Ten continuation bytes at the head: no varint can ever be completed here. */
  predicate StuckHead(s: seq<byte>) {
    |s| >= MAX_VARINT_SIZE && forall i :: 0 <= i < MAX_VARINT_SIZE ==> s[i] >= 128
  }

  lemma StuckHeadIsIncomplete(s: seq<byte>, t: seq<byte>)
    requires StuckHead(s)
    ensures HeadOf(s + t) == Incomplete
  {
    forall i | 0 <= i < MAX_VARINT_SIZE ensures (s + t)[i] >= 128 {
      assert (s + t)[i] == s[i];
    }
  }

  /** While the stream is legal, the residue outgrows the initial buffer only if its head is stuck. */
  lemma ResidueBound(s: seq<byte>)
    requires Parse(s).ok && !StuckHead(Parse(s).rest)
    ensures |Parse(s).rest| < INITIAL_BUFFER
  {
    RestHeadIncomplete(s);
    var r := Parse(s).rest;
    var k := Terminator(r);
    if k >= MAX_VARINT_SIZE {
      assert false;
    }
  }

  /** What is left over holds no further whole message. */
  lemma {:induction false} RestHeadIncomplete(s: seq<byte>)
    ensures HeadOf(Parse(s).rest) == if Parse(s).ok then Incomplete else TooLong
    decreases |s|
  {
    match HeadOf(s)
    case Incomplete =>
    case TooLong =>
    case Whole(h, n) => RestHeadIncomplete(s[n..]);
  }

  /** A stuck head is stuck for good: everything that follows piles up behind it, so the bound above
      is exact. */
  lemma StuckHeadGrows(s: seq<byte>, t: seq<byte>)
    requires Parse(s).ok && StuckHead(Parse(s).rest)
    ensures Parse(s + t) == Parsed(Parse(s).messages, Parse(s).rest + t, true)
    ensures StuckHead(Parse(s + t).rest)
  {
    ParseSplit(s, t);
    StuckHeadIsIncomplete(Parse(s).rest, t);
    assert Parse(s).messages + [] == Parse(s).messages;
  }

  lemma FramePrefixSmall(m: Message, k: nat)
    requires Sendable(m) && k < |Frame(m)|
    ensures !StuckHead(Frame(m)[..k]) && |Frame(m)| < INITIAL_BUFFER
  {
    Pow128Word();
    EncodeLength(|m|, 2);
    EncodeShape(|m|);
    var e := Encode(|m|);
    if k >= MAX_VARINT_SIZE {
      assert Frame(m)[..k][|e| - 1] == e[|e| - 1];
    }
  }

  /** On a stream of frames, however it is cut, the head is never stuck. */
  lemma FramesNeverStick(ms: seq<Message>, next: Message, k: nat)
    requires (forall m :: m in ms ==> Sendable(m)) && Sendable(next) && k < |Frame(next)|
    ensures var rest := Parse(Frames(ms) + Frame(next)[..k]).rest;
            !StuckHead(rest) && |rest| < INITIAL_BUFFER
  {
    ParseFrames(ms, next, k);
    FramePrefixSmall(next, k);
  }

  // ---------------------------------------------------------------- the transport

  /** `p` with already delivered messages in front. */
  function Outcome(delivered: seq<Message>, p: Parsed): Parsed {
    Parsed(delivered + p.messages, p.rest, p.ok)
  }

  lemma ParseHead(s: seq<byte>)
    ensures s == [] ==> HeadOf(s).Incomplete?
    ensures HeadOf(s).Incomplete? ==> Parse(s) == Parsed([], s, true)
    ensures HeadOf(s).TooLong? ==> Parse(s) == Parsed([], s, false)
    ensures HeadOf(s).Whole?
        ==> Parse(s) == Prepend(s[HeadOf(s).headerSize..HeadOf(s).size], Parse(s[HeadOf(s).size..]))
  {
  }

  lemma OutcomePrepend(delivered: seq<Message>, m: Message, p: Parsed)
    ensures Outcome(delivered, Prepend(m, p)) == Outcome(delivered + [m], p)
  {
    assert delivered + ([m] + p.messages) == delivered + [m] + p.messages;
  }

  class Transport {
    var recvBuffer: array<byte>
    var recvUsed: nat
    var connected: bool
    var recvQueue: seq<Message>
    var bytesReceived: nat
    var messagesReceived: nat

    /** Every byte the socket has handed over on this connection. */
    ghost var stream: seq<byte>

    ghost predicate Valid()
      reads this, recvBuffer
    {
      recvUsed <= recvBuffer.Length && recvBuffer.Length >= INITIAL_BUFFER
    }

    ghost function Buffered(): seq<byte>
      requires Valid()
      reads this, recvBuffer
    {
      recvBuffer[..recvUsed]
    }

    /** The transport is where parsing the whole stream would be. */
    ghost predicate InStep()
      requires Valid()
      reads this, recvBuffer
    {
      Parse(stream) == Parsed(recvQueue, Buffered(), connected)
    }

    constructor ()
      ensures Valid() && fresh(recvBuffer) && InStep()
      ensures stream == [] && recvBuffer.Length == INITIAL_BUFFER && connected
    {
      recvBuffer := new byte[INITIAL_BUFFER];
      recvUsed, connected, recvQueue, stream := 0, true, [], [];
      bytesReceived, messagesReceived := 0, 0;
    }

    /** `start_receive`: make room for the next read; the buffer doubles only when it is full, and on
        a legal stream that takes a stuck head. */
    method StartReceive() returns (available: nat)
      requires Valid() && connected
      modifies this`recvBuffer
      ensures Valid() && Buffered() == old(Buffered())
      ensures available == recvBuffer.Length - recvUsed > 0
      ensures recvBuffer == old(recvBuffer) || (fresh(recvBuffer) && recvBuffer.Length == 2 * old(recvBuffer.Length))
      ensures old(InStep()) ==> InStep()
      ensures old(InStep()) && !StuckHead(Buffered()) ==> recvBuffer == old(recvBuffer)
    {
      if old(InStep()) && !StuckHead(Buffered()) {
        ResidueBound(stream);
      }
      available := recvBuffer.Length - recvUsed;
      if available == 0 {
        var bigger := new byte[2 * recvBuffer.Length];
        forall i | 0 <= i < recvBuffer.Length {
          bigger[i] := recvBuffer[i];
        }
        assert bigger[..recvUsed] == recvBuffer[..recvUsed];
        recvBuffer := bigger;
        available := recvBuffer.Length - recvUsed;
      }
    }

    /** The read callback: the socket has put `bytes` behind the buffered ones. */
    method OnRead(bytes: seq<byte>)
      requires Valid() && InStep() && connected
      requires 0 < |bytes| <= recvBuffer.Length - recvUsed
      modifies this, recvBuffer
      ensures Valid() && InStep() && recvBuffer == old(recvBuffer)
      ensures stream == old(stream) + bytes
      ensures bytesReceived == old(bytesReceived) + |bytes|
      ensures messagesReceived - |recvQueue| == old(messagesReceived - |recvQueue|)
    {
      hide Parse;
      ghost var before := Buffered();
      forall i | 0 <= i < |bytes| {
        recvBuffer[recvUsed + i] := bytes[i];
      }
      recvUsed := recvUsed + |bytes|;
      bytesReceived := bytesReceived + |bytes|;
      assert Buffered() == before + bytes;
      ParseSplit(stream, bytes);
      stream := stream + bytes;
      ProcessRecvBuffer();
    }

    /** `process_recv_buffer`: move whole messages to the queue, shifting the buffer in place. */
    method ProcessRecvBuffer()
      requires Valid() && connected
      modifies this`recvUsed, this`connected, this`recvQueue, this`messagesReceived, recvBuffer
      ensures Valid()
      ensures var p := old(Parse(Buffered()));
              recvQueue == old(recvQueue) + p.messages && Buffered() == p.rest && connected == p.ok
      ensures messagesReceived - |recvQueue| == old(messagesReceived - |recvQueue|)
    {
      hide Parse, HeadOf, Prepend;
      ghost var delivered: seq<Message> := [];
      ParseHead([]);
      while recvUsed > 0
        invariant Valid() && connected
        invariant recvQueue == old(recvQueue) + delivered
        invariant Outcome(delivered, Parse(Buffered())) == old(Parse(Buffered()))
        invariant messagesReceived - |recvQueue| == old(messagesReceived - |recvQueue|)
        decreases recvUsed
      {
        ghost var s := Buffered();
        ParseHead(s);
        var progress := TakeMessage();
        if !progress { return; }
        OutcomePrepend(delivered, s[HeadOf(s).headerSize..HeadOf(s).size], Parse(Buffered()));
        delivered := delivered + [s[HeadOf(s).headerSize..HeadOf(s).size]];
      }
      assert Buffered() == [];
    }

    /** One pass of the loop body: act on the head of the buffer. */
    method TakeMessage() returns (progress: bool)
      requires Valid() && connected
      modifies this`recvUsed, this`connected, this`recvQueue, this`messagesReceived, recvBuffer
      ensures Valid()
      ensures var s := old(Buffered());
              match HeadOf(s)
              case Incomplete => !progress && connected && Buffered() == s && recvQueue == old(recvQueue)
              case TooLong => !progress && !connected && Buffered() == s && recvQueue == old(recvQueue)
              case Whole(h, n) =>
                progress && connected && Buffered() == s[n..] && recvQueue == old(recvQueue) + [s[h..n]]
      ensures messagesReceived - |recvQueue| == old(messagesReceived - |recvQueue|)
    {
      var headerSize, msgLen := DecodeVarint(recvBuffer, recvUsed);
      if headerSize == 0 { return false; }
      if msgLen > MAX_MESSAGE {
        connected := false;
        return false;
      }
      var total := headerSize + msgLen;
      if recvUsed < total { return false; }
      var message := recvBuffer[..recvUsed][headerSize..total];
      recvQueue := recvQueue + [message];
      messagesReceived := messagesReceived + 1;
      ShiftDown(total);
      return true;
    }

    /** The `memmove` that drops the first `n` buffered bytes. */
    method ShiftDown(n: nat)
      requires Valid() && n <= recvUsed
      modifies this`recvUsed, recvBuffer
      ensures Valid() && Buffered() == old(Buffered())[n..]
    {
      var remaining := recvUsed - n;
      forall i | 0 <= i < remaining {
        recvBuffer[i] := recvBuffer[i + n];
      }
      recvUsed := remaining;
    }

    /** `reset_buffers`: shrink to the initial size.  Buffered bytes are discarded exactly when more
        than the initial size is in use, which on a legal stream takes a stuck head. */
    method ResetBuffers()
      requires Valid()
      modifies this`recvBuffer, this`recvUsed
      ensures Valid() && fresh(recvBuffer) && recvBuffer.Length == INITIAL_BUFFER
      ensures Buffered()
           == if old(recvUsed) <= INITIAL_BUFFER then old(Buffered()) else old(Buffered())[..INITIAL_BUFFER]
      ensures old(InStep()) && connected && !StuckHead(old(Buffered())) ==> InStep()
    {
      if old(InStep()) && connected && !StuckHead(Buffered()) {
        ResidueBound(stream);
      }
      var shrunk := new byte[INITIAL_BUFFER];
      forall i | 0 <= i < INITIAL_BUFFER {
        shrunk[i] := recvBuffer[i];
      }
      var used := if recvUsed <= INITIAL_BUFFER then recvUsed else INITIAL_BUFFER;
      assert shrunk[..used] == recvBuffer[..used];
      assert recvUsed <= INITIAL_BUFFER ==> recvBuffer[..used] == Buffered();
      assert recvUsed > INITIAL_BUFFER ==> recvBuffer[..used] == Buffered()[..INITIAL_BUFFER];
      recvBuffer, recvUsed := shrunk, used;
    }
  }

  /** Frame building in `send_loop`: oversize a scratch buffer, encode, copy, trim. */
  method BuildFrame(m: Message) returns (wire: seq<byte>)
    requires Sendable(m)
    ensures wire == Frame(m)
  {
    var scratch := new byte[MAX_VARINT_SIZE + |m|];
    var headerSize := EncodeVarint(|m|, scratch);
    forall i | 0 <= i < |m| {
      scratch[headerSize + i] := m[i];
    }
    wire := scratch[..headerSize + |m|];
    assert wire[..headerSize] == scratch[..headerSize];
    assert wire == wire[..headerSize] + wire[headerSize..];
  }
}
