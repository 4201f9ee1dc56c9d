/**
 End to end: several connections, each with its queue; data channels put blobs while the session takes them,
 one `get` at a time, and sweeps the queues at the end (redac/session.py, `_continuous_drain`).
 */
module SampleStreams {
  import opened Common
  import opened SampleBlob
  import opened SampleQueue
  import opened SampleDecoder
  import opened SampleSender
  import opened SampleRecords
  import opened SampleAssembly
  import opened SampleDelivery
  import opened SamplePipeline

  /** The connections' queues and the session's chunk buffer. */
  datatype Streams = Streams(queues: seq<seq<seq<byte>>>, buffer: seq<ChunkRecord>)

  /** A message handled by connection `c`'s data channel, or one `get` of the session from its queue. */
  datatype Event = Arrive(c: nat, message: Message) | Take(c: nat, cap: nat)

  /** The record a blob leaves in the buffer, if any. */
  function Records1(blob: seq<byte>): seq<ChunkRecord> {
    if Parse(blob).Some? then [Parse(blob).value] else []
  }

  function Step(codec: Codec, slotSize: nat, s: Streams, e: Event): (r: Streams)
    requires e.Arrive? ==> Acceptable(e.message)
    ensures |r.queues| == |s.queues|
  {
    if e.c >= |s.queues| then s
    else
      var q := s.queues[e.c];
      match e
      case Arrive(c, m) => s.(queues := s.queues[c := q + Queued(codec, m, slotSize)])
      case Take(c, cap) => Streams(s.queues[c := Left(q, cap)], s.buffer + Records1(Got(q, cap)))
  }

  function Play(codec: Codec, slotSize: nat, n: nat, events: seq<Event>): (r: Streams)
    requires forall e :: e in events && e.Arrive? ==> Acceptable(e.message)
    ensures |r.queues| == n
  {
    if events == [] then Streams(seq(n, _ => []), [])
    else Step(codec, slotSize, Play(codec, slotSize, n, events[..|events| - 1]), events[|events| - 1])
  }

  /** The final sweep: every queue drained in turn. */
  function Swept(queues: seq<seq<seq<byte>>>, cap: nat): seq<ChunkRecord> {
    if queues == [] then []
    else ParseAll(queues[0][..Taken(queues[0], cap)]) + Swept(queues[1..], cap)
  }

  /** The messages that arrived, in order. */
  function Arrivals(events: seq<Event>): seq<Message> {
    if events == [] then []
    else
      var e := events[|events| - 1];
      Arrivals(events[..|events| - 1]) + if e.Arrive? then [e.message] else []
  }

  // ---------------------------------------------------------------- nothing is lost on the way

  /** The records still in the queues. */
  ghost function InQueues(queues: seq<seq<seq<byte>>>): multiset<ChunkRecord> {
    if queues == [] then multiset{} else multiset(ParseAll(queues[0])) + InQueues(queues[1..])
  }

  lemma {:induction false} QueueReplaced(queues: seq<seq<seq<byte>>>, c: nat, q: seq<seq<byte>>)
    requires c < |queues|
    ensures InQueues(queues[c := q]) + multiset(ParseAll(queues[c])) == InQueues(queues) + multiset(ParseAll(q))
  {
    hide ParseAll;
    var changed := queues[c := q];
    assert InQueues(queues) == multiset(ParseAll(queues[0])) + InQueues(queues[1..]);
    assert InQueues(changed) == multiset(ParseAll(changed[0])) + InQueues(changed[1..]);
    if c > 0 {
      QueueReplaced(queues[1..], c - 1, q);
      assert changed[1..] == queues[1..][c - 1 := q];
      assert changed[0] == queues[0] && queues[1..][c - 1] == queues[c];
      AddFront(multiset(ParseAll(queues[0])), InQueues(changed[1..]), multiset(ParseAll(queues[c])),
               InQueues(queues[1..]), multiset(ParseAll(q)));
    } else {
      assert changed[1..] == queues[1..];
    }
    hide *;
  }

  lemma AddFront<T>(a: multiset<T>, x: multiset<T>, p: multiset<T>, y: multiset<T>, q: multiset<T>)
    requires x + p == y + q
    ensures (a + x) + p == (a + y) + q
  {
    assert (a + x) + p == a + (x + p);
    assert (a + y) + q == a + (y + q);
  }

  lemma Cancel<T>(a: multiset<T>, b: multiset<T>, c: multiset<T>)
    requires a + c == b + c
    ensures a == b
  {
    forall x ensures a[x] == b[x] {
      assert (a + c)[x] == (b + c)[x];
    }
  }

  /** Blobs in the queues fit their slots and are not empty. */
  ghost predicate Fitting(s: Streams, slotSize: nat) {
    forall c, k :: 0 <= c < |s.queues| && 0 <= k < |s.queues[c]| ==> 0 < |s.queues[c][k]| <= slotSize
  }

  /** The buffer and the queues together hold the records of what has arrived. */
  ghost predicate Held(codec: Codec, slotSize: nat, s: Streams, arrived: seq<Message>)
    requires forall m :: m in arrived ==> Acceptable(m)
  {
    multiset(s.buffer) + InQueues(s.queues) == multiset(Buffered(codec, arrived, slotSize))
  }

  lemma ParseHead(q: seq<seq<byte>>)
    requires q != []
    ensures ParseAll(q) == Records1(q[0]) + ParseAll(q[1..])
  {
    hide Parse;
    assert q == [q[0]] + q[1..];
    ParseAllConcat([q[0]], q[1..]);
    ParseOne(q[0]);
  }

  lemma HeldTake(codec: Codec, slotSize: nat, s: Streams, e: Event, arrived: seq<Message>)
    requires (forall m :: m in arrived ==> Acceptable(m)) && Held(codec, slotSize, s, arrived)
    requires Fitting(s, slotSize) && e.Take? && e.cap >= slotSize
    ensures Held(codec, slotSize, Step(codec, slotSize, s, e), arrived)
  {
    hide ParseAll, Parse, InQueues, Buffered, Acceptable;
    if e.c < |s.queues| {
      var q := s.queues[e.c];
      if q == [] {
        assert s.queues[e.c := []] == s.queues;
        EmptyRecords();
        assert s.buffer + Records1([]) == s.buffer;
      } else {
        assert 0 < |q[0]| <= slotSize;
        hide Fitting, Records1;
        ParseHead(q);
        QueueReplaced(s.queues, e.c, q[1..]);
        TakenOut(s.buffer, Records1(q[0]), ParseAll(q[1..]), InQueues(s.queues), InQueues(s.queues[e.c := q[1..]]));
      }
    }
  }

  lemma EmptyRecords()
    ensures Records1([]) == []
  {
    ParseOne([]);
  }

  /** Records that move from the queues to the buffer. */
  lemma TakenOut(buffer: seq<ChunkRecord>, moved: seq<ChunkRecord>, rest: seq<ChunkRecord>,
                 before: multiset<ChunkRecord>, after: multiset<ChunkRecord>)
    requires after + multiset(moved + rest) == before + multiset(rest)
    ensures multiset(buffer + moved) + after == multiset(buffer) + before
  {
    assert multiset(moved + rest) == multiset(moved) + multiset(rest);
    assert (after + multiset(moved)) + multiset(rest) == after + multiset(moved + rest);
    Cancel(after + multiset(moved), before, multiset(rest));
  }

  lemma FittingTake(codec: Codec, slotSize: nat, s: Streams, e: Event)
    requires Fitting(s, slotSize) && e.Take? && e.cap >= slotSize
    ensures Fitting(Step(codec, slotSize, s, e), slotSize)
  {
    hide Records1;
    if e.c < |s.queues| && s.queues[e.c] != [] {
      assert 0 < |s.queues[e.c][0]| <= slotSize;
    }
  }

  lemma FittingArrive(codec: Codec, slotSize: nat, s: Streams, e: Event)
    requires Fitting(s, slotSize) && e.Arrive? && Acceptable(e.message)
    ensures Fitting(Step(codec, slotSize, s, e), slotSize)
  {
    hide Queued, Acceptable;
    BlobHasBytes(codec, e.message, slotSize);
  }

  lemma HeldArrive(codec: Codec, slotSize: nat, s: Streams, e: Event, arrived: seq<Message>)
    requires (forall m :: m in arrived ==> Acceptable(m)) && Held(codec, slotSize, s, arrived)
    requires e.Arrive? && Acceptable(e.message) && e.c < |s.queues|
    ensures forall m :: m in arrived + [e.message] ==> Acceptable(m)
    ensures Held(codec, slotSize, Step(codec, slotSize, s, e), arrived + [e.message])
  {
    hide ParseAll, InQueues, Buffered, Acceptable, Queued;
    var q, more := s.queues[e.c], Queued(codec, e.message, slotSize);
    QueueReplaced(s.queues, e.c, q + more);
    ParseAllConcat(q, more);
    BufferedConcat(codec, arrived, [e.message], slotSize);
    QueuedAlone(codec, e.message, slotSize);
    BufferedIs(codec, [e.message], slotSize);
    PutIn(ParseAll(q), ParseAll(more), InQueues(s.queues), InQueues(s.queues[e.c := q + more]));
    assert multiset(Buffered(codec, arrived, slotSize) + ParseAll(more))
        == multiset(Buffered(codec, arrived, slotSize)) + multiset(ParseAll(more));
  }

  lemma PutIn(had: seq<ChunkRecord>, more: seq<ChunkRecord>, before: multiset<ChunkRecord>,
              after: multiset<ChunkRecord>)
    requires after + multiset(had) == before + multiset(had + more)
    ensures after == before + multiset(more)
  {
    assert multiset(had + more) == multiset(had) + multiset(more);
    assert (before + multiset(more)) + multiset(had) == before + multiset(had + more);
    Cancel(after, before + multiset(more), multiset(had));
  }

  lemma BlobHasBytes(codec: Codec, m: Message, slotSize: nat)
    requires Acceptable(m)
    ensures forall k :: 0 <= k < |Queued(codec, m, slotSize)| ==> 0 < |Queued(codec, m, slotSize)[k]| <= slotSize
  {
    hide ContentOf, Acceptable;
  }

  lemma BufferedIs(codec: Codec, ms: seq<Message>, slotSize: nat)
    requires forall m :: m in ms ==> Acceptable(m)
    ensures Buffered(codec, ms, slotSize) == ParseAll(QueueAfter(codec, ms, slotSize))
  {
  }

  /** In every interleaving of arrivals and gets, over any number of queues: the buffer and the queues together
      hold exactly the records of what has arrived. */
  lemma {:induction false} PlayHolds(codec: Codec, slotSize: nat, n: nat, events: seq<Event>)
    requires forall e :: e in events && e.Arrive? ==> Acceptable(e.message)
    requires forall e :: e in events ==> e.c < n && (e.Take? ==> e.cap >= slotSize)
    ensures forall m :: m in Arrivals(events) ==> Acceptable(m)
    ensures Held(codec, slotSize, Play(codec, slotSize, n, events), Arrivals(events))
    ensures Fitting(Play(codec, slotSize, n, events), slotSize)
  {
    if events == [] {
      EmptyQueues(n);
      BufferedIs(codec, [], slotSize);
      ParseOne([]);
    } else {
      var k := |events| - 1;
      var before, e := events[..k], events[k];
      assert e in events && forall x :: x in before ==> x in events;
      PlayHolds(codec, slotSize, n, before);
      hide Held, Fitting, Step, Acceptable;
      var s := Play(codec, slotSize, n, before);
      if e.Take? {
        HeldTake(codec, slotSize, s, e, Arrivals(before));
        FittingTake(codec, slotSize, s, e);
        assert Arrivals(events) == Arrivals(before);
      } else {
        HeldArrive(codec, slotSize, s, e, Arrivals(before));
        FittingArrive(codec, slotSize, s, e);
      }
    }
  }

  lemma {:induction false} EmptyQueues(n: nat)
    ensures InQueues(seq(n, _ => [])) == multiset{}
  {
    if n > 0 {
      var queues: seq<seq<seq<byte>>> := seq(n, _ => []);
      EmptyQueues(n - 1);
      assert queues[1..] == seq(n - 1, _ => []);
      ParseOne([]);
    }
  }

  lemma {:induction false} SweptAll(queues: seq<seq<seq<byte>>>, cap: nat)
    requires forall c, k :: 0 <= c < |queues| && 0 <= k < |queues[c]| ==> 0 < |queues[c][k]| <= cap
    ensures multiset(Swept(queues, cap)) == InQueues(queues)
    ensures forall c :: 0 <= c < |queues| ==> Left(queues[c][Taken(queues[c], cap)..], cap) == []
  {
    hide ParseAll;
    if queues != [] {
      var q := queues[0];
      assert forall k :: 0 <= k < |q| ==> 0 < |q[k]| <= cap;
      assert Taken(q, cap) == |q|;
      assert q[..|q|] == q;
      SweptAll(queues[1..], cap);
      forall c | 0 <= c < |queues| ensures Left(queues[c][Taken(queues[c], cap)..], cap) == [] {
        if c > 0 {
          assert queues[c] == queues[1..][c - 1];
        }
      }
    }
  }

  /** End to end: for any sample matrices, any distribution of their complete set of chunks over connections, any
      arrival order and any interleaving of arrivals with the session's gets, mixed with any final values, the
      final sweep leaves the queues empty, and what the session assembles is row `i` of every carrier,
      converted, under channel `i`'s probe - exactly when probes are not shared - and nothing under any other
      index. */
  lemma PipelineDelivers(codec: Codec, feeds: seq<Feed>, finals: seq<Message>, n: nat, events: seq<Event>,
                         slotSize: nat, cap: nat)
    requires ProperFeeds(feeds) && slotSize <= cap
    requires forall m :: m in AllMessages(feeds) ==> FitsSlot(codec, m, slotSize)
    requires forall m :: m in finals ==> Acceptable(m) && !m.RunData?
    requires forall e :: e in events && e.Arrive? ==> Acceptable(e.message)
    requires forall e :: e in events ==> e.c < n && (e.Take? ==> e.cap >= slotSize)
    requires multiset(Arrivals(events)) == multiset(AllMessages(feeds) + finals)
    ensures var s := Play(codec, slotSize, n, events);
            var buffer := s.buffer + Swept(s.queues, cap);
            (forall c :: 0 <= c < n ==> Left(s.queues[c][Taken(s.queues[c], cap)..], cap) == []) &&
            (forall r :: r in buffer ==> WellFormed(r)) &&
            Assembled(buffer).Some? &&
            (Delivered(codec, Assembled(buffer).value, feeds) <==> DistinctProbes(feeds)) &&
            (DistinctProbes(feeds) ==> forall f, i: nat, j: nat :: f in feeds && i < |f.channels| && j < f.count ==>
               AsSent(codec, Assembled(buffer).value, f, i, j)) &&
            forall p :: p in Assembled(buffer).value <==> SomeProbe(feeds, p)
  {
    hide *;
    var s := Play(codec, slotSize, n, events);
    var arrival, extra := Arrivals(events), Buffered(codec, finals, slotSize);
    PlayHolds(codec, slotSize, n, events);
    ArrivalComplete(codec, feeds, finals, arrival, slotSize);
    FittingCap(s, slotSize, cap);
    SweptAll(s.queues, cap);
    SweptHolds(codec, slotSize, s, arrival, Swept(s.queues, cap));
    SameBuffer(codec, feeds, extra, Buffered(codec, arrival, slotSize), s.buffer + Swept(s.queues, cap));
    CompleteBufferDelivers(codec, feeds, extra, s.buffer + Swept(s.queues, cap));
    if DistinctProbes(feeds) {
      DeliveredAsSent(codec, feeds, Assembled(s.buffer + Swept(s.queues, cap)).value);
    }
  }

  /** What a run reports for channel position `i` at time `j`: the matrix element, read, times gain plus offset. */
  ghost predicate AsSent(codec: Codec, data: ProbeData, f: Feed, i: nat, j: nat)
    requires i < |f.channels| && j < f.count
  {
    && f.channels[i].probe in data && |data[f.channels[i].probe]| == f.count
    && i < |f.rows| && j < |f.rows[i]|
    && exists y {:trigger Store(codec, y)} ::
         && data[f.channels[i].probe][j] == Store(codec, y)
         && y == Read(codec, f.kind, f.rows[i][j]) * f.channels[i].gain + f.channels[i].offset
  }

  lemma DeliveredAsSent(codec: Codec, feeds: seq<Feed>, data: ProbeData)
    requires ProperFeeds(feeds) && Delivered(codec, data, feeds)
    ensures forall f, i: nat, j: nat :: f in feeds && i < |f.channels| && j < f.count ==> AsSent(codec, data, f, i, j)
  {
    hide Signal, Scaled, Store, Read;
    forall f, i: nat, j: nat | f in feeds && i < |f.channels| && j < f.count ensures AsSent(codec, data, f, i, j) {
      assert Proper(f) && HasSignal(codec, data, f, i);
      assert ProperRow(f, f.rows[i]);
      assert Signal(codec, f, i, 0, f.count)[j] == Sample(codec, f, i, 0 + j);
      ScaledMeans(Read(codec, f.kind, f.rows[i][j]), f.channels[i].gain, f.channels[i].offset);
    }
  }

  lemma FittingCap(s: Streams, slotSize: nat, cap: nat)
    requires Fitting(s, slotSize) && slotSize <= cap
    ensures forall c, k :: 0 <= c < |s.queues| && 0 <= k < |s.queues[c]| ==> 0 < |s.queues[c][k]| <= cap
  {
  }

  lemma SweptHolds(codec: Codec, slotSize: nat, s: Streams, arrived: seq<Message>, swept: seq<ChunkRecord>)
    requires (forall m :: m in arrived ==> Acceptable(m)) && Held(codec, slotSize, s, arrived)
    requires multiset(swept) == InQueues(s.queues)
    ensures multiset(s.buffer + swept) == multiset(Buffered(codec, arrived, slotSize))
  {
    hide InQueues, Buffered;
  }

  lemma SameBuffer(codec: Codec, feeds: seq<Feed>, extra: seq<ChunkRecord>, a: seq<ChunkRecord>, b: seq<ChunkRecord>)
    requires Complete(codec, feeds, extra, a) && multiset(a) == multiset(b)
    ensures Complete(codec, feeds, extra, b)
  {
  }

  ghost predicate IsMock(f: Feed) {
    |f.channels| < WORD32 && f.channels == MockChannels(|f.channels|)
  }

  /** The mock server numbers probes by channel on every carrier, so the data it sends for a run comes out
      as its signals exactly while it stands for at most one carrier. */
  lemma MockServerProbes(feeds: seq<Feed>)
    requires ProperFeeds(feeds) && forall f :: f in feeds ==> IsMock(f)
    ensures DistinctProbes(feeds) <==> |feeds| <= 1
  {
    hide Proper;
    forall f | f in feeds ensures |f.channels| > 0 && f.channels[0].probe == 0 {
      assert Proper(f) && IsMock(f);
      HasChannels(f);
    }
    if |feeds| > 1 {
      assert feeds[0].path != feeds[1].path;
      assert SameProbe(feeds[0], 0, feeds[1], 0);
    } else {
      forall f, g, i: nat, j: nat | f in feeds && g in feeds && SameProbe(f, i, g, j) ensures f == g && i == j {
      }
    }
  }

  lemma HasChannels(f: Feed)
    requires Proper(f)
    ensures |f.channels| > 0
  {
  }
}
