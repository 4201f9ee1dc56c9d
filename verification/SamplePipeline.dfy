/**
 From the messages of every carrier, in any order, through decoder, blob, parser and assembly, to the run's
 data.
 */
module SamplePipeline {
  import opened Common
  import opened SampleBlob
  import opened SampleQueue
  import opened SampleDecoder
  import opened SampleSender
  import opened SampleRecords
  import opened SampleAssembly
  import opened SampleDelivery

  // ---------------------------------------------------------------- the groups of a complete buffer

  function AllRecords(codec: Codec, feeds: seq<Feed>): seq<ChunkRecord>
    requires forall f :: f in feeds ==> Proper(f)
  {
    if feeds == [] then []
    else
      var n := |feeds| - 1;
      AllRecords(codec, feeds[..n]) + Records(codec, feeds[n], ChunkCount(feeds[n].count))
  }

  lemma {:induction false} GroupOfConcat(a: seq<ChunkRecord>, b: seq<ChunkRecord>, key: Key)
    ensures Group(a + b, key) == Group(a, key) + Group(b, key)
  {
    if b == [] {
      assert a + b == a;
    } else {
      var n := |b| - 1;
      assert (a + b)[..|a + b| - 1] == a + b[..n];
      GroupOfConcat(a, b[..n], key);
    }
  }

  lemma {:induction false} GroupUniform(a: seq<ChunkRecord>, key: Key, all: bool)
    requires forall r :: r in a ==> (KeyOf(r) == key) == all
    ensures Group(a, key) == if all then a else []
  {
    if a != [] {
      var n := |a| - 1;
      assert a == a[..n] + [a[n]];
      GroupUniform(a[..n], key, all);
    }
  }

  lemma {:induction false} GroupOfFeeds(codec: Codec, feeds: seq<Feed>, f: Feed, found: bool)
    requires ProperFeeds(feeds) && Proper(f)
    requires if found then f in feeds else forall g :: g in feeds ==> g.path != f.path
    ensures Group(AllRecords(codec, feeds), (f.path, SAMPLE_TYPE_OP))
         == if found then Records(codec, f, ChunkCount(f.count)) else []
  {
    hide Proper, ProperRow, SignalRows, ChunkCount, Group, Records;
    var key := (f.path, SAMPLE_TYPE_OP);
    if feeds == [] {
      GroupUniform([], key, false);
    } else {
      var n := |feeds| - 1;
      var before, g := feeds[..n], feeds[n];
      assert feeds == before + [g];
      var rs := Records(codec, g, ChunkCount(g.count));
      assert found && g.path == f.path ==> g == f;
      assert forall h :: h in before ==> h.path != g.path;
      GroupOfConcat(AllRecords(codec, before), rs, key);
      GroupUniform(rs, key, g.path == f.path);
      GroupOfFeeds(codec, before, f, found && g.path != f.path);
    }
  }

  /** A buffer that holds every carrier's chunks, and otherwise no operation samples, in any order. */
  ghost predicate Complete(codec: Codec, feeds: seq<Feed>, extra: seq<ChunkRecord>, buffer: seq<ChunkRecord>) {
    && ProperFeeds(feeds)
    && multiset(buffer) == multiset(AllRecords(codec, feeds) + extra)
    && forall r :: r in extra ==> WellFormed(r) && r.kind != SAMPLE_TYPE_OP
  }

  lemma CompleteGroup(codec: Codec, feeds: seq<Feed>, extra: seq<ChunkRecord>, buffer: seq<ChunkRecord>, f: Feed)
    requires Complete(codec, feeds, extra, buffer) && f in feeds
    ensures SortByChunk(Group(buffer, (f.path, SAMPLE_TYPE_OP))) == Records(codec, f, ChunkCount(f.count))
  {
    var key, all := (f.path, SAMPLE_TYPE_OP), AllRecords(codec, feeds);
    GroupOfConcat(all, extra, key);
    GroupOfFeeds(codec, feeds, f, true);
    GroupUniform(extra, key, false);
    var rs := Records(codec, f, ChunkCount(f.count));
    assert Group(all + extra, key) == rs;
    SortedGroup(buffer, all + extra, key);
  }

  lemma {:induction false} RecordsFrom(codec: Codec, feeds: seq<Feed>, r: ChunkRecord)
    requires forall f :: f in feeds ==> Proper(f)
    ensures r in AllRecords(codec, feeds)
        ==> WellFormed(r) && exists f :: f in feeds && KeyOf(r) == (f.path, SAMPLE_TYPE_OP)
  {
    hide Proper, SignalRows;
    if feeds != [] {
      var n := |feeds| - 1;
      RecordsFrom(codec, feeds[..n], r);
      assert feeds[n] in feeds;
      assert forall f :: f in feeds[..n] ==> f in feeds;
    }
  }

  lemma {:induction false} RecordsOf(codec: Codec, feeds: seq<Feed>, f: Feed)
    requires (forall g :: g in feeds ==> Proper(g)) && f in feeds
    ensures ChunkCount(f.count) > 0 && RecordAt(codec, f, 0) in AllRecords(codec, feeds)
  {
    hide ProperRow, SignalRows;
    var n := |feeds| - 1;
    if f == feeds[n] {
      assert Records(codec, f, ChunkCount(f.count))[0] == RecordAt(codec, f, 0);
    } else {
      RecordsOf(codec, feeds[..n], f);
    }
  }

  lemma CompleteKeys(codec: Codec, feeds: seq<Feed>, extra: seq<ChunkRecord>, buffer: seq<ChunkRecord>)
    requires Complete(codec, feeds, extra, buffer)
    ensures forall r :: r in buffer ==> WellFormed(r)
    ensures forall f :: f in feeds ==> (f.path, SAMPLE_TYPE_OP) in Keys(buffer)
    ensures forall key :: key in Keys(buffer) && key.1 == SAMPLE_TYPE_OP
                     ==> exists f :: f in feeds && key.0 == f.path
  {
    hide AllRecords, Keys, Proper, SignalRows;
    var all := AllRecords(codec, feeds);
    forall r | r in buffer ensures r in all || r in extra {
      assert r in multiset(buffer);
    }
    forall r | r in all ensures WellFormed(r) && exists f :: f in feeds && KeyOf(r) == (f.path, SAMPLE_TYPE_OP) {
      RecordsFrom(codec, feeds, r);
    }
    forall f | f in feeds ensures (f.path, SAMPLE_TYPE_OP) in Keys(buffer) {
      RecordsOf(codec, feeds, f);
      KeysFrom(buffer);
      assert RecordAt(codec, f, 0) in multiset(all + extra);
      assert RecordAt(codec, f, 0) in buffer;
    }
    KeysFrom(buffer);
  }

  // ---------------------------------------------------------------- the order groups were met

  function FeedFor(feeds: seq<Feed>, path: seq<byte>): (r: Option<Feed>)
    ensures r.Some? ==> r.value in feeds && r.value.path == path
    ensures r.None? ==> forall f :: f in feeds ==> f.path != path
  {
    if feeds == [] then None
    else if feeds[|feeds| - 1].path == path then Some(feeds[|feeds| - 1])
    else FeedFor(feeds[..|feeds| - 1], path)
  }

  function OrderOf(feeds: seq<Feed>, keys: seq<Key>): (order: seq<Feed>)
    ensures forall f :: f in order ==> f in feeds && (f.path, SAMPLE_TYPE_OP) in keys
  {
    if keys == [] then []
    else
      var key := keys[|keys| - 1];
      var f := FeedFor(feeds, key.0);
      OrderOf(feeds, keys[..|keys| - 1]) + if key.1 == SAMPLE_TYPE_OP && f.Some? then [f.value] else []
  }

  lemma {:induction false} OrderIsProper(feeds: seq<Feed>, keys: seq<Key>)
    requires ProperFeeds(feeds)
    requires forall i, j :: 0 <= i < j < |keys| ==> keys[i] != keys[j]
    ensures ProperFeeds(OrderOf(feeds, keys))
    ensures forall f :: f in feeds && (f.path, SAMPLE_TYPE_OP) in keys ==> f in OrderOf(feeds, keys)
  {
    hide Proper, FeedFor;
    if keys != [] {
      var n := |keys| - 1;
      OrderIsProper(feeds, keys[..n]);
      assert keys == keys[..n] + [keys[n]];
      forall f | f in feeds && f.path == keys[n].0 ensures FeedFor(feeds, keys[n].0) == Some(f) {
        FeedForPath(feeds, f);
      }
    }
  }

  lemma FeedForPath(feeds: seq<Feed>, f: Feed)
    requires ProperFeeds(feeds) && f in feeds
    ensures FeedFor(feeds, f.path) == Some(f)
  {
    hide Proper;
  }

  lemma {:induction false} KeysAddFeeds(codec: Codec, feeds: seq<Feed>, extra: seq<ChunkRecord>,
                                        buffer: seq<ChunkRecord>, keys: seq<Key>)
    requires Complete(codec, feeds, extra, buffer) && forall r :: r in buffer ==> WellFormed(r)
    requires forall key :: key in keys && key.1 == SAMPLE_TYPE_OP ==> exists f :: f in feeds && key.0 == f.path
    ensures AddKeys(buffer, keys) == Some(AddFeeds(codec, OrderOf(feeds, keys)))
  {
    hide *;
    CompleteProper(codec, feeds, extra, buffer);
    AddNoKeys(buffer);
    OrderOfNone(codec, feeds);
    if keys != [] {
      var n := |keys| - 1;
      var before, key := keys[..n], keys[n];
      KeysAddFeeds(codec, feeds, extra, buffer, before);
      AddOneKey(buffer, keys, n);
      assert keys[..n + 1] == keys;
      OneKeyAdds(codec, feeds, extra, buffer, AddFeeds(codec, OrderOf(feeds, before)), key);
      OrderEnd(codec, feeds, keys);
    }
  }

  lemma CompleteProper(codec: Codec, feeds: seq<Feed>, extra: seq<ChunkRecord>, buffer: seq<ChunkRecord>)
    requires Complete(codec, feeds, extra, buffer)
    ensures forall f :: f in feeds ==> Proper(f)
  {
  }

  lemma OrderOfNone(codec: Codec, feeds: seq<Feed>)
    requires forall f :: f in feeds ==> Proper(f)
    ensures AddFeeds(codec, OrderOf(feeds, [])) == map[]
  {
  }

  /** One group of the buffer adds one carrier. */
  lemma OneKeyAdds(codec: Codec, feeds: seq<Feed>, extra: seq<ChunkRecord>, buffer: seq<ChunkRecord>, m: ProbeData,
                   key: Key)
    requires Complete(codec, feeds, extra, buffer) && forall r :: r in buffer ==> WellFormed(r)
    requires key.1 == SAMPLE_TYPE_OP ==> exists f :: f in feeds && key.0 == f.path
    ensures AddKey(m, buffer, key)
         == Some(if key.1 == SAMPLE_TYPE_OP
                 then AddFeed(codec, m, FeedFor(feeds, key.0).value, |FeedFor(feeds, key.0).value.channels|) else m)
  {
    hide Complete, Proper, AddGroup, Group, SortByChunk, Records, AddFeed;
    CompleteProper(codec, feeds, extra, buffer);
    if key.1 == SAMPLE_TYPE_OP {
      var f := FeedFor(feeds, key.0).value;
      CompleteGroup(codec, feeds, extra, buffer, f);
      GroupAdds(codec, m, f, |f.channels|);
    }
  }

  lemma OrderEnd(codec: Codec, feeds: seq<Feed>, keys: seq<Key>)
    requires keys != [] && forall f :: f in feeds ==> Proper(f)
    requires keys[|keys| - 1].1 == SAMPLE_TYPE_OP ==> FeedFor(feeds, keys[|keys| - 1].0).Some?
    ensures var n := |keys| - 1;
            var m := AddFeeds(codec, OrderOf(feeds, keys[..n]));
            AddFeeds(codec, OrderOf(feeds, keys))
            == if keys[n].1 == SAMPLE_TYPE_OP
               then AddFeed(codec, m, FeedFor(feeds, keys[n].0).value, |FeedFor(feeds, keys[n].0).value.channels|)
               else m
  {
    hide Proper, AddFeed, FeedFor;
    var n := |keys| - 1;
    var order := OrderOf(feeds, keys[..n]);
    if keys[n].1 == SAMPLE_TYPE_OP {
      assert OrderOf(feeds, keys) == order + [FeedFor(feeds, keys[n].0).value];
      assert (order + [FeedFor(feeds, keys[n].0).value])[..|order|] == order;
    } else {
      assert OrderOf(feeds, keys) == order;
    }
  }

  /** Main result of assembly: whatever order the chunks of all carriers arrive in, interleaved with any
      final values, assembly succeeds, and it reports exactly every channel's signal under its probe if and
      only if no two channels share a probe. */
  lemma CompleteBufferDelivers(codec: Codec, feeds: seq<Feed>, extra: seq<ChunkRecord>, buffer: seq<ChunkRecord>)
    requires Complete(codec, feeds, extra, buffer)
    ensures forall r :: r in buffer ==> WellFormed(r)
    ensures Assembled(buffer).Some?
    ensures Delivered(codec, Assembled(buffer).value, feeds) <==> DistinctProbes(feeds)
    ensures forall p :: p in Assembled(buffer).value <==> SomeProbe(feeds, p)
  {
    hide Proper, AddFeeds, AddKeys, Keys, HasSignal, SameProbe, IsProbe, OrderOf;
    CompleteKeys(codec, feeds, extra, buffer);
    KeysFrom(buffer);
    KeysAddFeeds(codec, feeds, extra, buffer, Keys(buffer));
    OrderIsProper(feeds, Keys(buffer));
    var order := OrderOf(feeds, Keys(buffer));
    assert forall f :: f in order <==> f in feeds;
    FeedsDelivered(codec, order);
    forall p ensures p in AddFeeds(codec, order) <==> SomeProbe(feeds, p) {
      AddFeedsDomain(codec, order, p);
    }
  }

  // ---------------------------------------------------------------- from messages to the buffer

  function AllMessages(feeds: seq<Feed>): seq<Message>
    requires forall f :: f in feeds ==> Proper(f)
  {
    if feeds == [] then []
    else
      assert Proper(feeds[|feeds| - 1]);
      AllMessages(feeds[..|feeds| - 1]) + Messages(feeds[|feeds| - 1], ChunkCount(feeds[|feeds| - 1].count))
  }

  /** What a run of `handle_data_message` calls leaves in an empty queue. */
  function QueueAfter(codec: Codec, ms: seq<Message>, slotSize: nat): seq<seq<byte>>
    requires forall m :: m in ms ==> Acceptable(m)
  {
    if ms == [] then []
    else QueueAfter(codec, ms[..|ms| - 1], slotSize) + Queued(codec, ms[|ms| - 1], slotSize)
  }

  /** The records buffered from drained blobs; ignored and broken blobs leave none. */
  function ParseAll(blobs: seq<seq<byte>>): seq<ChunkRecord> {
    if blobs == [] then []
    else
      var r := Parse(blobs[|blobs| - 1]);
      ParseAll(blobs[..|blobs| - 1]) + if r.Some? then [r.value] else []
  }

  lemma {:induction false} ParseAllConcat(a: seq<seq<byte>>, b: seq<seq<byte>>)
    ensures ParseAll(a + b) == ParseAll(a) + ParseAll(b)
  {
    hide Parse;
    if b == [] {
      assert a + b == a;
    } else {
      assert (a + b)[..|a + b| - 1] == a + b[..|b| - 1];
      ParseAllConcat(a, b[..|b| - 1]);
    }
  }

  lemma {:induction false} QueueAfterConcat(codec: Codec, a: seq<Message>, b: seq<Message>, slotSize: nat)
    requires (forall m :: m in a ==> Acceptable(m)) && forall m :: m in b ==> Acceptable(m)
    ensures QueueAfter(codec, a + b, slotSize) == QueueAfter(codec, a, slotSize) + QueueAfter(codec, b, slotSize)
  {
    hide Acceptable, Queued;
    if b == [] {
      assert a + b == a;
    } else {
      var n := |b| - 1;
      assert (a + b)[..|a + b| - 1] == a + b[..n];
      var front := QueueAfter(codec, a, slotSize);
      QueueAfterConcat(codec, a, b[..n], slotSize);
      assert front + (QueueAfter(codec, b[..n], slotSize) + Queued(codec, b[n], slotSize))
          == front + QueueAfter(codec, b[..n], slotSize) + Queued(codec, b[n], slotSize);
    }
  }

  /** The buffered records of some messages. */
  function Buffered(codec: Codec, ms: seq<Message>, slotSize: nat): seq<ChunkRecord>
    requires forall m :: m in ms ==> Acceptable(m)
  {
    ParseAll(QueueAfter(codec, ms, slotSize))
  }

  lemma BufferedConcat(codec: Codec, a: seq<Message>, b: seq<Message>, slotSize: nat)
    requires (forall m :: m in a ==> Acceptable(m)) && forall m :: m in b ==> Acceptable(m)
    ensures Buffered(codec, a + b, slotSize) == Buffered(codec, a, slotSize) + Buffered(codec, b, slotSize)
  {
    QueueAfterConcat(codec, a, b, slotSize);
    ParseAllConcat(QueueAfter(codec, a, slotSize), QueueAfter(codec, b, slotSize));
  }

  lemma WithoutOne(s: seq<Message>, i: nat)
    requires i < |s|
    ensures multiset(s[..i] + s[i + 1..]) == multiset(s) - multiset{s[i]}
  {
    assert s == s[..i] + [s[i]] + s[i + 1..];
  }

  /** One message taken out takes its records out. */
  lemma BufferedWithout(codec: Codec, s: seq<Message>, i: nat, slotSize: nat)
    requires i < |s| && forall m :: m in s ==> Acceptable(m)
    ensures multiset(Buffered(codec, s, slotSize))
         == multiset(Buffered(codec, s[..i] + s[i + 1..], slotSize)) + multiset(Buffered(codec, [s[i]], slotSize))
  {
    hide Acceptable, Buffered;
    assert s == s[..i] + [s[i]] + s[i + 1..];
    BufferedConcat(codec, s[..i] + [s[i]], s[i + 1..], slotSize);
    BufferedConcat(codec, s[..i], [s[i]], slotSize);
    BufferedConcat(codec, s[..i], s[i + 1..], slotSize);
    MiddleApart(Buffered(codec, s[..i], slotSize), Buffered(codec, [s[i]], slotSize),
                Buffered(codec, s[i + 1..], slotSize));
  }

  lemma MiddleApart<T>(a: seq<T>, x: seq<T>, b: seq<T>)
    ensures multiset(a + x + b) == multiset(a + b) + multiset(x)
  {
  }

  lemma {:induction false} BufferedPermuted(codec: Codec, a: seq<Message>, b: seq<Message>, slotSize: nat)
    requires multiset(a) == multiset(b) && forall m :: m in a ==> Acceptable(m)
    ensures forall m :: m in b ==> Acceptable(m)
    ensures multiset(Buffered(codec, a, slotSize)) == multiset(Buffered(codec, b, slotSize))
  {
    hide Acceptable, Buffered;
    SameElements(a, b);
    if a == [] {
      assert |multiset(b)| == 0;
      assert b == [];
    } else {
      var n := |a| - 1;
      assert a[n] in b;
      var i :| 0 <= i < |b| && b[i] == a[n];
      WithoutOne(a, n);
      WithoutOne(b, i);
      BufferedPermuted(codec, a[..n] + a[n + 1..], b[..i] + b[i + 1..], slotSize);
      BufferedWithout(codec, a, n, slotSize);
      BufferedWithout(codec, b, i, slotSize);
    }
  }

  lemma SameElements<T>(a: seq<T>, b: seq<T>)
    requires multiset(a) == multiset(b)
    ensures forall x :: x in a <==> x in b
  {
    assert forall x :: x in a <==> x in multiset(a);
    assert forall x :: x in b <==> x in multiset(b);
  }

  ghost predicate FitsSlot(codec: Codec, m: Message, slotSize: nat) {
    Sampled(m) && Acceptable(m) ==> ContentOf(codec, m).Some? ==> |Blob(ContentOf(codec, m).value)| <= slotSize
  }

  lemma {:induction false} MessagesBuffered(codec: Codec, f: Feed, n: nat, slotSize: nat)
    requires Proper(f) && n <= ChunkCount(f.count)
    requires forall m :: m in Messages(f, n) ==> FitsSlot(codec, m, slotSize)
    ensures forall m :: m in Messages(f, n) ==> Acceptable(m)
    ensures Buffered(codec, Messages(f, n), slotSize) == Records(codec, f, n)
  {
    hide Shaped, Acceptable, ContentOf, Blob, Parse, RecordAt, MessageOf, FitsSlot, Sampled, Buffered, Messages,
         Records;
    NothingSent(codec, f, slotSize);
    if n > 0 {
      var m := MessageOf(f, n - 1);
      MessageAdded(codec, f, n);
      MessagesBuffered(codec, f, n - 1, slotSize);
      MessageDelivered(codec, f, n - 1);
      BufferedConcat(codec, Messages(f, n - 1), [m], slotSize);
      OneBuffered(codec, m, slotSize);
    }
  }

  lemma NothingSent(codec: Codec, f: Feed, slotSize: nat)
    requires Proper(f)
    ensures Messages(f, 0) == [] && Records(codec, f, 0) == [] && Buffered(codec, [], slotSize) == []
  {
    NothingBuffered(codec, slotSize);
  }

  lemma MessageAdded(codec: Codec, f: Feed, n: nat)
    requires Proper(f) && 0 < n <= ChunkCount(f.count)
    ensures Messages(f, n) == Messages(f, n - 1) + [MessageOf(f, n - 1)]
    ensures Records(codec, f, n) == Records(codec, f, n - 1) + [RecordAt(codec, f, n - 1)]
    ensures MessageOf(f, n - 1) in Messages(f, n) && forall x :: x in Messages(f, n - 1) ==> x in Messages(f, n)
  {
    hide MessageOf, RecordAt, Shaped;
  }

  lemma OneBuffered(codec: Codec, m: Message, slotSize: nat)
    requires Sampled(m) && Acceptable(m) && ContentOf(codec, m).Some? && FitsSlot(codec, m, slotSize)
    ensures var r := Parse(Blob(ContentOf(codec, m).value));
            Buffered(codec, [m], slotSize) == if r.Some? then [r.value] else []
  {
    hide Blob, Parse, ContentOf, Acceptable, ParseAll;
    QueuedAlone(codec, m, slotSize);
    ParseOne(Blob(ContentOf(codec, m).value));
  }

  lemma QueuedAlone(codec: Codec, m: Message, slotSize: nat)
    requires Acceptable(m)
    ensures QueueAfter(codec, [m], slotSize) == Queued(codec, m, slotSize)
  {
    hide Acceptable, Queued;
    assert [m][..0] == [];
    assert QueueAfter(codec, [], slotSize) == [];
  }

  lemma ParseOne(blob: seq<byte>)
    ensures ParseAll([]) == []
    ensures ParseAll([blob]) == if Parse(blob).Some? then [Parse(blob).value] else []
  {
    hide Parse;
    var blobs: seq<seq<byte>> := [blob];
    assert blobs[..0] == [];
  }

  lemma {:induction false} FeedsBuffered(codec: Codec, feeds: seq<Feed>, slotSize: nat)
    requires forall f :: f in feeds ==> Proper(f)
    requires forall m :: m in AllMessages(feeds) ==> FitsSlot(codec, m, slotSize)
    ensures forall m :: m in AllMessages(feeds) ==> Acceptable(m)
    ensures Buffered(codec, AllMessages(feeds), slotSize) == AllRecords(codec, feeds)
  {
    if feeds != [] {
      var n := |feeds| - 1;
      assert Proper(feeds[n]);
      var ms := Messages(feeds[n], ChunkCount(feeds[n].count));
      FeedsBuffered(codec, feeds[..n], slotSize);
      MessagesBuffered(codec, feeds[n], ChunkCount(feeds[n].count), slotSize);
      BufferedConcat(codec, AllMessages(feeds[..n]), ms, slotSize);
      hide Buffered;
    }
    hide Shaped, Acceptable, FitsSlot;
  }

  /** Messages that carry no operation samples leave no records of that kind. */
  lemma {:induction false} FinalsBuffered(codec: Codec, ms: seq<Message>, slotSize: nat)
    requires forall m :: m in ms ==> Acceptable(m) && !m.RunData?
    ensures forall r :: r in Buffered(codec, ms, slotSize) ==> WellFormed(r) && r.kind != SAMPLE_TYPE_OP
  {
    hide Acceptable, Buffered, WellFormed;
    NothingBuffered(codec, slotSize);
    if ms != [] {
      var n := |ms| - 1;
      FinalsBuffered(codec, ms[..n], slotSize);
      BufferedConcat(codec, ms[..n], [ms[n]], slotSize);
      assert ms == ms[..n] + [ms[n]];
      FinalBuffered(codec, ms[n], slotSize);
    }
  }

  lemma NothingBuffered(codec: Codec, slotSize: nat)
    ensures Buffered(codec, [], slotSize) == []
  {
  }

  lemma FinalBuffered(codec: Codec, m: Message, slotSize: nat)
    requires Acceptable(m) && !m.RunData?
    ensures forall r :: r in Buffered(codec, [m], slotSize) ==> WellFormed(r) && r.kind != SAMPLE_TYPE_OP
  {
    hide Blob, Parse, ContentOf, Acceptable, ParseAll, WellFormed, QueueAfter;
    QueuedAlone(codec, m, slotSize);
    ParseOne([]);
    if Sampled(m) && ContentOf(codec, m).Some? {
      FinalKind(codec, m);
      ParseOne(Blob(ContentOf(codec, m).value));
    }
  }

  lemma FinalKind(codec: Codec, m: Message)
    requires Sampled(m) && Acceptable(m) && !m.RunData? && ContentOf(codec, m).Some?
    ensures var r := Parse(Blob(ContentOf(codec, m).value));
            r.Some? ==> WellFormed(r.value) && r.value.kind == SAMPLE_TYPE_OP_END
  {
    var c := ContentOf(codec, m).value;
    assert c.kind == SAMPLE_TYPE_OP_END;
    BlobRoundTrip(c);
    ParsedIsWellFormed(Blob(c));
    hide Blob, Parse, ContentOf, Acceptable, WellFormed, Rows;
  }

  lemma ArrivalComplete(codec: Codec, feeds: seq<Feed>, finals: seq<Message>, arrival: seq<Message>, slotSize: nat)
    requires ProperFeeds(feeds) && forall m :: m in AllMessages(feeds) ==> FitsSlot(codec, m, slotSize)
    requires forall m :: m in finals ==> Acceptable(m) && !m.RunData?
    requires multiset(arrival) == multiset(AllMessages(feeds) + finals)
    ensures forall m :: m in arrival ==> Acceptable(m)
    ensures Complete(codec, feeds, Buffered(codec, finals, slotSize), Buffered(codec, arrival, slotSize))
  {
    FeedsBuffered(codec, feeds, slotSize);
    hide Acceptable, Buffered, WellFormed, FitsSlot;
    FinalsBuffered(codec, finals, slotSize);
    BufferedConcat(codec, AllMessages(feeds), finals, slotSize);
    BufferedPermuted(codec, AllMessages(feeds) + finals, arrival, slotSize);
    hide ProperFeeds;
  }
}
