/**
 The whole sample pipeline: any arrival order of every carrier's chunks ends in the same run data, and
 that data is every channel's signal under its probe index exactly when no two channels share a probe.
 */
module SampleDelivery {
  import opened Common
  import opened SampleBlob
  import opened SampleDecoder
  import opened SampleSender
  import opened SampleRecords
  import opened SampleAssembly
  import opened StableSort

  // ---------------------------------------------------------------- sorting undoes any arrival order

  lemma EndApart<T>(s: seq<T>, x: T)
    ensures multiset(s + [x]) == multiset(s) + multiset{x} && s + [] == s
  {
  }

  lemma {:induction false} GroupCounts(buffer: seq<ChunkRecord>, key: Key, r: ChunkRecord)
    ensures multiset(Group(buffer, key))[r] == if KeyOf(r) == key then multiset(buffer)[r] else 0
  {
    if buffer != [] {
      var n := |buffer| - 1;
      GroupCounts(buffer[..n], key, r);
      LastApart(buffer);
      EndApart(Group(buffer[..n], key), buffer[n]);
    }
  }

  /** Sorting a group gives one result for every order in which its chunks arrive. */
  lemma SortedGroup(buffer: seq<ChunkRecord>, other: seq<ChunkRecord>, key: Key)
    requires multiset(buffer) == multiset(other) && StrictlySorted(Group(other, key), ChunkNumber)
    ensures SortByChunk(Group(buffer, key)) == Group(other, key)
  {
    var g, h := Group(buffer, key), Group(other, key);
    forall r ensures multiset(g)[r] == multiset(h)[r] {
      GroupCounts(buffer, key, r);
      GroupCounts(other, key, r);
    }
    assert multiset(g) == multiset(h);
    SortSorts(g, ChunkNumber);
    SortedUnique(SortByChunk(g), h, ChunkNumber);
  }

  // ---------------------------------------------------------------- one carrier's group

  function Records(codec: Codec, f: Feed, n: nat): (rs: seq<ChunkRecord>)
    requires Proper(f) && n <= ChunkCount(f.count)
    ensures |rs| == n && forall k :: 0 <= k < n ==> rs[k] == RecordAt(codec, f, k)
  {
    if n == 0 then [] else Records(codec, f, n - 1) + [RecordAt(codec, f, n - 1)]
  }

  lemma {:induction false} SignalJoins(codec: Codec, f: Feed, i: nat, lo: nat, mid: nat, hi: nat)
    requires Proper(f) && i < |f.channels| && lo <= mid <= hi <= f.count
    ensures Signal(codec, f, i, lo, mid) + Signal(codec, f, i, mid, hi) == Signal(codec, f, i, lo, hi)
  {
    hide Proper, Sample;
  }

  lemma {:induction false} RowOfRecords(codec: Codec, f: Feed, n: nat, i: nat)
    requires Proper(f) && 0 < n <= ChunkCount(f.count) && i < |f.channels|
    ensures End(f, n - 1) <= f.count
    ensures RowOf(Records(codec, f, n), i) == Some(Signal(codec, f, i, 0, End(f, n - 1)))
  {
    hide Proper, Signal, Sample;
    ChunkBounds(f, n - 1);
    var rs := Records(codec, f, n);
    assert rs[..n - 1] == Records(codec, f, n - 1);
    if n == 1 {
      assert RowOf(rs[..0], i) == Some([]);
    } else {
      ChunkBounds(f, n - 2);
      RowOfRecords(codec, f, n - 1, i);
    }
    SignalJoins(codec, f, i, 0, Start(n - 1), End(f, n - 1));
  }

  /** The dictionary after the first `n` channels of one carrier. */
  function AddFeed(codec: Codec, m: ProbeData, f: Feed, n: nat): ProbeData
    requires Proper(f) && n <= |f.channels|
  {
    if n == 0 then m
    else Extended(AddFeed(codec, m, f, n - 1), f.channels[n - 1].probe, Signal(codec, f, n - 1, 0, f.count))
  }

  lemma HasChunk(f: Feed)
    requires Proper(f)
    ensures ChunkCount(f.count) > 0
  {
  }

  lemma {:induction false} GroupAdds(codec: Codec, m: ProbeData, f: Feed, n: nat)
    requires Proper(f) && n <= |f.channels|
    ensures ChunkCount(f.count) > 0
    ensures var rs := Records(codec, f, ChunkCount(f.count));
            WellFormed(rs[0]) && rs[0].channels == |f.channels| &&
            AddGroup(m, rs, n) == Some(AddFeed(codec, m, f, n))
  {
    hide Proper, Signal, Sample, RowOf, SignalRows, ChunkCount, End, Start;
    HasChunk(f);
    var c := ChunkCount(f.count);
    var rs := Records(codec, f, c);
    assert rs[0] == RecordAt(codec, f, 0);
    if n > 0 {
      GroupAdds(codec, m, f, n - 1);
      RowOfRecords(codec, f, c, n - 1);
      ChunkBounds(f, c - 1);
    }
  }

  // ---------------------------------------------------------------- all carriers

  ghost predicate ProperFeeds(feeds: seq<Feed>) {
    && (forall f :: f in feeds ==> Proper(f))
    && forall a, b :: 0 <= a < b < |feeds| ==> feeds[a].path != feeds[b].path
  }

  function AddFeeds(codec: Codec, feeds: seq<Feed>): ProbeData
    requires forall f :: f in feeds ==> Proper(f)
  {
    if feeds == [] then map[]
    else
      var n := |feeds| - 1;
      AddFeed(codec, AddFeeds(codec, feeds[..n]), feeds[n], |feeds[n].channels|)
  }

  ghost predicate HasSignal(codec: Codec, m: ProbeData, f: Feed, i: nat)
    requires Proper(f) && i < |f.channels|
  {
    f.channels[i].probe in m && m[f.channels[i].probe] == Signal(codec, f, i, 0, f.count)
  }

  /** Every channel's signal is reported, whole and alone, under its probe index. */
  ghost predicate Delivered(codec: Codec, m: ProbeData, feeds: seq<Feed>)
    requires forall f :: f in feeds ==> Proper(f)
  {
    forall f, i: nat :: f in feeds && i < |f.channels| ==> HasSignal(codec, m, f, i)
  }

  ghost predicate SameProbe(f: Feed, i: nat, g: Feed, j: nat) {
    i < |f.channels| && j < |g.channels| && f.channels[i].probe == g.channels[j].probe
  }

  ghost predicate DistinctProbes(feeds: seq<Feed>) {
    forall f, g, i: nat, j: nat :: f in feeds && g in feeds && SameProbe(f, i, g, j) ==> f == g && i == j
  }

  ghost predicate IsProbe(f: Feed, n: nat, p: nat) {
    exists i :: 0 <= i < n <= |f.channels| && f.channels[i].probe == p
  }

  ghost predicate SomeProbe(feeds: seq<Feed>, p: nat) {
    exists f :: f in feeds && IsProbe(f, |f.channels|, p)
  }

  lemma ProbeShared(f: Feed, i: nat, g: Feed, n: nat)
    requires i < |f.channels| && n <= |g.channels|
    ensures IsProbe(g, n, f.channels[i].probe) <==> exists j: nat :: j < n && SameProbe(f, i, g, j)
  {
    if IsProbe(g, n, f.channels[i].probe) {
      var j :| 0 <= j < n && g.channels[j].probe == f.channels[i].probe;
      assert SameProbe(f, i, g, j);
    }
  }

  lemma {:induction false} AddFeedDomain(codec: Codec, m: ProbeData, f: Feed, n: nat, p: nat)
    requires Proper(f) && n <= |f.channels|
    ensures p in AddFeed(codec, m, f, n) <==> p in m || IsProbe(f, n, p)
    ensures p in m && !IsProbe(f, n, p) ==> AddFeed(codec, m, f, n)[p] == m[p]
  {
    if n > 0 {
      AddFeedDomain(codec, m, f, n - 1, p);
      assert f.channels[n - 1].probe == p ==> IsProbe(f, n, p);
      assert IsProbe(f, n, p) <==> IsProbe(f, n - 1, p) || f.channels[n - 1].probe == p;
      hide Proper, Signal, IsProbe;
    }
  }

  lemma {:induction false} AddFeedSets(codec: Codec, m: ProbeData, f: Feed, n: nat, i: nat)
    requires Proper(f) && i < n <= |f.channels|
    requires forall j: nat :: SameProbe(f, i, f, j) ==> i == j
    requires f.channels[i].probe !in m
    ensures HasSignal(codec, AddFeed(codec, m, f, n), f, i)
  {
    hide Proper, Signal;
    var p := f.channels[i].probe;
    if i < n - 1 {
      AddFeedSets(codec, m, f, n - 1, i);
      assert SameProbe(f, i, f, n - 1) ==> i == n - 1;
    } else {
      AddFeedDomain(codec, m, f, n - 1, p);
      ProbeShared(f, i, f, n - 1);
    }
  }

  lemma {:induction false} AddFeedsDomain(codec: Codec, feeds: seq<Feed>, p: nat)
    requires forall f :: f in feeds ==> Proper(f)
    ensures p in AddFeeds(codec, feeds) <==> SomeProbe(feeds, p)
  {
    hide SomeProbe, IsProbe, AddFeed, Proper;
    NoProbe(p);
    if feeds != [] {
      var n := |feeds| - 1;
      AddFeedsDomain(codec, feeds[..n], p);
      AddFeedDomain(codec, AddFeeds(codec, feeds[..n]), feeds[n], |feeds[n].channels|, p);
      SomeProbeEnd(feeds, p);
    }
  }

  lemma NoProbe(p: nat)
    ensures !SomeProbe([], p)
  {
  }

  lemma SomeProbeEnd(feeds: seq<Feed>, p: nat)
    requires feeds != []
    ensures var n := |feeds| - 1;
            SomeProbe(feeds, p) <==> SomeProbe(feeds[..n], p) || IsProbe(feeds[n], |feeds[n].channels|, p)
  {
    hide IsProbe;
    var n := |feeds| - 1;
    assert feeds == feeds[..n] + [feeds[n]];
  }

  lemma {:induction false} FeedDelivered(codec: Codec, feeds: seq<Feed>, f: Feed, i: nat)
    requires ProperFeeds(feeds) && DistinctProbes(feeds) && f in feeds && i < |f.channels|
    ensures HasSignal(codec, AddFeeds(codec, feeds), f, i)
  {
    hide Proper, Signal, IsProbe, AddFeed;
    var n := |feeds| - 1;
    var before, g, p := feeds[..n], feeds[n], f.channels[i].probe;
    var m := AddFeeds(codec, before);
    if f in before {
      FeedDelivered(codec, before, f, i);
      AddFeedDomain(codec, m, g, |g.channels|, p);
      ProbeShared(f, i, g, |g.channels|);
    } else {
      AddFeedsDomain(codec, before, p);
      forall h | h in before ensures !IsProbe(h, |h.channels|, p) {
        ProbeShared(f, i, h, |h.channels|);
      }
      AddFeedSets(codec, m, g, |g.channels|, i);
    }
  }

  // ---------------------------------------------------------------- shared probes

  /** How many cells the dictionary holds for a probe. */
  function Len(m: ProbeData, p: nat): nat {
    if p in m then |m[p]| else 0
  }

  /** How many cells the first `n` channels of a carrier contribute to a probe. */
  function Weight(f: Feed, n: nat, p: nat): nat
    requires n <= |f.channels|
  {
    if n == 0 then 0 else Weight(f, n - 1, p) + if f.channels[n - 1].probe == p then f.count else 0
  }

  function TotalWeight(feeds: seq<Feed>, p: nat): nat {
    if feeds == [] then 0
    else TotalWeight(feeds[..|feeds| - 1], p) + Weight(feeds[|feeds| - 1], |feeds[|feeds| - 1].channels|, p)
  }

  lemma {:induction false} AddFeedLen(codec: Codec, m: ProbeData, f: Feed, n: nat, p: nat)
    requires Proper(f) && n <= |f.channels|
    ensures Len(AddFeed(codec, m, f, n), p) == Len(m, p) + Weight(f, n, p)
  {
    if n > 0 {
      AddFeedLen(codec, m, f, n - 1, p);
    }
  }

  lemma {:induction false} AddFeedsLen(codec: Codec, feeds: seq<Feed>, p: nat)
    requires forall f :: f in feeds ==> Proper(f)
    ensures Len(AddFeeds(codec, feeds), p) == TotalWeight(feeds, p)
  {
    if feeds != [] {
      var n := |feeds| - 1;
      AddFeedsLen(codec, feeds[..n], p);
      AddFeedLen(codec, AddFeeds(codec, feeds[..n]), feeds[n], |feeds[n].channels|, p);
    }
  }

  lemma {:induction false} WeightAtLeast(f: Feed, n: nat, p: nat, i: nat, j: nat)
    requires i <= j < n <= |f.channels| && f.channels[i].probe == f.channels[j].probe == p
    ensures Weight(f, n, p) >= if i == j then f.count else f.count + f.count
  {
    if j < n - 1 {
      WeightAtLeast(f, n - 1, p, i, j);
    } else if i < j {
      WeightAtLeast(f, n - 1, p, i, i);
    }
  }

  lemma {:induction false} TotalAtLeast(feeds: seq<Feed>, p: nat, a: nat, b: nat)
    requires a <= b < |feeds|
    ensures var wa, wb := Weight(feeds[a], |feeds[a].channels|, p), Weight(feeds[b], |feeds[b].channels|, p);
            TotalWeight(feeds, p) >= if a == b then wa else wa + wb
  {
    var n := |feeds| - 1;
    if b < n {
      TotalAtLeast(feeds[..n], p, a, b);
    } else if a < b {
      TotalAtLeast(feeds[..n], p, a, a);
    }
  }

  /** Two channels on one probe get their cells strung together: neither signal arrives alone. */
  lemma SharedProbe(codec: Codec, feeds: seq<Feed>, f: Feed, i: nat, g: Feed, j: nat)
    requires ProperFeeds(feeds) && f in feeds && g in feeds && SameProbe(f, i, g, j) && (f != g || i != j)
    ensures !HasSignal(codec, AddFeeds(codec, feeds), f, i)
  {
    hide TotalWeight, Weight, Signal, ProperRow, ElementSize;
    var p := f.channels[i].probe;
    var a :| 0 <= a < |feeds| && feeds[a] == f;
    var b :| 0 <= b < |feeds| && feeds[b] == g;
    AddFeedsLen(codec, feeds, p);
    WeightAtLeast(f, |f.channels|, p, i, i);
    WeightAtLeast(g, |g.channels|, p, j, j);
    if a == b {
      WeightAtLeast(f, |f.channels|, p, if i < j then i else j, if i < j then j else i);
      TotalAtLeast(feeds, p, a, a);
    } else {
      TotalAtLeast(feeds, p, if a < b then a else b, if a < b then b else a);
    }
  }

  lemma FeedsDelivered(codec: Codec, feeds: seq<Feed>)
    requires ProperFeeds(feeds)
    ensures Delivered(codec, AddFeeds(codec, feeds), feeds) <==> DistinctProbes(feeds)
  {
    hide AddFeeds, HasSignal;
    var m := AddFeeds(codec, feeds);
    if DistinctProbes(feeds) {
      forall f, i: nat | f in feeds && i < |f.channels| ensures HasSignal(codec, m, f, i) {
        FeedDelivered(codec, feeds, f, i);
      }
    } else {
      var f, g, i: nat, j: nat :| f in feeds && g in feeds && SameProbe(f, i, g, j) && !(f == g && i == j);
      SharedProbe(codec, feeds, f, i, g, j);
    }
  }
}
