/**
 Assembly of the buffered sample chunks into the run's data (redac/session.py, `_assemble_run_data`):
 grouped by entity path and sample type, sorted by chunk number, appended under probe indices.
 */
module SampleAssembly {
  import opened Common
  import opened SampleBlob
  import opened StableSort

  type Key = (seq<byte>, nat)
  type ProbeData = map<nat, seq<Cell>>

  function KeyOf(r: ChunkRecord): Key {
    (r.path, r.kind)
  }

  /** What the parser guarantees about every record it buffers. */
  predicate WellFormed(r: ChunkRecord) {
    |r.rows| == r.channels && (r.probes.Some? ==> |r.probes.value| == r.channels)
  }

  lemma ParsedIsWellFormed(b: seq<byte>)
    ensures Parse(b).Some? ==> WellFormed(Parse(b).value)
  {
    hide RawWords, Rows, RawCells;
  }

  // ---------------------------------------------------------------- specification

  /** Group keys in order of first appearance. */
  function Keys(buffer: seq<ChunkRecord>): seq<Key> {
    if buffer == [] then []
    else
      var n := |buffer| - 1;
      var ks := Keys(buffer[..n]);
      if KeyOf(buffer[n]) in ks then ks else ks + [KeyOf(buffer[n])]
  }

  /** The records of one group, in order of arrival. */
  function Group(buffer: seq<ChunkRecord>, key: Key): seq<ChunkRecord> {
    if buffer == [] then []
    else
      var n := |buffer| - 1;
      Group(buffer[..n], key) + if KeyOf(buffer[n]) == key then [buffer[n]] else []
  }

  function ChunkNumber(r: ChunkRecord): int {
    r.chunk
  }

  /** `sorted(group, key=chunk_number)`. */
  function SortByChunk(s: seq<ChunkRecord>): (r: seq<ChunkRecord>)
    ensures |r| == |s|
    ensures forall x :: x in r ==> x in s
  {
    Sort(s, ChunkNumber)
  }

  /** Row `i` of all chunks put together; None is an index error. */
  function RowOf(chunks: seq<ChunkRecord>, i: nat): Option<seq<Cell>> {
    if chunks == [] then Some([])
    else
      var n := |chunks| - 1;
      var before := RowOf(chunks[..n], i);
      if before.None? || i >= |chunks[n].rows| then None else Some(before.value + chunks[n].rows[i])
  }

  function Extended(m: ProbeData, probe: nat, cells: seq<Cell>): ProbeData {
    m[probe := (if probe in m then m[probe] else []) + cells]
  }

  /** The first `n` channels of a sorted group; None is an exception. */
  function AddGroup(m: ProbeData, chunks: seq<ChunkRecord>, n: nat): Option<ProbeData>
    requires chunks != [] && n <= chunks[0].channels && WellFormed(chunks[0])
  {
    if n == 0 then Some(m)
    else
      var before := AddGroup(m, chunks, n - 1);
      if before.None? || chunks[0].probes.None? || RowOf(chunks, n - 1).None? then None
      else Some(Extended(before.value, chunks[0].probes.value[n - 1], RowOf(chunks, n - 1).value))
  }

  /** When a group cannot be assembled: its first chunk names no probes, or some chunk has too few rows. */
  lemma {:induction false} GroupFails(m: ProbeData, chunks: seq<ChunkRecord>, n: nat)
    requires chunks != [] && n <= chunks[0].channels && WellFormed(chunks[0])
    ensures AddGroup(m, chunks, n).None? <==>
            n > 0 && (chunks[0].probes.None? || exists k :: 0 <= k < |chunks| && |chunks[k].rows| < n)
  {
    hide Extended, RowOf;
    if n > 0 {
      GroupFails(m, chunks, n - 1);
      RowFails(chunks, n - 1);
    }
  }

  lemma {:induction false} RowFails(chunks: seq<ChunkRecord>, i: nat)
    ensures RowOf(chunks, i).None? <==> exists k :: 0 <= k < |chunks| && |chunks[k].rows| <= i
  {
    if chunks != [] {
      var n := |chunks| - 1;
      RowFails(chunks[..n], i);
      if k :| 0 <= k < n && |chunks[k].rows| <= i {
        assert chunks[..n][k] == chunks[k];
      }
    }
  }

  /** Two channels on one probe: the samples of the second stand behind those of the first. */
  lemma ProbesStrung(m: ProbeData, p: nat, x: seq<Cell>, y: seq<Cell>)
    requires p !in m
    ensures Extended(Extended(m, p, x), p, y) == m[p := x + y]
  {
    assert [] + x == x;
    assert Extended(m, p, x) == m[p := x];
    assert m[p := x][p := x + y] == m[p := x + y];
  }

  lemma {:induction false} GroupFrom(buffer: seq<ChunkRecord>, key: Key)
    ensures forall r :: r in Group(buffer, key) <==> r in buffer && KeyOf(r) == key
  {
    if buffer != [] {
      GroupFrom(buffer[..|buffer| - 1], key);
      assert buffer == buffer[..|buffer| - 1] + [buffer[|buffer| - 1]];
    }
  }

  lemma {:induction false} KeysFrom(buffer: seq<ChunkRecord>)
    ensures forall key :: key in Keys(buffer) <==> exists r :: r in buffer && KeyOf(r) == key
    ensures forall i, j :: 0 <= i < j < |Keys(buffer)| ==> Keys(buffer)[i] != Keys(buffer)[j]
  {
    if buffer != [] {
      var n := |buffer| - 1;
      KeysFrom(buffer[..n]);
      assert buffer == buffer[..n] + [buffer[n]];
      forall key ensures key in Keys(buffer) <==> exists r :: r in buffer && KeyOf(r) == key {
        if key in Keys(buffer[..n]) {
          var r :| r in buffer[..n] && KeyOf(r) == key;
          assert r in buffer;
        }
        assert KeyOf(buffer[n]) == key ==> buffer[n] in buffer;
      }
    }
  }

  /** Later records only add keys at the end: keys stand in order of first appearance. */
  lemma {:induction false} KeysGrow(buffer: seq<ChunkRecord>, n: nat)
    requires n <= |buffer|
    ensures Keys(buffer[..n]) <= Keys(buffer)
  {
    hide KeyOf;
    if n == |buffer| {
      assert buffer[..n] == buffer;
    } else {
      var m := |buffer| - 1;
      KeysGrow(buffer[..m], n);
      assert buffer[..m][..n] == buffer[..n];
    }
  }

  /** One group of the buffer. */
  function AddKey(m: ProbeData, buffer: seq<ChunkRecord>, key: Key): Option<ProbeData>
    requires forall r :: r in buffer ==> WellFormed(r)
  {
    var chunks := SortByChunk(Group(buffer, key));
    if key.1 != SAMPLE_TYPE_OP || chunks == [] then Some(m)
    else
      assert chunks[0] in buffer by { GroupFrom(buffer, key); }
      AddGroup(m, chunks, chunks[0].channels)
  }

  function AddKeys(buffer: seq<ChunkRecord>, keys: seq<Key>): Option<ProbeData>
    requires forall r :: r in buffer ==> WellFormed(r)
  {
    if keys == [] then Some(map[])
    else
      var before := AddKeys(buffer, keys[..|keys| - 1]);
      if before.None? then None else AddKey(before.value, buffer, keys[|keys| - 1])
  }

  /** The probe dictionary the buffer leads to. */
  function Assembled(buffer: seq<ChunkRecord>): Option<ProbeData>
    requires forall r :: r in buffer ==> WellFormed(r)
  {
    AddKeys(buffer, Keys(buffer))
  }

  /** The list built from the dictionary: as long as the largest probe needs, with gaps. */
  predicate IsRunData(data: seq<Option<seq<Cell>>>, m: ProbeData) {
    && (m == map[] <==> data == [])
    && (data != [] ==> |data| - 1 in m)
    && (forall p :: p in m ==> p < |data|)
    && forall p :: 0 <= p < |data| ==> data[p] == if p in m then Some(m[p]) else None
  }

  // ---------------------------------------------------------------- the method

  /** `_assemble_run_data`; None is an exception, the empty list leaves the run's data as it was. */
  method AssembleRunData(buffer: seq<ChunkRecord>) returns (data: Option<seq<Option<seq<Cell>>>>)
    requires forall r :: r in buffer ==> WellFormed(r)
    ensures data.None? <==> Assembled(buffer).None?
    ensures data.Some? ==> IsRunData(data.value, Assembled(buffer).value)
  {
    hide Keys, Group, SortByChunk, AddGroup, WellFormed, AddKeys;
    AddNoKeys(buffer);
    if buffer == [] {
      return Some([]);
    }
    var keys, groups := GroupRecords(buffer);
    var probeData: ProbeData := map[];
    assert keys[..0] == [];
    for g := 0 to |keys|
      invariant AddKeys(buffer, keys[..g]) == Some(probeData)
      invariant forall key :: key in groups ==> groups[key] == Group(buffer, key)
    {
      AddOneKey(buffer, keys, g);
      assert keys[g] in groups && groups[keys[g]] == Group(buffer, keys[g]);
      var chunks := SortByChunk(groups[keys[g]]);
      if keys[g].1 == SAMPLE_TYPE_OP && chunks != [] {
        assert chunks[0] in buffer by { GroupFrom(buffer, keys[g]); }
        var added := ExtendProbes(probeData, chunks);
        if added.None? {
          AddKeysFails(buffer, keys, g + 1);
          return None;
        }
        probeData := added.value;
      }
    }
    assert keys[..|keys|] == keys;
    var list := ListOf(probeData);
    data := Some(list);
  }

  lemma AddNoKeys(buffer: seq<ChunkRecord>)
    requires forall r :: r in buffer ==> WellFormed(r)
    ensures AddKeys(buffer, []) == Some(map[])
    ensures buffer == [] ==> Keys(buffer) == []
  {
  }

  lemma AddOneKey(buffer: seq<ChunkRecord>, keys: seq<Key>, g: nat)
    requires (forall r :: r in buffer ==> WellFormed(r)) && g < |keys| && AddKeys(buffer, keys[..g]).Some?
    ensures AddKeys(buffer, keys[..g + 1]) == AddKey(AddKeys(buffer, keys[..g]).value, buffer, keys[g])
  {
    assert keys[..g + 1][..g] == keys[..g];
    hide AddKey;
  }

  lemma {:induction false} AddKeysFails(buffer: seq<ChunkRecord>, keys: seq<Key>, n: nat)
    requires forall r :: r in buffer ==> WellFormed(r)
    requires n <= |keys| && AddKeys(buffer, keys[..n]).None?
    ensures AddKeys(buffer, keys).None?
    decreases |keys|
  {
    if n == |keys| {
      assert keys[..n] == keys;
    } else {
      assert keys[..|keys| - 1][..n] == keys[..n];
      AddKeysFails(buffer, keys[..|keys| - 1], n);
    }
  }

  /** The grouping loop, with the dictionary's insertion order. */
  method GroupRecords(buffer: seq<ChunkRecord>) returns (keys: seq<Key>, groups: map<Key, seq<ChunkRecord>>)
    ensures keys == Keys(buffer)
    ensures forall key :: key in groups <==> key in keys
    ensures forall key :: key in groups ==> groups[key] == Group(buffer, key)
  {
    keys, groups := [], map[];
    for k := 0 to |buffer|
      invariant keys == Keys(buffer[..k])
      invariant forall key :: key in groups <==> key in keys
      invariant forall key :: key in groups ==> groups[key] == Group(buffer[..k], key)
      invariant forall key :: key !in groups ==> Group(buffer[..k], key) == []
    {
      assert buffer[..k + 1][..k] == buffer[..k];
      var key := KeyOf(buffer[k]);
      if key !in groups {
        keys := keys + [key];
        groups := groups[key := []];
      }
      groups := groups[key := groups[key] + [buffer[k]]];
    }
    assert buffer[..|buffer|] == buffer;
  }

  /** The channel loop for a group of operation samples. */
  method ExtendProbes(m: ProbeData, chunks: seq<ChunkRecord>) returns (r: Option<ProbeData>)
    requires chunks != [] && WellFormed(chunks[0])
    ensures r == AddGroup(m, chunks, chunks[0].channels)
  {
    var probeData := m;
    for i := 0 to chunks[0].channels
      invariant AddGroup(m, chunks, i) == Some(probeData)
    {
      if chunks[0].probes.None? {
        AddGroupFails(m, chunks, i + 1, chunks[0].channels);
        return None;
      }
      r := ExtendProbe(probeData, chunks, chunks[0].probes.value[i], i);
      if r.None? {
        AddGroupFails(m, chunks, i + 1, chunks[0].channels);
        return;
      }
      probeData := r.value;
    }
    r := Some(probeData);
  }

  /** The chunk loop for one channel. */
  method ExtendProbe(m: ProbeData, chunks: seq<ChunkRecord>, probe: nat, i: nat) returns (r: Option<ProbeData>)
    requires chunks != []
    ensures r == if RowOf(chunks, i).None? then None else Some(Extended(m, probe, RowOf(chunks, i).value))
  {
    var probeData := m;
    for k := 0 to |chunks|
      invariant RowOf(chunks[..k], i).Some?
      invariant probeData == if k == 0 then m else Extended(m, probe, RowOf(chunks[..k], i).value)
    {
      assert chunks[..k + 1][..k] == chunks[..k];
      if i >= |chunks[k].rows| {
        RowOfFails(chunks, i, k + 1);
        return None;
      }
      var list := if probe in probeData then probeData[probe] else [];
      ExtendTwice(m, probe, RowOf(chunks[..k], i).value, chunks[k].rows[i]);
      probeData := probeData[probe := list + chunks[k].rows[i]];
    }
    assert chunks[..|chunks|] == chunks;
    r := Some(probeData);
  }

  lemma ExtendTwice(m: ProbeData, probe: nat, a: seq<Cell>, b: seq<Cell>)
    ensures Extended(Extended(m, probe, a), probe, b) == Extended(m, probe, a + b)
    ensures Extended(m, probe, [] + b) == Extended(m, probe, b)
  {
    var had := if probe in m then m[probe] else [];
    assert (had + a) + b == had + (a + b);
    assert [] + b == b;
  }

  lemma {:induction false} RowOfFails(chunks: seq<ChunkRecord>, i: nat, n: nat)
    requires n <= |chunks| && RowOf(chunks[..n], i).None?
    ensures RowOf(chunks, i).None?
    decreases |chunks|
  {
    if n == |chunks| {
      assert chunks[..n] == chunks;
    } else {
      assert chunks[..|chunks| - 1][..n] == chunks[..n];
      RowOfFails(chunks[..|chunks| - 1], i, n);
    }
  }

  lemma {:induction false} AddGroupFails(m: ProbeData, chunks: seq<ChunkRecord>, n: nat, last: nat)
    requires chunks != [] && n <= last <= chunks[0].channels && WellFormed(chunks[0])
    requires AddGroup(m, chunks, n).None?
    ensures AddGroup(m, chunks, last).None?
    decreases last
  {
    if n < last {
      AddGroupFails(m, chunks, n, last - 1);
    }
  }

  method ListOf(m: ProbeData) returns (data: seq<Option<seq<Cell>>>)
    ensures IsRunData(data, m)
  {
    data := [];
    if m == map[] {
      return;
    }
    var last := Largest(m.Keys);
    for p := 0 to last + 1
      invariant |data| == p
      invariant forall k :: 0 <= k < p ==> data[k] == if k in m then Some(m[k]) else None
    {
      data := data + [if p in m then Some(m[p]) else None];
    }
  }

  /** `max` of the dictionary's keys. */
  method Largest(keys: set<nat>) returns (last: nat)
    requires keys != {}
    ensures last in keys && forall k :: k in keys ==> k <= last
  {
    var rest := keys;
    last :| last in rest;
    while rest != {}
      invariant last in keys && rest <= keys
      invariant forall k :: k in keys && k !in rest ==> k <= last
      decreases |rest|
    {
      var k :| k in rest;
      rest := rest - {k};
      if k > last {
        last := k;
      }
    }
  }
}
