/** Batching of peer states per target: syncPlayerStates in src/services/GameMessageService.js. */
module StateBatching {
  import opened Octets
  import opened Options
  import opened SnapshotLimits
  import opened BitStreams
  import W = BinaryWriters

  const ENTRY_HEADER := 5

  datatype Entry = Entry(id: int, raw: seq<Byte>)

  /** A peer as the loop sees it: its id and the state to relay, if it has one. */
  datatype Peer = Peer(id: int, raw: Option<seq<Byte>>)

  predicate Eligible(p: Peer) {
    && p.raw.Some? && p.raw.value != []
    && |p.raw.value| <= PLAYER_STATE_MAX_BYTES
    && ENTRY_HEADER + |p.raw.value| <= SNAPSHOT_MAX_DATA_BYTES
  }

  /** The entries every other peer contributes, in order. */
  function Entries(peers: seq<Peer>, target: int): seq<Entry> {
    if peers == [] then []
    else
      var rest := Entries(peers[1..], target);
      if peers[0].id != target && Eligible(peers[0]) then [Entry(peers[0].id, peers[0].raw.value)] + rest else rest
  }

  predicate Small(entries: seq<Entry>) {
    forall e :: e in entries ==> 0 < |e.raw| <= PLAYER_STATE_MAX_BYTES
  }

  lemma {:induction false} EntriesAreSmall(peers: seq<Peer>, target: int)
    ensures Small(Entries(peers, target)) && |Entries(peers, target)| <= |peers|
  {
    if peers != [] {
      EntriesAreSmall(peers[1..], target);
    }
  }

  /** Serialized size. */
  function Bytes(entries: seq<Entry>): nat {
    if entries == [] then 0 else ENTRY_HEADER + |entries[0].raw| + Bytes(entries[1..])
  }

  lemma {:induction false} BytesAppend(a: seq<Entry>, b: seq<Entry>)
    ensures Bytes(a + b) == Bytes(a) + Bytes(b)
  {
    if a == [] {
      assert a + b == b;
    } else {
      BytesAppend(a[1..], b);
      assert (a + b)[1..] == a[1..] + b;
    }
  }

  predicate Fits(entries: seq<Entry>) {
    Bytes(entries) <= SNAPSHOT_MAX_DATA_BYTES
  }

  function Flatten(batches: seq<seq<Entry>>): seq<Entry> {
    if batches == [] then [] else batches[0] + Flatten(batches[1..])
  }

  /** An order-preserving partition into frames that fit. */
  predicate Partition(batches: seq<seq<Entry>>, entries: seq<Entry>) {
    && Flatten(batches) == entries
    && forall b :: b in batches ==> b != [] && Fits(b)
  }

  // ----- The greedy batcher -----

  /** The batches the loop sends for entries when batch is already open. */
  function Greedy(batch: seq<Entry>, entries: seq<Entry>): seq<seq<Entry>>
    decreases |entries|
  {
    if entries == [] then (if batch == [] then [] else [batch])
    else if Fits(batch + [entries[0]]) then Greedy(batch + [entries[0]], entries[1..])
    else (if batch == [] then [] else [batch]) + Greedy([entries[0]], entries[1..])
  }

  lemma SingleFits(e: Entry)
    requires 0 < |e.raw| <= PLAYER_STATE_MAX_BYTES
    ensures Fits([e]) && [] + [e] == [e]
  {
    assert [e][1..] == [];
  }

  /** In order, each entry exactly once, every frame within the snapshot limit. */
  lemma {:induction false} GreedyPartitions(batch: seq<Entry>, entries: seq<Entry>)
    requires Fits(batch) && Small(entries)
    ensures Partition(Greedy(batch, entries), batch + entries)
    decreases |entries|
  {
    if entries == [] {
      assert batch + [] == batch;
      if batch != [] {
        assert [batch][1..] == [];
      }
    } else {
      var e, rest := entries[0], entries[1..];
      SingleFits(e);
      if Fits(batch + [e]) {
        GreedyPartitions(batch + [e], rest);
        assert batch + [e] + rest == batch + entries;
      } else {
        GreedyPartitions([e], rest);
        var tail := Greedy([e], rest);
        assert [e] + rest == entries;
        assert ([batch] + tail)[1..] == tail;
      }
    }
  }

  /** Opening with a shorter batch, or with part of it already sent, never needs more frames. */
  lemma {:induction false} GreedyMonotone(small: seq<Entry>, large: seq<Entry>, entries: seq<Entry>)
    requires Fits(large) && Bytes(small) <= Bytes(large) && (small != [] ==> large != []) && Small(entries)
    ensures |Greedy(small, entries)| <= |Greedy(large, entries)|
    ensures large != [] ==> |Greedy(large, entries)| <= 1 + |Greedy(small, entries)|
    decreases |entries|
  {
    if entries != [] {
      var e, rest := entries[0], entries[1..];
      SingleFits(e);
      BytesAppend(small, [e]);
      BytesAppend(large, [e]);
      if Fits(large + [e]) {
        GreedyMonotone(small + [e], large + [e], rest);
      } else if Fits(small + [e]) {
        GreedyMonotone([e], small + [e], rest);
      } else {
        assert small != [];
      }
    }
  }

  /** The remainder after any entries already placed never needs more frames than the whole. */
  lemma {:induction false} GreedySuffix(batch: seq<Entry>, first: seq<Entry>, entries: seq<Entry>)
    requires Fits(batch) && Small(first + entries)
    requires Fits(batch + first)
    ensures Greedy(batch, first + entries) == Greedy(batch + first, entries)
    decreases |first|
  {
    if first == [] {
      assert first + entries == entries && batch + first == batch;
    } else {
      var e := first[0];
      var rest := first[1..];
      assert batch + first == batch + [e] + rest;
      BytesAppend(batch + [e], rest);
      assert (first + entries)[0] == e && (first + entries)[1..] == rest + entries;
      GreedySuffix(batch + [e], rest, entries);
    }
  }

  /** No order-preserving partition of the same entries uses fewer frames. */
  lemma {:induction false} GreedyOptimal(entries: seq<Entry>, other: seq<seq<Entry>>)
    requires Small(entries) && Partition(other, entries)
    ensures |Greedy([], entries)| <= |other|
    decreases |other|
  {
    if other == [] {
      assert entries == [];
    } else {
      var first, rest := other[0], Flatten(other[1..]);
      assert first in other;
      assert [] + first == first;
      assert Small(rest) by {
        assert forall e :: e in rest ==> e in first + rest;
      }
      GreedySuffix([], first, rest);
      GreedyOptimal(rest, other[1..]);
      GreedyMonotone([], first, rest);
    }
  }

  lemma FlattenOne(batch: seq<Entry>)
    ensures Flatten([batch]) == batch
  {
    var none: seq<seq<Entry>> := [];
    assert [batch][1..] == none && batch + Flatten(none) == batch;
  }

  /** Seven peers, the most a room of eight has, always fit two frames. */
  lemma AtMostTwoFrames(peers: seq<Peer>, target: int)
    requires |Entries(peers, target)| <= 7
    ensures |Greedy([], Entries(peers, target))| <= 2
  {
    EntriesAreSmall(peers, target);
    var entries := Entries(peers, target);
    if |entries| <= 6 {
      if entries != [] {
        SixFit(entries);
        FlattenOne(entries);
        GreedyOptimal(entries, [entries]);
      }
    } else {
      var a, b := entries[..6], entries[6..];
      SixFit(a);
      SixFit(b);
      assert a + b == entries;
      FlattenOne(b);
      assert Flatten([a, b]) == entries by { assert [a, b][1..] == [b]; }
      GreedyOptimal(entries, [a, b]);
    }
  }

  lemma {:induction false} BytesBound(entries: seq<Entry>)
    requires Small(entries)
    ensures Bytes(entries) <= |entries| * (ENTRY_HEADER + PLAYER_STATE_MAX_BYTES)
  {
    if entries != [] {
      BytesBound(entries[1..]);
    }
  }

  lemma SixFit(entries: seq<Entry>)
    requires Small(entries) && |entries| <= 6
    ensures Fits(entries)
  {
    BytesBound(entries);
  }

  // ----- The frame's bytes -----

  /** The four bytes of a little-endian u32. */
  function Word(n: nat): (r: seq<Byte>)
    ensures |r| == 4
  {
    Pack(Bits(n, 32))
  }

  function Unword(b: seq<Byte>): nat {
    Number(Unpack(b))
  }

  lemma WordRoundTrip(n: nat)
    requires n < 0x1_0000_0000
    ensures Unpack(Word(n)) == Bits(n, 32) && Unword(Word(n)) == n
  {
    hide Bits, Pack, Unpack, Number;
    UnpackPack(Bits(n, 32));
    W.Pow2Of32();
    NumberOfBits(n, 32);
  }

  predicate Encodable(entries: seq<Entry>) {
    forall e :: e in entries ==> 1 <= e.id <= 255 && |e.raw| <= PLAYER_STATE_MAX_BYTES
  }

  /** id, u32 length, bytes; one entry after another. */
  function Serialize(entries: seq<Entry>): (r: seq<Byte>)
    requires Encodable(entries)
    ensures |r| == Bytes(entries)
  {
    if entries == [] then []
    else
      var e := entries[0];
      assert e in entries;
      [e.id] + Word(|e.raw|) + e.raw + Serialize(entries[1..])
  }

  /** What a reader of the layout recovers. */
  function Deserialize(bytes: seq<Byte>): Option<seq<Entry>>
    decreases |bytes|
  {
    if bytes == [] then Some([])
    else if |bytes| < 5 || |bytes| < 5 + Unword(bytes[1..5]) then None
    else
      var n := Unword(bytes[1..5]);
      match Deserialize(bytes[5 + n..])
      case None => None
      case Some(rest) => Some([Entry(bytes[0], bytes[5..5 + n])] + rest)
  }

  /** The concatenation parses back to exactly the entries, so it determines them uniquely. */
  lemma {:induction false} SerializeRoundTrip(entries: seq<Entry>)
    requires Encodable(entries)
    ensures Deserialize(Serialize(entries)) == Some(entries)
  {
    if entries != [] {
      var e := entries[0];
      assert e in entries;
      SerializeRoundTrip(entries[1..]);
      hide Word, Deserialize;
      DeserializeEntry(e, Serialize(entries[1..]));
      assert entries == [e] + entries[1..];
    }
  }

  /** One entry in front of any bytes. */
  lemma DeserializeEntry(e: Entry, tail: seq<Byte>)
    requires 0 <= e.id <= 255 && |e.raw| < 0x1_0000_0000
    ensures Deserialize([e.id] + Word(|e.raw|) + e.raw + tail) ==
            match Deserialize(tail) case None => None case Some(rest) => Some([e] + rest)
  {
    hide Word, Unword;
    WordRoundTrip(|e.raw|);
    var bytes := [e.id] + Word(|e.raw|) + e.raw + tail;
    assert bytes[1..5] == Word(|e.raw|);
    assert bytes[5..5 + |e.raw|] == e.raw;
    assert bytes[5 + |e.raw|..] == tail;
  }

  lemma {:induction false} SerializeAppend(a: seq<Entry>, e: Entry)
    requires Encodable(a + [e])
    ensures Encodable(a)
    ensures Serialize(a + [e]) == Serialize(a) + [e.id] + Word(|e.raw|) + e.raw
  {
    hide Word;
    assert forall x :: x in a ==> x in a + [e];
    if a == [] {
      SerializeOne(e);
      assert a + [e] == [e];
    } else {
      assert (a + [e])[1..] == a[1..] + [e] && (a + [e])[0] == a[0];
      SerializeAppend(a[1..], e);
      var head := [a[0].id] + Word(|a[0].raw|) + a[0].raw;
      assert Serialize(a + [e]) == head + Serialize(a[1..] + [e]);
      Reassociate(head, Serialize(a[1..]), [e.id], Word(|e.raw|), e.raw);
    }
  }

  lemma Reassociate(h: seq<Byte>, s: seq<Byte>, x: seq<Byte>, y: seq<Byte>, z: seq<Byte>)
    ensures h + (s + x + y + z) == h + s + x + y + z
  {}

  lemma SerializeOne(e: Entry)
    requires Encodable([e])
    ensures Serialize([e]) == [] + [e.id] + Word(|e.raw|) + e.raw
  {
    hide Word;
    assert [e][1..] == [];
  }

  // ----- The loop -----

  /** flush: the frame written through a BinaryWriter of exactly the batch's size. */
  method WriteBatch(batch: seq<Entry>) returns (bytes: seq<Byte>)
    requires batch != [] && Encodable(batch)
    ensures bytes == Serialize(batch)
  {
    hide Unpack, Bits, Pow2, Padding, BytesFor, Word;
    var w := new W.BinaryWriter(Bytes(batch));
    assert Unpack(Serialize(batch[..0])) == [] by { EmptyUnpacks(); }
    for i := 0 to |batch|
      invariant w.Valid() && fresh(w) && fresh(w.buffer) && w.capacity == Bytes(batch)
      invariant Encodable(batch[..i]) && w.stream == Unpack(Serialize(batch[..i]))
    {
      var e := batch[i];
      WriteEntry(w, e);
      assert batch[..i + 1] == batch[..i] + [e];
      SerializeAppend(batch[..i], e);
      EntryBits(Serialize(batch[..i]), e);
    }
    assert batch[..|batch|] == batch;
    ghost var stream := w.stream;
    AlignmentEndsByte(|stream| / 8, 0);
    bytes := w.ToBuffer();
    assert stream + Falses(0) == stream;
    PackUnpack(bytes);
    PackUnpack(Serialize(batch));
  }

  lemma EmptyUnpacks()
    ensures Unpack([]) == []
  {}

  /** One entry, from an aligned writer. */
  method WriteEntry(w: W.BinaryWriter, e: Entry)
    requires w.Valid() && |w.stream| % 8 == 0
    requires 1 <= e.id <= 255 && |e.raw| <= PLAYER_STATE_MAX_BYTES
    modifies w, w.buffer
    ensures w.Valid() && (fresh(w.buffer) || w.buffer == old(w.buffer))
    ensures w.stream == old(w.stream) + Bits(e.id, 8) + Bits(|e.raw|, 32) + Unpack(e.raw)
  {
    hide Unpack, Bits, Pow2, Padding, BytesFor, Falses;
    W.Pow2Of32();
    assert Pow2(8) == 256 by { Pow2OfEight(); }
    ghost var s0 := w.stream;
    AlignedStays(s0);
    var ok := w.WriteUInt(e.id, 1);
    ghost var s1 := w.stream;
    AlignedStays(s1);
    ok := w.WriteUInt(|e.raw|, 4);
    ghost var s2 := w.stream;
    AlignedStays(s2);
    w.WriteBytes(e.raw);
  }

  lemma Pow2OfEight()
    ensures Pow2(8) == 256
  {
    assert Pow2(4) == 16;
  }

  lemma AlignedStays(stream: seq<bool>)
    requires |stream| % 8 == 0
    ensures stream + Falses(Padding(|stream|)) == stream
  {}

  lemma EntryBits(before: seq<Byte>, e: Entry)
    requires 1 <= e.id <= 255 && |e.raw| <= PLAYER_STATE_MAX_BYTES
    ensures Unpack(before + [e.id] + Word(|e.raw|) + e.raw)
         == Unpack(before) + Bits(e.id, 8) + Bits(|e.raw|, 32) + Unpack(e.raw)
  {
    SingleByteUnpacks(e.id);
    hide Unpack, Bits, Word;
    WordRoundTrip(|e.raw|);
    UnpackAppend(before + [e.id] + Word(|e.raw|), e.raw);
    UnpackAppend(before + [e.id], Word(|e.raw|));
    UnpackAppend(before, [e.id]);
  }

  lemma SingleByteUnpacks(b: Byte)
    ensures Unpack([b]) == Bits(b, 8)
  {
    assert Unpack([b][1..]) == [];
  }

  /** One target's turn of syncPlayerStates: the batches flushed, in order. */
  method BatchFor(peers: seq<Peer>, target: int) returns (batches: seq<seq<Entry>>)
    ensures batches == Greedy([], Entries(peers, target))
    ensures Partition(batches, Entries(peers, target))
  {
    EntriesAreSmall(peers, target);
    GreedyPartitions([], Entries(peers, target));
    assert [] + Entries(peers, target) == Entries(peers, target);
    batches := [];
    var batch: seq<Entry> := [];
    var batchBytes := 0;
    var i := 0;
    assert peers[0..] == peers;
    while i < |peers|
      invariant 0 <= i <= |peers|
      invariant batchBytes == Bytes(batch)
      invariant batches + Greedy(batch, Entries(peers[i..], target)) == Greedy([], Entries(peers, target))
    {
      ghost var before := Entries(peers[i..], target);
      var peer := peers[i];
      assert peers[i..][1..] == peers[i + 1..];
      i := i + 1;
      if peer.id == target || peer.raw == None || |peer.raw.value| == 0 {
        continue;
      }
      var raw := peer.raw.value;
      var entryBytes := ENTRY_HEADER + |raw|;
      if |raw| > PLAYER_STATE_MAX_BYTES || entryBytes > SNAPSHOT_MAX_DATA_BYTES {
        continue;
      }
      var e := Entry(peer.id, raw);
      assert before[0] == e && before[1..] == Entries(peers[i..], target);
      SingleFits(e);
      BytesAppend(batch, [e]);
      if batchBytes + entryBytes > SNAPSHOT_MAX_DATA_BYTES {
        if batch != [] {
          batches := batches + [batch];
        }
        batch, batchBytes := [], 0;
      }
      assert batch + [e] == if batch == [] then [e] else batch + [e];
      BytesAppend(batch, [e]);
      batch := batch + [e];
      batchBytes := batchBytes + entryBytes;
    }
    if batch != [] {
      batches := batches + [batch];
    }
  }
}
