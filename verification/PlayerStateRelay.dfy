/**
 * One target's player-state stream from end to end: each tick batches the other peers' states
 * (syncPlayerStates in src/services/GameMessageService.js) and writes every batch to the
 * target's snapshot writer; frames travel in order and acknowledgements are anything at all.
 */
module PlayerStateRelay {
  import opened Octets
  import opened Options
  import opened SnapshotFrames
  import opened SnapshotLimits
  import opened StateBatching
  import P = SnapshotProtocol
  import W = SnapshotWriters

  datatype Event = Tick(peers: seq<Peer>) | Deliver | Ack(s: int)

  /** The peers of every tick carry player ids. */
  predicate IdsOk(events: seq<Event>) {
    forall e :: e in events && e.Tick? ==> forall p :: p in e.peers ==> 1 <= p.id <= 255
  }

  function Packed(batch: seq<Entry>): seq<Byte> {
    if Encodable(batch) then Serialize(batch) else []
  }

  function Writes(batches: seq<seq<Entry>>): (r: seq<P.Event>)
    ensures |r| == |batches|
  {
    seq(|batches|, i requires 0 <= i < |batches| => P.Write(Packed(batches[i])))
  }

  function AllPacked(batches: seq<seq<Entry>>): (r: seq<seq<Byte>>)
    ensures |r| == |batches|
  {
    seq(|batches|, i requires 0 <= i < |batches| => Packed(batches[i]))
  }

  function Sent(peers: seq<Peer>, target: int): seq<seq<Entry>> {
    Greedy([], Entries(peers, target))
  }

  /** Every batch of a run, in the order written. */
  function Batches(events: seq<Event>, target: int): seq<seq<Entry>> {
    if events == [] then []
    else
      var n := |events| - 1;
      Batches(events[..n], target) + (if events[n].Tick? then Sent(events[n].peers, target) else [])
  }

  /** Every state of a run that is to be relayed, in order. */
  function Announced(events: seq<Event>, target: int): seq<Entry> {
    if events == [] then []
    else
      var n := |events| - 1;
      Announced(events[..n], target) + (if events[n].Tick? then Entries(events[n].peers, target) else [])
  }

  /** The run as the snapshot stream sees it. */
  function Expand(events: seq<Event>, target: int): seq<P.Event> {
    if events == [] then []
    else
      var n := |events| - 1;
      Expand(events[..n], target) +
      match events[n]
      case Tick(peers) => Writes(Sent(peers, target))
      case Deliver => [P.Deliver]
      case Ack(s) => [P.Ack(s)]
  }

  function Setup(keyframeInterval: int): P.Setup {
    P.Setup(W.Config(keyframeInterval, SNAPSHOT_MAX_DATA_BYTES), SNAPSHOT_MAX_DATA_BYTES)
  }

  predicate Sendable(batches: seq<seq<Entry>>) {
    forall b :: b in batches ==> Encodable(b) && Fits(b)
  }

  lemma {:induction false} EntriesEncodable(peers: seq<Peer>, target: int)
    requires forall p :: p in peers ==> 1 <= p.id <= 255
    ensures Encodable(Entries(peers, target))
  {
    if peers != [] {
      assert peers[0] in peers && forall p :: p in peers[1..] ==> p in peers;
      EntriesEncodable(peers[1..], target);
    }
  }

  lemma {:induction false} FlattenMembers(batches: seq<seq<Entry>>, b: seq<Entry>)
    requires b in batches
    ensures forall e :: e in b ==> e in Flatten(batches)
  {
    if batches[0] != b {
      FlattenMembers(batches[1..], b);
    }
  }

  lemma {:induction false} FlattenAppend(a: seq<seq<Entry>>, b: seq<seq<Entry>>)
    ensures Flatten(a + b) == Flatten(a) + Flatten(b)
  {
    if a == [] {
      assert a + b == b;
    } else {
      assert (a + b)[1..] == a[1..] + b;
      FlattenAppend(a[1..], b);
    }
  }

  /** One tick's batches can all be sent whole, and together are its entries. */
  lemma SentIsSendable(peers: seq<Peer>, target: int)
    requires forall p :: p in peers ==> 1 <= p.id <= 255
    ensures Sendable(Sent(peers, target)) && Flatten(Sent(peers, target)) == Entries(peers, target)
  {
    hide Greedy, Entries, Flatten;
    var entries := Entries(peers, target);
    EntriesAreSmall(peers, target);
    EntriesEncodable(peers, target);
    GreedyPartitions([], entries);
    assert [] + entries == entries;
    forall b | b in Sent(peers, target)
      ensures Encodable(b) && Fits(b)
    {
      FlattenMembers(Sent(peers, target), b);
    }
  }

  lemma {:induction false} BatchesSendable(events: seq<Event>, target: int)
    requires IdsOk(events)
    ensures Sendable(Batches(events, target)) && Flatten(Batches(events, target)) == Announced(events, target)
    decreases |events|
  {
    hide Sent, Entries, Encodable;
    if events != [] {
      var n := |events| - 1;
      var e := events[n];
      assert e in events;
      BatchesSendable(events[..n], target);
      if e.Tick? {
        SentIsSendable(e.peers, target);
        FlattenAppend(Batches(events[..n], target), Sent(e.peers, target));
      } else {
        assert Batches(events[..n], target) + [] == Batches(events[..n], target);
      }
    }
  }

  /** Writing sendable batches appends exactly their bytes to what was sent: nothing is clamped. */
  lemma {:induction false} WritesAppend(k: int, before: seq<P.Event>, batches: seq<seq<Entry>>)
    requires Sendable(batches)
    ensures P.Run(Setup(k), before + Writes(batches)).sent == P.Run(Setup(k), before).sent + AllPacked(batches)
    decreases |batches|
  {
    hide Encodable, Serialize, P.Run, Clamp;
    if batches == [] {
      assert before + Writes(batches) == before;
    } else {
      var n := |batches| - 1;
      assert batches[n] in batches;
      WritesAppend(k, before, batches[..n]);
      assert before + Writes(batches) == before + Writes(batches[..n]) + [P.Write(Packed(batches[n]))];
      OneWrite(k, before + Writes(batches[..n]), Packed(batches[n]));
      assert AllPacked(batches) == AllPacked(batches[..n]) + [Packed(batches[n])];
    }
  }

  lemma OneWrite(k: int, before: seq<P.Event>, data: seq<Byte>)
    requires |data| <= SNAPSHOT_MAX_DATA_BYTES
    ensures P.Run(Setup(k), before + [P.Write(data)]).sent == P.Run(Setup(k), before).sent + [data]
  {
    hide W.Valid, W.WriteStep;
    assert (before + [P.Write(data)])[..|before|] == before;
  }

  lemma NothingSent(k: int)
    ensures P.Run(Setup(k), []).sent == []
  {}

  lemma {:induction false} SentBytes(k: int, events: seq<Event>, target: int)
    requires IdsOk(events)
    ensures P.Run(Setup(k), Expand(events, target)).sent == AllPacked(Batches(events, target))
    decreases |events|
  {
    hide Sent, Packed, IdsOk, P.Run, AllPacked, Writes;
    if events != [] {
      var n := |events| - 1;
      assert IdsOk(events[..n]) && (events[n].Tick? ==> IdsOk([events[n]])) by { IdsOkParts(events); }
      SentBytes(k, events[..n], target);
      var before := Expand(events[..n], target);
      match events[n]
      case Tick(peers) =>
        TickSendable(events, target);
        WritesAppend(k, before, Sent(peers, target));
        AllPackedAppend(Batches(events[..n], target), Sent(peers, target));
      case Deliver =>
        SentUnchanged(k, before, P.Deliver);
        assert Batches(events, target) == Batches(events[..n], target);
      case Ack(s) =>
        SentUnchanged(k, before, P.Ack(s));
        assert Batches(events, target) == Batches(events[..n], target);
    } else {
      NothingSent(k);
    }
  }

  lemma AllPackedAppend(a: seq<seq<Entry>>, b: seq<seq<Entry>>)
    ensures AllPacked(a + b) == AllPacked(a) + AllPacked(b)
  {}

  lemma SentUnchanged(k: int, before: seq<P.Event>, e: P.Event)
    requires !e.Write?
    ensures P.Run(Setup(k), before + [e]).sent == P.Run(Setup(k), before).sent
  {
    hide W.Valid, W.AckStep;
    assert (before + [e])[..|before|] == before;
  }

  lemma IdsOkParts(events: seq<Event>)
    requires events != [] && IdsOk(events)
    ensures IdsOk(events[..|events| - 1]) && IdsOk([events[|events| - 1]])
  {}

  lemma TickSendable(events: seq<Event>, target: int)
    requires events != [] && IdsOk(events) && events[|events| - 1].Tick?
    ensures Sendable(Sent(events[|events| - 1].peers, target))
  {
    hide Sent, Sendable;
    assert events[|events| - 1] in events;
    SentIsSendable(events[|events| - 1].peers, target);
  }

  /**
   * In every run, the i-th frame the target reads parses to exactly the i-th batch written:
   * every state whole, under its own id, in order.
   */
  lemma EveryBatchArrives(k: int, events: seq<Event>, target: int)
    requires IdsOk(events)
    ensures var l := P.Run(Setup(k), Expand(events, target));
            && |l.received| + |l.inFlight| == |Batches(events, target)|
            && forall i :: 0 <= i < |l.received| ==>
                 l.received[i].Accepted? && Deserialize(l.received[i].data) == Some(Batches(events, target)[i])
  {
    hide P.Run, Expand, Batches, Deserialize, Serialize, Encodable;
    var l := P.Run(Setup(k), Expand(events, target));
    P.EveryFrameDecodes(Setup(k), Expand(events, target));
    SentBytes(k, events, target);
    BatchesSendable(events, target);
    var batches := Batches(events, target);
    forall i | 0 <= i < |l.received|
      ensures l.received[i].Accepted? && Deserialize(l.received[i].data) == Some(batches[i])
    {
      assert batches[i] in batches;
      SerializeRoundTrip(batches[i]);
    }
  }

  /** What the target has parsed from the frames it accepted, in order. */
  function Relayed(l: P.Link): seq<seq<Entry>> {
    seq(|l.received|, i requires 0 <= i < |l.received| =>
      if l.received[i].Accepted? && Deserialize(l.received[i].data).Some?
      then Deserialize(l.received[i].data).value
      else [])
  }

  /** Once nothing is in flight, the target holds every announced state of every tick, each exactly once. */
  lemma EveryStateArrives(k: int, events: seq<Event>, target: int)
    requires IdsOk(events) && P.Run(Setup(k), Expand(events, target)).inFlight == []
    ensures Flatten(Relayed(P.Run(Setup(k), Expand(events, target)))) == Announced(events, target)
  {
    hide P.Run, Expand, Batches, Deserialize, Flatten, Announced;
    EveryBatchArrives(k, events, target);
    BatchesSendable(events, target);
    assert Relayed(P.Run(Setup(k), Expand(events, target))) == Batches(events, target);
  }
}
