/** One peer's snapshot stream: src/domain/PlayerSnapshotState.js. */
module PlayerSnapshots {
  import opened Octets
  import opened Options
  import opened SnapshotFrames
  import W = SnapshotWriters
  import R = SnapshotReaders
  import Fnv1a
  import Rle

  const DEFAULT_ACK := 1

  /** The last acknowledgeable number after one read outcome. */
  function AckAfter(ack: Option<int>, res: R.ReadResult): Option<int> {
    match res
    case Accepted(_, s, _) => if s != 0 then Some(s) else ack
    case Rejected(reason) => if reason == R.MissingBase then None else ack
  }

  /** What the server puts into a SnapshotAck. */
  function AckToSend(ack: Option<int>): int {
    if ack == None then DEFAULT_ACK else ack.value
  }

  /** The stored acknowledgement is the newest stored number; none means nothing read since the start or a lost base. */
  predicate Tracks(ack: Option<int>, r: R.Reader) {
    match ack
    case Some(s) => r.window != [] && r.window[|r.window| - 1].sequence == s
    case None => r.window == [] || r.window == R.Initial.window
  }

  /** Any frame keeps the two in agreement. */
  lemma ReadKeepsTracking(baseSize: nat, r: R.Reader, ack: Option<int>, f: Frame)
    requires R.Valid(baseSize, r) && Tracks(ack, r)
    ensures var (r', res) := R.ReadStep(baseSize, r, f);
            R.Valid(baseSize, r') && Tracks(AckAfter(ack, res), r')
  {
    hide Rle.Decode, Rle.XorWith, Fnv1a.Hash, R.Push, R.Distinct;
    R.AnyFrameKeepsValid(baseSize, r, f);
  }

  /** Unless the reader waits for a raw frame, the acknowledgement sent names its newest state. */
  lemma AckNamesLatest(baseSize: nat, r: R.Reader, ack: Option<int>)
    requires R.Valid(baseSize, r) && Tracks(ack, r) && !r.waiting
    ensures AckToSend(ack) == R.LatestSequence(r.window)
  {
    assert r.window[|r.window| - 1] in r.window;
  }

  class PlayerSnapshotState {
    var reader: R.SnapshotReader
    var writer: W.SnapshotWriter
    var rawState: Option<seq<Byte>>
    var readAckSequence: Option<int>

    ghost predicate Valid()
      reads this, reader, writer
    {
      && R.Valid(reader.baseSize, reader.State())
      && W.Valid(writer.State())
      && Tracks(readAckSequence, reader.State())
    }

    constructor ()
      ensures Valid() && fresh(reader) && fresh(writer)
      ensures reader.State() == R.Initial && writer.State() == W.Initial
      ensures rawState == None && readAckSequence == None
    {
      reader := new R.SnapshotReader();
      writer := new W.SnapshotWriter();
      rawState, readAckSequence := None, None;
    }

    method Read(f: Frame) returns (res: R.ReadResult)
      requires Valid()
      modifies this`rawState, this`readAckSequence, reader
      ensures Valid()
      ensures (reader.State(), res) == R.ReadStep(reader.baseSize, old(reader.State()), f)
      ensures readAckSequence == AckAfter(old(readAckSequence), res)
      ensures rawState ==
              if res.Accepted? then Some(res.data)
              else if res.reason == R.MissingBase then None
              else old(rawState)
    {
      ReadKeepsTracking(reader.baseSize, reader.State(), readAckSequence, f);
      res := reader.Read(f);
      if res == R.Rejected(R.MissingBase) {
        rawState, readAckSequence := None, None;
      }
      if res.Accepted? {
        rawState := Some(res.data);
        if res.ack != 0 {
          readAckSequence := Some(res.ack);
        }
      }
    }

    method Write(data: seq<Byte>) returns (frame: Frame)
      requires Valid()
      modifies writer
      ensures Valid()
      ensures (writer.State(), frame) == W.WriteStep(writer.Cfg(), old(writer.State()), data)
    {
      frame := writer.Write(data);
    }

    method Ack(s: int)
      requires Valid()
      modifies writer
      ensures Valid() && writer.State() == W.AckStep(old(writer.State()), s)
    {
      var _ := writer.Ack(s);
    }

    method Reset()
      modifies this
      ensures Valid() && fresh(reader) && fresh(writer)
      ensures reader.State() == R.Initial && writer.State() == W.Initial
      ensures rawState == None && readAckSequence == None
    {
      rawState, readAckSequence := None, None;
      reader := new R.SnapshotReader();
      writer := new W.SnapshotWriter();
    }
  }
}
