/**
 * The two ends joined by a reliable FIFO, with an acknowledgement stream nobody controls:
 * acks may be late, duplicated, reordered or made up.
 */
module SnapshotProtocol {
  import opened Octets
  import opened SnapshotFrames
  import W = SnapshotWriters
  import R = SnapshotReaders
  import Fnv1a
  import Rle

  datatype Setup = Setup(writer: W.Config, baseSize: nat)

  datatype Event = Write(data: seq<Byte>) | Deliver | Ack(s: int)

  /** sent and received record the history: the clamped states written, the outcomes read. */
  datatype Link = Link(
    writer: W.Writer, reader: R.Reader, inFlight: seq<Frame>,
    sent: seq<seq<Byte>>, received: seq<R.ReadResult>)

  const Initial := Link(W.Initial, R.Initial, [], [], [])

  function Step(c: Setup, l: Link, e: Event): Link
    requires W.Valid(l.writer)
  {
    match e
    case Write(data) =>
      var (w, f) := W.WriteStep(c.writer, l.writer, data);
      l.(writer := w, inFlight := l.inFlight + [f], sent := l.sent + [Clamp(data, c.writer.maxDataLength)])
    case Deliver =>
      if l.inFlight == [] then l
      else
        var (r, res) := R.ReadStep(c.baseSize, l.reader, l.inFlight[0]);
        l.(reader := r, inFlight := l.inFlight[1..], received := l.received + [res])
    case Ack(s) => l.(writer := W.AckStep(l.writer, s))
  }

  function Run(c: Setup, events: seq<Event>): (l: Link)
    ensures W.Valid(l.writer)
    decreases |events|
  {
    if events == [] then Initial
    else
      var before := Run(c, events[..|events| - 1]);
      var e := events[|events| - 1];
      assert W.Valid(Step(c, before, e).writer) by {
        W.StepsKeepValid(c.writer, before.writer, if e.Write? then e.data else [], if e.Ack? then e.s else 0);
      }
      Step(c, before, e)
  }

  // ----- The invariant -----

  /** The reader after every frame in flight has been delivered. */
  function Drained(c: Setup, r: R.Reader, frames: seq<Frame>): R.Reader {
    R.ReadAll(c.baseSize, r, frames).0
  }

  /** Every frame of the queue will be accepted and decode to its state. */
  predicate WillDeliver(c: Setup, r: R.Reader, frames: seq<Frame>, states: seq<seq<Byte>>)
    requires |frames| == |states|
    decreases |frames|
  {
    frames == [] ||
    var (r', res) := R.ReadStep(c.baseSize, r, frames[0]);
    res.Accepted? && res.data == states[0] && WillDeliver(c, r', frames[1..], states[1..])
  }

  /** The writer's newest-first window is a prefix of the reversed reader window, number and data. */
  predicate Mirrors(w: seq<Snapshot>, r: seq<Snapshot>) {
    |w| <= |r| && forall i :: 0 <= i < |w| ==> w[i] == r[|r| - 1 - i]
  }

  /** A reader that can decode whatever this writer emits next. */
  predicate InStep(c: Setup, w: W.Writer, r: R.Reader) {
    && W.Valid(w) && R.Valid(c.baseSize, r) && !r.waiting
    && Mirrors(w.window, r.window)
    && (forall e :: e in w.window ==> |e.data| <= c.baseSize)
  }

  predicate Inv(c: Setup, l: Link) {
    && |l.sent| == |l.received| + |l.inFlight|
    && (forall i :: 0 <= i < |l.received| ==> l.received[i].Accepted? && l.received[i].data == l.sent[i])
    && WillDeliver(c, l.reader, l.inFlight, l.sent[|l.received|..])
    && InStep(c, l.writer, Drained(c, l.reader, l.inFlight))
  }

  // ----- One write against a reader in step -----

  /** The base the writer names is found, and it is the same state. */
  lemma BaseIsShared(c: Setup, w: W.Writer, r: R.Reader)
    requires InStep(c, w, r) && w.window != []
    ensures R.Lookup(r.window, w.window[|w.window| - 1].sequence).Some?
    ensures R.Lookup(r.window, w.window[|w.window| - 1].sequence).value == w.window[|w.window| - 1]
  {
    var base := w.window[|w.window| - 1];
    assert r.window[|r.window| - |w.window|] == base;
    var found := R.Lookup(r.window, base.sequence);
    var i :| 0 <= i < |r.window| && r.window[i] == found.value;
    if i != |r.window| - |w.window| {
      assert false;
    }
  }

  /** Dropping an older duplicate of the new number does not touch the mirrored part. */
  lemma MirroredPartSurvives(w: W.Writer, r: seq<Snapshot>) returns (kept: seq<Snapshot>)
    requires W.Valid(w) && Mirrors(w.window, r)
    ensures Without(r, w.nextSaveSeq) == kept + r[|r| - |w.window|..]
  {
    var k := |r| - |w.window|;
    forall e | e in r[k..]
      ensures e.sequence != w.nextSaveSeq
    {
      W.NextIsFresh(w);
      var i :| k <= i < |r| && r[i] == e;
      assert w.window[|r| - 1 - i] == e;
    }
    kept := Without(r[..k], w.nextSaveSeq);
    assert r == r[..k] + r[k..];
    WithoutAppend(r[..k], r[k..], w.nextSaveSeq);
    WithoutAbsent(r[k..], w.nextSaveSeq);
  }

  lemma MirrorsTail(w: seq<Snapshot>, r: seq<Snapshot>, front: seq<Snapshot>, n: nat)
    requires Mirrors(w, r) && |w| <= n <= |r|
    ensures Mirrors(w, front + r[|r| - n..])
  {
    forall i | 0 <= i < |w|
      ensures w[i] == (front + r[|r| - n..])[|front| + n - 1 - i]
    {
      assert w[i] == r[|r| - 1 - i];
    }
  }

  lemma PushMirrors(w: W.Writer, r: seq<Snapshot>, s: Snapshot)
    requires W.Valid(w) && |w.window| < MAX_WINDOW && s.sequence == w.nextSaveSeq
    requires Mirrors(w.window, r)
    ensures Mirrors([s] + w.window, R.Push(r, s))
  {
    var kept := MirroredPartSurvives(w, r);
    MirrorsTail(w.window, r, kept, |w.window|);
    var all := Without(r, s.sequence) + [s];
    assert Mirrors([s] + w.window, all);
    if |all| > MAX_WINDOW {
      MirrorsTail([s] + w.window, all, [], MAX_WINDOW);
      assert [] + all[|all| - MAX_WINDOW..] == R.Push(r, s);
    }
  }

  lemma MakeRoomInStep(c: Setup, w: W.Writer, r: R.Reader)
    requires InStep(c, w, r)
    ensures InStep(c, W.MakeRoom(w), r) && |W.MakeRoom(w).window| < MAX_WINDOW
  {}

  /** A raw frame is accepted whatever the reader holds, and resets both windows to it. */
  lemma RawInStep(c: Setup, w: W.Writer, r: R.Reader, state: seq<Byte>)
    requires W.Valid(w) && w.window == [] && |state| <= c.baseSize
    ensures var (w', f) := W.Raw(w, state);
            var (r', res) := R.ReadStep(c.baseSize, r, f);
            res.Accepted? && res.data == state && InStep(c, w', r')
  {
    W.SuccIsOneAhead(w.nextSaveSeq);
  }

  lemma DifferenceInStep(c: Setup, w: W.Writer, r: R.Reader, state: seq<Byte>, save: bool)
    requires InStep(c, w, r) && 0 < |w.window| < MAX_WINDOW && |state| <= c.baseSize
    ensures var (w', f) := W.Difference(w, state, save);
            var (r', res) := R.ReadStep(c.baseSize, r, f);
            res.Accepted? && res.data == state && InStep(c, w', r')
  {
    hide Rle.Encode, Rle.Decode, Rle.XorWith, Fnv1a.Hash, R.Push;
    var base := w.window[|w.window| - 1];
    var diff := Rle.XorWith(state, base.data);
    var rle := Rle.Encode(diff);
    if |rle| > |state| {
      RawInStep(c, w.(window := [], resync := true), r, state);
    } else {
      var f := W.Difference(w, state, save).1;
      BaseIsShared(c, w, r);
      Rle.RoundTrip(diff);
      Rle.XorWithCancel(state, base.data);
      if save {
        var s := Snapshot(w.nextSaveSeq, state);
        PushMirrors(w, r.window, s);
        R.AnyFrameKeepsValid(c.baseSize, r, f);
        W.SuccIsOneAhead(w.nextSaveSeq);
      }
    }
  }

  /** The heart of the protocol: any write, any reader in step with the writer. */
  lemma WriteInStep(c: Setup, w: W.Writer, r: R.Reader, data: seq<Byte>)
    requires InStep(c, w, r) && c.writer.maxDataLength <= c.baseSize
    ensures var (w', f) := W.WriteStep(c.writer, w, data);
            var (r', res) := R.ReadStep(c.baseSize, r, f);
            && res.Accepted? && res.data == Clamp(data, c.writer.maxDataLength)
            && InStep(c, w', r')
  {
    hide W.Raw, W.Difference, R.ReadStep, Mirrors;
    var state := Clamp(data, c.writer.maxDataLength);
    var room := W.MakeRoom(w);
    MakeRoomInStep(c, w, r);
    if room.window == [] {
      RawInStep(c, room, r, state);
    } else {
      DifferenceInStep(c, room, r, state, room.writeCount % W.Period(c.writer, room.resync) == 0);
    }
  }

  lemma AckInStep(c: Setup, w: W.Writer, r: R.Reader, s: int)
    requires InStep(c, w, r)
    ensures InStep(c, W.AckStep(w, s), r)
  {
    W.StepsKeepValid(c.writer, w, [], s);
  }

  // ----- Runs -----

  lemma {:induction false} DeliverAppend(
    c: Setup, r: R.Reader, frames: seq<Frame>, states: seq<seq<Byte>>, f: Frame, state: seq<Byte>)
    requires |frames| == |states| && WillDeliver(c, r, frames, states)
    requires var (r', res) := R.ReadStep(c.baseSize, Drained(c, r, frames), f);
             res.Accepted? && res.data == state
    ensures WillDeliver(c, r, frames + [f], states + [state])
    ensures Drained(c, r, frames + [f]) == R.ReadStep(c.baseSize, Drained(c, r, frames), f).0
    decreases |frames|
  {
    var all, allStates := frames + [f], states + [state];
    if frames == [] {
      assert all == [f] && all[1..] == [];
      var r' := R.ReadStep(c.baseSize, r, f).0;
      assert R.ReadAll(c.baseSize, r', all[1..]).0 == r';
    } else {
      assert all[0] == frames[0] && all[1..] == frames[1..] + [f];
      assert allStates[0] == states[0] && allStates[1..] == states[1..] + [state];
      DeliverAppend(c, R.ReadStep(c.baseSize, r, frames[0]).0, frames[1..], states[1..], f, state);
    }
  }

  lemma WriteKeepsInv(c: Setup, l: Link, data: seq<Byte>)
    requires Inv(c, l) && c.writer.maxDataLength <= c.baseSize
    ensures Inv(c, Step(c, l, Write(data)))
  {
    hide W.WriteStep, R.ReadStep, W.Valid, R.Valid, Mirrors, Clamp;
    var state := Clamp(data, c.writer.maxDataLength);
    var (w, f) := W.WriteStep(c.writer, l.writer, data);
    var owed := l.sent[|l.received|..];
    WriteInStep(c, l.writer, Drained(c, l.reader, l.inFlight), data);
    DeliverAppend(c, l.reader, l.inFlight, owed, f, state);
    assert (l.sent + [state])[|l.received|..] == owed + [state];
  }

  lemma DeliverKeepsInv(c: Setup, l: Link)
    requires Inv(c, l)
    ensures Inv(c, Step(c, l, Deliver))
  {
    if l.inFlight != [] {
      var owed := l.sent[|l.received|..];
      assert owed[0] == l.sent[|l.received|];
      assert owed[1..] == l.sent[|l.received| + 1..];
    }
  }

  /** Every run keeps the invariant, whatever is written and whatever is acknowledged. */
  lemma {:induction false} RunKeepsInv(c: Setup, events: seq<Event>)
    requires c.writer.maxDataLength <= c.baseSize
    ensures Inv(c, Run(c, events))
    decreases |events|
  {
    if events == [] {
    } else {
      var before := Run(c, events[..|events| - 1]);
      RunKeepsInv(c, events[..|events| - 1]);
      match events[|events| - 1]
      case Write(data) => WriteKeepsInv(c, before, data);
      case Deliver => DeliverKeepsInv(c, before);
      case Ack(s) => AckInStep(c, before.writer, Drained(c, before.reader, before.inFlight), s);
    }
  }

  /**
   * Main theorem: in every run, the i-th frame delivered is accepted and decodes to exactly
   * the i-th state written, clamped; nothing is lost and nothing is reordered.
   */
  lemma EveryFrameDecodes(c: Setup, events: seq<Event>)
    requires c.writer.maxDataLength <= c.baseSize
    ensures var l := Run(c, events);
            && |l.received| + |l.inFlight| == |l.sent|
            && forall i :: 0 <= i < |l.received| ==> l.received[i].Accepted? && l.received[i].data == l.sent[i]
  {
    RunKeepsInv(c, events);
  }

  /**
   * Once nothing is in flight, acknowledging what the reader reports as its latest number is
   * accepted, leaves that one state as the base of both ends and ends any resync.
   */
  lemma LatestAckSettles(c: Setup, events: seq<Event>)
    requires c.writer.maxDataLength <= c.baseSize
    requires Run(c, events).inFlight == []
    ensures var l := Run(c, events);
            var s := R.LatestSequence(l.reader.window);
            var w := W.AckStep(l.writer, s);
            W.Accepts(l.writer, s) && !w.resync && |w.window| == 1 && w.window[0] in l.reader.window
  {
    hide W.WriteStep, W.AckStep, R.ReadStep;
    RunKeepsInv(c, events);
    WindowNeverEmpty(c, events);
    NewestAckSettles(Run(c, events).writer);
    var l := Run(c, events);
    var newest := l.reader.window[|l.reader.window| - 1];
    assert l.writer.window[0] == newest;
  }

  lemma NewestAckSettles(w: W.Writer)
    requires W.Valid(w) && w.window != []
    ensures var s := w.window[0].sequence;
            W.Accepts(w, s) && W.AckStep(w, s) == w.(window := [w.window[0]], resync := false)
  {}

  lemma {:induction false} WindowNeverEmpty(c: Setup, events: seq<Event>)
    ensures Run(c, events).writer.window != []
    decreases |events|
  {
    if events != [] {
      var before := Run(c, events[..|events| - 1]);
      var e := events[|events| - 1];
      WindowNeverEmpty(c, events[..|events| - 1]);
      W.StepsKeepValid(c.writer, before.writer, if e.Write? then e.data else [], if e.Ack? then e.s else 0);
    }
  }
}
