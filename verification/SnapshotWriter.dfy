/** Saved states, frames and the sequence-number cycle shared by both ends. */
module SnapshotFrames {
  import opened Octets

  const MAX_WINDOW := 16

  datatype Snapshot = Snapshot(sequence: int, data: seq<Byte>)

  /** sequence == 0: a delta, not stored; base == 0: a raw state. */
  datatype Frame = Frame(sequence: Byte, base: Byte, checksum: Byte, payload: seq<Byte>)

  predicate IsSequence(s: int) {
    1 <= s <= 255
  }

  /** The u8 counter that skips zero. */
  function Succ(s: int): int {
    if (s + 1) % 256 == 0 then 1 else (s + 1) % 256
  }

  function Clamp(data: seq<Byte>, limit: nat): seq<Byte> {
    if |data| <= limit then data else data[..limit]
  }

  /** The entries whose sequence differs from s, in order. */
  function Without(window: seq<Snapshot>, s: int): (r: seq<Snapshot>)
    ensures |r| <= |window|
  {
    if window == [] then []
    else if window[0].sequence == s then Without(window[1..], s)
    else [window[0]] + Without(window[1..], s)
  }

  lemma {:induction false} WithoutMembers(window: seq<Snapshot>, s: int)
    ensures forall e :: e in Without(window, s) <==> e in window && e.sequence != s
  {
    if window != [] {
      WithoutMembers(window[1..], s);
      assert window == [window[0]] + window[1..];
    }
  }

  lemma {:induction false} WithoutAbsent(window: seq<Snapshot>, s: int)
    requires forall e :: e in window ==> e.sequence != s
    ensures Without(window, s) == window
  {
    if window != [] {
      WithoutAbsent(window[1..], s);
      assert window == [window[0]] + window[1..];
    }
  }

  lemma ConsAppend(x: Snapshot, a: seq<Snapshot>, b: seq<Snapshot>)
    ensures [x] + (a + b) == ([x] + a) + b
  {}

  lemma {:induction false} WithoutAppend(a: seq<Snapshot>, b: seq<Snapshot>, s: int)
    ensures Without(a + b, s) == Without(a, s) + Without(b, s)
  {
    if a == [] {
      assert a + b == b;
    } else {
      WithoutAppend(a[1..], b, s);
      assert (a + b)[1..] == a[1..] + b;
      ConsAppend(a[0], Without(a[1..], s), Without(b, s));
    }
  }
}

/** The sending end: src/protocol/snapshot/SnapshotWriter.js. */
module SnapshotWriters {
  import opened Octets
  import opened SnapshotFrames
  import opened SnapshotLimits
  import Fnv1a
  import Rle

  datatype Config = Config(keyframeInterval: int, maxDataLength: nat)

  /** window is newest first; the base of every difference is its last entry. */
  datatype Writer = Writer(window: seq<Snapshot>, nextSaveSeq: int, writeCount: nat, resync: bool)

  const Initial := Writer([Snapshot(1, [])], 2, 0, false)

  /** A run of consecutive sequence numbers, newest first, with nextSaveSeq right after it. */
  predicate Valid(w: Writer) {
    && IsSequence(w.nextSaveSeq)
    && |w.window| <= MAX_WINDOW
    && (forall i :: 0 <= i < |w.window| ==> IsSequence(w.window[i].sequence))
    && (forall i :: 0 < i < |w.window| ==> w.window[i - 1].sequence == Succ(w.window[i].sequence))
    && (w.window != [] ==> w.nextSaveSeq == Succ(w.window[0].sequence))
  }

  /** How far b lies behind a in the 255-cycle 1..255. */
  function Behind(a: int, b: int): int {
    (a - b) % 255
  }

  lemma SuccIsOneAhead(s: int)
    requires IsSequence(s)
    ensures IsSequence(Succ(s)) && Behind(Succ(s), s) == 1
  {}

  lemma SuccAdds(b: int, c: int)
    requires IsSequence(b) && IsSequence(c) && Behind(b, c) < 254
    ensures Behind(Succ(b), c) == Behind(b, c) + 1
  {}

  /** Position in the window is distance from the newest entry. */
  lemma {:induction false} PositionIsDistance(w: Writer, i: nat, j: nat)
    requires Valid(w) && i <= j < |w.window|
    ensures Behind(w.window[i].sequence, w.window[j].sequence) == j - i
    decreases j - i
  {
    if i < j {
      PositionIsDistance(w, i + 1, j);
      SuccAdds(w.window[i + 1].sequence, w.window[j].sequence);
    }
  }

  /** The number about to be used is not in the window, so no stored state is ever replaced. */
  lemma NextIsFresh(w: Writer)
    requires Valid(w)
    ensures forall e :: e in w.window ==> e.sequence != w.nextSaveSeq
  {
    forall j | 0 <= j < |w.window|
      ensures w.window[j].sequence != w.nextSaveSeq
    {
      PositionIsDistance(w, 0, j);
      SuccAdds(w.window[0].sequence, w.window[j].sequence);
    }
  }

  /** Window entries have distinct sequence numbers. */
  lemma DistinctSequences(w: Writer, i: nat, j: nat)
    requires Valid(w) && i < j < |w.window|
    ensures w.window[i].sequence != w.window[j].sequence
  {
    PositionIsDistance(w, i, j);
  }

  // ----- Acknowledgements -----

  /** The u8 wrap-around test of the acknowledgement filter. */
  predicate AtOrAfter(s: int, acked: int) {
    (s - acked) % 256 <= 127
  }

  /** The filter the writer runs over its window. */
  function KeepFrom(window: seq<Snapshot>, acked: int): (r: seq<Snapshot>)
    ensures |r| <= |window|
  {
    if window == [] then []
    else if AtOrAfter(window[0].sequence, acked) then [window[0]] + KeepFrom(window[1..], acked)
    else KeepFrom(window[1..], acked)
  }

  /** Across any wrap-around, "at or after" the j-th entry means: the j-th entry or a newer one. */
  lemma FilterSeesPosition(w: Writer, i: nat, j: nat)
    requires Valid(w) && i < |w.window| && j < |w.window|
    ensures AtOrAfter(w.window[i].sequence, w.window[j].sequence) <==> i <= j
  {
    if i <= j {
      PositionIsDistance(w, i, j);
      BehindSeesOrder(w.window[i].sequence, w.window[j].sequence);
    } else {
      PositionIsDistance(w, j, i);
      BehindSeesOrder(w.window[j].sequence, w.window[i].sequence);
    }
  }

  /** Up to 15 steps apart, the modulus-256 test tells the newer from the older. */
  lemma BehindSeesOrder(a: int, b: int)
    requires IsSequence(a) && IsSequence(b) && Behind(a, b) < MAX_WINDOW
    ensures AtOrAfter(a, b)
    ensures a != b ==> !AtOrAfter(b, a)
  {}

  lemma {:induction false} KeepFromSplits(window: seq<Snapshot>, acked: int, k: nat)
    requires k <= |window|
    requires forall i :: 0 <= i < |window| ==> (AtOrAfter(window[i].sequence, acked) <==> i < k)
    ensures KeepFrom(window, acked) == window[..k]
  {
    if window != [] {
      var rest := window[1..];
      forall i | 0 <= i < |rest|
        ensures AtOrAfter(rest[i].sequence, acked) <==> i < (if k == 0 then 0 else k - 1)
      {
        assert rest[i] == window[i + 1];
      }
      KeepFromSplits(rest, acked, if k == 0 then 0 else k - 1);
    }
  }

  /** Index of the entry with sequence s, or the window's length. */
  function Find(window: seq<Snapshot>, s: int): (k: nat)
    ensures k <= |window|
    ensures k < |window| ==> window[k].sequence == s
    ensures forall i :: 0 <= i < k ==> window[i].sequence != s
  {
    if window == [] then 0
    else if window[0].sequence == s then 0
    else
      var k := Find(window[1..], s);
      assert forall i :: 1 <= i < k + 1 ==> window[i] == window[1..][i - 1];
      k + 1
  }

  predicate Accepts(w: Writer, s: int) {
    Find(w.window, s) < |w.window|
  }

  /** An accepted acknowledgement keeps the acked entry and everything newer, and ends a resync. */
  function AckStep(w: Writer, s: int): Writer {
    if Accepts(w, s) then w.(window := w.window[..Find(w.window, s) + 1], resync := false) else w
  }

  /** The modular filter computes exactly that prefix. */
  lemma AckFilterIsPrefix(w: Writer, s: int)
    requires Valid(w) && Accepts(w, s)
    ensures KeepFrom(w.window, s) == AckStep(w, s).window
  {
    var k := Find(w.window, s);
    forall i | 0 <= i < |w.window|
      ensures AtOrAfter(w.window[i].sequence, s) <==> i < k + 1
    {
      FilterSeesPosition(w, i, k);
    }
    KeepFromSplits(w.window, s, k + 1);
  }

  // ----- Writing -----

  function Max(a: int, b: int): int {
    if a < b then b else a
  }

  function Period(cfg: Config, resync: bool): (p: nat)
    ensures p >= 1
  {
    if resync then Max(1, cfg.keyframeInterval / 2) else Max(1, cfg.keyframeInterval)
  }

  /** What a full window does to the writer before the frame is chosen. */
  function MakeRoom(w: Writer): Writer {
    if |w.window| < MAX_WINDOW then w
    else if w.resync then w.(window := w.window[..MAX_WINDOW / 2])
    else Writer([], 1, 0, true)
  }

  function Saved(w: Writer, state: seq<Byte>): Writer {
    w.(window := [Snapshot(w.nextSaveSeq, state)] + w.window, nextSaveSeq := Succ(w.nextSaveSeq))
  }

  function Compressed(w: Writer, state: seq<Byte>): seq<Byte>
    requires w.window != []
  {
    Rle.Encode(Rle.XorWith(state, w.window[|w.window| - 1].data))
  }

  function Raw(w: Writer, state: seq<Byte>): (Writer, Frame)
    requires Valid(w)
  {
    (Saved(w, state), Frame(w.nextSaveSeq, 0, Fnv1a.Hash(state), state))
  }

  /** A stored (save) or transient difference; a raw frame when the difference would be longer. */
  function Difference(w: Writer, state: seq<Byte>, save: bool): (Writer, Frame)
    requires Valid(w) && w.window != []
  {
    var base, rle := w.window[|w.window| - 1].sequence, Compressed(w, state);
    if |rle| > |state| then Raw(w.(window := [], resync := true), state)
    else if save then (Saved(w, state), Frame(w.nextSaveSeq, base, Fnv1a.Hash(rle), rle))
    else (w, Frame(0, base, Fnv1a.Hash(rle), rle))
  }

  function Emit(cfg: Config, w: Writer, state: seq<Byte>): (Writer, Frame)
    requires Valid(w)
  {
    if w.window == [] then Raw(w, state)
    else Difference(w, state, w.writeCount % Period(cfg, w.resync) == 0)
  }

  function WriteStep(cfg: Config, w: Writer, data: seq<Byte>): (Writer, Frame)
    requires Valid(w)
  {
    var (w', f) := Emit(cfg, MakeRoom(w), Clamp(data, cfg.maxDataLength));
    (w'.(writeCount := w'.writeCount + 1), f)
  }

  /** Every step keeps the window a run of consecutive numbers of length 1 to 16. */
  lemma StepsKeepValid(cfg: Config, w: Writer, data: seq<Byte>, s: int)
    requires Valid(w)
    ensures Valid(WriteStep(cfg, w, data).0) && WriteStep(cfg, w, data).0.window != []
    ensures Valid(AckStep(w, s)) && (w.window != [] ==> AckStep(w, s).window != [])
  {
    hide Rle.Encode, Rle.XorWith, Fnv1a.Hash, Period;
    var r := MakeRoom(w);
    assert Valid(r) && |r.window| < MAX_WINDOW;
    SuccIsOneAhead(r.nextSaveSeq);
  }

  /** No frame's payload is longer than the clamped data: header included, at most three bytes more. */
  lemma FrameOverhead(cfg: Config, w: Writer, data: seq<Byte>)
    requires Valid(w)
    ensures |WriteStep(cfg, w, data).1.payload| <= |Clamp(data, cfg.maxDataLength)| <= |data|
  {}

  /**
   * The writer object. Its methods run the source's own steps: the modular filter, the
   * de-duplicating unshift and the truncation to 16, which the contracts show to act as
   * prefix and cons on every valid window.
   */
  class SnapshotWriter {
    const keyframeInterval: int
    const maxDataLength: nat
    var window: seq<Snapshot>
    var nextSaveSeq: int
    var writeCount: nat
    var resync: bool

    ghost function State(): Writer
      reads this
    {
      Writer(window, nextSaveSeq, writeCount, resync)
    }

    ghost function Cfg(): Config {
      Config(keyframeInterval, maxDataLength)
    }

    constructor (keyframeInterval: int := 10, maxDataLength: nat := SNAPSHOT_MAX_DATA_BYTES)
      ensures this.keyframeInterval == keyframeInterval && this.maxDataLength == maxDataLength
      ensures State() == Initial && Valid(State())
    {
      this.keyframeInterval, this.maxDataLength := keyframeInterval, maxDataLength;
      window, nextSaveSeq, writeCount, resync := [Snapshot(1, [])], 2, 0, false;
    }

    method Write(data: seq<Byte>) returns (frame: Frame)
      requires Valid(State())
      modifies this
      ensures (State(), frame) == WriteStep(Cfg(), old(State()), data)
      ensures Valid(State()) && window != []
    {
      StepsKeepValid(Cfg(), State(), data, 0);
      RollFullWindow();
      frame := EmitFrame(Clamp(data, maxDataLength));
      writeCount := writeCount + 1;
    }

    method RollFullWindow()
      requires Valid(State())
      modifies this
      ensures State() == MakeRoom(old(State())) && Valid(State()) && |window| < MAX_WINDOW
    {
      if |window| >= MAX_WINDOW {
        if resync {
          window := window[..MAX_WINDOW / 2];
        } else {
          resync := true;
          window := [];
          writeCount := 0;
          nextSaveSeq := 1;
        }
      }
    }

    method EmitFrame(state: seq<Byte>) returns (frame: Frame)
      requires Valid(State()) && |window| < MAX_WINDOW
      modifies this
      ensures (State(), frame) == Emit(Cfg(), old(State()), state)
    {
      var period := if resync then Max(1, keyframeInterval / 2) else Max(1, keyframeInterval);
      if |window| == 0 {
        frame := EmitRaw(state);
      } else if writeCount % period == 0 {
        frame := EmitKeyframe(state);
      } else {
        frame := EmitDelta(state);
      }
    }

    method Ack(acked: int) returns (accepted: bool)
      requires Valid(State())
      modifies this
      ensures State() == AckStep(old(State()), acked)
      ensures accepted == Accepts(old(State()), acked)
      ensures Valid(State())
    {
      StepsKeepValid(Cfg(), State(), [], acked);
      if Find(window, acked) == |window| {
        return false;
      }
      AckFilterIsPrefix(State(), acked);
      window := KeepFrom(window, acked);
      if resync {
        resync := false;
      }
      return true;
    }

    method AllocateSaveSeq() returns (s: int)
      requires Valid(State())
      modifies this`nextSaveSeq
      ensures s == old(nextSaveSeq) && nextSaveSeq == Succ(s)
    {
      s := nextSaveSeq;
      nextSaveSeq := if (nextSaveSeq + 1) % 256 != 0 then (nextSaveSeq + 1) % 256 else 1;
    }

    method AddToWindow(sequence: int, data: seq<Byte>)
      modifies this`window
      ensures window ==
              var all := [Snapshot(sequence, data)] + Without(old(window), sequence);
              if |all| > MAX_WINDOW then all[..MAX_WINDOW] else all
    {
      window := Without(window, sequence);
      window := [Snapshot(sequence, data)] + window;
      if |window| > MAX_WINDOW {
        window := window[..MAX_WINDOW];
      }
    }

    /** Number a state and put it in front: nothing is replaced and nothing falls off. */
    method Store(state: seq<Byte>) returns (sv: int)
      requires Valid(State()) && |window| < MAX_WINDOW
      modifies this`window, this`nextSaveSeq
      ensures sv == old(nextSaveSeq) && State() == Saved(old(State()), state)
    {
      NextIsFresh(State());
      WithoutAbsent(window, nextSaveSeq);
      sv := AllocateSaveSeq();
      AddToWindow(sv, state);
    }

    method CompressAgainstBase(state: seq<Byte>) returns (rle: seq<Byte>)
      requires window != []
      ensures rle == Compressed(State(), state)
    {
      var xorBuf := Rle.XorDiff(state, window[|window| - 1].data, |state|);
      assert state[..|state|] == state;
      rle := Rle.RleEncode(xorBuf);
    }

    method EmitRaw(state: seq<Byte>) returns (frame: Frame)
      requires Valid(State()) && |window| < MAX_WINDOW
      modifies this
      ensures (State(), frame) == Raw(old(State()), state)
    {
      var chk := Fnv1a.Fnv1a8(state);
      var sv := Store(state);
      frame := Frame(sv, 0, chk, state);
    }

    method EmitKeyframe(state: seq<Byte>) returns (frame: Frame)
      requires Valid(State()) && 0 < |window| < MAX_WINDOW
      modifies this
      ensures (State(), frame) == Difference(old(State()), state, true)
    {
      var rle := CompressAgainstBase(state);
      var base := window[|window| - 1];
      if |rle| > |state| {
        resync := true;
        window := [];
        frame := EmitRaw(state);
        return;
      }
      var chk := Fnv1a.Fnv1a8(rle);
      var sv := Store(state);
      frame := Frame(sv, base.sequence, chk, rle);
    }

    method EmitDelta(state: seq<Byte>) returns (frame: Frame)
      requires Valid(State()) && 0 < |window| < MAX_WINDOW
      modifies this
      ensures (State(), frame) == Difference(old(State()), state, false)
    {
      var rle := CompressAgainstBase(state);
      var base := window[|window| - 1];
      if |rle| > |state| {
        resync := true;
        window := [];
        frame := EmitRaw(state);
        return;
      }
      var chk := Fnv1a.Fnv1a8(rle);
      frame := Frame(0, base.sequence, chk, rle);
    }
  }
}
