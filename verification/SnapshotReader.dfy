/** The receiving end: src/protocol/snapshot/SnapshotReader.js. */
module SnapshotReaders {
  import opened Octets
  import opened Options
  import opened SnapshotFrames
  import opened SnapshotLimits
  import Fnv1a
  import Rle

  datatype Reason = InvalidFrame | Checksum | Oversize | Resyncing | MissingBase | RleTruncated

  datatype ReadResult =
    | Accepted(data: seq<Byte>, ack: int, raw: bool)
    | Rejected(reason: Reason)

  /** window is oldest first. */
  datatype Reader = Reader(window: seq<Snapshot>, waiting: bool)

  const Initial := Reader([Snapshot(1, [])], false)

  function Lookup(window: seq<Snapshot>, s: int): (r: Option<Snapshot>)
    ensures r.Some? ==> r.value in window && r.value.sequence == s
    ensures r.None? ==> forall e :: e in window ==> e.sequence != s
  {
    if window == [] then None
    else if window[0].sequence == s then Some(window[0])
    else Lookup(window[1..], s)
  }

  /** Store a state as the newest, replacing any entry of the same number, keeping the newest 16. */
  function Push(window: seq<Snapshot>, s: Snapshot): (r: seq<Snapshot>)
    ensures 0 < |r| <= MAX_WINDOW && r[|r| - 1] == s
  {
    var all := Without(window, s.sequence) + [s];
    if |all| > MAX_WINDOW then all[|all| - MAX_WINDOW..] else all
  }

  /** One frame against one reader: the new reader and the outcome. */
  function ReadStep(baseSize: nat, r: Reader, f: Frame): (Reader, ReadResult) {
    if f.sequence == 0 && f.base == 0 then (r, Rejected(InvalidFrame))
    else if Fnv1a.Hash(f.payload) != f.checksum then (r, Rejected(Checksum))
    else if f.base == 0 then
      if |f.payload| > baseSize then (r, Rejected(Oversize))
      else (Reader([Snapshot(f.sequence, f.payload)], false), Accepted(f.payload, f.sequence, true))
    else if r.waiting && f.sequence == 0 then (r, Rejected(Resyncing))
    else
      match Lookup(r.window, f.base)
      case None => (Reader([], true), Rejected(MissingBase))
      case Some(base) =>
        match Rle.Decode(f.payload)
        case None => (r, Rejected(RleTruncated))
        case Some(diff) =>
          if |diff| > baseSize then (r, Rejected(Oversize))
          else
            var state := Rle.XorWith(diff, base.data);
            if f.sequence == 0 then (r, Accepted(state, 0, false))
            else (Reader(Push(r.window, Snapshot(f.sequence, state)), false), Accepted(state, f.sequence, false))
  }

  /** The newest nonzero number in a window, 0 if none. */
  function LatestSequence(window: seq<Snapshot>): int {
    if window == [] then 0
    else
      var newest := window[|window| - 1].sequence;
      if newest != 0 then newest else LatestSequence(window[..|window| - 1])
  }

  // ----- What any input leaves true -----

  predicate Distinct(window: seq<Snapshot>) {
    forall i, j :: 0 <= i < j < |window| ==> window[i].sequence != window[j].sequence
  }

  /** At most 16 distinct nonzero numbers, bounded states, and waiting exactly when empty. */
  predicate Valid(baseSize: nat, r: Reader) {
    && |r.window| <= MAX_WINDOW
    && (forall e :: e in r.window ==> IsSequence(e.sequence) && |e.data| <= baseSize)
    && Distinct(r.window)
    && (r.waiting <==> r.window == [])
  }

  lemma {:induction false} WithoutKeepsDistinct(window: seq<Snapshot>, s: int)
    requires Distinct(window)
    ensures Distinct(Without(window, s))
  {
    if window != [] {
      WithoutKeepsDistinct(window[1..], s);
      WithoutMembers(window[1..], s);
      forall e | e in Without(window[1..], s)
        ensures e.sequence != window[0].sequence
      {
        assert e in window[1..];
      }
    }
  }

  lemma PushKeepsDistinct(window: seq<Snapshot>, s: Snapshot)
    requires Distinct(window)
    ensures Distinct(Push(window, s))
  {
    WithoutKeepsDistinct(window, s.sequence);
    WithoutMembers(window, s.sequence);
    var kept := Without(window, s.sequence);
    forall i | 0 <= i < |kept|
      ensures kept[i].sequence != s.sequence
    {
      assert kept[i] in kept;
    }
  }

  /** Any frame at all, well-formed or not, keeps the reader valid. */
  lemma AnyFrameKeepsValid(baseSize: nat, r: Reader, f: Frame)
    requires Valid(baseSize, r)
    ensures Valid(baseSize, ReadStep(baseSize, r, f).0)
  {
    hide Rle.Decode, Rle.XorWith, Fnv1a.Hash;
    var (r', res) := ReadStep(baseSize, r, f);
    if res.Accepted? && !res.raw && f.sequence != 0 {
      var s := Snapshot(f.sequence, res.data);
      PushKeepsDistinct(r.window, s);
      WithoutMembers(r.window, f.sequence);
      forall e | e in r'.window
        ensures IsSequence(e.sequence) && |e.data| <= baseSize
      {
        assert e in Without(r.window, f.sequence) + [s];
      }
    }
  }

  predicate ValidRaw(baseSize: nat, f: Frame) {
    f.sequence != 0 && f.base == 0 && Fnv1a.Hash(f.payload) == f.checksum && |f.payload| <= baseSize
  }

  function ReadAll(baseSize: nat, r: Reader, frames: seq<Frame>): (Reader, seq<ReadResult>)
    decreases |frames|
  {
    if frames == [] then (r, [])
    else
      var (r1, res) := ReadStep(baseSize, r, frames[0]);
      var (r2, rest) := ReadAll(baseSize, r1, frames[1..]);
      (r2, [res] + rest)
  }

  /** However long the input, the reader's window stays valid. */
  lemma {:induction false} AnyInputKeepsValid(baseSize: nat, r: Reader, frames: seq<Frame>)
    requires Valid(baseSize, r)
    ensures Valid(baseSize, ReadAll(baseSize, r, frames).0)
    decreases |frames|
  {
    if frames != [] {
      AnyFrameKeepsValid(baseSize, r, frames[0]);
      AnyInputKeepsValid(baseSize, ReadStep(baseSize, r, frames[0]).0, frames[1..]);
    }
  }

  /** A waiting reader recovers on a frame exactly when that frame is a valid raw one. */
  lemma OnlyRawRecovers(baseSize: nat, r: Reader, f: Frame)
    requires Valid(baseSize, r) && r.waiting
    ensures ReadStep(baseSize, r, f).1.Accepted? <==> ValidRaw(baseSize, f)
    ensures !ValidRaw(baseSize, f) ==> ReadStep(baseSize, r, f).0 == r
    ensures ValidRaw(baseSize, f) ==> !ReadStep(baseSize, r, f).0.waiting
  {}

  /** After a missing base every frame is rejected until a valid raw frame, however long the run. */
  lemma {:induction false} RejectedUntilRaw(baseSize: nat, r: Reader, f: Frame, frames: seq<Frame>)
    requires Valid(baseSize, r)
    requires ReadStep(baseSize, r, f).1 == Rejected(MissingBase)
    requires forall g :: g in frames ==> !ValidRaw(baseSize, g)
    ensures var (r', results) := ReadAll(baseSize, ReadStep(baseSize, r, f).0, frames);
            r'.waiting && forall res :: res in results ==> res.Rejected?
  {
    AnyFrameKeepsValid(baseSize, r, f);
    StaysWaiting(baseSize, ReadStep(baseSize, r, f).0, frames);
  }

  lemma {:induction false} StaysWaiting(baseSize: nat, r: Reader, frames: seq<Frame>)
    requires Valid(baseSize, r) && r.waiting
    requires forall g :: g in frames ==> !ValidRaw(baseSize, g)
    ensures ReadAll(baseSize, r, frames).0 == r
    ensures forall res :: res in ReadAll(baseSize, r, frames).1 ==> res.Rejected?
    decreases |frames|
  {
    if frames != [] {
      OnlyRawRecovers(baseSize, r, frames[0]);
      StaysWaiting(baseSize, r, frames[1..]);
    }
  }

  /** Changing one payload byte of a frame with a good checksum: rejected as Checksum, reader untouched. */
  lemma CorruptByteRejected(baseSize: nat, r: Reader, f: Frame, i: nat, b: Byte)
    requires f.sequence != 0 || f.base != 0
    requires Fnv1a.Hash(f.payload) == f.checksum
    requires i < |f.payload| && b != f.payload[i]
    ensures ReadStep(baseSize, r, f.(payload := f.payload[i := b])) == (r, Rejected(Checksum))
  {
    Fnv1a.DetectsSingleByteChange(f.payload, i, b);
  }

  /** The reader object. */
  class SnapshotReader {
    const baseSize: nat
    var window: seq<Snapshot>
    var waitingForKeyframe: bool

    ghost function State(): Reader
      reads this
    {
      Reader(window, waitingForKeyframe)
    }

    constructor (baseSize: nat := SNAPSHOT_MAX_DATA_BYTES)
      ensures this.baseSize == baseSize && State() == Initial && Valid(baseSize, State())
    {
      this.baseSize := baseSize;
      window, waitingForKeyframe := [Snapshot(1, [])], false;
    }

    /** forceWaitForKeyframe. */
    method ForceWaitForKeyframe()
      modifies this
      ensures State() == Reader([], true) && Valid(baseSize, State())
    {
      window, waitingForKeyframe := [], true;
    }

    method GetLatestSequence() returns (s: int)
      ensures s == LatestSequence(window)
    {
      var i := |window| - 1;
      assert window[..|window|] == window;
      while i >= 0
        invariant -1 <= i < |window|
        invariant LatestSequence(window[..i + 1]) == LatestSequence(window)
      {
        assert window[..i + 1][..i] == window[..i];
        if window[i].sequence != 0 {
          return window[i].sequence;
        }
        i := i - 1;
      }
      return 0;
    }

    method Read(f: Frame) returns (res: ReadResult)
      requires Valid(baseSize, State())
      modifies this
      ensures (State(), res) == ReadStep(baseSize, old(State()), f)
      ensures Valid(baseSize, State())
    {
      AnyFrameKeepsValid(baseSize, State(), f);
      if f.sequence == 0 && f.base == 0 {
        return Rejected(InvalidFrame);
      }
      var hash := Fnv1a.Fnv1a8(f.payload);
      if hash != f.checksum {
        return Rejected(Checksum);
      }
      if f.base == 0 && f.sequence != 0 {
        if |f.payload| > baseSize {
          return Rejected(Oversize);
        }
        window := [];
        AddToWindow(Snapshot(f.sequence, f.payload));
        assert window == [Snapshot(f.sequence, f.payload)];
        waitingForKeyframe := false;
        return Accepted(f.payload, f.sequence, true);
      }
      if waitingForKeyframe && f.sequence == 0 {
        return Rejected(Resyncing);
      }
      var baseEntry := Lookup(window, f.base);
      if baseEntry == None {
        window := [];
        waitingForKeyframe := true;
        return Rejected(MissingBase);
      }
      res := ReadDifference(f, baseEntry.value.data);
    }

    /** The tail of read once the base is known. */
    method ReadDifference(f: Frame, base: seq<Byte>) returns (res: ReadResult)
      modifies this
      ensures res ==
              match Rle.Decode(f.payload)
              case None => Rejected(RleTruncated)
              case Some(diff) =>
                if |diff| > baseSize then Rejected(Oversize)
                else Accepted(Rle.XorWith(diff, base), f.sequence, false)
      ensures State() ==
              if res.Rejected? || f.sequence == 0 then old(State())
              else Reader(Push(old(window), Snapshot(f.sequence, res.data)), false)
    {
      var decoded := Rle.RleDecode(f.payload);
      if decoded == None {
        return Rejected(RleTruncated);
      }
      var diff := decoded.value;
      if |diff| > baseSize {
        return Rejected(Oversize);
      }
      var newState := ApplyDifference(base, diff);
      if f.sequence != 0 {
        AddToWindow(Snapshot(f.sequence, newState));
        waitingForKeyframe := false;
      }
      res := Accepted(newState, f.sequence, false);
    }

    /** The decoder's copy-then-XOR loop. */
    method ApplyDifference(base: seq<Byte>, diff: seq<Byte>) returns (newState: seq<Byte>)
      ensures newState == Rle.XorWith(diff, base)
    {
      var copyLen := if |base| < |diff| then |base| else |diff|;
      newState := [];
      for i := 0 to copyLen
        invariant newState == Rle.XorWith(diff, base)[..i]
      {
        XorCancel(base[i], diff[i]);
        newState := newState + [Xor(base[i], diff[i])];
      }
      if |diff| > |base| {
        newState := newState + diff[|base|..];
      }
    }

    method AddToWindow(s: Snapshot)
      modifies this`window
      ensures window == Push(old(window), s)
    {
      window := Without(window, s.sequence) + [s];
      ghost var all := window;
      while |window| > MAX_WINDOW
        invariant |window| <= |all| && window == all[|all| - |window|..]
        invariant |all| > MAX_WINDOW ==> |window| >= MAX_WINDOW
        invariant |all| <= MAX_WINDOW ==> window == all
      {
        window := window[1..];
      }
    }
  }
}
