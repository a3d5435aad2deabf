/** How long a writer can go unacknowledged before it starts over with a raw frame. */
module SnapshotResync {
  import opened Octets
  import opened SnapshotFrames
  import W = SnapshotWriters
  import Fnv1a
  import Rle

  datatype Call = Write(data: seq<Byte>) | Ack(s: int)

  /** The frames a sequence of calls makes the writer emit. */
  function Emitted(cfg: W.Config, w: W.Writer, calls: seq<Call>): seq<Frame>
    requires W.Valid(w)
    decreases |calls|
  {
    if calls == [] then []
    else
      match calls[0]
      case Write(data) =>
        assert W.Valid(W.WriteStep(cfg, w, data).0) by { W.StepsKeepValid(cfg, w, data, 0); }
        [W.WriteStep(cfg, w, data).1] + Emitted(cfg, W.WriteStep(cfg, w, data).0, calls[1..])
      case Ack(s) =>
        assert W.Valid(W.AckStep(w, s)) by { W.StepsKeepValid(cfg, w, [], s); }
        Emitted(cfg, W.AckStep(w, s), calls[1..])
  }

  /** None of the acknowledgements among the calls is accepted. */
  predicate Unacked(cfg: W.Config, w: W.Writer, calls: seq<Call>)
    requires W.Valid(w)
    decreases |calls|
  {
    calls == [] ||
    match calls[0]
    case Write(data) =>
      assert W.Valid(W.WriteStep(cfg, w, data).0) by { W.StepsKeepValid(cfg, w, data, 0); }
      Unacked(cfg, W.WriteStep(cfg, w, data).0, calls[1..])
    case Ack(s) => !W.Accepts(w, s) && Unacked(cfg, w, calls[1..])
  }

  predicate IsRaw(f: Frame) {
    f.base == 0
  }

  function Interval(cfg: W.Config): (p: nat)
    ensures p >= 1
  {
    W.Period(cfg, false)
  }

  function Times(a: nat, b: nat): nat {
    if b == 0 then 0 else a + Times(a, b - 1)
  }

  lemma {:induction false} TimesIsProduct(a: nat, b: nat)
    ensures Times(a, b) == a * b
  {
    if b > 0 {
      TimesIsProduct(a, b - 1);
      assert a * b == a * (b - 1) + a;
    }
  }

  /** Writes until the next saved one: 0 when the next write saves. */
  function UntilSave(count: nat, p: nat): (d: nat)
    requires p >= 1
    ensures d < p
  {
    if count % p == 0 then 0 else p - count % p
  }

  lemma CountDown(count: nat, p: nat)
    requires p >= 1
    ensures UntilSave(count, p) == 0 <==> count % p == 0
    ensures UntilSave(count, p) > 0 ==> UntilSave(count + 1, p) == UntilSave(count, p) - 1
    ensures UntilSave(count, p) == 0 ==> UntilSave(count + 1, p) == p - 1
  {
    var q, m := count / p, count % p;
    if m + 1 == p {
      assert p * (q + 1) == p * q + p;
      ModUnique(count + 1, p, q + 1, 0);
    } else {
      ModUnique(count + 1, p, q, m + 1);
    }
  }

  lemma ModUnique(x: nat, p: nat, q: nat, m: nat)
    requires m < p && x == p * q + m
    ensures x % p == m
  {
    var d := x / p - q;
    assert p * d == m - x % p;
  }

  /** Writes up to and including the next raw frame, if every difference compresses. */
  function Remaining(cfg: W.Config, w: W.Writer): nat
    requires W.Valid(w)
  {
    if |w.window| == MAX_WINDOW then 1
    else UntilSave(w.writeCount, Interval(cfg)) + Times(Interval(cfg), MAX_WINDOW - 1 - |w.window|) + 2
  }

  /** A write that emits no raw frame uses up exactly one of the remaining writes. */
  lemma NonRawCountsDown(cfg: W.Config, w: W.Writer, data: seq<Byte>)
    requires W.Valid(w) && !w.resync && w.window != []
    requires !IsRaw(W.WriteStep(cfg, w, data).1)
    ensures var w' := W.WriteStep(cfg, w, data).0;
            W.Valid(w') && !w'.resync && w'.window != [] && Remaining(cfg, w') == Remaining(cfg, w) - 1
  {
    hide Rle.Encode, Rle.XorWith, Fnv1a.Hash, UntilSave;
    W.StepsKeepValid(cfg, w, data, 0);
    CountDown(w.writeCount, Interval(cfg));
  }

  /** Without an accepted acknowledgement a raw frame comes within the remaining writes. */
  lemma {:induction false} RawWithinRemaining(cfg: W.Config, w: W.Writer, calls: seq<Call>)
    requires W.Valid(w) && !w.resync && w.window != []
    requires Unacked(cfg, w, calls)
    requires |Emitted(cfg, w, calls)| >= Remaining(cfg, w)
    ensures exists i :: 0 <= i < Remaining(cfg, w) && IsRaw(Emitted(cfg, w, calls)[i])
    decreases |calls|
  {
    if calls[0].Write? {
      var data := calls[0].data;
      var (w', f) := W.WriteStep(cfg, w, data);
      if IsRaw(f) {
        assert IsRaw(Emitted(cfg, w, calls)[0]);
      } else {
        NonRawCountsDown(cfg, w, data);
        RawWithinRemaining(cfg, w', calls[1..]);
        var i :| 0 <= i < Remaining(cfg, w') && IsRaw(Emitted(cfg, w', calls[1..])[i]);
        assert Emitted(cfg, w, calls)[i + 1] == Emitted(cfg, w', calls[1..])[i];
      }
    } else {
      RawWithinRemaining(cfg, w, calls[1..]);
    }
  }

  /**
   * Bounded resync: from any non-resync writer with L stored states, at most
   * max(1, interval) * (16 - L) + 1 writes without an accepted ack go by before a raw frame.
   */
  lemma BoundedResync(cfg: W.Config, w: W.Writer, calls: seq<Call>)
    requires W.Valid(w) && !w.resync && w.window != []
    requires Unacked(cfg, w, calls)
    requires |Emitted(cfg, w, calls)| >= W.Max(1, cfg.keyframeInterval) * (MAX_WINDOW - |w.window|) + 1
    ensures exists i :: 0 <= i < W.Max(1, cfg.keyframeInterval) * (MAX_WINDOW - |w.window|) + 1 &&
                        IsRaw(Emitted(cfg, w, calls)[i])
  {
    TimesIsProduct(Interval(cfg), MAX_WINDOW - |w.window|);
    RawWithinRemaining(cfg, w, calls);
  }

  function EmptyWrites(n: nat): (calls: seq<Call>)
    ensures |calls| == n
  {
    seq(n, _ => Write([]))
  }

  /** The bound is reached: writes that always compress emit no raw frame before the last of them. */
  lemma {:induction false} BoundIsReached(cfg: W.Config, w: W.Writer, n: nat)
    requires W.Valid(w) && !w.resync && w.window != [] && n == Remaining(cfg, w)
    ensures var frames := Emitted(cfg, w, EmptyWrites(n));
            |frames| == n && IsRaw(frames[n - 1]) && forall i :: 0 <= i < n - 1 ==> !IsRaw(frames[i])
    decreases n
  {
    assert EmptyWrites(n)[1..] == EmptyWrites(n - 1);
    var (w', f) := W.WriteStep(cfg, w, []);
    if n == 1 {
      assert |w.window| == MAX_WINDOW;
    } else {
      assert !IsRaw(f);
      NonRawCountsDown(cfg, w, []);
      BoundIsReached(cfg, w', n - 1);
    }
  }
}
