/** The zero-run codec of snapshot payloads and the XOR difference it compresses. */
module Rle {
  import opened Octets
  import opened Options

  const MAX_RUN := 255

  // ----- XOR difference -----

  /** data against base: XOR where both have a byte, data's own bytes past the end of base. */
  function XorWith(data: seq<Byte>, base: seq<Byte>): (r: seq<Byte>)
    ensures |r| == |data|
  {
    seq(|data|, i requires 0 <= i < |data| => if i < |base| then Xor(data[i], base[i]) else data[i])
  }

  /** Applying the same base twice gives the data back, whatever the two lengths are. */
  lemma XorWithCancel(data: seq<Byte>, base: seq<Byte>)
    ensures XorWith(XorWith(data, base), base) == data
  {
    forall i | 0 <= i < |data|
      ensures XorWith(XorWith(data, base), base)[i] == data[i]
    {
      if i < |base| {
        XorCancel(data[i], base[i]);
      }
    }
  }

  /** The writer's difference over the first newLen bytes of a buffer. */
  method XorDiff(newBuf: seq<Byte>, baseBuf: seq<Byte>, newLen: nat) returns (out: seq<Byte>)
    requires newLen <= |newBuf|
    ensures out == XorWith(newBuf[..newLen], baseBuf)
  {
    var bl := if |baseBuf| < newLen then |baseBuf| else newLen;
    out := [];
    for i := 0 to bl
      invariant out == XorWith(newBuf[..newLen], baseBuf)[..i]
    {
      out := out + [Xor(newBuf[i], baseBuf[i])];
    }
    if newLen > |baseBuf| {
      out := out + newBuf[|baseBuf|..newLen];
    }
  }

  // ----- Zero runs -----

  /** Number of leading zero bytes, counting at most cap of them. */
  function ZeroRun(x: seq<Byte>, cap: nat): (n: nat)
    ensures n <= cap && n <= |x|
    ensures forall k :: 0 <= k < n ==> x[k] == 0
    ensures n < cap && n < |x| ==> x[n] != 0
  {
    if cap == 0 || x == [] || x[0] != 0 then 0
    else
      var rest := ZeroRun(x[1..], cap - 1);
      assert forall k :: 1 <= k < 1 + rest ==> x[k] == x[1..][k - 1];
      1 + rest
  }

  function Encode(x: seq<Byte>): seq<Byte>
    decreases |x|
  {
    if x == [] then []
    else if x[0] == 0 then [0, ZeroRun(x, MAX_RUN)] + Encode(x[ZeroRun(x, MAX_RUN)..])
    else [x[0]] + Encode(x[1..])
  }

  function Zeros(n: nat): (r: seq<Byte>)
    ensures |r| == n
  {
    seq(n, _ => 0)
  }

  function Prepend(x: seq<Byte>, rest: Option<seq<Byte>>): Option<seq<Byte>> {
    match rest
    case None => None
    case Some(t) => Some(x + t)
  }

  /** None for a run marker cut off at the end or carrying the count zero. */
  function Decode(p: seq<Byte>): Option<seq<Byte>>
    decreases |p|
  {
    if p == [] then Some([])
    else if p[0] != 0 then Prepend([p[0]], Decode(p[1..]))
    else if |p| < 2 || p[1] == 0 then None
    else Prepend(Zeros(p[1]), Decode(p[2..]))
  }

  lemma EncodeStep(x: seq<Byte>)
    requires x != []
    ensures var n := ZeroRun(x, MAX_RUN);
            Encode(x) == if x[0] == 0 then [0, n] + Encode(x[n..]) else [x[0]] + Encode(x[1..])
  {}

  lemma DecodeRun(n: Byte, rest: seq<Byte>)
    requires n > 0
    ensures Decode([0, n] + rest) == Prepend(Zeros(n), Decode(rest))
  {
    assert ([0, n] + rest)[2..] == rest;
  }

  lemma DecodeLiteral(b: Byte, rest: seq<Byte>)
    requires b != 0
    ensures Decode([b] + rest) == Prepend([b], Decode(rest))
  {
    assert ([b] + rest)[1..] == rest;
  }

  /** Decoding inverts encoding on every byte string. */
  lemma {:induction false} RoundTrip(x: seq<Byte>)
    ensures Decode(Encode(x)) == Some(x)
    decreases |x|
  {
    if x == [] {
    } else if x[0] == 0 {
      var n := ZeroRun(x, MAX_RUN);
      RoundTrip(x[n..]);
      DecodeRun(n, Encode(x[n..]));
      assert Zeros(n) + x[n..] == x;
    } else {
      RoundTrip(x[1..]);
      DecodeLiteral(x[0], Encode(x[1..]));
      assert [x[0]] + x[1..] == x;
    }
  }

  /** A run continues past its cap exactly when the byte at the cap is zero too. */
  lemma RunPastCap(x: seq<Byte>, cap: nat)
    ensures ZeroRun(x, cap + 1) ==
            if ZeroRun(x, cap) == cap && cap < |x| && x[cap] == 0 then cap + 1 else ZeroRun(x, cap)
  {
    var m, n := ZeroRun(x, cap), ZeroRun(x, cap + 1);
    if m < n {
      assert x[m] == 0;
    }
  }

  /** Removing one leading zero never makes the encoding longer. */
  lemma {:induction false} DroppingZeroShortens(y: seq<Byte>)
    requires y != [] && y[0] == 0
    ensures |Encode(y[1..])| <= |Encode(y)|
    decreases |y|
  {
    var m := ZeroRun(y, MAX_RUN);
    var t := y[1..];
    assert ZeroRun(t, MAX_RUN - 1) == m - 1;
    RunPastCap(t, MAX_RUN - 1);
    EncodeStep(y);
    assert t[m - 1..] == y[m..];
    if m == MAX_RUN && m < |y| && y[m] == 0 {
      assert t[m - 1] == 0;
      EncodeStep(t);
      assert t[m..] == y[m..][1..];
      DroppingZeroShortens(y[m..]);
    } else if m > 1 {
      assert t[0] == 0;
      EncodeStep(t);
    }
  }

  /** Removing leading zeros never makes the encoding longer. */
  lemma {:induction false} DroppingZerosShortens(y: seq<Byte>, k: nat)
    requires k <= |y| && forall i :: 0 <= i < k ==> y[i] == 0
    ensures |Encode(y[k..])| <= |Encode(y)|
    decreases |y|
  {
    if k == 0 {
      assert y[0..] == y;
    } else {
      DroppingZeroShortens(y);
      assert y[1..][k - 1..] == y[k..];
      DroppingZerosShortens(y[1..], k - 1);
    }
  }

  /** The greedy encoder emits the shortest payload the decoder maps to its input. */
  lemma {:induction false} Shortest(p: seq<Byte>, x: seq<Byte>)
    requires Decode(p) == Some(x)
    ensures |Encode(x)| <= |p|
    decreases |p|
  {
    if p == [] {
    } else if p[0] != 0 {
      var t := Decode(p[1..]).value;
      Shortest(p[1..], t);
      assert x[1..] == t;
    } else {
      var c := p[1];
      var t := Decode(p[2..]).value;
      Shortest(p[2..], t);
      assert x[c..] == t;
      var m := ZeroRun(x, MAX_RUN);
      assert forall i :: 0 <= i < c ==> x[i] == 0;
      assert m >= c;
      assert forall i :: c <= i < m ==> x[i] == t[i - c];
      DroppingZerosShortens(t, m - c);
      assert x[m..] == t[m - c..];
    }
  }

  method RleEncode(data: seq<Byte>) returns (out: seq<Byte>)
    ensures out == Encode(data)
  {
    out := [];
    var i := 0;
    assert data[0..] == data;
    while i < |data|
      invariant 0 <= i <= |data|
      invariant out + Encode(data[i..]) == Encode(data)
    {
      ghost var rest := data[i..];
      if data[i] == 0 {
        var c := CountZeros(data, i);
        EncodeStep(rest);
        assert out + ([0, c] + Encode(rest[c..])) == (out + [0, c]) + Encode(rest[c..]);
        i := i + c;
        assert rest[c..] == data[i..];
        out := out + [0, c];
      } else {
        EncodeStep(rest);
        assert out + ([data[i]] + Encode(rest[1..])) == (out + [data[i]]) + Encode(rest[1..]);
        assert rest[1..] == data[i + 1..];
        out := out + [data[i]];
        i := i + 1;
      }
    }
  }

  /** The encoder's inner loop. */
  method CountZeros(data: seq<Byte>, start: nat) returns (c: nat)
    requires start < |data|
    ensures c == ZeroRun(data[start..], MAX_RUN)
  {
    var i := start;
    c := 0;
    while i < |data| && c < MAX_RUN && data[i] == 0
      invariant start <= i <= |data| && c == i - start && c <= MAX_RUN
      invariant c + ZeroRun(data[i..], MAX_RUN - c) == ZeroRun(data[start..], MAX_RUN)
    {
      assert data[i..][1..] == data[i + 1..];
      c, i := c + 1, i + 1;
    }
  }

  method RleDecode(data: seq<Byte>) returns (out: Option<seq<Byte>>)
    ensures out == Decode(data)
  {
    var acc: seq<Byte> := [];
    var i := 0;
    PrependNothing(Decode(data));
    assert data[0..] == data;
    while i < |data|
      invariant 0 <= i <= |data|
      invariant Prepend(acc, Decode(data[i..])) == Decode(data)
    {
      ghost var rest := data[i..];
      if data[i] == 0 {
        if i + 1 >= |data| {
          return None;
        }
        var count := data[i + 1];
        if count == 0 {
          return None;
        }
        assert rest[2..] == data[i + 2..];
        ghost var was := acc;
        for k := 0 to count
          invariant acc == was + Zeros(k)
        {
          acc := acc + [0];
        }
        PrependAssoc(was, Zeros(count), Decode(data[i + 2..]));
        i := i + 2;
      } else {
        assert rest[1..] == data[i + 1..];
        PrependAssoc(acc, [data[i]], Decode(data[i + 1..]));
        acc := acc + [data[i]];
        i := i + 1;
      }
    }
    assert acc + [] == acc;
    return Some(acc);
  }

  lemma PrependNothing(rest: Option<seq<Byte>>)
    ensures Prepend([], rest) == rest
  {
    match rest
    case None =>
    case Some(t) => assert [] + t == t;
  }

  lemma PrependAssoc(a: seq<Byte>, b: seq<Byte>, rest: Option<seq<Byte>>)
    ensures Prepend(a + b, rest) == Prepend(a, Prepend(b, rest))
  {
    match rest
    case None =>
    case Some(t) => assert a + b + t == a + (b + t);
  }
}
