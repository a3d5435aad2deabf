/** IPv6 addresses as text: parseIpv6 and formatIpv6 of src/protocol/types/NetAddress.js. */
module Ipv6Text {
  import opened Options

  const GROUPS := 8

  // ----- Splitting and joining -----

  /** String.split: pieces between the leftmost non-overlapping separators; never empty. */
  function Split(s: string, sep: string): (r: seq<string>)
    requires sep != ""
    ensures |r| >= 1
    decreases |s|
  {
    if |s| < |sep| then [s]
    else if s[..|sep|] == sep then [""] + Split(s[|sep|..], sep)
    else
      var r := Split(s[1..], sep);
      [[s[0]] + r[0]] + r[1..]
  }

  function Join(parts: seq<string>): string {
    if parts == [] then ""
    else if |parts| == 1 then parts[0]
    else parts[0] + ":" + Join(parts[1..])
  }

  predicate IsPart(s: string) {
    s != "" && ':' !in s
  }

  lemma {:induction false} SplitAtColon(p: string, rest: string)
    requires ':' !in p
    ensures Split(p + ":" + rest, ":") == [p] + Split(rest, ":")
    decreases |p|
  {
    var s := p + ":" + rest;
    if p == "" {
      assert s[..1] == ":" && s[1..] == rest;
    } else {
      SplitAtColon(p[1..], rest);
      assert s[..1] == [p[0]] && s[1..] == p[1..] + ":" + rest;
      assert [p[0]] + p[1..] == p;
    }
  }

  lemma {:induction false} SplitNoColon(p: string)
    requires ':' !in p
    ensures Split(p, ":") == [p]
    decreases |p|
  {
    if p != "" {
      SplitNoColon(p[1..]);
      assert p[..1] == [p[0]];
      assert [p[0]] + p[1..] == p;
    }
  }

  lemma {:induction false} SplitJoin(parts: seq<string>)
    requires parts != [] && forall p :: p in parts ==> IsPart(p)
    ensures Split(Join(parts), ":") == parts
    decreases |parts|
  {
    assert parts[0] in parts;
    if |parts| == 1 {
      SplitNoColon(parts[0]);
    } else {
      SplitAtColon(parts[0], Join(parts[1..]));
      SplitJoin(parts[1..]);
      assert [parts[0]] + parts[1..] == parts;
    }
  }

  /** No colon follows a colon; with closed, the text does not end in one either. */
  predicate Sparse(s: string, closed: bool) {
    && (forall i :: 0 <= i < |s| - 1 && s[i] == ':' ==> s[i + 1] != ':')
    && (closed && s != "" ==> s[|s| - 1] != ':')
  }

  lemma {:induction false} SplitSparse(s: string)
    requires Sparse(s, false)
    ensures Split(s, "::") == [s]
    decreases |s|
  {
    if |s| >= 2 {
      SplitSparse(s[1..]);
      assert s[..2] == [s[0], s[1]];
      assert [s[0]] + s[1..] == s;
    }
  }

  lemma {:induction false} SplitAtGap(a: string, b: string)
    requires Sparse(a, true)
    ensures Split(a + "::" + b, "::") == [a] + Split(b, "::")
    decreases |a|
  {
    var s := a + "::" + b;
    if a == "" {
      assert s[..2] == "::" && s[2..] == b;
    } else {
      SplitAtGap(a[1..], b);
      assert s[1..] == a[1..] + "::" + b;
      assert s[..2] == [s[0], s[1]];
      assert [a[0]] + a[1..] == a;
    }
  }

  lemma {:induction false} JoinSparse(parts: seq<string>)
    requires forall p :: p in parts ==> IsPart(p)
    ensures Sparse(Join(parts), true)
    ensures parts != [] ==> Join(parts) != "" && Join(parts)[0] != ':'
    decreases |parts|
  {
    if |parts| == 1 {
      assert parts[0] in parts;
      var s := parts[0];
      forall i | 0 <= i < |s|
        ensures s[i] != ':'
      {
        assert s[i] in s;
      }
    } else if |parts| > 1 {
      JoinSparse(parts[1..]);
      JoinSparse([parts[0]]);
      var p, rest := parts[0], Join(parts[1..]);
      var s := p + ":" + rest;
      assert forall i :: 0 <= i < |p| ==> s[i] == p[i] && p[i] in p;
      assert forall i :: |p| < i < |s| ==> s[i] == rest[i - |p| - 1];
    }
  }

  // ----- Hexadecimal groups -----

  const DIGITS := "0123456789abcdef"

  function Digit(n: int): char
    requires 0 <= n < 16
  {
    DIGITS[n]
  }

  /** -1 for a character that is no hexadecimal digit, of either case. */
  function DigitValue(c: char): int {
    if '0' <= c <= '9' then c as int - '0' as int
    else if 'a' <= c <= 'f' then c as int - 'a' as int + 10
    else if 'A' <= c <= 'F' then c as int - 'A' as int + 10
    else -1
  }

  lemma DigitRoundTrip(n: int)
    requires 0 <= n < 16
    ensures DigitValue(Digit(n)) == n && Digit(n) != ':' && (Digit(n) == '0' <==> n == 0)
  {
    var table := [0, 1, 2, 3, 4, 5, 6, 7, 8, 9, 10, 11, 12, 13, 14, 15];
    assert table[n] == n;
  }

  /** Number.toString(16): lower case, no leading zeros. */
  function Hex(n: nat): (s: string)
    ensures s != ""
  {
    if n < 16 then [Digit(n)] else Hex(n / 16) + [Digit(n % 16)]
  }

  predicate IsGroup(s: string) {
    1 <= |s| <= 4 && forall c :: c in s ==> DigitValue(c) >= 0
  }

  /** parseInt(s, 16) of a string of digits. */
  function HexValue(s: string): int {
    if s == "" then 0 else 16 * HexValue(s[..|s| - 1]) + DigitValue(s[|s| - 1])
  }

  lemma {:induction false} HexRoundTrip(n: nat)
    ensures HexValue(Hex(n)) == n
    ensures ':' !in Hex(n) && forall c :: c in Hex(n) ==> DigitValue(c) >= 0
    ensures Hex(n) == "0" <==> n == 0
    ensures n > 0 ==> Hex(n)[0] != '0'
  {
    if n < 16 {
      DigitRoundTrip(n);
      assert [Digit(n)][..0] == "";
    } else {
      HexRoundTrip(n / 16);
      DigitRoundTrip(n % 16);
      assert Hex(n)[..|Hex(n)| - 1] == Hex(n / 16);
    }
  }

  lemma HexIsGroup(n: nat)
    requires n < 0x1_0000
    ensures IsGroup(Hex(n)) && IsPart(Hex(n)) && HexValue(Hex(n)) == n
  {
    HexRoundTrip(n);
    assert |Hex(n / 4096)| <= 1;
    assert n / 16 / 16 / 16 == n / 4096;
    assert |Hex(n / 16 / 16)| <= 2;
    assert |Hex(n / 16)| <= 3;
  }

  // ----- The longest zero run -----

  datatype Run = Run(start: int, length: int)

  /** Zeros from position i on, up to the first non-zero group. */
  function ZerosAt(g: seq<int>, i: nat): (n: nat)
    requires i <= |g|
    ensures i + n <= |g|
    ensures forall k :: i <= k < i + n ==> g[k] == 0
    ensures i + n < |g| ==> g[i + n] != 0
    decreases |g| - i
  {
    if i == |g| || g[i] != 0 then 0 else 1 + ZerosAt(g, i + 1)
  }

  /** The scan from position i with the best run so far. */
  function BestFrom(g: seq<int>, i: nat, best: Run): Run
    requires i <= |g|
    decreases |g| - i
  {
    if i == |g| then best
    else if g[i] != 0 then BestFrom(g, i + 1, best)
    else
      var n := ZerosAt(g, i);
      BestFrom(g, i + n, if n > best.length then Run(i, n) else best)
  }

  function Best(g: seq<int>): Run {
    BestFrom(g, 0, Run(-1, 0))
  }

  predicate IsZeroRun(g: seq<int>, i: int, n: int) {
    0 <= i && 1 <= n && i + n <= |g| && forall k :: i <= k < i + n ==> g[k] == 0
  }

  /** best is the first of the longest zero runs starting before i; -1, 0 when there is none. */
  ghost predicate FirstLongest(g: seq<int>, i: int, best: Run) {
    && best.start < i
    && (if best.length == 0 then best.start == -1 else IsZeroRun(g, best.start, best.length))
    && forall j, n :: j < i && IsZeroRun(g, j, n) ==>
         n < best.length || (n == best.length && best.start <= j)
  }

  lemma {:induction false} BestFromIsFirstLongest(g: seq<int>, i: nat, best: Run)
    requires i <= |g| && FirstLongest(g, i, best)
    requires best.length >= 0
    ensures FirstLongest(g, |g|, BestFrom(g, i, best)) && BestFrom(g, i, best).length >= 0
    decreases |g| - i
  {
    if i < |g| {
      if g[i] != 0 {
        forall j, n | j < i + 1 && IsZeroRun(g, j, n)
          ensures j < i
        {
          assert g[j] == 0;
        }
        BestFromIsFirstLongest(g, i + 1, best);
      } else {
        var n := ZerosAt(g, i);
        var next := if n > best.length then Run(i, n) else best;
        forall j, m | j < i + n && IsZeroRun(g, j, m)
          ensures m < next.length || (m == next.length && next.start <= j)
        {
          if j >= i && j + m > i + n {
            assert g[i + n] == 0;
          }
        }
        BestFromIsFirstLongest(g, i + n, next);
      }
    }
  }

  /** Section 4.2.3 of RFC 5952: the run shortened is the first of the longest. */
  lemma BestIsFirstLongest(g: seq<int>)
    ensures FirstLongest(g, |g|, Best(g)) && Best(g).length >= 0
  {
    BestFromIsFirstLongest(g, 0, Run(-1, 0));
  }

  // ----- Format and parse -----

  function Texts(g: seq<nat>): (r: seq<string>)
    ensures |r| == |g|
  {
    seq(|g|, i requires 0 <= i < |g| => Hex(g[i]))
  }

  function Format(g: seq<nat>): string {
    var b := Best(g);
    if b.length < 2 || b.start < 0 || b.start + b.length > |g| then Join(Texts(g))
    else Join(Texts(g[..b.start])) + "::" + Join(Texts(g[b.start + b.length..]))
  }

  function Pieces(half: string): seq<string> {
    if half == "" then [] else Split(half, ":")
  }

  function Values(groups: seq<string>): (r: seq<int>)
    ensures |r| == |groups|
  {
    seq(|groups|, i requires 0 <= i < |groups| => HexValue(groups[i]))
  }

  function ZeroTexts(n: nat): (r: seq<string>)
    ensures |r| == n
  {
    seq(n, _ => "0")
  }

  function Parse(host: string): Option<seq<int>> {
    var halves := Split(host, "::");
    if |halves| > 2 then None
    else
      var left := Pieces(halves[0]);
      var right := if |halves| == 2 then Pieces(halves[1]) else [];
      var missing := GROUPS - |left| - |right|;
      if (|halves| == 1 && missing != 0) || (|halves| == 2 && missing < 1) then None
      else
        var groups := left + ZeroTexts(missing) + right;
        if |groups| != GROUPS || !(forall s :: s in groups ==> IsGroup(s)) then None
        else Some(Values(groups))
  }

  predicate IsAddress(g: seq<int>) {
    |g| == GROUPS && forall k :: 0 <= k < |g| ==> 0 <= g[k] < 0x1_0000
  }

  lemma {:induction false} HexValueBound(s: string)
    requires forall c :: c in s ==> DigitValue(c) >= 0
    ensures 0 <= HexValue(s)
    ensures |s| <= 1 ==> HexValue(s) < 0x10
    ensures |s| <= 2 ==> HexValue(s) < 0x100
    ensures |s| <= 3 ==> HexValue(s) < 0x1000
    ensures |s| <= 4 ==> HexValue(s) < 0x1_0000
  {
    if s != "" {
      HexValueBound(s[..|s| - 1]);
      assert s[|s| - 1] in s;
    }
  }

  /** Whatever text is accepted, the result is eight 16-bit groups. */
  lemma ParseIsAddress(host: string)
    ensures Parse(host).Some? ==> IsAddress(Parse(host).value)
  {
    hide Split;
    if Parse(host).Some? {
      var halves := Split(host, "::");
      var left := Pieces(halves[0]);
      var right := if |halves| == 2 then Pieces(halves[1]) else [];
      var groups := left + ZeroTexts(GROUPS - |left| - |right|) + right;
      forall k | 0 <= k < GROUPS
        ensures 0 <= Values(groups)[k] < 0x1_0000
      {
        assert groups[k] in groups && IsGroup(groups[k]);
        HexValueBound(groups[k]);
      }
    }
  }

  lemma TextsAreParts(g: seq<nat>)
    requires forall k :: 0 <= k < |g| ==> g[k] < 0x1_0000
    ensures forall s :: s in Texts(g) ==> IsPart(s) && IsGroup(s)
    ensures Values(Texts(g)) == g
  {
    hide Hex, HexValue, IsPart, IsGroup;
    forall k | 0 <= k < |g|
      ensures IsPart(Texts(g)[k]) && IsGroup(Texts(g)[k]) && HexValue(Texts(g)[k]) == g[k]
    {
      HexIsGroup(g[k]);
    }
  }

  lemma PiecesOfJoin(g: seq<nat>)
    requires forall k :: 0 <= k < |g| ==> g[k] < 0x1_0000
    ensures Pieces(Join(Texts(g))) == Texts(g)
    ensures Sparse(Join(Texts(g)), true)
  {
    hide Sparse, Split, Texts;
    TextsAreParts(g);
    JoinSparse(Texts(g));
    if g != [] {
      SplitJoin(Texts(g));
    }
  }

  lemma ZerosAreGroups(n: nat)
    ensures forall s :: s in ZeroTexts(n) ==> IsGroup(s)
    ensures Values(ZeroTexts(n)) == seq(n, _ => 0)
  {
    assert HexValue("0") == 0 by { assert "0"[..0] == ""; }
  }

  lemma ValuesAppend(a: seq<string>, b: seq<string>)
    ensures Values(a + b) == Values(a) + Values(b)
  {}

  lemma ParseUnshortened(g: seq<nat>)
    requires IsAddress(g)
    ensures Parse(Join(Texts(g))) == Some(g)
  {
    hide Hex, HexValue, Split, Join, Texts;
    PiecesOfJoin(g);
    TextsAreParts(g);
    SplitSparse(Join(Texts(g)));
    assert Texts(g) + ZeroTexts(0) + [] == Texts(g);
  }

  lemma ParseShortened(a: seq<nat>, n: nat, b: seq<nat>)
    requires n >= 1 && IsAddress(a + seq(n, _ => 0) + b)
    requires forall k :: 0 <= k < |a| ==> a[k] < 0x1_0000
    requires forall k :: 0 <= k < |b| ==> b[k] < 0x1_0000
    ensures Parse(Join(Texts(a)) + "::" + Join(Texts(b))) == Some(a + seq(n, _ => 0) + b)
  {
    hide Hex, HexValue, Split, Join, Texts, Values, IsGroup;
    PiecesOfJoin(a);
    PiecesOfJoin(b);
    TextsAreParts(a);
    TextsAreParts(b);
    ZerosAreGroups(n);
    SplitAtGap(Join(Texts(a)), Join(Texts(b)));
    SplitSparse(Join(Texts(b)));
    ValuesAppend(Texts(a) + ZeroTexts(n), Texts(b));
    ValuesAppend(Texts(a), ZeroTexts(n));
  }

  /** Parsing the printed text of any address returns its groups. */
  lemma FormatRoundTrip(g: seq<nat>)
    requires IsAddress(g)
    ensures Parse(Format(g)) == Some(g)
  {
    hide Parse, Texts, Join, Best;
    var b := Best(g);
    BestIsFirstLongest(g);
    if b.length < 2 {
      ParseUnshortened(g);
    } else {
      var left, right := g[..b.start], g[b.start + b.length..];
      assert g == left + seq(b.length, _ => 0) + right;
      ParseShortened(left, b.length, right);
    }
  }

  /** The text contains "::". */
  predicate HasGap(s: string) {
    exists i :: 0 <= i < |s| - 1 && s[i] == ':' && s[i + 1] == ':'
  }

  /** Sections 4.2.1 and 4.2.2 of RFC 5952: zeros are shortened exactly when two or more stand together. */
  lemma ShortensIffTwoZeros(g: seq<nat>)
    requires IsAddress(g)
    ensures HasGap(Format(g)) <==> exists i :: IsZeroRun(g, i, 2)
  {
    hide Texts, Join, Best;
    var b := Best(g);
    BestIsFirstLongest(g);
    if b.length < 2 {
      PiecesOfJoin(g);
      assert Format(g) == Join(Texts(g));
    } else {
      var left, right := Join(Texts(g[..b.start])), Join(Texts(g[b.start + b.length..]));
      var text := left + "::" + right;
      assert Format(g) == text;
      assert text[|left|] == ':' && text[|left| + 1] == ':';
      assert IsZeroRun(g, b.start, 2);
    }
  }

  // ----- The loop -----

  method FormatIpv6(groups: seq<nat>) returns (text: string)
    ensures text == Format(groups)
  {
    var bestStart, bestLength := -1, 0;
    var start := 0;
    while start < |groups|
      invariant 0 <= start <= |groups|
      invariant BestFrom(groups, start, Run(bestStart, bestLength)) == Best(groups)
      invariant bestLength >= 0
      invariant bestLength > 0 ==> 0 <= bestStart && bestStart + bestLength <= |groups|
    {
      if groups[start] != 0 {
        start := start + 1;
      } else {
        var end := start;
        while end < |groups| && groups[end] == 0
          invariant start <= end <= |groups|
          invariant end - start + ZerosAt(groups, end) == ZerosAt(groups, start)
        {
          end := end + 1;
        }
        if end - start > bestLength {
          bestStart, bestLength := start, end - start;
        }
        start := end;
      }
    }
    if bestLength < 2 {
      return Join(Texts(groups));
    }
    return Join(Texts(groups[..bestStart])) + "::" + Join(Texts(groups[bestStart + bestLength..]));
  }
}
