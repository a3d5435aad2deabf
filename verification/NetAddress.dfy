/** The typed network address on the wire: encodeTyped and decodeTyped of src/protocol/types/NetAddress.js. */
module NetAddresses {
  import opened Octets
  import opened Options
  import opened BitStreams
  import opened Schemas
  import Ipv6Text
  import NativeIos
  import W = BinaryWriters
  import R = BinaryReaders

  /** Types 0 and 3 carry no address; a V4 host is its four parts, a V6 host its text. */
  datatype Host = NoHost(kind: int) | V4(parts: seq<int>) | V6(text: string)

  datatype NetAddress = NetAddress(host: Host, port: int)

  // ----- Words -----

  /** The 32-bit little-endian word of four bytes, lowest first. */
  function Word(a: int, b: int, c: int, d: int): int {
    a + 0x100 * b + 0x1_0000 * c + 0x100_0000 * d
  }

  function ByteOf(word: int, i: nat): int
    requires i < 4
  {
    if i == 0 then word % 0x100
    else if i == 1 then word / 0x100 % 0x100
    else if i == 2 then word / 0x1_0000 % 0x100
    else word / 0x100_0000
  }

  /** Two groups in one word, each with its high byte first. */
  function SwappedWord(first: int, second: int): int {
    Word(first / 0x100, first % 0x100, second / 0x100, second % 0x100)
  }

  function FirstGroup(word: int): int {
    0x100 * ByteOf(word, 0) + ByteOf(word, 1)
  }

  function SecondGroup(word: int): int {
    0x100 * ByteOf(word, 2) + ByteOf(word, 3)
  }

  lemma WordBytes(a: Byte, b: Byte, c: Byte, d: Byte)
    ensures var w := Word(a, b, c, d);
            0 <= w < 0x1_0000_0000 && ByteOf(w, 0) == a && ByteOf(w, 1) == b && ByteOf(w, 2) == c && ByteOf(w, 3) == d
  {
    var w := Word(a, b, c, d);
    assert w / 0x100 == b + 0x100 * c + 0x1_0000 * d;
    assert w / 0x1_0000 == c + 0x100 * d;
  }

  /** The byte swap is undone by the reader. */
  lemma SwapRoundTrip(first: int, second: int)
    requires 0 <= first < 0x1_0000 && 0 <= second < 0x1_0000
    ensures 0 <= SwappedWord(first, second) < 0x1_0000_0000
    ensures FirstGroup(SwappedWord(first, second)) == first && SecondGroup(SwappedWord(first, second)) == second
  {
    hide Word, ByteOf;
    WordBytes(first / 0x100, first % 0x100, second / 0x100, second % 0x100);
  }

  // ----- Byte order on the wire -----

  /** The bytes a little-endian u32 puts on the wire. */
  function WireBytes(word: nat): seq<Byte> {
    Pack(Bits(word, 32))
  }

  lemma WordOnWire(a: Byte, b: Byte, c: Byte, d: Byte)
    ensures var w: nat := Word(a, b, c, d);
            WireBytes(w) == [a, b, c, d]
  {
    hide Bits, Number, Pack, Unpack;
    var bytes := [a, b, c, d];
    assert Number(Unpack(bytes)) == Word(a, b, c, d) by { FourBytes(a, b, c, d); }
    BitsOfNumber(Unpack(bytes));
    PackUnpack(bytes);
  }

  lemma FourBytes(a: Byte, b: Byte, c: Byte, d: Byte)
    ensures Number(Unpack([a, b, c, d])) == Word(a, b, c, d)
  {
    ByteFirst(a, [b, c, d]);
    ByteFirst(b, [c, d]);
    ByteFirst(c, [d]);
    ByteFirst(d, []);
  }

  lemma ByteFirst(b: Byte, rest: seq<Byte>)
    ensures Number(Unpack([b] + rest)) == b + 256 * Number(Unpack(rest))
  {
    hide Number, Bits;
    assert ([b] + rest)[1..] == rest;
    R.NumberOfByteFirst(b, Unpack(rest));
  }

  /** An IPv6 address travels in network order: the high byte of each group first, group after group. */
  lemma GroupsInNetworkOrder(first: int, second: int)
    requires 0 <= first < 0x1_0000 && 0 <= second < 0x1_0000
    ensures SwappedWord(first, second) >= 0
    ensures WireBytes(SwappedWord(first, second)) == [first / 0x100, first % 0x100, second / 0x100, second % 0x100]
  {
    hide WireBytes, Word;
    WordBytes(first / 0x100, first % 0x100, second / 0x100, second % 0x100);
    WordOnWire(first / 0x100, first % 0x100, second / 0x100, second % 0x100);
  }

  // ----- Layout -----

  predicate IsV4(parts: seq<int>) {
    |parts| == 4 && forall p :: p in parts ==> 0 <= p <= 255
  }

  function TypeOf(host: Host): int {
    match host
    case NoHost(kind) => kind
    case V4(_) => 1
    case V6(_) => 2
  }

  function WordsOfGroups(g: seq<int>): seq<int>
    requires |g| == 8
  {
    [SwappedWord(g[0], g[1]), SwappedWord(g[2], g[3]), SwappedWord(g[4], g[5]), SwappedWord(g[6], g[7])]
  }

  /** The words after the type, or None where encodeTyped throws. */
  function HostWords(host: Host): (r: Option<seq<int>>) {
    match host
    case NoHost(kind) => if kind == 0 || kind == 3 then Some([]) else None
    case V4(p) => if IsV4(p) then Some([Word(p[0], p[1], p[2], p[3])]) else None
    case V6(text) =>
      match Ipv6Text.Parse(text)
      case None => None
      case Some(g) => if |g| == 8 then Some(WordsOfGroups(g)) else None
  }

  function WordCount(kind: int): nat {
    if kind == 1 then 1 else if kind == 2 then 4 else 0
  }

  function Layout(kind: int): Schema {
    Struct([Times(WordCount(kind)), Gated(UInt(2))])
  }

  function Times(n: nat): Schema {
    Struct(seq(n, _ => UInt(4)))
  }

  function Nums(words: seq<int>): (r: seq<Value>)
    ensures |r| == |words|
  {
    seq(|words|, i requires 0 <= i < |words| => Num(words[i]))
  }

  function Body(words: seq<int>, port: int): Value {
    Tuple([Tuple(Nums(words)), if port == 0 then Tuple([]) else Tuple([Num(port)])])
  }

  function EmitTyped(a: NetAddress, pos: nat): Option<seq<bool>> {
    match HostWords(a.host)
    case None => None
    case Some(words) =>
      if !(0 <= a.port <= 0xffff) then None
      else
        match Emit(Compressed(3), Num(TypeOf(a.host)), pos)
        case None => None
        case Some(first) => Then(first, Emit(Layout(TypeOf(a.host)), Body(words, a.port), pos + |first|))
  }

  datatype AddressRead = BadAddress | AddressRead(address: NetAddress, pos: nat)

  function GroupsOfWords(w: seq<int>): seq<int>
    requires |w| == 4
  {
    [FirstGroup(w[0]), SecondGroup(w[0]), FirstGroup(w[1]), SecondGroup(w[1]),
     FirstGroup(w[2]), SecondGroup(w[2]), FirstGroup(w[3]), SecondGroup(w[3])]
  }

  function Naturals(g: seq<int>): (r: seq<nat>)
    ensures |r| == |g|
  {
    seq(|g|, i requires 0 <= i < |g| => if g[i] < 0 then 0 else g[i])
  }

  function HostOf(kind: int, w: seq<int>): Host
    requires |w| == WordCount(kind)
  {
    if kind == 1 then V4([ByteOf(w[0], 0), ByteOf(w[0], 1), ByteOf(w[0], 2), ByteOf(w[0], 3)])
    else if kind == 2 then V6(Ipv6Text.Format(Naturals(GroupsOfWords(w))))
    else NoHost(kind)
  }

  predicate IsBody(v: Value, n: nat) {
    && v.Tuple? && |v.vs| == 2 && v.vs[0].Tuple? && |v.vs[0].vs| == n
    && (forall x :: x in v.vs[0].vs ==> x.Num?)
    && v.vs[1].Tuple? && (|v.vs[1].vs| == 0 || (|v.vs[1].vs| == 1 && v.vs[1].vs[0].Num?))
  }

  function WordsIn(v: Value, n: nat): (r: seq<int>)
    requires IsBody(v, n)
    ensures |r| == n
  {
    seq(n, i requires 0 <= i < n => assert v.vs[0].vs[i] in v.vs[0].vs; v.vs[0].vs[i].n)
  }

  function FromBody(kind: int, v: Value): NetAddress
    requires IsBody(v, WordCount(kind))
  {
    NetAddress(HostOf(kind, WordsIn(v, WordCount(kind))), if v.vs[1].vs == [] then 0 else v.vs[1].vs[0].n)
  }

  function ParseTyped(bits: seq<bool>, pos: nat): AddressRead {
    match Parse(Compressed(3), bits, pos)
    case Failed => BadAddress
    case Done(kind, p) =>
      if !kind.Num? then BadAddress
      else
        match Parse(Layout(kind.n), bits, p)
        case Failed => BadAddress
        case Done(v, end) =>
          if IsBody(v, WordCount(kind.n)) then AddressRead(FromBody(kind.n, v), end) else BadAddress
  }

  // ----- Round trip -----

  /** An IPv6 text comes back in its canonical form; everything else comes back as it was. */
  function Canonicalized(host: Host): Host {
    if host.V6? && Ipv6Text.Parse(host.text).Some? then V6(Ipv6Text.Format(Naturals(Ipv6Text.Parse(host.text).value)))
    else host
  }

  predicate AreWords(words: seq<int>) {
    forall i :: 0 <= i < |words| ==> 0 <= words[i] < 0x1_0000_0000
  }

  lemma HostRoundTrip(host: Host)
    requires HostWords(host).Some?
    ensures |HostWords(host).value| == WordCount(TypeOf(host)) && AreWords(HostWords(host).value)
    ensures HostOf(TypeOf(host), HostWords(host).value) == Canonicalized(host)
  {
    hide Ipv6Text.Parse, Ipv6Text.Format, Word, ByteOf, SwappedWord, FirstGroup, SecondGroup;
    var words := HostWords(host).value;
    match host
    case NoHost(_) =>
    case V4(p) =>
      assert p[0] in p && p[1] in p && p[2] in p && p[3] in p;
      WordBytes(p[0], p[1], p[2], p[3]);
      assert p == [p[0], p[1], p[2], p[3]];
    case V6(text) =>
      Ipv6Text.ParseIsAddress(text);
      var g := Ipv6Text.Parse(text).value;
      SwapRoundTrip(g[0], g[1]);
      SwapRoundTrip(g[2], g[3]);
      SwapRoundTrip(g[4], g[5]);
      SwapRoundTrip(g[6], g[7]);
      assert GroupsOfWords(words) == g;
  }

  lemma {:induction false} WordsCanonical(words: seq<int>)
    requires AreWords(words)
    ensures AllCanonical(seq(|words|, _ => UInt(4)), Nums(words))
    decreases |words|
  {
    if words != [] {
      WordsCanonical(words[1..]);
      W.Pow2Of32();
      assert Nums(words)[1..] == Nums(words[1..]);
      assert seq(|words|, _ => UInt(4))[1..] == seq(|words| - 1, _ => UInt(4));
    }
  }

  lemma BodyCanonical(kind: int, words: seq<int>, port: int)
    requires |words| == WordCount(kind) && AreWords(words) && 0 <= port <= 0xffff
    ensures Canonical(Layout(kind), Body(words, port))
  {
    WordsCanonical(words);
    assert InWord(port, 2) by {
      assert Pow2(8) == 256 by { assert Pow2(4) == 16; }
      Pow2Adds(8, 8);
    }
    hide InWord;
    PairCanonical(Times(WordCount(kind)), Gated(UInt(2)), Body(words, port).vs[0], Body(words, port).vs[1]);
  }

  /** Writing an address and reading it back returns it, an IPv6 host in canonical text. */
  lemma TypedRoundTrip(a: NetAddress, bits: seq<bool>, pos: nat)
    requires EmitTyped(a, pos).Some? && Holds(bits, pos, EmitTyped(a, pos).value)
    ensures ParseTyped(bits, pos) ==
            AddressRead(NetAddress(Canonicalized(a.host), a.port), pos + |EmitTyped(a, pos).value|)
  {
    hide Emit, Parse, Canonical, Layout, HostWords, HostOf, Canonicalized;
    var kind, words := TypeOf(a.host), HostWords(a.host).value;
    var first := Emit(Compressed(3), Num(kind), pos).value;
    var body := Body(words, a.port);
    HostRoundTrip(a.host);
    HoldsSplit(bits, pos, first, Emit(Layout(kind), body, pos + |first|).value);
    assert Canonical(Compressed(3), Num(kind)) by { AnyNumCanonical(kind); }
    RoundTrip(Compressed(3), Num(kind), bits, pos);
    BodyCanonical(kind, words, a.port);
    RoundTrip(Layout(kind), body, bits, pos + |first|);
    assert WordsIn(body, WordCount(kind)) == words;
  }

  lemma AnyNumCanonical(n: int)
    ensures Canonical(Compressed(3), Num(n))
  {}

  /** A host printed by the formatter is already canonical, so it returns unchanged. */
  lemma FormattedHostUnchanged(g: seq<nat>)
    requires Ipv6Text.IsAddress(g)
    ensures Canonicalized(V6(Ipv6Text.Format(g))) == V6(Ipv6Text.Format(g))
  {
    hide Ipv6Text.Parse, Ipv6Text.Format;
    Ipv6Text.FormatRoundTrip(g);
    assert Naturals(g) == g;
  }

  /** Every valid address encodes: the type fits two bits and the words fit theirs. */
  lemma TypedAlwaysEncodes(a: NetAddress, pos: nat)
    ensures EmitTyped(a, pos).Some? <==> HostWords(a.host).Some? && 0 <= a.port <= 0xffff
  {
    hide HostWords, Emit;
    if HostWords(a.host).Some? && 0 <= a.port <= 0xffff {
      var kind, words := TypeOf(a.host), HostWords(a.host).value;
      assert 0 <= kind <= 3 by { HostKind(a.host); }
      HostRoundTrip(a.host);
      TypeEncodes(kind, pos);
      BodyEncodes(kind, words, a.port, pos + |Emit(Compressed(3), Num(kind), pos).value|);
    }
  }

  lemma HostKind(host: Host)
    requires HostWords(host).Some?
    ensures 0 <= TypeOf(host) <= 3
  {}

  lemma TypeEncodes(kind: int, pos: nat)
    requires 0 <= kind <= 3
    ensures Emit(Compressed(3), Num(kind), pos).Some?
  {
    assert Width(3) == 2;
  }

  lemma {:induction false} WordsEncode(words: seq<int>, pos: nat)
    ensures EmitAll(seq(|words|, _ => UInt(4)), Nums(words), pos).Some?
    decreases |words|
  {
    if words != [] {
      var fields := seq(|words|, _ => UInt(4));
      assert Nums(words)[1..] == Nums(words[1..]);
      assert fields[1..] == seq(|words| - 1, _ => UInt(4));
      WordsEncode(words[1..], pos + |Emit(UInt(4), Num(words[0]), pos).value|);
    }
  }

  lemma BodyEncodes(kind: int, words: seq<int>, port: int, pos: nat)
    requires |words| == WordCount(kind)
    ensures Emit(Layout(kind), Body(words, port), pos).Some?
  {
    WordsStructEncode(words, pos);
    var wordsValue, portValue := Body(words, port).vs[0], Body(words, port).vs[1];
    var p := pos + |Emit(Times(WordCount(kind)), wordsValue, pos).value|;
    PortEncodes(port, p);
    hide Emit;
    PairEmits(Times(WordCount(kind)), Gated(UInt(2)), wordsValue, portValue, pos);
  }

  lemma WordsStructEncode(words: seq<int>, pos: nat)
    ensures Emit(Times(|words|), Tuple(Nums(words)), pos).Some?
  {
    hide EmitAll;
    WordsEncode(words, pos);
  }

  lemma PortEncodes(port: int, pos: nat)
    ensures Emit(Gated(UInt(2)), if port == 0 then Tuple([]) else Tuple([Num(port)]), pos).Some?
  {
    hide Bits, Padding, Pow2;
    assert EmitNum(UInt(2), port, pos + 1).Some?;
  }

  // ----- On the stream objects -----

  method EncodeTyped(w: W.BinaryWriter, a: NetAddress) returns (ok: bool)
    requires w.Valid()
    modifies w, w.buffer
    ensures w.Valid() && (fresh(w.buffer) || w.buffer == old(w.buffer))
    ensures ok ==> EmitTyped(a, |old(w.stream)|).Some? &&
                   w.stream == old(w.stream) + EmitTyped(a, |old(w.stream)|).value
    ensures !ok ==> EmitTyped(a, |old(w.stream)|).None?
  {
    hide Emit, HostWords, Layout;
    var words := HostWords(a.host);
    if words == None {
      return false;
    }
    if !(0 <= a.port <= 0xffff) {
      return false;
    }
    ok := NativeIos.WriteValue(w, Compressed(3), Num(TypeOf(a.host)));
    if ok {
      ok := NativeIos.WriteValue(w, Layout(TypeOf(a.host)), Body(words.value, a.port));
    }
  }

  method DecodeTyped(r: R.BinaryReader) returns (a: AddressRead)
    requires r.Valid()
    modifies r
    ensures r.Valid() && a == ParseTyped(r.Source(), old(r.Pos()))
  {
    hide Parse, Unpack, Layout, HostOf;
    var kind := NativeIos.ReadValue(r, Compressed(3));
    if kind == Failed || !kind.value.Num? {
      return BadAddress;
    }
    var body := NativeIos.ReadValue(r, Layout(kind.value.n));
    if body == Failed || !IsBody(body.value, WordCount(kind.value.n)) {
      return BadAddress;
    }
    return AddressRead(FromBody(kind.value.n, body.value), body.pos);
  }
}
