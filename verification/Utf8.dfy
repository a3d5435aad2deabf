/**
 * UTF-8 as Buffer.toString('utf8') reads it and Buffer.from writes it. A string stands for its
 * UTF-8 bytes; bytes that spell no character become U+FFFD, one for each longest piece that could
 * have begun one (section 3.9 and table 3-7 of the Unicode standard).
 */
module Utf8 {
  import opened Octets

  /** How many bytes the character takes that a lead byte begins; 0 for a byte that begins none. */
  function Announced(lead: Byte): nat {
    if lead < 0x80 then 1
    else if 0xC2 <= lead <= 0xDF then 2
    else if 0xE0 <= lead <= 0xEF then 3
    else if 0xF0 <= lead <= 0xF4 then 4
    else 0
  }

  /** b may be the i-th byte after lead: the first is narrowed to keep out long forms and surrogates. */
  predicate Follows(lead: Byte, i: nat, b: Byte) {
    && 0x80 <= b <= 0xBF
    && (i == 1 ==>
          && (lead == 0xE0 ==> b >= 0xA0) && (lead == 0xED ==> b <= 0x9F)
          && (lead == 0xF0 ==> b >= 0x90) && (lead == 0xF4 ==> b <= 0x8F))
  }

  /** The length of the character in front, or of the longest piece that could have begun one. */
  function Piece(bytes: seq<Byte>): (n: nat)
    requires bytes != []
    ensures 1 <= n <= |bytes| && n <= 4
  {
    var k := Announced(bytes[0]);
    if k < 2 || |bytes| < 2 || !Follows(bytes[0], 1, bytes[1]) then 1
    else if k < 3 || |bytes| < 3 || !Follows(bytes[0], 2, bytes[2]) then 2
    else if k < 4 || |bytes| < 4 || !Follows(bytes[0], 3, bytes[3]) then 3
    else 4
  }

  predicate StartsCharacter(bytes: seq<Byte>) {
    bytes != [] && Piece(bytes) == Announced(bytes[0])
  }

  predicate WellFormed(bytes: seq<Byte>) {
    bytes == [] || (StartsCharacter(bytes) && WellFormed(bytes[Piece(bytes)..]))
  }

  /** U+FFFD */
  const REPLACEMENT: seq<Byte> := [0xEF, 0xBF, 0xBD]

  /** The bytes of the string that bytes are read as. */
  function Respelled(bytes: seq<Byte>): seq<Byte> {
    if bytes == [] then []
    else
      (if StartsCharacter(bytes) then bytes[..Piece(bytes)] else REPLACEMENT) + Respelled(bytes[Piece(bytes)..])
  }

  /** Bytes that begin no character do not begin with U+FFFD. */
  lemma NotReplaced(bytes: seq<Byte>, rest: seq<Byte>)
    requires bytes != [] && !StartsCharacter(bytes)
    ensures REPLACEMENT + rest != bytes
  {
    var all := REPLACEMENT + rest;
    assert all[0] == 0xEF && all[1] == 0xBF && all[2] == 0xBD;
    assert StartsCharacter(all);
  }

  /** A string's bytes come back as they are exactly when they are well-formed. */
  lemma {:induction false} RespelledIff(bytes: seq<Byte>)
    ensures Respelled(bytes) == bytes <==> WellFormed(bytes)
  {
    if bytes != [] {
      var n := Piece(bytes);
      assert bytes[..n] + bytes[n..] == bytes;
      if StartsCharacter(bytes) {
        RespelledIff(bytes[n..]);
        assert Respelled(bytes)[n..] == Respelled(bytes[n..]);
      } else {
        NotReplaced(bytes, Respelled(bytes[n..]));
      }
    }
  }

  /** A complete character is one whatever follows it. */
  lemma CharacterStands(character: seq<Byte>, rest: seq<Byte>)
    requires StartsCharacter(character) && |character| == Piece(character)
    ensures StartsCharacter(character + rest) && Piece(character + rest) == |character|
  {}

  /** What is read once is well-formed, so reading it again changes nothing. */
  lemma {:induction false} RespelledIsWellFormed(bytes: seq<Byte>)
    ensures WellFormed(Respelled(bytes))
  {
    if bytes != [] {
      var n := Piece(bytes);
      RespelledIsWellFormed(bytes[n..]);
      var first := if StartsCharacter(bytes) then bytes[..n] else REPLACEMENT;
      assert Piece(first) == |first|;
      CharacterStands(first, Respelled(bytes[n..]));
      assert Respelled(bytes)[|first|..] == Respelled(bytes[n..]);
    }
  }

  /** A string has at most three bytes for each byte it was read from. */
  lemma {:induction false} RespelledLength(bytes: seq<Byte>)
    ensures |Respelled(bytes)| <= 3 * |bytes|
  {
    if bytes != [] {
      RespelledLength(bytes[Piece(bytes)..]);
    }
  }

  /** Bytes of ones, which begin no character, make three bytes each. */
  lemma {:induction false} OnesTriple(n: nat)
    ensures var ones: seq<Byte> := seq(n, _ => 0xFF);
            |Respelled(ones)| == 3 * n && !(n > 0 && WellFormed(ones))
  {
    var ones: seq<Byte> := seq(n, _ => 0xFF);
    if n > 0 {
      var fewer: seq<Byte> := seq((n - 1) as nat, _ => 0xFF);
      assert ones[1..] == fewer;
      OnesTriple(n - 1);
    }
  }
}
