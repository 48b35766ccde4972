/** Node's "hex" encoding: `Buffer#toString("hex")` writes two lower-case
    digits per byte; `Buffer.from(s, "hex")` reads digit pairs (either case)
    and stops at the first pair that is not hexadecimal. */
module Hex {
  import opened Wrappers
  import opened Octets
  import opened Text

  const LowerDigits: string := "0123456789abcdef"

  predicate IsLowerHex(c: char) {
    '0' <= c <= '9' || 'a' <= c <= 'f'
  }

  function HexChar(v: nat): (c: char)
    requires v < 16
    ensures IsLowerHex(c)
  {
    LowerDigits[v]
  }

  /** Value of one hexadecimal digit of either case. */
  function HexValue(c: char): (r: Option<nat>)
    ensures r.Some? ==> r.value < 16
  {
    if '0' <= c <= '9' then Some(c as int - '0' as int)
    else if 'a' <= c <= 'f' then Some(c as int - 'a' as int + 10)
    else if 'A' <= c <= 'F' then Some(c as int - 'A' as int + 10)
    else None
  }

  predicate AllHex(s: string) {
    forall i :: 0 <= i < |s| ==> HexValue(s[i]).Some?
  }

  function Encode(b: Bytes): (s: string)
    ensures |s| == 2 * |b|
    ensures forall i :: 0 <= i < |s| ==> IsLowerHex(s[i])
  {
    if |b| == 0 then ""
    else [HexChar(b[0] as nat / 16), HexChar(b[0] as nat % 16)] + Encode(b[1..])
  }

  function Decode(s: string): (b: Bytes)
    ensures |b| <= |s| / 2
    decreases |s|
  {
    if |s| < 2 then []
    else match (HexValue(s[0]), HexValue(s[1]))
      case (Some(hi), Some(lo)) => [(hi * 16 + lo) as byte] + Decode(s[2..])
      case _ => []
  }

  lemma HexValueOfHexChar(v: nat)
    requires v < 16
    ensures HexValue(HexChar(v)) == Some(v)
  {
  }

  lemma {:induction false} DecodeEncode(b: Bytes)
    ensures Decode(Encode(b)) == b
  {
    if |b| > 0 {
      var s := Encode(b);
      HexValueOfHexChar(b[0] as nat / 16);
      HexValueOfHexChar(b[0] as nat % 16);
      assert s[2..] == Encode(b[1..]);
      DecodeEncode(b[1..]);
    }
  }

  /** An even-length string decodes to half as many bytes exactly when
      every character is a hexadecimal digit. */
  lemma {:induction false} DecodeFullLength(s: string)
    requires |s| % 2 == 0
    ensures |Decode(s)| == |s| / 2 <==> AllHex(s)
    decreases |s|
  {
    if |s| >= 2 {
      var t := s[2..];
      DecodeFullLength(t);
      assert forall i :: 0 <= i < |t| ==> t[i] == s[i + 2];
      if HexValue(s[0]).Some? && HexValue(s[1]).Some? {
        if AllHex(t) {
          assert AllHex(s) by {
            forall i | 0 <= i < |s|
              ensures HexValue(s[i]).Some?
            {
              if i >= 2 { assert s[i] == t[i - 2]; }
            }
          }
        }
      }
    }
  }

  /** Re-encoding a digit's value gives the digit in lower case. */
  lemma HexCharOfValue(c: char)
    requires HexValue(c).Some?
    ensures HexChar(HexValue(c).value) == LowerChar(c)
  {
  }

  lemma SplitByte(hi: nat, lo: nat)
    requires hi < 16 && lo < 16
    ensures hi * 16 + lo < 256
    ensures (hi * 16 + lo) / 16 == hi && (hi * 16 + lo) % 16 == lo
  {
  }

  lemma EncodeCons(v: byte, rest: Bytes)
    ensures Encode([v] + rest) == [HexChar(v as nat / 16), HexChar(v as nat % 16)] + Encode(rest)
  {
    assert ([v] + rest)[1..] == rest;
  }

  lemma ToLowerPair(s: string)
    requires |s| >= 2
    ensures ToLower(s) == [LowerChar(s[0]), LowerChar(s[1])] + ToLower(s[2..])
  {
  }

  /** One digit pair decodes to a byte that encodes back to the pair in
      lower case. */
  lemma PairRoundTrip(c0: char, c1: char, v: byte)
    requires HexValue(c0).Some? && HexValue(c1).Some?
    requires v as nat == HexValue(c0).value * 16 + HexValue(c1).value
    ensures HexChar(v as nat / 16) == LowerChar(c0) && HexChar(v as nat % 16) == LowerChar(c1)
  {
    SplitByte(HexValue(c0).value, HexValue(c1).value);
    HexCharOfValue(c0);
    HexCharOfValue(c1);
  }

  lemma DecodeCons(s: string)
    requires |s| >= 2 && HexValue(s[0]).Some? && HexValue(s[1]).Some?
    ensures Decode(s) == [(HexValue(s[0]).value * 16 + HexValue(s[1]).value) as byte] + Decode(s[2..])
  {
  }

  /** Decoding then encoding a well-formed hex string gives it back in
      lower case. */
  lemma {:induction false} EncodeDecode(s: string)
    requires |s| % 2 == 0 && AllHex(s)
    ensures Encode(Decode(s)) == ToLower(s)
    decreases |s|
  {
    if |s| >= 2 {
      var t := s[2..];
      assert AllHex(t) by {
        assert forall i :: 0 <= i < |t| ==> t[i] == s[i + 2];
      }
      EncodeDecode(t);
      SplitByte(HexValue(s[0]).value, HexValue(s[1]).value);
      var v := (HexValue(s[0]).value * 16 + HexValue(s[1]).value) as byte;
      var d := Decode(t);
      var pair := [LowerChar(s[0]), LowerChar(s[1])];
      DecodeCons(s);
      assert Decode(s) == [v] + d;
      EncodeCons(v, d);
      PairRoundTrip(s[0], s[1], v);
      assert [HexChar(v as nat / 16), HexChar(v as nat % 16)] == pair;
      ToLowerPair(s);
      assert ToLower(s) == pair + ToLower(t);
    }
  }
}
