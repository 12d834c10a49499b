/** HexDecode: turns the ASCII hex text of an OMCI frame into its bytes. */
module Hex {
  import opened Types

  datatype HexError = IndexOutOfRange  // Go panics reading the missing low digit of an odd-length input

  /** The branch-free digit value `(c & 15) + (c >> 6) * 9`; it never exceeds 42, so no byte wraps. */
  function Nibble(c: byte): (v: int)
    ensures 0 <= v <= 42
  {
    c % 16 + (c / 64) * 9
  }

  /**
   * `u<<4 + l` computed in bytes: the shift wraps, so a non-hex character can alias a digit
   * ('z' has nibble 19, and 19<<4 = 304 wraps to 48); below 16 nothing wraps.
   */
  function PairByte(hi: byte, lo: byte): (b: byte)
    ensures Nibble(hi) < 16 && Nibble(lo) < 16 ==> b == 16 * Nibble(hi) + Nibble(lo)
  {
    (Nibble(hi) * 16 + Nibble(lo)) % 0x100
  }

  /** The byte string an even-length input decodes to, one byte per pair of characters. */
  function Decoded(pkt: seq<byte>): (p: seq<byte>)
    requires |pkt| % 2 == 0
    ensures |p| == |pkt| / 2
    ensures forall j :: 0 <= j < |p| ==> p[j] == PairByte(pkt[2 * j], pkt[2 * j + 1])
    decreases |pkt|
  {
    if pkt == [] then [] else [PairByte(pkt[0], pkt[1])] + Decoded(pkt[2..])
  }

  predicate IsHexDigit(c: byte)
  {
    0x30 <= c <= 0x39 || 0x41 <= c <= 0x46 || 0x61 <= c <= 0x66
  }

  /** The value of a hex digit, upper or lower case. */
  function HexValue(c: byte): (v: int)
    requires IsHexDigit(c)
    ensures 0 <= v < 16
  {
    if c <= 0x39 then c - 0x30 else if c <= 0x46 then c - 0x41 + 10 else c - 0x61 + 10
  }

  /** The nibble trick gives the digit's value on every hex digit. */
  lemma NibbleOfHexDigit(c: byte)
    requires IsHexDigit(c)
    ensures Nibble(c) == HexValue(c)
  {
  }

  /** On hex text, each output byte is 16 times the first digit's value plus the second's. */
  lemma DecodedHexDigits(pkt: seq<byte>)
    requires |pkt| % 2 == 0 && forall c <- pkt :: IsHexDigit(c)
    ensures forall j :: 0 <= j < |pkt| / 2 ==>
      Decoded(pkt)[j] == 16 * HexValue(pkt[2 * j]) + HexValue(pkt[2 * j + 1])
  {
    forall j | 0 <= j < |pkt| / 2
      ensures Decoded(pkt)[j] == 16 * HexValue(pkt[2 * j]) + HexValue(pkt[2 * j + 1])
    {
      assert pkt[2 * j] in pkt && pkt[2 * j + 1] in pkt;
      PairOfHexDigits(pkt[2 * j], pkt[2 * j + 1]);
    }
  }

  lemma PairOfHexDigits(hi: byte, lo: byte)
    requires IsHexDigit(hi) && IsHexDigit(lo)
    ensures PairByte(hi, lo) == 16 * HexValue(hi) + HexValue(lo)
  {
    NibbleOfHexDigit(hi);
    NibbleOfHexDigit(lo);
    var v := 16 * HexValue(hi) + HexValue(lo);
    assert 0 <= v < 0x100;
  }

  /** The wrap in `PairByte`: the pair "z0" decodes to the same byte as the hex pair "30". */
  lemma PairByteWraps()
    ensures PairByte(0x7A, 0x30) == 0x30 == PairByte(0x33, 0x30)
  {
    assert Nibble(0x7A) == 19 && Nibble(0x33) == 3 && Nibble(0x30) == 0;
    assert 19 * 16 == 304 && 304 % 0x100 == 0x30;
  }

  /** The lower-case hex digit of a value below 16. */
  function HexDigit(v: int): (c: byte)
    requires 0 <= v < 16
    ensures IsHexDigit(c) && HexValue(c) == v
  {
    if v < 10 then 0x30 + v else 0x61 + v - 10
  }

  /** Lower-case hex text of a byte string, the form the controller sends: two digits per byte, high first. */
  function HexEncode(bs: seq<byte>): (t: seq<byte>)
    ensures |t| == 2 * |bs|
    ensures forall k :: 0 <= k < |bs| ==> t[2 * k] == HexDigit(bs[k] / 16) && t[2 * k + 1] == HexDigit(bs[k] % 16)
    decreases |bs|
  {
    if bs == [] then [] else [HexDigit(bs[0] / 16), HexDigit(bs[0] % 16)] + HexEncode(bs[1..])
  }

  lemma EncodedPair(b: byte)
    ensures PairByte(HexDigit(b / 16), HexDigit(b % 16)) == b
  {
    PairOfHexDigits(HexDigit(b / 16), HexDigit(b % 16));
  }

  /** Decoding the hex text of any byte string gives the byte string back. */
  lemma DecodeEncode(bs: seq<byte>)
    ensures Decoded(HexEncode(bs)) == bs
  {
    var t := HexEncode(bs);
    forall k | 0 <= k < |bs|
      ensures Decoded(t)[k] == bs[k]
    {
      EncodedPair(bs[k]);
    }
  }

  /** Any byte string holding the pair decodes of an even-length input is its decoding. */
  lemma DecodedByPairs(pkt: seq<byte>, p: seq<byte>)
    requires |pkt| % 2 == 0 && |p| == |pkt| / 2
    requires forall k :: 0 <= k < |p| ==> p[k] == PairByte(pkt[2 * k], pkt[2 * k + 1])
    ensures p == Decoded(pkt)
  {
  }

  /** HexDecode as the source runs it: walks the input two characters at a time into a fresh buffer. */
  method HexDecode(pkt: seq<byte>) returns (r: Result<seq<byte>, HexError>)
    ensures r.Success? <==> |pkt| % 2 == 0
    ensures r.Success? ==> r.value == Decoded(pkt)
  {
    var p := new byte[|pkt| / 2];
    var i, j := 0, 0;
    while i < |pkt|
      invariant i == 2 * j && i <= |pkt| && j <= p.Length
      invariant forall k :: 0 <= k < j ==> p[k] == PairByte(pkt[2 * k], pkt[2 * k + 1])
    {
      if i + 1 >= |pkt| {
        assert |pkt| == 2 * j + 1;
        return Failure(IndexOutOfRange);
      }
      p[j] := PairByte(pkt[i], pkt[i + 1]);
      i, j := i + 2, j + 1;
    }
    assert |pkt| == 2 * j && p.Length == j;
    DecodedByPairs(pkt, p[..]);
    r := Success(p[..]);
  }
}
