/**
 * BER primitives of ITU-T X.690: the definite-length octets of section 8.1.3
 * and the primitive OCTET STRING encoding of section 8.7, together with the
 * decoders that read them back.  These stand for the helpers
 * `TLV.getNbBytes`, `TLV.getBytes` and `Value.encode(ByteBuffer, byte[])`
 * that the sync state codec calls.
 */
module Tlv {
  import opened Wrappers

  /** An octet. */
  newtype byte = b: int | 0 <= b < 0x100

  /** A Java `int`. */
  newtype int32 = x: int | -0x8000_0000 <= x < 0x8000_0000

  /** The largest Java `int`: every length the codec handles is at most this. */
  const MaxInt: nat := 0x7FFF_FFFF

  /** Universal tags used by the codec (X.690 section 8.4, 8.7, 8.9). */
  const ENUMERATED_TAG: byte := 0x0A
  const OCTET_STRING_TAG: byte := 0x04
  const SEQUENCE_TAG: byte := 0x30

  /** Why a decoder refused its input. */
  datatype DecodeError =
    | Truncated          // fewer octets than the structure needs
    | UnexpectedTag      // a tag other than the one expected at this position
    | BadLength          // a length field that is indefinite, too long for an int, or inconsistent
    | UnknownStateType   // an ENUMERATED value outside its closed set
    | TrailingBytes      // octets left over after the last expected element

  /** 256 to the power k. */
  function Pow256(k: nat): (p: nat)
    ensures p >= 1
  {
    if k == 0 then 1 else 0x100 * Pow256(k - 1)
  }

  /** The minimal big-endian octets of a positive number: no leading zero octet. */
  function BigEndian(n: nat): (r: seq<byte>)
    requires n > 0
    ensures 1 <= |r| && r[0] != 0
    ensures n < Pow256(|r|)
    ensures Pow256(|r| - 1) <= n
    decreases n
  {
    if n < 0x100 then [n as byte]
    else
      var high := BigEndian(n / 0x100);
      assert n / 0x100 < Pow256(|high|) ==> n < 0x100 * Pow256(|high|);
      high + [(n % 0x100) as byte]
  }

  /** The number a sequence of big-endian octets denotes. */
  function BigEndianValue(s: seq<byte>): (n: nat)
    ensures n < Pow256(|s|)
  {
    if s == [] then 0 else 0x100 * BigEndianValue(s[..|s| - 1]) + s[|s| - 1] as nat
  }

  lemma {:induction false} BigEndianRoundTrip(n: nat)
    requires n > 0
    ensures BigEndianValue(BigEndian(n)) == n
    decreases n
  {
    if n >= 0x100 {
      var high := BigEndian(n / 0x100);
      BigEndianRoundTrip(n / 0x100);
      assert BigEndian(n)[..|BigEndian(n)| - 1] == high;
    }
  }

  /**
   * Pow256 grows with its exponent; used to bound the number of length octets
   * of a Java int.
   */
  lemma {:induction false} Pow256Monotone(i: nat, j: nat)
    requires i <= j
    ensures Pow256(i) <= Pow256(j)
    decreases j
  {
    if i < j { Pow256Monotone(i, j - 1); }
  }

  /** A positive Java int needs at most four big-endian octets. */
  lemma BigEndianOfInt(n: nat)
    requires 0 < n <= MaxInt
    ensures |BigEndian(n)| <= 4
  {
    var k := |BigEndian(n)|;
    assert Pow256(4) == 0x1_0000_0000;
    if k > 4 {
      Pow256Monotone(4, k - 1);
    }
  }

  /**
   * The number of octets of the definite-length field for `n`
   * (`TLV.getNbBytes`): one in the short form, otherwise the initial octet
   * plus the minimal big-endian octets of `n`.
   */
  function NbBytes(n: nat): (k: nat)
    requires n <= MaxInt
    ensures 1 <= k <= 5
    ensures k == 1 <==> n < 0x80
  {
    if n < 0x80 then 1 else BigEndianOfInt(n); 1 + |BigEndian(n)|
  }

  /**
   * The definite-length octets for `n` (`TLV.getBytes`, X.690 section 8.1.3):
   * the short form `n` itself for 0..127, else the long form, `0x80 | k`
   * followed by the k minimal big-endian octets of `n`.
   */
  function LengthOctets(n: nat): (r: seq<byte>)
    requires n <= MaxInt
    ensures |r| == NbBytes(n)
  {
    if n < 0x80 then [n as byte]
    else
      BigEndianOfInt(n);
      var digits := BigEndian(n);
      [(0x80 + |digits|) as byte] + digits
  }

  /** The octets that one TLV with a `len`-octet value occupies. */
  function TlvSize(len: nat): (size: nat)
    requires len <= MaxInt
    ensures len + 2 <= size <= len + 6
  {
    1 + NbBytes(len) + len
  }

  /** `Value.encode(ByteBuffer, byte[])`: a primitive OCTET STRING (X.690 section 8.7). */
  function OctetStringTlv(v: seq<byte>): (r: seq<byte>)
    requires |v| <= MaxInt
    ensures |r| == TlvSize(|v|)
    ensures r[0] == OCTET_STRING_TAG
  {
    [OCTET_STRING_TAG] + LengthOctets(|v|) + v
  }

  /**
   * Reads a definite-length field at the head of `s`: the length and the
   * number of octets the field took.  Refuses the indefinite form (0x80), a
   * long form of more than four octets or whose value exceeds a Java int,
   * and a field cut short.
   */
  function DecodeLength(s: seq<byte>): (r: Option<(nat, nat)>)
    ensures r.Some? ==> 1 <= r.value.1 <= |s| && r.value.0 <= MaxInt
  {
    if |s| == 0 then None
    else if s[0] < 0x80 then Some((s[0] as nat, 1))
    else
      var k := s[0] as int - 0x80;
      if k == 0 || k > 4 || |s| < 1 + k then None
      else
        var n := BigEndianValue(s[1..1 + k]);
        if n > MaxInt then None else Some((n, 1 + k))
  }

  /**
   * Reads a primitive OCTET STRING at the head of `s`: its value and the
   * octets that follow it.
   */
  function ParseOctetString(s: seq<byte>): (r: Result<(seq<byte>, seq<byte>), DecodeError>)
    ensures r.Success? ==> |r.value.1| < |s|
  {
    if |s| == 0 then Failure(Truncated)
    else if s[0] != OCTET_STRING_TAG then Failure(UnexpectedTag)
    else match DecodeLength(s[1..])
      case None => Failure(BadLength)
      case Some((len, k)) =>
        if 1 + k + len > |s| then Failure(Truncated)
        else Success((s[1 + k..1 + k + len], s[1 + k + len..]))
  }

  /** Reading the length octets of `n` gives back `n` and the field's size, whatever follows. */
  lemma LengthRoundTrip(n: nat, rest: seq<byte>)
    requires n <= MaxInt
    ensures DecodeLength(LengthOctets(n) + rest) == Some((n, NbBytes(n)))
  {
    if n >= 0x80 {
      var s := LengthOctets(n) + rest;
      var digits := BigEndian(n);
      BigEndianOfInt(n);
      assert s[1..1 + |digits|] == digits;
      BigEndianRoundTrip(n);
    }
  }

  /** Reading an encoded OCTET STRING gives back its value and exactly the octets after it. */
  lemma OctetStringRoundTrip(v: seq<byte>, rest: seq<byte>)
    requires |v| <= MaxInt
    ensures ParseOctetString(OctetStringTlv(v) + rest) == Success((v, rest))
  {
    var s := OctetStringTlv(v) + rest;
    var k := NbBytes(|v|);
    assert s[1..] == LengthOctets(|v|) + (v + rest);
    LengthRoundTrip(|v|, v + rest);
    assert s[1 + k..1 + k + |v|] == v;
    assert s[1 + k + |v|..] == rest;
  }

  /**
   * The boundary of X.690 section 8.1.3: 127 is the last length written in one
   * octet, 128 the first written in the long form `0x81 0x80`.
   */
  lemma ShortLongBoundary()
    ensures LengthOctets(127) == [127]
    ensures LengthOctets(128) == [0x81, 0x80]
  {
    assert BigEndian(128) == [128];
  }

  /**
   * The table a Java implementation of `TLV.getNbBytes` uses for
   * non-negative ints: the long form takes up to four further octets.
   */
  lemma NbBytesTable(n: nat)
    requires n <= MaxInt
    ensures NbBytes(n) == (if n < 0x80 then 1
                           else if n < 0x100 then 2
                           else if n < 0x1_0000 then 3
                           else if n < 0x100_0000 then 4
                           else 5)
  {
    if n >= 0x80 {
      var k := |BigEndian(n)|;
      BigEndianOfInt(n);
      assert Pow256(1) == 0x100 && Pow256(2) == 0x1_0000 && Pow256(3) == 0x100_0000 && Pow256(4) == 0x1_0000_0000;
    }
  }

  /** Long-form length octets start with `0x80 | k`, k the count of the minimal octets after it. */
  lemma LongFormShape(n: nat)
    requires 0x80 <= n <= MaxInt
    ensures LengthOctets(n)[0] as int == 0x80 + NbBytes(n) - 1
    ensures LengthOctets(n)[1] != 0
    ensures BigEndianValue(LengthOctets(n)[1..]) == n
  {
    BigEndianRoundTrip(n);
    assert LengthOctets(n)[1..] == BigEndian(n);
  }
}
