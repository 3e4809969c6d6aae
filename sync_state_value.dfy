/**
 * The syncStateValue control value of section 2.3 of RFC 4533:
 *
 *   syncStateValue ::= SEQUENCE {
 *       state ENUMERATED { present (0), add (1), modify (2), delete (3) },
 *       entryUUID syncUUID,           -- OCTET STRING
 *       cookie    syncCookie OPTIONAL -- OCTET STRING }
 *
 * encoded with the definite-length BER rules of ITU-T X.690.  The class
 * `SyncStateValueControlCodec` follows the Java class's two-phase codec:
 * `ComputeLength` memoises the SEQUENCE content length, `Encode` writes the
 * octets into a buffer of exactly the computed size.  The functions below it
 * are the specification both phases are proved against, and the decoder is
 * the inverse the encoding is proved to round-trip with.
 */
module SyncState {
  import opened Wrappers
  import opened Tlv
  import opened ByteBuffers

  /** `SyncStateTypeEnum`: the closed ENUMERATED of RFC 4533 section 2.3. */
  datatype SyncStateType = Present | Add | Modify | Delete

  /** The ENUMERATED value of a state type (`SyncStateTypeEnum.getValue`). */
  function StateValue(t: SyncStateType): (b: byte)
    ensures b <= 3
  {
    match t
    case Present => 0
    case Add => 1
    case Modify => 2
    case Delete => 3
  }

  /** The state type an ENUMERATED octet denotes; none outside 0..3. */
  function StateOf(b: byte): (r: Option<SyncStateType>)
    ensures r.None? <==> b > 3
    ensures r.Some? ==> StateValue(r.value) == b
  {
    if b == 0 then Some(Present)
    else if b == 1 then Some(Add)
    else if b == 2 then Some(Modify)
    else if b == 3 then Some(Delete)
    else None
  }

  /** Every state type's octet names that state type again. */
  lemma StateValueRoundTrip(t: SyncStateType)
    ensures StateValue(t) <= 3
    ensures StateOf(StateValue(t)) == Some(t)
  {
  }

  /** The abstract syncStateValue: what the codec's three business fields hold. */
  datatype SyncStateValue = SyncStateValue(
    stateType: SyncStateType,
    entryUUID: seq<byte>,
    cookie: Option<seq<byte>>)

  // ---------------------------------------------------------------------------
  // Sizes

  /** The octets a cookie adds to the SEQUENCE content: none when it is absent. */
  function CookieSize(cookie: Option<seq<byte>>): (size: nat)
    requires cookie.Some? ==> |cookie.value| <= MaxInt
    ensures cookie.None? <==> size == 0
  {
    match cookie
    case None => 0
    case Some(c) => TlvSize(|c|)
  }

  /**
   * The SEQUENCE content length that `computeLength` memoises in
   * `syncStateValueLength`: 3 octets of ENUMERATED, the entryUUID TLV and the
   * cookie TLV if there is one.
   */
  function InnerLength(entryUUID: seq<byte>, cookie: Option<seq<byte>>): (len: nat)
    requires |entryUUID| <= MaxInt
    requires cookie.Some? ==> |cookie.value| <= MaxInt
    ensures len == 3 + |OctetStringTlv(entryUUID)| + |CookieTlv(cookie)|
  {
    (1 + 1 + 1) + TlvSize(|entryUUID|) + CookieSize(cookie)
  }

  /** Whether every length of the value, outer one included, is within a Java int. */
  predicate Fits(entryUUID: seq<byte>, cookie: Option<seq<byte>>)
  {
    && |entryUUID| <= MaxInt
    && (cookie.Some? ==> |cookie.value| <= MaxInt)
    && InnerLength(entryUUID, cookie) <= MaxInt
    && TlvSize(InnerLength(entryUUID, cookie)) <= MaxInt
  }

  /** The value `computeLength` returns: the whole SEQUENCE TLV. */
  function EncodedLength(entryUUID: seq<byte>, cookie: Option<seq<byte>>): (len: nat)
    requires Fits(entryUUID, cookie)
    ensures len == |SequenceHeader(InnerLength(entryUUID, cookie))| + InnerLength(entryUUID, cookie)
  {
    TlvSize(InnerLength(entryUUID, cookie))
  }

  /**
   * `Fits` bounds the sum of the lengths, not each array: an entryUUID and a
   * cookie of 2^30 octets each are excluded, since the Java `+=` would wrap.
   */
  lemma HalfSizedPairExcluded(entryUUID: seq<byte>, cookie: seq<byte>)
    requires |entryUUID| == 0x4000_0000 && |cookie| == 0x4000_0000
    ensures !Fits(entryUUID, Some(cookie))
  {
    NbBytesTable(|entryUUID|);
    NbBytesTable(|cookie|);
  }

  // ---------------------------------------------------------------------------
  // Octets

  /** The ENUMERATED TLV of the state: tag, length 1, the octet itself. */
  function StateTlv(b: byte): (r: seq<byte>)
  {
    [ENUMERATED_TAG, 0x01, b]
  }

  /** The cookie's OCTET STRING, or nothing at all when there is no cookie. */
  function CookieTlv(cookie: Option<seq<byte>>): (r: seq<byte>)
    requires cookie.Some? ==> |cookie.value| <= MaxInt
  {
    match cookie
    case None => []
    case Some(c) => OctetStringTlv(c)
  }

  /** The SEQUENCE content, for any octet in the state position. */
  function Content(state: byte, entryUUID: seq<byte>, cookie: Option<seq<byte>>): (r: seq<byte>)
    requires |entryUUID| <= MaxInt
    requires cookie.Some? ==> |cookie.value| <= MaxInt
  {
    StateTlv(state) + OctetStringTlv(entryUUID) + CookieTlv(cookie)
  }

  /** The SEQUENCE tag and the length octets of a `len`-octet content. */
  function SequenceHeader(len: nat): (r: seq<byte>)
    requires len <= MaxInt
  {
    [SEQUENCE_TAG] + LengthOctets(len)
  }

  /** Wraps a content in a SEQUENCE header. */
  function Sequence(content: seq<byte>): (r: seq<byte>)
    requires |content| <= MaxInt
  {
    SequenceHeader(|content|) + content
  }

  /** The SEQUENCE content is exactly as long as `InnerLength` computes. */
  lemma ContentLength(state: byte, entryUUID: seq<byte>, cookie: Option<seq<byte>>)
    requires |entryUUID| <= MaxInt
    requires cookie.Some? ==> |cookie.value| <= MaxInt
    ensures |Content(state, entryUUID, cookie)| == InnerLength(entryUUID, cookie)
  {
  }

  /** The octets of a syncStateValue, as the Java `encode` writes them. */
  function Encoding(v: SyncStateValue): (r: seq<byte>)
    requires Fits(v.entryUUID, v.cookie)
    ensures |r| == EncodedLength(v.entryUUID, v.cookie)
  {
    ContentLength(StateValue(v.stateType), v.entryUUID, v.cookie);
    Sequence(Content(StateValue(v.stateType), v.entryUUID, v.cookie))
  }

  // ---------------------------------------------------------------------------
  // Decoding (the inverse the encoding is proved to round-trip with)

  /**
   * Reads a syncStateValue that occupies the whole of `s`: a SEQUENCE whose
   * content is an ENUMERATED of length 1 naming one of the four states, a
   * mandatory OCTET STRING and, if octets remain, one more OCTET STRING.
   */
  function Decode(s: seq<byte>): (r: Result<SyncStateValue, DecodeError>)
  {
    if |s| == 0 then Failure(Truncated)
    else if s[0] != SEQUENCE_TAG then Failure(UnexpectedTag)
    else match DecodeLength(s[1..])
      case None => Failure(BadLength)
      case Some((len, k)) =>
        if 1 + k + len > |s| then Failure(Truncated)
        else if 1 + k + len < |s| then Failure(TrailingBytes)
        else DecodeContent(s[1 + k..])
  }

  /** Reads the SEQUENCE content of a syncStateValue. */
  function DecodeContent(c: seq<byte>): (r: Result<SyncStateValue, DecodeError>)
  {
    if |c| < 3 then Failure(Truncated)
    else if c[0] != ENUMERATED_TAG then Failure(UnexpectedTag)
    else if c[1] != 0x01 then Failure(BadLength)
    else match StateOf(c[2])
      case None => Failure(UnknownStateType)
      case Some(t) => DecodeOctetStrings(t, c[3..])
  }

  /** Reads the entryUUID and, if octets remain, the cookie after the state. */
  function DecodeOctetStrings(t: SyncStateType, s: seq<byte>): (r: Result<SyncStateValue, DecodeError>)
  {
    match ParseOctetString(s)
    case Failure(e) => Failure(e)
    case Success((uuid, rest)) =>
      if rest == [] then Success(SyncStateValue(t, uuid, None))
      else match ParseOctetString(rest)
        case Failure(e) => Failure(e)
        case Success((cookie, rest')) =>
          if rest' == [] then Success(SyncStateValue(t, uuid, Some(cookie)))
          else Failure(TrailingBytes)
  }

  /** The two OCTET STRINGs read back as the entryUUID and the cookie, or no cookie. */
  lemma DecodeOctetStringsOf(t: SyncStateType, entryUUID: seq<byte>, cookie: Option<seq<byte>>)
    requires |entryUUID| <= MaxInt
    requires cookie.Some? ==> |cookie.value| <= MaxInt
    ensures DecodeOctetStrings(t, OctetStringTlv(entryUUID) + CookieTlv(cookie)) ==
            Success(SyncStateValue(t, entryUUID, cookie))
  {
    OctetStringRoundTrip(entryUUID, CookieTlv(cookie));
    match cookie {
      case None =>
      case Some(ck) =>
        OctetStringRoundTrip(ck, []);
        assert OctetStringTlv(ck) + [] == OctetStringTlv(ck);
    }
  }

  /** The content's reader inverts the content's writer, and refuses a state octet above 3. */
  lemma DecodeContentOf(state: byte, entryUUID: seq<byte>, cookie: Option<seq<byte>>)
    requires |entryUUID| <= MaxInt
    requires cookie.Some? ==> |cookie.value| <= MaxInt
    ensures StateOf(state).Some? ==>
      DecodeContent(Content(state, entryUUID, cookie)) == Success(SyncStateValue(StateOf(state).value, entryUUID, cookie))
    ensures StateOf(state).None? ==>
      DecodeContent(Content(state, entryUUID, cookie)) == Failure(UnknownStateType)
  {
    var c := Content(state, entryUUID, cookie);
    var tail := OctetStringTlv(entryUUID) + CookieTlv(cookie);
    assert c == StateTlv(state) + tail;
    assert c[0] == ENUMERATED_TAG && c[1] == 0x01 && c[2] == state;
    assert c[3..] == tail;
    if StateOf(state).Some? {
      DecodeOctetStringsOf(StateOf(state).value, entryUUID, cookie);
    }
  }

  /** Reading a SEQUENCE header gives back exactly its content. */
  lemma DecodeOfSequence(content: seq<byte>)
    requires |content| <= MaxInt
    ensures Decode(Sequence(content)) == DecodeContent(content)
  {
    var s := Sequence(content);
    assert s[1..] == LengthOctets(|content|) + content;
    LengthRoundTrip(|content|, content);
    assert s[1 + NbBytes(|content|)..] == content;
  }

  /** Round trip: decoding the encoding of any value gives that value back. */
  lemma DecodeEncoding(v: SyncStateValue)
    requires Fits(v.entryUUID, v.cookie)
    ensures Decode(Encoding(v)) == Success(v)
  {
    var b := StateValue(v.stateType);
    ContentLength(b, v.entryUUID, v.cookie);
    DecodeOfSequence(Content(b, v.entryUUID, v.cookie));
    DecodeContentOf(b, v.entryUUID, v.cookie);
    StateValueRoundTrip(v.stateType);
  }

  /**
   * The enumeration is closed: a syncStateValue laid out like an encoding but
   * carrying a state octet outside 0..3 is refused, not read as a default.
   */
  lemma UnknownStateRejected(state: byte, entryUUID: seq<byte>, cookie: Option<seq<byte>>)
    requires state > 3
    requires Fits(entryUUID, cookie)
    ensures Decode(Sequence(Content(state, entryUUID, cookie))) == Failure(UnknownStateType)
  {
    ContentLength(state, entryUUID, cookie);
    DecodeOfSequence(Content(state, entryUUID, cookie));
    DecodeContentOf(state, entryUUID, cookie);
  }

  // ---------------------------------------------------------------------------
  // Properties of the two phases

  /**
   * The ENUMERATED state always takes three octets, and an absent cookie
   * adds nothing while a present one adds its whole TLV.
   */
  lemma InnerLengthParts(entryUUID: seq<byte>, cookie: seq<byte>)
    requires |entryUUID| <= MaxInt && |cookie| <= MaxInt
    ensures InnerLength(entryUUID, None) == 3 + TlvSize(|entryUUID|)
    ensures InnerLength(entryUUID, Some(cookie)) == InnerLength(entryUUID, None) + 1 + NbBytes(|cookie|) + |cookie|
    ensures |cookie| == 1 ==> InnerLength(entryUUID, Some(cookie)) == InnerLength(entryUUID, None) + 3
  {
  }

  /**
   * A 16-octet entryUUID with a 1-octet cookie encodes to exactly 3 octets
   * more than the same value with no cookie.
   */
  lemma OneOctetCookieCostsThree(t: SyncStateType, entryUUID: seq<byte>, cookie: seq<byte>)
    requires |entryUUID| == 16 && |cookie| == 1
    ensures Fits(entryUUID, None) && Fits(entryUUID, Some(cookie))
    ensures |Encoding(SyncStateValue(t, entryUUID, Some(cookie)))| ==
            |Encoding(SyncStateValue(t, entryUUID, None))| + 3
  {
  }

  /**
   * The first octet is the SEQUENCE tag, followed by the BER length of the
   * content: the length itself up to 127, else `0x80 | k` and k octets.
   */
  lemma EncodingHeader(v: SyncStateValue)
    requires Fits(v.entryUUID, v.cookie)
    ensures |Encoding(v)| >= 2
    ensures Encoding(v)[0] == SEQUENCE_TAG
    ensures var len := InnerLength(v.entryUUID, v.cookie);
            Encoding(v)[1..1 + NbBytes(len)] == LengthOctets(len)
    ensures var len := InnerLength(v.entryUUID, v.cookie);
            if len < 0x80 then Encoding(v)[1] as int == len
            else Encoding(v)[1] as int == 0x80 + NbBytes(len) - 1
  {
    var len := InnerLength(v.entryUUID, v.cookie);
    var content := Content(StateValue(v.stateType), v.entryUUID, v.cookie);
    ContentLength(StateValue(v.stateType), v.entryUUID, v.cookie);
    assert Encoding(v)[1..1 + NbBytes(len)] == LengthOctets(len);
    if len >= 0x80 {
      LongFormShape(len);
    }
  }

  /**
   * The content after the SEQUENCE header is the ENUMERATED, the entryUUID,
   * then the cookie; with no cookie the encoding ends with the entryUUID
   * OCTET STRING.
   */
  lemma EncodingLayout(v: SyncStateValue)
    requires Fits(v.entryUUID, v.cookie)
    ensures var h := 1 + NbBytes(InnerLength(v.entryUUID, v.cookie));
            Encoding(v)[h..] == [ENUMERATED_TAG, 0x01, StateValue(v.stateType)] + OctetStringTlv(v.entryUUID) + CookieTlv(v.cookie)
    ensures v.cookie.None? ==>
            Encoding(v)[|Encoding(v)| - TlvSize(|v.entryUUID|)..] == OctetStringTlv(v.entryUUID)
  {
    var content := Content(StateValue(v.stateType), v.entryUUID, v.cookie);
    ContentLength(StateValue(v.stateType), v.entryUUID, v.cookie);
    var h := 1 + NbBytes(InnerLength(v.entryUUID, v.cookie));
    assert Encoding(v)[h..] == content;
    if v.cookie.None? {
      assert content == StateTlv(StateValue(v.stateType)) + OctetStringTlv(v.entryUUID);
      assert Encoding(v)[|Encoding(v)| - TlvSize(|v.entryUUID|)..] == content[|content| - TlvSize(|v.entryUUID|)..];
    }
  }

  /** The encoding as the five pieces the encoder writes one after another. */
  lemma EncodingPieces(v: SyncStateValue)
    requires Fits(v.entryUUID, v.cookie)
    ensures Encoding(v) ==
      SequenceHeader(InnerLength(v.entryUUID, v.cookie)) + StateTlv(StateValue(v.stateType))
      + OctetStringTlv(v.entryUUID) + CookieTlv(v.cookie)
  {
    ContentLength(StateValue(v.stateType), v.entryUUID, v.cookie);
  }

  // ---------------------------------------------------------------------------
  // Writing the pieces

  /** Writes the SEQUENCE tag and then `TLV.getBytes(len)`. */
  method PutSequenceHeader(bb: ByteBuffer, len: nat)
    requires bb.Valid() && len <= MaxInt
    requires |bb.Written| + |SequenceHeader(len)| <= bb.data.Length
    modifies bb, bb.data
    ensures bb.Valid() && bb.Written == old(bb.Written) + SequenceHeader(len)
  {
    bb.Put(SEQUENCE_TAG);
    bb.PutBytes(LengthOctets(len));
  }

  /** Writes the ENUMERATED tag, the length 1 and the state octet. */
  method PutState(bb: ByteBuffer, state: byte)
    requires bb.Valid() && |bb.Written| + 3 <= bb.data.Length
    modifies bb, bb.data
    ensures bb.Valid() && bb.Written == old(bb.Written) + StateTlv(state)
  {
    bb.Put(ENUMERATED_TAG);
    bb.Put(0x01);
    bb.Put(state);
  }

  /** `Value.encode(bb, v)`: writes an OCTET STRING TLV. */
  method PutOctetString(bb: ByteBuffer, v: seq<byte>)
    requires bb.Valid() && |v| <= MaxInt
    requires |bb.Written| + TlvSize(|v|) <= bb.data.Length
    modifies bb, bb.data
    ensures bb.Valid() && bb.Written == old(bb.Written) + OctetStringTlv(v)
  {
    bb.Put(OCTET_STRING_TAG);
    bb.PutBytes(LengthOctets(|v|));
    bb.PutBytes(v);
  }

  // ---------------------------------------------------------------------------
  // The codec object

  /**
   * `SyncStateValueControlCodec`: the three business fields, each of which
   * may be `null` (`None`), and the memoised SEQUENCE content length.
   */
  class SyncStateValueControlCodec {
    var syncStateType: Option<SyncStateType>
    var cookie: Option<seq<byte>>
    var entryUUID: Option<seq<byte>>
    var syncStateValueLength: int32

    /** The implicit no-argument constructor: every reference null, the length 0. */
    constructor ()
      ensures syncStateType == None && cookie == None && entryUUID == None
      ensures syncStateValueLength == 0
    {
      syncStateType := None;
      cookie := None;
      entryUUID := None;
      syncStateValueLength := 0;
    }

    method GetCookie() returns (c: Option<seq<byte>>)
      ensures c == cookie
    {
      c := cookie;
    }

    method SetCookie(c: Option<seq<byte>>)
      modifies this`cookie
      ensures cookie == c
      ensures syncStateType == old(syncStateType) && entryUUID == old(entryUUID)
      ensures syncStateValueLength == old(syncStateValueLength)
    {
      cookie := c;
    }

    method GetSyncStateType() returns (t: Option<SyncStateType>)
      ensures t == syncStateType
    {
      t := syncStateType;
    }

    method SetSyncStateType(t: Option<SyncStateType>)
      modifies this`syncStateType
      ensures syncStateType == t
      ensures cookie == old(cookie) && entryUUID == old(entryUUID)
      ensures syncStateValueLength == old(syncStateValueLength)
    {
      syncStateType := t;
    }

    method GetEntryUUID() returns (u: Option<seq<byte>>)
      ensures u == entryUUID
    {
      u := entryUUID;
    }

    method SetEntryUUID(u: Option<seq<byte>>)
      modifies this`entryUUID
      ensures entryUUID == u
      ensures syncStateType == old(syncStateType) && cookie == old(cookie)
      ensures syncStateValueLength == old(syncStateValueLength)
    {
      entryUUID := u;
    }

    /** What `computeLength` needs: an entryUUID, and lengths within a Java int. */
    predicate CanComputeLength()
      reads this
    {
      entryUUID.Some? && Fits(entryUUID.value, cookie)
    }

    /**
     * `computeLength`: accumulates the SEQUENCE content length into
     * `syncStateValueLength` and returns the length of the whole TLV.  The
     * business fields are left as they were.
     */
    method ComputeLength() returns (length: int32)
      requires CanComputeLength()
      modifies this`syncStateValueLength
      ensures syncStateValueLength as int == InnerLength(entryUUID.value, cookie)
      ensures length as int == EncodedLength(entryUUID.value, cookie)
    {
      var uuid := entryUUID.value;
      // ENUMERATED state TLV: tag, length, one value octet
      syncStateValueLength := 1 + 1 + 1;

      syncStateValueLength := syncStateValueLength + (1 + NbBytes(|uuid|) + |uuid|) as int32;

      // cookie OCTET STRING, only when a cookie is set
      if cookie.Some? {
        var c := cookie.value;
        syncStateValueLength := syncStateValueLength + (1 + NbBytes(|c|) + |c|) as int32;
      }

      length := (1 + NbBytes(syncStateValueLength as nat) + syncStateValueLength as nat) as int32;
    }

    /**
     * `encode`: allocates a buffer of exactly `computeLength()` octets and
     * fills it with the encoding of the current fields.  The buffer passed in
     * is ignored, as in Java, and left untouched.
     */
    method Encode(buffer: ByteBuffer) returns (bb: ByteBuffer)
      requires CanComputeLength() && syncStateType.Some?
      modifies this`syncStateValueLength
      ensures fresh(bb) && fresh(bb.data) && bb.Valid()
      ensures syncStateValueLength as int == InnerLength(entryUUID.value, cookie)
      ensures bb.data.Length == EncodedLength(entryUUID.value, cookie)
      ensures bb.Remaining() == 0
      ensures bb.Written == Encoding(SyncStateValue(syncStateType.value, entryUUID.value, cookie))
    {
      var length := ComputeLength();
      bb := new ByteBuffer.Allocate(length as nat);
      var t, uuid := syncStateType.value, entryUUID.value;
      ghost var v := SyncStateValue(t, uuid, cookie);
      EncodingPieces(v);

      ghost var header := SequenceHeader(syncStateValueLength as nat);
      assert [] + header == header;

      PutSequenceHeader(bb, syncStateValueLength as nat);
      // ENUMERATED state TLV
      PutState(bb, StateValue(t));
      // entryUUID OCTET STRING
      PutOctetString(bb, uuid);
      ghost var prefix := header + StateTlv(StateValue(t)) + OctetStringTlv(uuid);
      assert bb.Written == prefix;
      // cookie OCTET STRING, only when a cookie is set
      if cookie.Some? {
        PutOctetString(bb, cookie.value);
        assert bb.Written == prefix + CookieTlv(cookie);
      } else {
        assert prefix + CookieTlv(cookie) == prefix;
      }
    }
  }

  /**
   * A client of the codec, not an operation of it: it witnesses that two
   * `computeLength` calls with no setter in between return the same value.
   */
  method ComputeLengthIdempotent(codec: SyncStateValueControlCodec) returns (first: int32, second: int32)
    requires codec.CanComputeLength()
    modifies codec`syncStateValueLength
    ensures first == second
    ensures codec.syncStateValueLength as int == InnerLength(codec.entryUUID.value, codec.cookie)
  {
    first := codec.ComputeLength();
    second := codec.ComputeLength();
  }
}
