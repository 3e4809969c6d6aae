# LDAP sync state control codec and message decorator, in Dafny

A model of two pieces of the BER encoding machinery of an LDAP library.

**The syncStateValue control codec.** The control value of section 2.3 of
RFC 4533 is a SEQUENCE that holds three things. First comes an ENUMERATED
state: present (0), add (1), modify (2) or delete (3). Then comes a mandatory
entryUUID OCTET STRING, then an optional cookie OCTET STRING. The value is
encoded with the definite-length rules of ITU-T X.690. The codec works in two
phases. `computeLength` adds up the SEQUENCE content length, stores it in the
field `syncStateValueLength` and returns the size of the whole TLV. `encode`
then allocates a buffer of exactly that size and fills it with successive
`put` calls.

**The message decorator.** A decorator holds an immutable reference to an
LDAP message. It also holds the two lengths an encode cycle computes:
`messageLength` and `controlsLength`. The static `getDecorator` switches
over the message's protocolOp (section 4.2 of RFC 4511). Abandon, delete and
unbind requests get the pass-through base decorator. The 17 other listed
types each get their own decorator. Any other type falls to the default arm
and gets the base decorator too; it never raises an error.

Files:

- `wrappers.dfy`: `Option` (a Java `null` is `None`) and `Result`.
- `tlv.dfy` (module `Tlv`): octets and Java ints, and the X.690
  section 8.1.3 length octets behind `TLV.getNbBytes` and `TLV.getBytes`.
  Also the section 8.7 OCTET STRING TLV written by `Value.encode`, and the
  decoders for both, with round-trip lemmas.
- `byte_buffer.dfy` (module `ByteBuffers`): the part of `java.nio.ByteBuffer`
  the encoder uses. It is a class over an array with a moving position.
- `sync_state_value.dfy` (module `SyncState`): the class
  `SyncStateValueControlCodec`, the functions that specify its two phases,
  a decoder following the RFC 4533 grammar, and the lemmas relating them.
- `message_decorator.dfy` (module `MessageDecorators`): message types,
  decorator kinds, the dispatch function and the class `MessageDecorator`.

How the Java collaborators are modelled:

- The Java bodies of `TLV.getNbBytes`, `TLV.getBytes`, `Value.encode` and
  `Value.getBytes` are not among the files modelled here. The model defines
  them (`Tlv.NbBytes`, `Tlv.LengthOctets`, `Tlv.OctetStringTlv`,
  `SyncState.StateValue`) from sections 8.1.3 and 8.7 of X.690:
  one octet for lengths 0..127, otherwise `0x80 | k` followed by the k
  minimal big-endian octets. `Tlv.NbBytesTable` shows that this gives the
  usual 1/2/3/4/5-octet table for a non-negative Java int.
- The Java bodies of `SyncStateTypeEnum` and `MessageTypeEnum` are not among
  the files modelled here. The model defines them (`SyncState.SyncStateType`,
  `MessageDecorators.MessageType`) from section 2.3 of RFC 4533 and section
  4.2 of RFC 4511, consistent with the comment at lines 116-121 of the codec
  and the switch of `getDecorator`. The one RFC 4511 operation
  the switch does not list is the search request, so it is the type that
  reaches the default arm.
- The decoder (`SyncState.Decode`, `Tlv.DecodeLength`, `Tlv.ParseOctetString`)
  has no counterpart in `SyncStateValueControlCodec`. It is the inverse that
  the encoding is proved to round-trip with. It accepts long-form lengths that are not
  minimal, as BER allows. It refuses the indefinite form, more than four
  length octets, and a length above a Java int.
- `SyncState.StateTlv`, `SyncState.SequenceHeader`, `SyncState.CookieTlv`
  and `SyncState.Content` are the octet sequences written at lines 152-167
  of the codec, and `ByteBuffers.ByteBuffer` (`Allocate`, `Put`, `PutBytes`)
  stands for `ByteBuffer.allocate` and `put` at lines 151-166. They are the
  vocabulary that the contracts of the `Put*` methods and of `Encode` are
  written in.
- `encode(ByteBuffer buffer)` ignores its argument and returns a newly
  allocated buffer. The model keeps the parameter and proves it is not
  touched. The octets never go into the caller's buffer.

## Model

| member | source | states |
|---|---|---|
| Tlv.NbBytes | ldap/src/main/java/org/apache/directory/shared/ldap/codec/controls/replication/syncStateValue/SyncStateValueControlCodec.java:129 | The length field takes 1 to 5 octets, and exactly 1 iff the length is below 128. |
| Tlv.NbBytesTable | ldap/src/main/java/org/apache/directory/shared/ldap/codec/controls/replication/syncStateValue/SyncStateValueControlCodec.java:137 | For a non-negative Java int, the field takes 1, 2, 3, 4 or 5 octets below 0x80, 0x100, 0x1_0000, 0x100_0000 and above respectively. |
| Tlv.ShortLongBoundary | ldap/src/main/java/org/apache/directory/shared/ldap/codec/controls/replication/syncStateValue/SyncStateValueControlCodec.java:153 | 127 is written as the single octet 127; 128 is written in long form as 0x81 0x80. |
| Tlv.LongFormShape | ldap/src/main/java/org/apache/directory/shared/ldap/codec/controls/replication/syncStateValue/SyncStateValueControlCodec.java:153 | A long-form length starts with 0x80 plus the number of octets after it; the next octet is non-zero and those octets denote the length big-endian. |
| Tlv.BigEndian | ldap/src/main/java/org/apache/directory/shared/ldap/codec/controls/replication/syncStateValue/SyncStateValueControlCodec.java:153 | The minimal big-endian octets of a positive number have no leading zero, and their count k satisfies 256^(k-1) <= n < 256^k. |
| Tlv.BigEndianRoundTrip | ldap/src/main/java/org/apache/directory/shared/ldap/codec/controls/replication/syncStateValue/SyncStateValueControlCodec.java:153 | Reading back the big-endian octets of n gives n. |
| Tlv.BigEndianOfInt | ldap/src/main/java/org/apache/directory/shared/ldap/codec/controls/replication/syncStateValue/SyncStateValueControlCodec.java:137 | A positive Java int needs at most four big-endian octets. |
| Tlv.LengthOctets | ldap/src/main/java/org/apache/directory/shared/ldap/codec/controls/replication/syncStateValue/SyncStateValueControlCodec.java:153 | The length octets TLV.getBytes writes are as many as TLV.getNbBytes counts. |
| Tlv.OctetStringTlv | ldap/src/main/java/org/apache/directory/shared/ldap/codec/controls/replication/syncStateValue/SyncStateValueControlCodec.java:161 | The OCTET STRING Value.encode writes starts with tag 0x04 and takes 1 + nbBytes(len) + len octets. |
| Tlv.TlvSize | ldap/src/main/java/org/apache/directory/shared/ldap/codec/controls/replication/syncStateValue/SyncStateValueControlCodec.java:129 | A TLV with a len-octet value takes between len + 2 and len + 6 octets. |
| Tlv.BigEndianValue | ldap/src/main/java/org/apache/directory/shared/ldap/codec/controls/replication/syncStateValue/SyncStateValueControlCodec.java:153 | k big-endian octets denote a number below 256^k. |
| Tlv.LengthRoundTrip | ldap/src/main/java/org/apache/directory/shared/ldap/codec/controls/replication/syncStateValue/SyncStateValueControlCodec.java:153 | Decoding the length octets of n, whatever follows them, gives n and the field's size. |
| Tlv.OctetStringRoundTrip | ldap/src/main/java/org/apache/directory/shared/ldap/codec/controls/replication/syncStateValue/SyncStateValueControlCodec.java:161 | Parsing an encoded OCTET STRING gives its value and exactly the octets that follow it. |
| SyncState.StateValue | ldap/src/main/java/org/apache/directory/shared/ldap/codec/controls/replication/syncStateValue/SyncStateValueControlCodec.java:158 | The state octet written by Value.getBytes(syncStateType.getValue()) is one of 0..3. |
| SyncState.CookieSize | ldap/src/main/java/org/apache/directory/shared/ldap/codec/controls/replication/syncStateValue/SyncStateValueControlCodec.java:131-135 | The cookie adds no octets exactly when it is null. |
| SyncState.InnerLength | ldap/src/main/java/org/apache/directory/shared/ldap/codec/controls/replication/syncStateValue/SyncStateValueControlCodec.java:127-135 | The content length computeLength stores is 3 plus the sizes of the entryUUID OCTET STRING and of the cookie OCTET STRING, or of nothing. |
| SyncState.EncodedLength | ldap/src/main/java/org/apache/directory/shared/ldap/codec/controls/replication/syncStateValue/SyncStateValueControlCodec.java:137 | The value computeLength returns is the size of the SEQUENCE header for the content length, plus that length. |
| SyncState.HalfSizedPairExcluded | ldap/src/main/java/org/apache/directory/shared/ldap/codec/controls/replication/syncStateValue/SyncStateValueControlCodec.java:127-137 | An entryUUID and a cookie of 2^30 octets each do not fit a Java int, although neither is near 2^31 alone. |
| SyncState.StateOf | ldap/src/main/java/org/apache/directory/shared/ldap/codec/controls/replication/syncStateValue/SyncStateValueControlCodec.java:119 | The octet-to-state reading fails exactly for octets above 3 and otherwise inverts the state's value. |
| SyncState.StateValueRoundTrip | ldap/src/main/java/org/apache/directory/shared/ldap/codec/controls/replication/syncStateValue/SyncStateValueControlCodec.java:158 | Every state type is written as an octet 0..3 that reads back as that state type. |
| SyncState.ContentLength | ldap/src/main/java/org/apache/directory/shared/ldap/codec/controls/replication/syncStateValue/SyncStateValueControlCodec.java:127-135 | The SEQUENCE content written is exactly as long as the content length that computeLength stores. |
| SyncState.InnerLengthParts | ldap/src/main/java/org/apache/directory/shared/ldap/codec/controls/replication/syncStateValue/SyncStateValueControlCodec.java:127-135 | The state takes 3 octets. An absent cookie adds nothing. A present cookie adds 1 + nbBytes(len) + len octets, which is 3 for a 1-octet cookie. |
| SyncState.OneOctetCookieCostsThree | ldap/src/main/java/org/apache/directory/shared/ldap/codec/controls/replication/syncStateValue/SyncStateValueControlCodec.java:131-135 | A 16-octet entryUUID with a 1-octet cookie encodes to exactly 3 octets more than with no cookie. |
| SyncState.Encoding | ldap/src/main/java/org/apache/directory/shared/ldap/codec/controls/replication/syncStateValue/SyncStateValueControlCodec.java:151-167 | The octets encode writes are exactly as many as the value computeLength returns. |
| SyncState.EncodingHeader | ldap/src/main/java/org/apache/directory/shared/ldap/codec/controls/replication/syncStateValue/SyncStateValueControlCodec.java:152-153 | The first octet is the SEQUENCE tag, followed by the length octets of the content: the length itself below 128, otherwise 0x80 plus the octet count. |
| SyncState.EncodingLayout | ldap/src/main/java/org/apache/directory/shared/ldap/codec/controls/replication/syncStateValue/SyncStateValueControlCodec.java:155-167 | After the header come 0x0A 0x01 and the state, the entryUUID TLV and the cookie TLV if any. With no cookie the encoding ends with the entryUUID OCTET STRING. |
| SyncState.EncodingPieces | ldap/src/main/java/org/apache/directory/shared/ldap/codec/controls/replication/syncStateValue/SyncStateValueControlCodec.java:151-167 | The encoding is the five written pieces in order: SEQUENCE header, state TLV, entryUUID TLV, cookie TLV or nothing. |
| SyncState.DecodeOctetStringsOf | ldap/src/main/java/org/apache/directory/shared/ldap/codec/controls/replication/syncStateValue/SyncStateValueControlCodec.java:160-167 | The entryUUID TLV followed by the cookie TLV, or by nothing, reads back as that entryUUID and that cookie or no cookie. |
| SyncState.DecodeContentOf | ldap/src/main/java/org/apache/directory/shared/ldap/codec/controls/replication/syncStateValue/SyncStateValueControlCodec.java:155-167 | The SEQUENCE content reads back as its state, entryUUID and cookie, and fails with UnknownStateType when the state octet is above 3. |
| SyncState.DecodeEncoding | ldap/src/main/java/org/apache/directory/shared/ldap/codec/controls/replication/syncStateValue/SyncStateValueControlCodec.java:148-170 | Decoding the encoding of any state, entryUUID and cookie gives the same three back. |
| SyncState.UnknownStateRejected | ldap/src/main/java/org/apache/directory/shared/ldap/codec/controls/replication/syncStateValue/SyncStateValueControlCodec.java:116-122 | A value laid out like an encoding but with a state octet above 3 fails to decode with UnknownStateType. |
| SyncState.PutSequenceHeader | ldap/src/main/java/org/apache/directory/shared/ldap/codec/controls/replication/syncStateValue/SyncStateValueControlCodec.java:152-153 | Writes the SEQUENCE tag and the length octets of the content length, and nothing else. |
| SyncState.PutState | ldap/src/main/java/org/apache/directory/shared/ldap/codec/controls/replication/syncStateValue/SyncStateValueControlCodec.java:156-158 | Writes 0x0A, 0x01 and the state octet, and nothing else. |
| SyncState.PutOctetString | ldap/src/main/java/org/apache/directory/shared/ldap/codec/controls/replication/syncStateValue/SyncStateValueControlCodec.java:161 | Writes exactly the OCTET STRING TLV of the value. |
| SyncState.SyncStateValueControlCodec.constructor | ldap/src/main/java/org/apache/directory/shared/ldap/codec/controls/replication/syncStateValue/SyncStateValueControlCodec.java:40-52 | A new codec has all three business fields null and a stored length of 0. |
| SyncState.SyncStateValueControlCodec.GetCookie | ldap/src/main/java/org/apache/directory/shared/ldap/codec/controls/replication/syncStateValue/SyncStateValueControlCodec.java:58-61 | Returns the cookie field. |
| SyncState.SyncStateValueControlCodec.SetCookie | ldap/src/main/java/org/apache/directory/shared/ldap/codec/controls/replication/syncStateValue/SyncStateValueControlCodec.java:67-70 | Sets the cookie and changes no other field. |
| SyncState.SyncStateValueControlCodec.GetSyncStateType | ldap/src/main/java/org/apache/directory/shared/ldap/codec/controls/replication/syncStateValue/SyncStateValueControlCodec.java:76-79 | Returns the state type field. |
| SyncState.SyncStateValueControlCodec.SetSyncStateType | ldap/src/main/java/org/apache/directory/shared/ldap/codec/controls/replication/syncStateValue/SyncStateValueControlCodec.java:87-90 | Sets the state type and changes no other field. |
| SyncState.SyncStateValueControlCodec.GetEntryUUID | ldap/src/main/java/org/apache/directory/shared/ldap/codec/controls/replication/syncStateValue/SyncStateValueControlCodec.java:96-99 | Returns the entryUUID field. |
| SyncState.SyncStateValueControlCodec.SetEntryUUID | ldap/src/main/java/org/apache/directory/shared/ldap/codec/controls/replication/syncStateValue/SyncStateValueControlCodec.java:107-110 | Sets the entryUUID and changes no other field. |
| SyncState.SyncStateValueControlCodec.ComputeLength | ldap/src/main/java/org/apache/directory/shared/ldap/codec/controls/replication/syncStateValue/SyncStateValueControlCodec.java:124-138 | Needs a non-null entryUUID. Changes only syncStateValueLength, setting it to 3 + the entryUUID TLV size + the cookie TLV size if any. Returns 1 + nbBytes(L) + L for that content length L. |
| SyncState.SyncStateValueControlCodec.Encode | ldap/src/main/java/org/apache/directory/shared/ldap/codec/controls/replication/syncStateValue/SyncStateValueControlCodec.java:148-170 | Returns a fresh buffer of exactly computeLength() octets, filled completely by the octets of the encoding. The buffer argument is not touched. |
| SyncState.ComputeLengthIdempotent | ldap/src/main/java/org/apache/directory/shared/ldap/codec/controls/replication/syncStateValue/SyncStateValueControlCodec.java:124-138 | Two computeLength calls with no setter in between return the same value. |
| MessageDecorators.Decorates | ldap/src/main/java/org/apache/directory/shared/ldap/message/decorators/MessageDecorator.java:56-89 | Every decorator except the pass-through one is written for one operation type, the one its constructor casts to. |
| MessageDecorators.DecoratorFor | ldap/src/main/java/org/apache/directory/shared/ldap/message/decorators/MessageDecorator.java:48-93 | A dedicated decorator is chosen iff one is written for the type, and then it is the one for that type; every other type gets the pass-through decorator. |
| MessageDecorators.PassThroughTypes | ldap/src/main/java/org/apache/directory/shared/ldap/message/decorators/MessageDecorator.java:50-92 | The pass-through decorator is chosen exactly for abandon, delete and unbind requests and for the search request, which reaches the default arm. |
| MessageDecorators.DispatchInjective | ldap/src/main/java/org/apache/directory/shared/ldap/message/decorators/MessageDecorator.java:56-89 | Two types that get the same dedicated decorator are the same type. |
| MessageDecorators.EveryDecoratorReachable | ldap/src/main/java/org/apache/directory/shared/ldap/message/decorators/MessageDecorator.java:56-89 | Each of the 17 dedicated decorators is chosen for the type it is written for. |
| MessageDecorators.MessageDecorator.GetDecorator | ldap/src/main/java/org/apache/directory/shared/ldap/message/decorators/MessageDecorator.java:48-93 | Never fails. Returns a fresh decorator of the kind the switch selects, wrapping the very message passed in, with both lengths 0. |
| MessageDecorators.MessageDecorator.constructor | ldap/src/main/java/org/apache/directory/shared/ldap/message/decorators/MessageDecorator.java:101-104 | Wraps the given message as the pass-through decorator. |
| MessageDecorators.MessageDecorator.Specialised | ldap/src/main/java/org/apache/directory/shared/ldap/message/decorators/MessageDecorator.java:56-89 | A dedicated decorator wraps only a message of the type it is written for. |
| MessageDecorators.MessageDecorator.GetMessage | ldap/src/main/java/org/apache/directory/shared/ldap/message/decorators/MessageDecorator.java:107-110 | Returns the message given at construction; the field is a const, so nothing changes it. |
| MessageDecorators.MessageDecorator.SetControlsLength | ldap/src/main/java/org/apache/directory/shared/ldap/message/decorators/MessageDecorator.java:113-116 | Sets controlsLength and leaves messageLength and the message unchanged. |
| MessageDecorators.MessageDecorator.GetControlsLength | ldap/src/main/java/org/apache/directory/shared/ldap/message/decorators/MessageDecorator.java:119-122 | Returns controlsLength. |
| MessageDecorators.MessageDecorator.SetMessageLength | ldap/src/main/java/org/apache/directory/shared/ldap/message/decorators/MessageDecorator.java:125-128 | Sets messageLength and leaves controlsLength and the message unchanged. |
| MessageDecorators.MessageDecorator.GetMessageLength | ldap/src/main/java/org/apache/directory/shared/ldap/message/decorators/MessageDecorator.java:131-134 | Returns messageLength. |

## Left out

- `toString` of the codec and `StringTools.dumpBytes`: they only produce diagnostic text.
- SyncState.SyncStateValueControlCodec.ComputeLength: does not model 32-bit wrap-around. It requires every length, the outer one included, to fit in a Java int. Only an entryUUID and a cookie whose lengths together come within about 20 octets of 2^31 break this; `SyncState.HalfSizedPairExcluded` shows that two arrays of 2^30 octets each are already excluded.
- SyncState.SyncStateValueControlCodec.Encode: requires a non-null state type and entryUUID. Java throws a NullPointerException otherwise. The `EncoderException` that `encode` declares is not modelled: the model proves every `put` fits the buffer, so the overflow that would make `Value.encode` fail never occurs.
- Aliasing of the `byte[]` fields: the arrays are modelled as values. A caller that mutates an array after setting it is not modelled.
- `Value.getBytes(int)` is modelled only for the state values 0..3, each a single octet.
- The operation-specific decorator subclasses: only their kind tag is modelled, not their bodies.
- The cast in each arm of `getDecorator`: the model assumes a message's type matches its class, so the ClassCastException path is not modelled.
- A null message passed to `getDecorator`, and the message's payload and controls: the model's message carries only its ID and its type.
- Concurrency: none; each object is used by one caller.
