/**
 The vault file: a binary envelope with an exact parser and printer (src/config/format.rs).

 A version 2 file is the magic, a version byte, a slot count, that many fixed-size key slots, a
 nonce, a length and a ciphertext.  The header up to the last slot is also the additional data
 the body is authenticated under, so its printer has to be injective.
 */
module Format {
  import opened Wrappers

  type U32 = n: int | 0 <= n < 0x1_0000_0000

  const MAGIC: seq<Byte> := [0x53, 0x53, 0x48, 0x43, 0x54, 0x52, 0x4C, 0x31]
  const FORMAT_VERSION: Byte := 2
  const FORMAT_VERSION_V1: Byte := 1
  const KDF_ARGON2ID: Byte := 1
  const KDF_HKDF_SHA256: Byte := 2
  const SLOT_PASSWORD: Byte := 1
  const SLOT_DEVICE: Byte := 2
  const MAX_M_COST_KIB := 1_048_576
  const MIN_M_COST_KIB := 8
  const MAX_T_COST := 64
  const MAX_P_COST := 64
  const MAX_SLOTS := 4
  const SALT_LEN := 16
  const NONCE_LEN := 12
  const WRAPPED_MK_LEN := 48
  const SLOT_DESC_LEN := 30
  const SLOT_LEN := 90
  const V2_PREFIX_LEN := 10
  const V1_HEADER_LEN := 38

  type Salt = s: seq<Byte> | |s| == SALT_LEN witness seq(SALT_LEN, _ => 0)
  type Nonce = s: seq<Byte> | |s| == NONCE_LEN witness seq(NONCE_LEN, _ => 0)
  type WrappedBytes = s: seq<Byte> | |s| == WRAPPED_MK_LEN witness seq(WRAPPED_MK_LEN, _ => 0)

  datatype KdfParams = KdfParams(mCost: U32, tCost: U32, pCost: U32)

  /** What a slot says about itself; the additional data its own wrapped key is sealed under. */
  datatype SlotDesc = SlotDesc(kind: Byte, kdfId: Byte, params: KdfParams, salt: Salt)

  /** One way of getting at the master key.  `W` is how the wrapped key is represented: bytes
      here, symbolic ciphertexts in `Keyslot`. */
  datatype Slot<+W> = Slot(desc: SlotDesc, wrapNonce: Nonce, wrappedMk: W)

  type ByteSlot = Slot<WrappedBytes>

  datatype Envelope = Envelope(slots: seq<ByteSlot>, nonce: Nonce, ciphertext: seq<Byte>)

  datatype EnvelopeV1 = EnvelopeV1(params: KdfParams, salt: Salt, nonce: Nonce, ciphertext: seq<Byte>)

  datatype AnyEnvelope = V1(v1: EnvelopeV1) | V2(v2: Envelope)

  /** `IndexOutOfBounds` is the panic of an unchecked index, not an error the program returns. */
  datatype DecodeError =
    | FileTooShort
    | NotOurFile
    | UnsupportedFormatVersion(version: Byte)
    | SlotCountOutOfRange
    | KdfParametersOutOfRange
    | UnknownKdfId(kdfId: Byte)
    | CiphertextLengthMismatch
    | IndexOutOfBounds

  // ---------------------------------------------------------------- the printer

  function Le32(n: U32): (b: seq<Byte>)
    ensures |b| == 4
  {
    [n % 0x100, n / 0x100 % 0x100, n / 0x1_0000 % 0x100, n / 0x100_0000]
  }

  function FromLe32(b: seq<Byte>): U32
    requires |b| == 4
  {
    b[0] as int + 0x100 * b[1] as int + 0x1_0000 * b[2] as int + 0x100_0000 * b[3] as int
  }

  function SlotAad(desc: SlotDesc): (b: seq<Byte>)
    ensures |b| == SLOT_DESC_LEN
  {
    [desc.kind, desc.kdfId]
    + Le32(desc.params.mCost) + Le32(desc.params.tCost) + Le32(desc.params.pCost)
    + desc.salt
  }

  function EncodeSlot(slot: ByteSlot): (b: seq<Byte>)
    ensures |b| == SLOT_LEN
  {
    SlotAad(slot.desc) + slot.wrapNonce + slot.wrappedMk
  }

  function EncodeSlots(slots: seq<ByteSlot>): (b: seq<Byte>)
    ensures |b| == SLOT_LEN * |slots|
  {
    if slots == [] then [] else EncodeSlot(slots[0]) + EncodeSlots(slots[1..])
  }

  /** The slot count is narrowed to a byte, as in `slots.len() as u8`. */
  function HeaderAad(slots: seq<ByteSlot>): (b: seq<Byte>)
    ensures |b| == V2_PREFIX_LEN + SLOT_LEN * |slots|
  {
    MAGIC + [FORMAT_VERSION, |slots| % 0x100] + EncodeSlots(slots)
  }

  /** The length is narrowed to 32 bits, as in `ciphertext.len() as u32`. */
  function Encoded(slots: seq<ByteSlot>, nonce: Nonce, ciphertext: seq<Byte>): seq<Byte> {
    HeaderAad(slots) + nonce + Le32(|ciphertext| % 0x1_0000_0000) + ciphertext
  }

  function HeaderAadV1(e: EnvelopeV1): (b: seq<Byte>)
    ensures |b| == V1_HEADER_LEN
  {
    MAGIC + [FORMAT_VERSION_V1, KDF_ARGON2ID]
    + Le32(e.params.mCost) + Le32(e.params.tCost) + Le32(e.params.pCost)
    + e.salt
  }

  // ---------------------------------------------------------------- the parser

  function CheckKdfParams(kdfId: Byte, params: KdfParams): Option<DecodeError> {
    if kdfId == KDF_ARGON2ID then
      if !(MIN_M_COST_KIB <= params.mCost <= MAX_M_COST_KIB)
         || !(1 <= params.tCost <= MAX_T_COST)
         || !(1 <= params.pCost <= MAX_P_COST)
      then Some(KdfParametersOutOfRange)
      else None
    else if kdfId == KDF_HKDF_SHA256 then None
    else Some(UnknownKdfId(kdfId))
  }

  predicate Acceptable(slot: ByteSlot) {
    CheckKdfParams(slot.desc.kdfId, slot.desc.params).None?
  }

  function ReadSlot(b: seq<Byte>): ByteSlot
    requires |b| == SLOT_LEN
  {
    var params := KdfParams(FromLe32(b[2..6]), FromLe32(b[6..10]), FromLe32(b[10..14]));
    Slot(SlotDesc(b[0], b[1], params, b[14..30]), b[30..42], b[42..90])
  }

  function ReadSlots(b: seq<Byte>, n: nat): Result<seq<ByteSlot>, DecodeError>
    requires |b| == SLOT_LEN * n
  {
    if n == 0 then Ok([])
    else
      var slot := ReadSlot(b[..SLOT_LEN]);
      match CheckKdfParams(slot.desc.kdfId, slot.desc.params)
      case Some(e) => Err(e)
      case None =>
        match ReadSlots(b[SLOT_LEN..], n - 1)
        case Err(e) => Err(e)
        case Ok(rest) => Ok([slot] + rest)
  }

  function DecodedV2(bytes: seq<Byte>): Result<Envelope, DecodeError>
    requires |bytes| >= 9
  {
    if |bytes| == 9 then Err(IndexOutOfBounds)
    else if bytes[9] == 0 || bytes[9] > MAX_SLOTS then Err(SlotCountOutOfRange)
    else
      var bodyStart := V2_PREFIX_LEN + SLOT_LEN * bytes[9];
      if |bytes| < bodyStart + NONCE_LEN + 4 then Err(FileTooShort)
      else
        match ReadSlots(bytes[V2_PREFIX_LEN..bodyStart], bytes[9])
        case Err(e) => Err(e)
        case Ok(slots) =>
          var at := bodyStart + NONCE_LEN;
          if |bytes| != at + 4 + FromLe32(bytes[at..at + 4]) then Err(CiphertextLengthMismatch)
          else Ok(Envelope(slots, bytes[bodyStart..at], bytes[at + 4..]))
  }

  function DecodedV1(bytes: seq<Byte>): Result<EnvelopeV1, DecodeError>
    requires |bytes| >= 9
  {
    if |bytes| < V1_HEADER_LEN + NONCE_LEN + 4 then Err(FileTooShort)
    else if bytes[9] != KDF_ARGON2ID then Err(UnknownKdfId(bytes[9]))
    else
      var params := KdfParams(FromLe32(bytes[10..14]), FromLe32(bytes[14..18]), FromLe32(bytes[18..22]));
      match CheckKdfParams(bytes[9], params)
      case Some(e) => Err(e)
      case None =>
        if |bytes| != 54 + FromLe32(bytes[50..54]) then Err(CiphertextLengthMismatch)
        else Ok(EnvelopeV1(params, bytes[22..38], bytes[38..50], bytes[54..]))
  }

  function DecodedAny(bytes: seq<Byte>): Result<AnyEnvelope, DecodeError> {
    if |bytes| < 9 then Err(FileTooShort)
    else if bytes[..8] != MAGIC then Err(NotOurFile)
    else if bytes[8] == FORMAT_VERSION_V1 then
      match DecodedV1(bytes) case Ok(e) => Ok(V1(e)) case Err(e) => Err(e)
    else if bytes[8] == FORMAT_VERSION then
      match DecodedV2(bytes) case Ok(e) => Ok(V2(e)) case Err(e) => Err(e)
    else Err(UnsupportedFormatVersion(bytes[8]))
  }

  // ---------------------------------------------------------------- the code, step by step

  method EncodeHeader(slots: seq<ByteSlot>) returns (buf: seq<Byte>)
    ensures buf == HeaderAad(slots)
  {
    buf := MAGIC;
    buf := buf + [FORMAT_VERSION];
    buf := buf + [|slots| % 0x100];
    ghost var prefix := buf;
    for i := 0 to |slots|
      invariant buf == prefix + EncodeSlots(slots[..i])
    {
      buf := buf + EncodeSlot(slots[i]);
      EncodeSlotsSnoc(slots[..i], slots[i]);
      assert slots[..i + 1] == slots[..i] + [slots[i]];
    }
    assert slots[..|slots|] == slots;
  }

  method Encode(slots: seq<ByteSlot>, nonce: Nonce, ciphertext: seq<Byte>) returns (buf: seq<Byte>)
    ensures buf == Encoded(slots, nonce, ciphertext)
  {
    buf := EncodeHeader(slots);
    buf := buf + nonce;
    buf := buf + Le32(|ciphertext| % 0x1_0000_0000);
    buf := buf + ciphertext;
  }

  /** `decode_v2`: every slot is checked before the body is looked at, so a bad slot outranks a
      bad length. */
  method DecodeV2(bytes: seq<Byte>) returns (r: Result<Envelope, DecodeError>)
    requires |bytes| >= 9
    ensures r == DecodedV2(bytes)
  {
    hide CheckKdfParams, ReadSlot;
    if |bytes| <= 9 {
      return Err(IndexOutOfBounds);
    }
    var slotCount := bytes[9];
    if slotCount == 0 || slotCount > MAX_SLOTS {
      return Err(SlotCountOutOfRange);
    }
    var bodyStart := V2_PREFIX_LEN + slotCount * SLOT_LEN;
    if |bytes| < bodyStart + NONCE_LEN + 4 {
      return Err(FileTooShort);
    }
    ghost var region := bytes[V2_PREFIX_LEN..bodyStart];
    assert region[0..] == region;
    PrependedNil(ReadSlots(region, slotCount));
    var slots: seq<ByteSlot> := [];
    for i := 0 to slotCount
      invariant |slots| == i
      invariant ReadSlots(region, slotCount) == Prepended(slots, ReadSlots(region[SLOT_LEN * i..], slotCount - i))
    {
      var at := V2_PREFIX_LEN + i * SLOT_LEN;
      ghost var rest, was := region[SLOT_LEN * i..], slots;
      var slot := ReadSlot(bytes[at..at + SLOT_LEN]);
      assert bytes[at..at + SLOT_LEN] == rest[..SLOT_LEN];
      assert rest[SLOT_LEN..] == region[SLOT_LEN * (i + 1)..];
      match CheckKdfParams(slot.desc.kdfId, slot.desc.params)
      case Some(e) =>
        return Err(e);
      case None =>
        slots := slots + [slot];
        PrependedSnoc(was, slot, ReadSlots(rest[SLOT_LEN..], slotCount - i - 1));
    }
    assert slots + [] == slots;
    var offset := bodyStart;
    var nonce := bytes[offset..offset + NONCE_LEN];
    offset := offset + NONCE_LEN;
    var ciphertextLen := FromLe32(bytes[offset..offset + 4]);
    offset := offset + 4;
    if |bytes| != offset + ciphertextLen {
      return Err(CiphertextLengthMismatch);
    }
    var ciphertext := bytes[offset..offset + ciphertextLen];
    assert ciphertext == bytes[offset..];
    return Ok(Envelope(slots, nonce, ciphertext));
  }

  /** The slots read so far in front of what reading the rest yields; the loop's invariant. */
  ghost function Prepended(slots: seq<ByteSlot>, rest: Result<seq<ByteSlot>, DecodeError>)
    : Result<seq<ByteSlot>, DecodeError> {
    match rest case Err(e) => Err(e) case Ok(more) => Ok(slots + more)
  }

  lemma PrependedNil(rest: Result<seq<ByteSlot>, DecodeError>)
    ensures Prepended([], rest) == rest
  {
    if rest.Ok? { assert [] + rest.value == rest.value; }
  }

  lemma PrependedSnoc(slots: seq<ByteSlot>, slot: ByteSlot, rest: Result<seq<ByteSlot>, DecodeError>)
    ensures Prepended(slots, Prepended([slot], rest)) == Prepended(slots + [slot], rest)
  {
    if rest.Ok? { assert slots + ([slot] + rest.value) == slots + [slot] + rest.value; }
  }

  method DecodeV1(bytes: seq<Byte>) returns (r: Result<EnvelopeV1, DecodeError>)
    requires |bytes| >= 9
    ensures r == DecodedV1(bytes)
  {
    if |bytes| < V1_HEADER_LEN + NONCE_LEN + 4 {
      return Err(FileTooShort);
    }
    var kdfId := bytes[9];
    if kdfId != KDF_ARGON2ID {
      return Err(UnknownKdfId(kdfId));
    }
    var params := KdfParams(FromLe32(bytes[10..14]), FromLe32(bytes[14..18]), FromLe32(bytes[18..22]));
    var check := CheckKdfParams(kdfId, params);
    if check.Some? {
      return Err(check.value);
    }
    var salt := bytes[22..22 + SALT_LEN];
    var offset := V1_HEADER_LEN;
    var nonce := bytes[offset..offset + NONCE_LEN];
    offset := offset + NONCE_LEN;
    var ciphertextLen := FromLe32(bytes[offset..offset + 4]);
    offset := offset + 4;
    if |bytes| != offset + ciphertextLen {
      return Err(CiphertextLengthMismatch);
    }
    var ciphertext := bytes[offset..offset + ciphertextLen];
    assert ciphertext == bytes[offset..];
    return Ok(EnvelopeV1(params, salt, nonce, ciphertext));
  }

  method DecodeAny(bytes: seq<Byte>) returns (r: Result<AnyEnvelope, DecodeError>)
    ensures r == DecodedAny(bytes)
  {
    if |bytes| < 9 {
      return Err(FileTooShort);
    }
    if bytes[0..8] != MAGIC {
      return Err(NotOurFile);
    }
    if bytes[8] == FORMAT_VERSION_V1 {
      var v1 := DecodeV1(bytes);
      return match v1 case Ok(e) => Ok(V1(e)) case Err(e) => Err(e);
    }
    if bytes[8] == FORMAT_VERSION {
      var v2 := DecodeV2(bytes);
      return match v2 case Ok(e) => Ok(V2(e)) case Err(e) => Err(e);
    }
    return Err(UnsupportedFormatVersion(bytes[8]));
  }

  // ---------------------------------------------------------------- integers and slots both ways

  lemma Le32RoundTrips(n: U32)
    ensures FromLe32(Le32(n)) == n
  {
    assert n / 0x1_0000 == n / 0x100 / 0x100;
    assert n / 0x100_0000 == n / 0x1_0000 / 0x100;
  }

  lemma FromLe32RoundTrips(b: seq<Byte>)
    requires |b| == 4
    ensures Le32(FromLe32(b)) == b
  {
    var n := FromLe32(b);
    assert n / 0x100 == b[1] as int + 0x100 * b[2] as int + 0x1_0000 * b[3] as int;
    assert n / 0x1_0000 == b[2] as int + 0x100 * b[3] as int;
  }

  /** The descriptor printer is injective: two slots share their wrap's additional data exactly
      when kind, key derivation, cost parameters and salt all agree. */
  lemma SlotAadInjective(a: SlotDesc, b: SlotDesc)
    ensures SlotAad(a) == SlotAad(b) <==> a == b
  {
    if SlotAad(a) == SlotAad(b) {
      DescRoundTrips(a);
      DescRoundTrips(b);
    }
  }

  lemma DescRoundTrips(d: SlotDesc)
    ensures var b := SlotAad(d);
            d == SlotDesc(b[0], b[1],
                          KdfParams(FromLe32(b[2..6]), FromLe32(b[6..10]), FromLe32(b[10..14])), b[14..30])
  {
    var b := SlotAad(d);
    assert b[2..6] == Le32(d.params.mCost);
    assert b[6..10] == Le32(d.params.tCost);
    assert b[10..14] == Le32(d.params.pCost);
    assert b[14..30] == d.salt;
    Le32RoundTrips(d.params.mCost);
    Le32RoundTrips(d.params.tCost);
    Le32RoundTrips(d.params.pCost);
  }

  lemma ReadEncodedSlot(slot: ByteSlot)
    ensures ReadSlot(EncodeSlot(slot)) == slot
  {
    var b := EncodeSlot(slot);
    var d := SlotAad(slot.desc);
    assert b[..30] == d;
    assert b[2..6] == d[2..6] && b[6..10] == d[6..10] && b[10..14] == d[10..14] && b[14..30] == d[14..30];
    DescRoundTrips(slot.desc);
    assert b[30..42] == slot.wrapNonce;
    assert b[42..90] == slot.wrappedMk;
  }

  lemma EncodeReadSlot(b: seq<Byte>)
    requires |b| == SLOT_LEN
    ensures EncodeSlot(ReadSlot(b)) == b
  {
    FromLe32RoundTrips(b[2..6]);
    FromLe32RoundTrips(b[6..10]);
    FromLe32RoundTrips(b[10..14]);
    assert b == [b[0], b[1]] + b[2..6] + b[6..10] + b[10..14] + b[14..30] + b[30..42] + b[42..90];
  }

  lemma {:induction false} EncodeSlotsSnoc(slots: seq<ByteSlot>, last: ByteSlot)
    ensures EncodeSlots(slots + [last]) == EncodeSlots(slots) + EncodeSlot(last)
  {
    if slots == [] {
      assert EncodeSlots([last]) == EncodeSlot(last) + EncodeSlots([]);
    } else {
      EncodeSlotsSnoc(slots[1..], last);
      assert (slots + [last])[1..] == slots[1..] + [last];
    }
  }

  /** What is wrong with the first slot that is not acceptable. */
  function FirstError(slots: seq<ByteSlot>): Option<DecodeError> {
    if slots == [] then None
    else if !Acceptable(slots[0]) then CheckKdfParams(slots[0].desc.kdfId, slots[0].desc.params)
    else FirstError(slots[1..])
  }

  lemma {:induction false} NoErrorMeansAcceptable(slots: seq<ByteSlot>)
    ensures FirstError(slots).None? <==> forall s :: s in slots ==> Acceptable(s)
  {
    if slots != [] {
      NoErrorMeansAcceptable(slots[1..]);
      assert slots[0] in slots;
      assert forall s :: s in slots <==> s == slots[0] || s in slots[1..];
    }
  }

  /** Reading back printed slots gives the slots, or the error of the first that is refused. */
  lemma {:induction false} ReadEncodedSlots(slots: seq<ByteSlot>)
    ensures ReadSlots(EncodeSlots(slots), |slots|)
            == if FirstError(slots).Some? then Err(FirstError(slots).value) else Ok(slots)
  {
    if slots != [] {
      var b := EncodeSlots(slots);
      assert b[..SLOT_LEN] == EncodeSlot(slots[0]);
      assert b[SLOT_LEN..] == EncodeSlots(slots[1..]);
      ReadEncodedSlot(slots[0]);
      ReadEncodedSlots(slots[1..]);
      assert [slots[0]] + slots[1..] == slots;
    }
  }

  lemma {:induction false} EncodeReadSlots(b: seq<Byte>, n: nat)
    requires |b| == SLOT_LEN * n
    requires ReadSlots(b, n).Ok?
    ensures var slots := ReadSlots(b, n).value;
            |slots| == n && EncodeSlots(slots) == b && (forall s :: s in slots ==> Acceptable(s))
  {
    if n != 0 {
      EncodeReadSlot(b[..SLOT_LEN]);
      EncodeReadSlots(b[SLOT_LEN..], n - 1);
      assert b == b[..SLOT_LEN] + b[SLOT_LEN..];
      var slots := ReadSlots(b, n).value;
      assert slots[1..] == ReadSlots(b[SLOT_LEN..], n - 1).value;
    }
  }

  // ---------------------------------------------------------------- main results

  /** What the program may hand to `encode` and get back: 1 to 4 slots with acceptable costs and a
      ciphertext whose length fits its field. */
  predicate Representable(slots: seq<ByteSlot>, ciphertext: seq<Byte>) {
    && 1 <= |slots| <= MAX_SLOTS
    && (forall s :: s in slots ==> Acceptable(s))
    && |ciphertext| < 0x1_0000_0000
  }

  /** An accepted version 2 byte string is exactly the encoding of what it decodes to, and what it
      decodes to is representable: nothing is ignored, normalised or read twice. */
  lemma AcceptedBytesReencode(bytes: seq<Byte>)
    requires DecodedAny(bytes).Ok? && DecodedAny(bytes).value.V2?
    ensures var e := DecodedAny(bytes).value.v2;
            Encoded(e.slots, e.nonce, e.ciphertext) == bytes && Representable(e.slots, e.ciphertext)
  {
    hide DecodedV2, Encoded, EncodeSlots, Representable, Le32;
    V2Pieces(bytes);
    var bodyStart := V2_PREFIX_LEN + SLOT_LEN * bytes[9];
    Assemble(bytes, DecodedV2(bytes).value, bodyStart, bodyStart + NONCE_LEN);
  }

  lemma Assemble(bytes: seq<Byte>, e: Envelope, bodyStart: nat, at: nat)
    requires 10 <= bodyStart <= at && at + 4 <= |bytes|
    requires bytes[..8] == MAGIC && bytes[8] == FORMAT_VERSION && |e.slots| % 0x100 == bytes[9]
    requires EncodeSlots(e.slots) == bytes[10..bodyStart] && e.nonce == bytes[bodyStart..at]
    requires Le32(|e.ciphertext| % 0x1_0000_0000) == bytes[at..at + 4] && e.ciphertext == bytes[at + 4..]
    ensures Encoded(e.slots, e.nonce, e.ciphertext) == bytes
  {
    SixPieces(bytes, bodyStart, at);
  }

  lemma V2Pieces(bytes: seq<Byte>)
    requires |bytes| >= 9 && DecodedV2(bytes).Ok?
    ensures |bytes| > 9
    ensures var bodyStart := V2_PREFIX_LEN + SLOT_LEN * bytes[9];
            var at := bodyStart + NONCE_LEN;
            var e := DecodedV2(bytes).value;
            && at + 4 <= |bytes|
            && EncodeSlots(e.slots) == bytes[10..bodyStart]
            && e.nonce == bytes[bodyStart..at]
            && e.ciphertext == bytes[at + 4..]
            && |e.slots| == bytes[9]
            && Representable(e.slots, e.ciphertext)
            && Le32(|e.ciphertext|) == bytes[at..at + 4]
  {
    var bodyStart := V2_PREFIX_LEN + SLOT_LEN * bytes[9];
    var at := bodyStart + NONCE_LEN;
    EncodeReadSlots(bytes[V2_PREFIX_LEN..bodyStart], bytes[9]);
    FromLe32RoundTrips(bytes[at..at + 4]);
  }

  lemma SixPieces(bytes: seq<Byte>, bodyStart: nat, at: nat)
    requires 10 <= bodyStart <= at && at + 4 <= |bytes|
    ensures bytes == bytes[..8] + [bytes[8], bytes[9]] + bytes[10..bodyStart]
                     + bytes[bodyStart..at] + bytes[at..at + 4] + bytes[at + 4..]
  {
    assert bytes[..10] == bytes[..8] + [bytes[8], bytes[9]];
    assert bytes[..bodyStart] == bytes[..10] + bytes[10..bodyStart];
    assert bytes[..at] == bytes[..bodyStart] + bytes[bodyStart..at];
    assert bytes[..at + 4] == bytes[..at] + bytes[at..at + 4];
  }

  /** Decoding an encoding gives back exactly what went in if and only if it was representable.
      Outside that range the narrowing of the two length fields loses information. */
  lemma EncodingRoundTrips(slots: seq<ByteSlot>, nonce: Nonce, ciphertext: seq<Byte>)
    ensures DecodedAny(Encoded(slots, nonce, ciphertext)) == Ok(V2(Envelope(slots, nonce, ciphertext)))
            <==> Representable(slots, ciphertext)
  {
    hide FirstError, ReadSlots, Acceptable, FromLe32;
    var bytes := Encoded(slots, nonce, ciphertext);
    if Representable(slots, ciphertext) {
      var bodyStart := V2_PREFIX_LEN + SLOT_LEN * |slots|;
      var at := bodyStart + NONCE_LEN;
      assert bytes[..8] == MAGIC;
      assert bytes[8] == FORMAT_VERSION && bytes[9] == |slots|;
      assert bytes[V2_PREFIX_LEN..bodyStart] == EncodeSlots(slots);
      assert bytes[bodyStart..at] == nonce;
      assert bytes[at..at + 4] == Le32(|ciphertext|);
      assert bytes[at + 4..] == ciphertext;
      Le32RoundTrips(|ciphertext|);
      ReadEncodedSlots(slots);
      NoErrorMeansAcceptable(slots);
    } else if DecodedAny(bytes) == Ok(V2(Envelope(slots, nonce, ciphertext))) {
      AcceptedBytesReencode(bytes);
    }
  }

  /** The body's additional data determines the slot list, for lists of every length: the count
      byte wraps at 256 but the total length does not. */
  lemma HeaderAadInjective(a: seq<ByteSlot>, b: seq<ByteSlot>)
    ensures HeaderAad(a) == HeaderAad(b) <==> a == b
  {
    if HeaderAad(a) == HeaderAad(b) {
      assert EncodeSlots(a) == HeaderAad(a)[V2_PREFIX_LEN..];
      assert EncodeSlots(b) == HeaderAad(b)[V2_PREFIX_LEN..];
      EncodeSlotsInjective(a, b);
    }
  }

  lemma {:induction false} EncodeSlotsInjective(a: seq<ByteSlot>, b: seq<ByteSlot>)
    requires EncodeSlots(a) == EncodeSlots(b)
    ensures a == b
  {
    if a != [] && b != [] {
      assert EncodeSlots(a)[..SLOT_LEN] == EncodeSlot(a[0]);
      assert EncodeSlots(b)[..SLOT_LEN] == EncodeSlot(b[0]);
      ReadEncodedSlot(a[0]);
      ReadEncodedSlot(b[0]);
      assert EncodeSlots(a)[SLOT_LEN..] == EncodeSlots(a[1..]);
      assert EncodeSlots(b)[SLOT_LEN..] == EncodeSlots(b[1..]);
      EncodeSlotsInjective(a[1..], b[1..]);
    }
  }

  /** The additional data rebuilt for an accepted version 1 file is byte for byte its own header,
      and with the three remaining fields it is the whole file. */
  lemma V1HeaderIsItsOwnAad(bytes: seq<Byte>)
    requires DecodedAny(bytes).Ok? && DecodedAny(bytes).value.V1?
    ensures var e := DecodedAny(bytes).value.v1;
            && HeaderAadV1(e) == bytes[..V1_HEADER_LEN]
            && bytes == HeaderAadV1(e) + e.nonce + Le32(|e.ciphertext|) + e.ciphertext
  {
    var e := DecodedAny(bytes).value.v1;
    FromLe32RoundTrips(bytes[10..14]);
    FromLe32RoundTrips(bytes[14..18]);
    FromLe32RoundTrips(bytes[18..22]);
    FromLe32RoundTrips(bytes[50..54]);
    assert bytes[..38] == bytes[..8] + [bytes[8], bytes[9]] + bytes[10..14] + bytes[14..18] + bytes[18..22]
        + bytes[22..38];
    assert bytes == bytes[..38] + bytes[38..50] + bytes[50..54] + bytes[54..];
  }

  /** Decoding returns on every input except one family: a file of exactly nine bytes that ends
      in the version 2 byte passes the length check and then indexes its missing slot count. */
  lemma DecodingPanicsExactlyOnNineBytes(bytes: seq<Byte>)
    ensures DecodedAny(bytes) == Err(IndexOutOfBounds)
            <==> |bytes| == 9 && bytes[..8] == MAGIC && bytes[8] == FORMAT_VERSION
  {
    if |bytes| > 9 && bytes[..8] == MAGIC && bytes[8] == FORMAT_VERSION
       && 1 <= bytes[9] <= MAX_SLOTS && |bytes| >= 26 + SLOT_LEN * bytes[9] {
      SlotErrorsAreReturned(bytes[V2_PREFIX_LEN..V2_PREFIX_LEN + SLOT_LEN * bytes[9]], bytes[9]);
    }
  }

  lemma {:induction false} SlotErrorsAreReturned(b: seq<Byte>, n: nat)
    requires |b| == SLOT_LEN * n
    ensures ReadSlots(b, n) != Err(IndexOutOfBounds)
  {
    if n != 0 {
      SlotErrorsAreReturned(b[SLOT_LEN..], n - 1);
    }
  }

  // ---------------------------------------------------------------- where everything stands

  /** The number in the four bytes from `at`, the lowest first. */
  function Number(bytes: seq<Byte>, at: nat): nat
    requires at + 4 <= |bytes|
  {
    bytes[at] as int + 256 * bytes[at + 1] as int + 65_536 * bytes[at + 2] as int
    + 16_777_216 * bytes[at + 3] as int
  }

  ghost predicate SlotStandsAt(bytes: seq<Byte>, at: nat, slot: ByteSlot)
    requires at + 90 <= |bytes|
  {
    && bytes[at] == slot.desc.kind && bytes[at + 1] == slot.desc.kdfId
    && Number(bytes, at + 2) == slot.desc.params.mCost
    && Number(bytes, at + 6) == slot.desc.params.tCost
    && Number(bytes, at + 10) == slot.desc.params.pCost
    && bytes[at + 14..at + 30] == slot.desc.salt
    && bytes[at + 30..at + 42] == slot.wrapNonce
    && bytes[at + 42..at + 90] == slot.wrappedMk
  }

  /** A password slot's costs lie within the limits; a device slot has none. */
  predicate CostsAreFit(kdfId: Byte, mCost: nat, tCost: nat, pCost: nat) {
    || kdfId == 2
    || (kdfId == 1 && 8 <= mCost <= 1_048_576 && 1 <= tCost <= 64 && 1 <= pCost <= 64)
  }

  predicate SlotIsFit(bytes: seq<Byte>, at: nat)
    requires at + 90 <= |bytes|
  {
    CostsAreFit(bytes[at + 1], Number(bytes, at + 2), Number(bytes, at + 6), Number(bytes, at + 10))
  }

  /** The files of version `version`: the eight letters and the version. */
  predicate Starts(bytes: seq<Byte>, version: Byte) {
    |bytes| >= 9 && OurLetters(bytes) && bytes[8] == version
  }

  predicate OurLetters(bytes: seq<Byte>)
    requires |bytes| >= 8
  {
    && bytes[0] == 'S' as int && bytes[1] == 'S' as int && bytes[2] == 'H' as int && bytes[3] == 'C' as int
    && bytes[4] == 'T' as int && bytes[5] == 'R' as int && bytes[6] == 'L' as int && bytes[7] == '1' as int
  }

  lemma TheMagic(bytes: seq<Byte>)
    requires |bytes| >= 8
    ensures bytes[..8] == MAGIC <==> OurLetters(bytes)
  {
    var b := bytes[..8];
    assert OurLetters(bytes) ==> b == [b[0], b[1], b[2], b[3], b[4], b[5], b[6], b[7]];
  }

  lemma ANumber(bytes: seq<Byte>, at: nat)
    requires at + 4 <= |bytes|
    ensures FromLe32(bytes[at..at + 4]) == Number(bytes, at)
  {
  }

  lemma SlotIsRead(bytes: seq<Byte>, at: nat)
    requires at + 90 <= |bytes|
    ensures SlotStandsAt(bytes, at, ReadSlot(bytes[at..at + 90]))
    ensures Acceptable(ReadSlot(bytes[at..at + 90])) <==> SlotIsFit(bytes, at)
    ensures !SlotIsFit(bytes, at) ==>
              CheckKdfParams(bytes[at + 1], ReadSlot(bytes[at..at + 90]).desc.params)
              == Some(if bytes[at + 1] == 1 then KdfParametersOutOfRange else UnknownKdfId(bytes[at + 1]))
  {
    var b := bytes[at..at + 90];
    Within(bytes, at, 2, 6);
    Within(bytes, at, 6, 10);
    Within(bytes, at, 10, 14);
    Within(bytes, at, 14, 30);
    Within(bytes, at, 30, 42);
    Within(bytes, at, 42, 90);
    ANumber(bytes, at + 2);
    ANumber(bytes, at + 6);
    ANumber(bytes, at + 10);
  }

  lemma Within(bytes: seq<Byte>, at: nat, i: nat, j: nat)
    requires at + 90 <= |bytes| && i <= j <= 90
    ensures bytes[at..at + 90][i..j] == bytes[at + i..at + j]
  {
    var b := bytes[at..at + 90];
    assert forall k :: 0 <= k < j - i ==> b[i..j][k] == b[i + k];
  }

  ghost predicate SlotsStandAt(bytes: seq<Byte>, from: nat, slots: seq<ByteSlot>)
    requires from + 90 * |slots| <= |bytes|
  {
    forall i :: 0 <= i < |slots| ==> SlotStandsAt(bytes, from + 90 * i, slots[i])
  }

  ghost predicate AllFit(bytes: seq<Byte>, from: nat, n: nat)
    requires from + 90 * n <= |bytes|
  {
    forall i :: 0 <= i < n ==> SlotIsFit(bytes, from + 90 * i)
  }

  /** The `i`th slot from `from` is the first that is not fit, and `e` says why. */
  ghost predicate Unfit(bytes: seq<Byte>, from: nat, i: nat, e: DecodeError)
    requires from + 90 * i + 90 <= |bytes|
  {
    && AllFit(bytes, from, i) && !SlotIsFit(bytes, from + 90 * i)
    && e == if bytes[from + 90 * i + 1] == 1 then KdfParametersOutOfRange
            else UnknownKdfId(bytes[from + 90 * i + 1])
  }

  lemma OneSlotMore(bytes: seq<Byte>, from: nat, slots: seq<ByteSlot>)
    requires slots != [] && from + 90 * |slots| <= |bytes|
    requires SlotStandsAt(bytes, from, slots[0]) && SlotsStandAt(bytes, from + 90, slots[1..])
    ensures SlotsStandAt(bytes, from, slots)
  {
    hide SlotStandsAt;
    forall i | 0 <= i < |slots| ensures SlotStandsAt(bytes, from + 90 * i, slots[i]) {
      if i > 0 {
        assert slots[1..][i - 1] == slots[i];
        assert SlotStandsAt(bytes, from + 90 + 90 * (i - 1), slots[1..][i - 1]);
      }
    }
  }

  lemma UnfitLater(bytes: seq<Byte>, from: nat, i: nat, e: DecodeError)
    requires from + 90 * (i + 2) <= |bytes| && SlotIsFit(bytes, from) && Unfit(bytes, from + 90, i, e)
    ensures Unfit(bytes, from, i + 1, e)
  {
    hide SlotIsFit;
    FitShifts(bytes, from, i);
    assert from + 90 * (i + 1) == from + 90 + 90 * i;
  }

  lemma FitShifts(bytes: seq<Byte>, from: nat, n: nat)
    requires from + 90 * (n + 1) <= |bytes| && SlotIsFit(bytes, from)
    ensures AllFit(bytes, from, n + 1) <==> AllFit(bytes, from + 90, n)
  {
    hide SlotIsFit;
    if AllFit(bytes, from, n + 1) {
      forall i | 0 <= i < n ensures SlotIsFit(bytes, from + 90 + 90 * i) {
        assert SlotIsFit(bytes, from + 90 * (i + 1));
      }
    }
    if AllFit(bytes, from + 90, n) {
      forall i | 0 <= i < n + 1 ensures SlotIsFit(bytes, from + 90 * i) {
        if i > 0 {
          assert SlotIsFit(bytes, from + 90 + 90 * (i - 1));
        }
      }
    }
  }

  /** What stands there was read, or the error of the first slot that is not fit. */
  ghost predicate ReadAs(bytes: seq<Byte>, from: nat, n: nat, r: Result<seq<ByteSlot>, DecodeError>)
    requires from + 90 * n <= |bytes|
  {
    && (r.Ok? <==> AllFit(bytes, from, n))
    && (r.Ok? ==> |r.value| == n && SlotsStandAt(bytes, from, r.value))
    && (r.Err? ==> exists i :: 0 <= i < n && Unfit(bytes, from, i, r.error))
  }

  lemma {:induction false} SlotsAreRead(bytes: seq<Byte>, from: nat, n: nat)
    requires from + 90 * n <= |bytes|
    ensures ReadAs(bytes, from, n, ReadSlots(bytes[from..from + 90 * n], n))
    decreases n
  {
    hide ReadSlots, ReadAs;
    var b := bytes[from..from + 90 * n];
    if n == 0 {
      assert b == [];
      NothingIsRead(bytes, from);
    } else {
      assert b[..90] == bytes[from..from + 90];
      assert b[90..] == bytes[from + 90..from + 90 + 90 * (n - 1)];
      SlotsAreRead(bytes, from + 90, n - 1);
      ReadOneSlot(b, n);
      OneSlotRead(bytes, from, n, ReadSlots(b[90..], n - 1));
    }
  }

  lemma NothingIsRead(bytes: seq<Byte>, from: nat)
    requires from <= |bytes|
    ensures ReadAs(bytes, from, 0, ReadSlots([], 0))
  {
  }

  lemma OneSlotRead(bytes: seq<Byte>, from: nat, n: nat, rest: Result<seq<ByteSlot>, DecodeError>)
    requires n > 0 && from + 90 * n <= |bytes| && ReadAs(bytes, from + 90, n - 1, rest)
    ensures var slot := ReadSlot(bytes[from..from + 90]);
            var wrong := CheckKdfParams(slot.desc.kdfId, slot.desc.params);
            ReadAs(bytes, from, n, if wrong.Some? then Err(wrong.value) else if rest.Err? then rest
                                   else Ok([slot] + rest.value))
  {
    hide SlotStandsAt, SlotIsFit, ReadSlot, SlotsStandAt, AllFit, Unfit, CheckKdfParams;
    SlotIsRead(bytes, from);
    if !SlotIsFit(bytes, from) {
      UnfitAtOnce(bytes, from, n);
    } else {
      FitShifts(bytes, from, n - 1);
      if rest.Ok? {
        var slots := [ReadSlot(bytes[from..from + 90])] + rest.value;
        assert slots[1..] == rest.value;
        OneSlotMore(bytes, from, slots);
      } else {
        var i :| 0 <= i < n - 1 && Unfit(bytes, from + 90, i, rest.error);
        UnfitLater(bytes, from, i, rest.error);
      }
    }
  }

  lemma ReadOneSlot(b: seq<Byte>, n: nat)
    requires n > 0 && |b| == 90 * n
    ensures var slot := ReadSlot(b[..90]);
            var rest, wrong := ReadSlots(b[90..], n - 1), CheckKdfParams(slot.desc.kdfId, slot.desc.params);
            ReadSlots(b, n) == if wrong.Some? then Err(wrong.value) else if rest.Err? then rest
                               else Ok([slot] + rest.value)
  {
    hide ReadSlot, CheckKdfParams;
  }

  lemma UnfitAtOnce(bytes: seq<Byte>, from: nat, n: nat)
    requires n > 0 && from + 90 * n <= |bytes| && !SlotIsFit(bytes, from)
    ensures !AllFit(bytes, from, n)
    ensures Unfit(bytes, from, 0, if bytes[from + 1] == 1 then KdfParametersOutOfRange
                                  else UnknownKdfId(bytes[from + 1]))
  {
    hide SlotIsFit;
    assert from + 90 * 0 == from;
  }

  // ---------------------------------------------------------------- what is accepted, and why not

  /** The envelope lies in the bytes: the letters and the version, a count, that many slots, a nonce,
      a length and a ciphertext of that length, each at its place and nothing beside them. */
  ghost predicate LiesInV2(bytes: seq<Byte>, e: Envelope) {
    var body := 10 + 90 * |e.slots|;
    && |bytes| == body + 16 + |e.ciphertext|
    && Starts(bytes, 2) && bytes[9] == |e.slots|
    && SlotsStandAt(bytes, 10, e.slots)
    && bytes[body..body + 12] == e.nonce
    && Number(bytes, body + 12) == |e.ciphertext|
    && bytes[body + 16..] == e.ciphertext
  }

  ghost predicate LiesInV1(bytes: seq<Byte>, e: EnvelopeV1) {
    && |bytes| == 54 + |e.ciphertext|
    && Starts(bytes, 1) && bytes[9] == 1
    && Number(bytes, 10) == e.params.mCost && Number(bytes, 14) == e.params.tCost
    && Number(bytes, 18) == e.params.pCost
    && bytes[22..38] == e.salt && bytes[38..50] == e.nonce
    && Number(bytes, 50) == |e.ciphertext|
    && bytes[54..] == e.ciphertext
  }

  /** What is decoded is what lies in the bytes, and it is decoded only if its costs are fit. */
  lemma DecodedIsWhatLiesThere(bytes: seq<Byte>)
    requires DecodedAny(bytes).Ok?
    ensures match DecodedAny(bytes).value
      case V2(e) => LiesInV2(bytes, e) && 1 <= |e.slots| <= 4 && AllFit(bytes, 10, |e.slots|)
      case V1(e) =>
        LiesInV1(bytes, e) && CostsAreFit(1, e.params.mCost, e.params.tCost, e.params.pCost)
  {
    TheMagic(bytes);
    if bytes[8] == 2 {
      var n: nat := bytes[9];
      SlotsAreRead(bytes, 10, n);
      ANumber(bytes, 22 + 90 * n);
      hide SlotsStandAt, AllFit, ReadSlots, Number, FromLe32;
    } else {
      V1Numbers(bytes);
      hide Number, FromLe32;
    }
  }

  lemma V1Numbers(bytes: seq<Byte>)
    requires |bytes| >= 54
    ensures FromLe32(bytes[10..14]) == Number(bytes, 10) && FromLe32(bytes[14..18]) == Number(bytes, 14)
    ensures FromLe32(bytes[18..22]) == Number(bytes, 18) && FromLe32(bytes[50..54]) == Number(bytes, 50)
  {
    ANumber(bytes, 10);
    ANumber(bytes, 14);
    ANumber(bytes, 18);
    ANumber(bytes, 50);
  }

  /** The byte that says how many slots there are. */
  function Count(bytes: seq<Byte>): nat
    requires |bytes| >= 10
  {
    bytes[9]
  }

  /** Long enough for what its count or version asks for. */
  predicate LongEnough(bytes: seq<Byte>) {
    || (Starts(bytes, 1) && |bytes| >= 54)
    || (Starts(bytes, 2) && |bytes| >= 10 && 1 <= Count(bytes) <= 4 && |bytes| >= 26 + 90 * Count(bytes))
  }

  /** Why bytes are refused, in terms of the bytes alone. */
  ghost predicate Refused(bytes: seq<Byte>, e: DecodeError) {
    match e
    case FileTooShort =>
      || |bytes| < 9
      || (Starts(bytes, 1) && |bytes| < 54)
      || (Starts(bytes, 2) && |bytes| >= 10 && 1 <= Count(bytes) <= 4 && |bytes| < 26 + 90 * Count(bytes))
    case NotOurFile => |bytes| >= 9 && !OurLetters(bytes)
    case UnsupportedFormatVersion(version) => Starts(bytes, version) && version != 1 && version != 2
    case IndexOutOfBounds => Starts(bytes, 2) && |bytes| == 9
    case SlotCountOutOfRange => Starts(bytes, 2) && |bytes| >= 10 && !(1 <= Count(bytes) <= 4)
    case CiphertextLengthMismatch =>
      && LongEnough(bytes)
      && if bytes[8] == 1 then
           bytes[9] == 1 && CostsAreFit(1, Number(bytes, 10), Number(bytes, 14), Number(bytes, 18))
           && |bytes| != 54 + Number(bytes, 50)
         else
           AllFit(bytes, 10, Count(bytes)) && |bytes| != 26 + 90 * Count(bytes) + Number(bytes, 22 + 90 * Count(bytes))
    case _ =>
      && LongEnough(bytes)
      && if bytes[8] == 1 then
           if bytes[9] != 1 then e == UnknownKdfId(bytes[9])
           else
             && !CostsAreFit(1, Number(bytes, 10), Number(bytes, 14), Number(bytes, 18))
             && e == KdfParametersOutOfRange
         else exists i :: 0 <= i < Count(bytes) && Unfit(bytes, 10, i, e)
  }

  /** Bytes are refused with an error exactly for its reason. */
  lemma WhyBytesAreRefused(bytes: seq<Byte>, e: DecodeError)
    ensures DecodedAny(bytes) == Err(e) <==> Refused(bytes, e)
  {
    if |bytes| >= 9 {
      TheMagic(bytes);
    }
    if LongEnough(bytes) && bytes[8] == 2 {
      WhyV2IsRefused(bytes, e);
    } else if LongEnough(bytes) {
      V1Numbers(bytes);
      hide Number, FromLe32;
    }
  }

  lemma WhyV2IsRefused(bytes: seq<Byte>, e: DecodeError)
    requires LongEnough(bytes) && bytes[8] == 2
    ensures DecodedAny(bytes) == Err(e) <==> Refused(bytes, e)
  {
    TheMagic(bytes);
    var n: nat := bytes[9];
    SlotsAreRead(bytes, 10, n);
    ANumber(bytes, 22 + 90 * n);
    OneReason(bytes, 10, n);
    hide SlotsStandAt, ReadSlots, Number, FromLe32, Unfit, AllFit, CostsAreFit, CheckKdfParams;
    if ReadSlots(bytes[10..10 + 90 * n], n).Err? {
      assert DecodedAny(bytes) == Err(ReadSlots(bytes[10..10 + 90 * n], n).error);
    } else {
      assert DecodedAny(bytes) == Err(e) <==>
          e == CiphertextLengthMismatch && |bytes| != 26 + 90 * n + Number(bytes, 22 + 90 * n);
    }
  }

  lemma NotBefore(bytes: seq<Byte>, from: nat, i: nat, e: DecodeError, j: nat)
    requires from + 90 * i + 90 <= |bytes| && from + 90 * j + 90 <= |bytes| && Unfit(bytes, from, i, e)
    ensures AllFit(bytes, from, j) ==> j <= i
  {
    hide SlotIsFit;
  }

  /** Only one slot is the first that is not fit, and what is wrong with it is one thing. */
  lemma OneReason(bytes: seq<Byte>, from: nat, n: nat)
    requires from + 90 * n <= |bytes|
    ensures forall i, j, d, f ::
              0 <= i < n && 0 <= j < n && Unfit(bytes, from, i, d) && Unfit(bytes, from, j, f) ==> d == f
    ensures forall i, e :: 0 <= i < n && Unfit(bytes, from, i, e) ==>
              !AllFit(bytes, from, n) && (e.KdfParametersOutOfRange? || e.UnknownKdfId?)
  {
    hide SlotIsFit;
    forall i, j, d, f | 0 <= i < n && 0 <= j < n && Unfit(bytes, from, i, d) && Unfit(bytes, from, j, f)
      ensures d == f
    {
      NotBefore(bytes, from, i, d, j);
      NotBefore(bytes, from, j, f, i);
    }
  }
}
