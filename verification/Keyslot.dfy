/**
 Wrapping and unwrapping the vault's master key (src/config/keyslot.rs), and the vault file as the
 store seals and opens it (src/config/store.rs).

 Cryptography is symbolic.  Keys are terms, so derivations are injective; a ciphertext remembers
 what it was sealed with, so it opens under exactly that key, nonce and additional data.  Slots
 are authenticated under the real bytes of their descriptor.  The body is authenticated under the
 slot list itself, which `Format.HeaderAadInjective` shows to be what the header bytes determine.
 */
module Keyslot {
  import opened Wrappers
  import opened Format
  import opened StableSort

  datatype Key =
    | Random(id: nat)
    | Stretched(password: string, salt: Salt, params: KdfParams)
    | Expanded(device: nat, salt: Salt)

  datatype Sealed<+A, +P> =
    | Sealed(key: Key, nonce: Nonce, aad: A, plain: P)
    | Garbage(bytes: seq<Byte>)

  function Decrypt<A(==), P>(key: Key, nonce: Nonce, aad: A, c: Sealed<A, P>): Option<P> {
    if c.Sealed? && c.key == key && c.nonce == nonce && c.aad == aad then Some(c.plain) else None
  }

  type WrappedKey = Sealed<seq<Byte>, Key>
  type KeySlot = Slot<WrappedKey>

  datatype VaultError =
    | VaultInUse
    | ConfigNotFound
    | WrongPasswordOrCorrupt
    | CorruptFile
    | SchemaTooNew
    | NoKeySlots
    | WriteFailed
    | CredentialStoreFailed

  const INTERACTIVE := KdfParams(19_456, 2, 1)
  const RECOVERY := KdfParams(262_144, 4, 1)
  const NO_COST := KdfParams(0, 0, 0)

  function WrapUnder(desc: SlotDesc, kek: Key, wrapNonce: Nonce, masterKey: Key): KeySlot {
    Slot(desc, wrapNonce, Sealed(kek, wrapNonce, SlotAad(desc), masterKey))
  }

  function WrapPassword(password: string, params: KdfParams, salt: Salt, wrapNonce: Nonce, masterKey: Key): KeySlot {
    WrapUnder(SlotDesc(SLOT_PASSWORD, KDF_ARGON2ID, params, salt), Stretched(password, salt, params), wrapNonce,
      masterKey)
  }

  function WrapDevice(device: nat, salt: Salt, wrapNonce: Nonce, masterKey: Key): KeySlot {
    WrapUnder(SlotDesc(SLOT_DEVICE, KDF_HKDF_SHA256, NO_COST, salt), Expanded(device, salt), wrapNonce, masterKey)
  }

  function UnwrapUnder(slot: KeySlot, kek: Key): Result<Key, VaultError> {
    match Decrypt(kek, slot.wrapNonce, SlotAad(slot.desc), slot.wrappedMk)
    case Some(mk) => Ok(mk)
    case None => Err(WrongPasswordOrCorrupt)
  }

  function UnwrapPassword(slot: KeySlot, password: string): Result<Key, VaultError> {
    if slot.desc.kdfId != KDF_ARGON2ID then Err(CorruptFile)
    else UnwrapUnder(slot, Stretched(password, slot.desc.salt, slot.desc.params))
  }

  function UnwrapDevice(slot: KeySlot, device: nat): Result<Key, VaultError> {
    if slot.desc.kdfId != KDF_HKDF_SHA256 then Err(CorruptFile)
    else UnwrapUnder(slot, Expanded(device, slot.desc.salt))
  }

  /** The first slot of `kind`. */
  function Find(slots: seq<KeySlot>, kind: Byte): (found: Option<KeySlot>)
    ensures found.Some? <==> exists s :: s in slots && s.desc.kind == kind
    ensures found.Some? ==> found.value in slots && found.value.desc.kind == kind
  {
    if slots == [] then None
    else if slots[0].desc.kind == kind then Some(slots[0])
    else Find(slots[1..], kind)
  }

  predicate Has(slots: seq<KeySlot>, kind: Byte) {
    Find(slots, kind).Some?
  }

  function Retain(slots: seq<KeySlot>, kind: Byte): seq<KeySlot> {
    if slots == [] then []
    else (if slots[0].desc.kind != kind then [slots[0]] else []) + Retain(slots[1..], kind)
  }

  const BY_KIND: (KeySlot, KeySlot) -> bool := (a: KeySlot, b: KeySlot) => a.desc.kind <= b.desc.kind

  function Replaced(slots: seq<KeySlot>, kind: Byte, replacement: KeySlot): seq<KeySlot> {
    Sort(Retain(slots, kind) + [replacement], BY_KIND)
  }

  method Replace(slots: seq<KeySlot>, kind: Byte, replacement: KeySlot) returns (result: seq<KeySlot>)
    ensures result == Replaced(slots, kind, replacement)
  {
    result := [];
    for i := 0 to |slots|
      invariant result == Retain(slots[..i], kind)
    {
      RetainSnoc(slots[..i], slots[i], kind);
      assert slots[..i + 1] == slots[..i] + [slots[i]];
      if slots[i].desc.kind != kind {
        result := result + [slots[i]];
      }
    }
    assert slots[..|slots|] == slots;
    result := result + [replacement];
    result := Sort(result, BY_KIND);
  }

  lemma {:induction false} RetainSnoc(slots: seq<KeySlot>, last: KeySlot, kind: Byte)
    ensures Retain(slots + [last], kind) == Retain(slots, kind) + if last.desc.kind != kind then [last] else []
  {
    if slots == [] {
      assert slots + [last] == [last];
    } else {
      RetainSnoc(slots[1..], last, kind);
      assert (slots + [last])[1..] == slots[1..] + [last];
    }
  }

  // ---------------------------------------------------------------- what replacing does

  lemma FindByTies(slots: seq<KeySlot>, kind: Byte, probe: KeySlot)
    requires probe.desc.kind == kind
    ensures Find(slots, kind) == if Ties(slots, probe, BY_KIND) == [] then None
            else Some(Ties(slots, probe, BY_KIND)[0])
  {
  }

  lemma {:induction false} RetainByTies(slots: seq<KeySlot>, kind: Byte, probe: KeySlot)
    ensures Ties(Retain(slots, kind), probe, BY_KIND)
            == if probe.desc.kind == kind then [] else Ties(slots, probe, BY_KIND)
  {
    if slots != [] {
      RetainByTies(slots[1..], kind, probe);
      if slots[0].desc.kind != kind {
        assert Retain(slots, kind)[1..] == Retain(slots[1..], kind);
      } else {
        assert Retain(slots, kind) == Retain(slots[1..], kind);
      }
    }
  }

  lemma {:induction false} TiesOfSnoc(slots: seq<KeySlot>, last: KeySlot, probe: KeySlot)
    ensures Ties(slots + [last], probe, BY_KIND)
            == Ties(slots, probe, BY_KIND) + if last.desc.kind == probe.desc.kind then [last] else []
  {
    if slots == [] {
      assert slots + [last] == [last];
    } else {
      assert (slots + [last])[1..] == slots[1..] + [last];
      TiesOfSnoc(slots[1..], last, probe);
    }
  }

  /** After replacing, the new slot is the one and only slot of its kind and every other kind keeps
      its slots in their order. */
  lemma TiesAfterReplacing(slots: seq<KeySlot>, kind: Byte, replacement: KeySlot, probe: KeySlot)
    requires replacement.desc.kind == kind
    ensures Ties(Replaced(slots, kind, replacement), probe, BY_KIND)
            == if probe.desc.kind == kind then [replacement] else Ties(slots, probe, BY_KIND)
  {
    SortStablySorts(Retain(slots, kind) + [replacement], BY_KIND);
    TiesOfSnoc(Retain(slots, kind), replacement, probe);
    RetainByTies(slots, kind, probe);
  }

  /** So the replacement is what its kind is found under, and nothing else is found differently. */
  lemma FindAfterReplacing(slots: seq<KeySlot>, kind: Byte, replacement: KeySlot, k: Byte)
    requires replacement.desc.kind == kind
    ensures Find(Replaced(slots, kind, replacement), k) == if k == kind then Some(replacement) else Find(slots, k)
  {
    var probe := replacement.(desc := replacement.desc.(kind := k));
    TiesAfterReplacing(slots, kind, replacement, probe);
    FindByTies(Replaced(slots, kind, replacement), k, probe);
    FindByTies(slots, k, probe);
  }

  /** Nothing appears or disappears beside it, and the list is left sorted by kind. */
  lemma MembersAfterReplacing(slots: seq<KeySlot>, kind: Byte, replacement: KeySlot)
    ensures Sorted(Replaced(slots, kind, replacement), BY_KIND)
    ensures forall s: KeySlot :: s in Replaced(slots, kind, replacement)
                        <==> s == replacement || (s in slots && s.desc.kind != kind)
  {
    var kept := Retain(slots, kind);
    SortStablySorts(kept + [replacement], BY_KIND);
    RetainMembers(slots, kind);
    forall s: KeySlot
      ensures s in Replaced(slots, kind, replacement) <==> s == replacement || (s in slots && s.desc.kind != kind)
    {
      PermutationMember(kept + [replacement], Replaced(slots, kind, replacement), s);
      assert s in kept + [replacement] <==> s in kept || s == replacement;
      assert s in kept <==> s in slots && s.desc.kind != kind;
    }
  }

  lemma {:induction false} RetainMembers(slots: seq<KeySlot>, kind: Byte)
    ensures forall s :: s in Retain(slots, kind) <==> s in slots && s.desc.kind != kind
  {
    if slots != [] {
      RetainMembers(slots[1..], kind);
      assert forall s :: s in slots <==> s == slots[0] || s in slots[1..];
    }
  }

  // ---------------------------------------------------------------- what a slot opens to

  /** A slot that wraps `mk` the way `wrap_under` builds one. */
  ghost predicate Wraps(slot: KeySlot, mk: Key) {
    || (exists password: string :: IsPasswordSlot(slot, password, mk))
    || (exists device: nat :: IsDeviceSlot(slot, device, mk))
  }

  predicate IsPasswordSlot(slot: KeySlot, password: string, mk: Key) {
    slot == WrapPassword(password, slot.desc.params, slot.desc.salt, slot.wrapNonce, mk)
  }

  predicate IsDeviceSlot(slot: KeySlot, device: nat, mk: Key) {
    slot == WrapDevice(device, slot.desc.salt, slot.wrapNonce, mk)
  }

  /** A password slot opens under its own password and no other. */
  lemma PasswordSlotOpens(slot: KeySlot, password: string, mk: Key, tried: string)
    requires IsPasswordSlot(slot, password, mk)
    ensures UnwrapPassword(slot, tried) == if tried == password then Ok(mk) else Err(WrongPasswordOrCorrupt)
  {
  }

  lemma DeviceSlotOpens(slot: KeySlot, device: nat, mk: Key, tried: nat)
    requires IsDeviceSlot(slot, device, mk)
    ensures UnwrapDevice(slot, tried) == if tried == device then Ok(mk) else Err(WrongPasswordOrCorrupt)
  {
  }

  /** A slot whose descriptor or nonce was edited does not open under the key it was wrapped with,
      nor under any other: the descriptor is part of the tag, byte for byte. */
  lemma EditedSlotDoesNotOpen(slot: KeySlot, mk: Key, edited: KeySlot, kek: Key)
    requires slot.wrappedMk.Sealed? && slot.wrappedMk.nonce == slot.wrapNonce
    requires slot.wrappedMk.aad == SlotAad(slot.desc)
    requires edited.wrappedMk == slot.wrappedMk
    ensures UnwrapUnder(edited, kek).Ok? <==> edited == slot && kek == slot.wrappedMk.key
  {
    SlotAadInjective(edited.desc, slot.desc);
  }

  /** What a slot says of itself, in the bytes of the file: kind and key derivation, and costs the
      parser takes. */
  lemma WhatASlotSays(password: string, device: nat, salt: Salt, nonce: Nonce, mk: Key)
    ensures forall params :: params == INTERACTIVE || params == RECOVERY ==>
              var desc := WrapPassword(password, params, salt, nonce, mk).desc;
              SlotAad(desc)[..2] == [1, 1] && desc.salt == salt && CheckKdfParams(desc.kdfId, desc.params).None?
    ensures var desc := WrapDevice(device, salt, nonce, mk).desc;
            SlotAad(desc)[..2] == [2, 2] && desc.salt == salt && desc.params == KdfParams(0, 0, 0)
            && CheckKdfParams(desc.kdfId, desc.params).None?
  {
  }

  // ---------------------------------------------------------------- the vault file

  /** The decrypted configuration: `rest` stands for everything but the two fields the unlock
      logic reads. */
  datatype Config = Config(schema: nat, totp: Option<string>, rest: nat)

  const CURRENT_SCHEMA_VERSION := 2

  type Body = Sealed<seq<KeySlot>, Config>

  datatype VaultFile =
    | FileV2(slots: seq<KeySlot>, nonce: Nonce, body: Body)
    | FileV1(params: KdfParams, salt: Salt, v1Nonce: Nonce, v1Body: Sealed<(KdfParams, Salt), Config>)
    | Undecodable

  datatype OpenVault = OpenVault(config: Config, masterKey: Key, slots: seq<KeySlot>)

  datatype VaultShape = PasswordShape | DeviceShape | DeviceAndPasswordShape

  function ShapeOf(slots: seq<KeySlot>): VaultShape {
    match (Has(slots, SLOT_PASSWORD), Has(slots, SLOT_DEVICE))
    case (true, true) => DeviceAndPasswordShape
    case (false, true) => DeviceShape
    case _ => PasswordShape
  }

  /** `config::migrate::config_from_slice`: version 1 migrates forward unchanged, an unknown older
      version has no migration, a newer one is refused. */
  function FromStored(config: Config): Result<Config, VaultError> {
    if config.schema > CURRENT_SCHEMA_VERSION then Err(SchemaTooNew)
    else if config.schema == 0 then Err(CorruptFile)
    else Ok(config.(schema := CURRENT_SCHEMA_VERSION))
  }

  function DecryptBody(file: VaultFile, mk: Key): Result<Config, VaultError>
    requires file.FileV2?
  {
    match Decrypt(mk, file.nonce, file.slots, file.body)
    case None => Err(WrongPasswordOrCorrupt)
    case Some(config) => FromStored(config)
  }

  /** The tail of `load` for a version 2 file. */
  function OpenWithPassword(file: VaultFile, password: string): Result<OpenVault, VaultError>
    requires file.FileV2?
  {
    match Find(file.slots, SLOT_PASSWORD)
    case None => Err(WrongPasswordOrCorrupt)
    case Some(slot) =>
      match UnwrapPassword(slot, password)
      case Err(e) => Err(e)
      case Ok(mk) =>
        match DecryptBody(file, mk)
        case Err(e) => Err(e)
        case Ok(config) => Ok(OpenVault(config, mk, file.slots))
  }

  /** The tail of `load_with_device`. */
  function OpenWithDevice(file: VaultFile, device: nat): Result<OpenVault, VaultError> {
    if file.Undecodable? then Err(CorruptFile)
    else if file.FileV1? then Err(WrongPasswordOrCorrupt)
    else
      match Find(file.slots, SLOT_DEVICE)
      case None => Err(WrongPasswordOrCorrupt)
      case Some(slot) =>
        match UnwrapDevice(slot, device)
        case Err(e) => Err(e)
        case Ok(mk) =>
          match DecryptBody(file, mk)
          case Err(e) => Err(e)
          case Ok(config) => Ok(OpenVault(config, mk, file.slots))
  }

  function SealVault(config: Config, mk: Key, slots: seq<KeySlot>, nonce: Nonce): Result<VaultFile, VaultError> {
    if slots == [] then Err(NoKeySlots)
    else Ok(FileV2(slots, nonce, Sealed(mk, nonce, slots, config)))
  }

  /** The body is bound to every field of every slot: replace, drop, reorder or edit any of them
      and no key opens the body. */
  lemma BodyIsBoundToItsSlots(file: VaultFile, config: Config, mk: Key, slots: seq<KeySlot>, nonce: Nonce, kek: Key)
    requires SealVault(config, mk, slots, nonce) == Ok(file)
    requires FromStored(config).Ok?
    ensures forall slots' :: DecryptBody(file.(slots := slots'), kek).Ok? <==> slots' == slots && kek == mk
  {
  }

  /** The slots as the file has them, for any way of writing a wrapped key as bytes. */
  function Printed(asBytes: WrappedKey -> WrappedBytes, slots: seq<KeySlot>): (r: seq<ByteSlot>)
    ensures |r| == |slots|
  {
    seq(|slots|, i requires 0 <= i < |slots| => Slot(slots[i].desc, slots[i].wrapNonce, asBytes(slots[i].wrappedMk)))
  }

  /** Binding the body to the slot list is binding it to the bytes of the header: as long as
      different wrapped keys are different bytes, so are the headers of different slot lists. */
  lemma TheHeaderBytesAreTheSlots(asBytes: WrappedKey -> WrappedBytes, a: seq<KeySlot>, b: seq<KeySlot>)
    requires forall x, y :: asBytes(x) == asBytes(y) ==> x == y
    ensures HeaderAad(Printed(asBytes, a)) == HeaderAad(Printed(asBytes, b)) <==> a == b
  {
    hide HeaderAad;
    var p, q := Printed(asBytes, a), Printed(asBytes, b);
    HeaderAadInjective(p, q);
    if p == q {
      forall i | 0 <= i < |a| ensures a[i] == b[i] {
        assert p[i] == q[i];
      }
    }
  }
}
