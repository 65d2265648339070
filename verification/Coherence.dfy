/**
 When this machine's credential-store entry and the vault's device slot belong together, and the
 conversion of a vault left over from the TOTP-only mode (src/app.rs).
 */
module Coherence {
  import opened Wrappers
  import opened Format
  import opened Keyslot
  import opened Security
  import opened VaultRuns

  /** The entry is absent, or its key unwraps the device slot of the vault on disk. */
  predicate Coherent(d: Durable) {
    d.entry.None? || DeviceUnwraps(d.vault, d.entry.value.deviceKey)
  }

  predicate DeviceUnwraps(vault: Option<VaultFile>, device: nat) {
    && vault.Some? && vault.value.FileV2? && Has(vault.value.slots, SLOT_DEVICE)
    && UnwrapDevice(Find(vault.value.slots, SLOT_DEVICE).value, device).Ok?
  }

  /** The 256-bit device key just drawn is not the one the vault's device slot is wrapped under. */
  predicate FreshlyDrawn(w: World, env: Env) {
    !DeviceUnwraps(w.d.vault, env.dice.deviceKey)
  }

  predicate Deletes(env: Env) {
    env.storeOpens && env.entryDeletes
  }

  lemma NoDeviceSlotAmongPasswords(slots: seq<KeySlot>)
    requires |slots| <= 1 && forall s :: s in slots ==> s.desc.kind == SLOT_PASSWORD
    ensures !Has(slots, SLOT_DEVICE)
  {
  }

  lemma DeviceSlotIsFound(kept: seq<KeySlot>, device: KeySlot)
    requires |kept| <= 1 && forall s :: s in kept ==> s.desc.kind == SLOT_PASSWORD
    requires device.desc.kind == SLOT_DEVICE
    ensures Find(kept + [device], SLOT_DEVICE) == Some(device)
  {
    assert Find([device], SLOT_DEVICE) == Some(device);
    if kept != [] {
      assert (kept + [device])[1..] == [device];
    } else {
      assert kept + [device] == [device];
    }
  }

  lemma NewSlotsUnwrap(kept: seq<KeySlot>, env: Env, mk: Key)
    requires |kept| <= 1 && forall s :: s in kept ==> s.desc.kind == SLOT_PASSWORD
    ensures var device := WrapDevice(env.dice.deviceKey, env.dice.deviceSalt, env.dice.deviceNonce, mk);
            && Has(kept + [device], SLOT_DEVICE)
            && UnwrapDevice(Find(kept + [device], SLOT_DEVICE).value, env.dice.deviceKey) == Ok(mk)
  {
    DeviceSlotIsFound(kept, WrapDevice(env.dice.deviceKey, env.dice.deviceSalt, env.dice.deviceNonce, mk));
  }

  /** Exactly when a mode change leaves entry and vault belonging together.  Into a device-backed
      mode: if the save worked, or the clean-up did, or the entry was never overwritten and fitted
      before.  Out of one: a successful save needs the deletion to work (or nothing to delete);
      without a save nothing changed. */
  lemma ModeChangeCoherence(w: World, mode: AuthMode, password: Option<string>, totpSecret: Option<string>, env: Env)
    requires w.state.Unlocked? && FreshlyDrawn(w, env)
    ensures var built := !WantsDevice(mode) || (env.storeOpens && env.entryWrites);
            var saved := built && env.saves && ModeSlots(w, mode, password, env) != [];
            Coherent(ChangeSecurityMode(w, mode, password, totpSecret, env).after.d)
            <==> if WantsDevice(mode) then saved || Deletes(env) || (!built && Coherent(w.d))
                 else if saved then Deletes(env) || w.d.entry.None?
                 else Coherent(w.d)
  {
    ModeChangeEffect(w, mode, password, totpSecret, env);
    var kept := KeptPasswordSlots(w.state.u, password, env.dice);
    NewSlotsUnwrap(kept, env, w.state.u.masterKey);
    NoDeviceSlotAmongPasswords(kept);
    assert kept + [] == kept;
  }

  /** What a mode change leaves on disk and in the credential store. */
  lemma ModeChangeEffect(w: World, mode: AuthMode, password: Option<string>, totpSecret: Option<string>, env: Env)
    requires w.state.Unlocked?
    ensures var built := !WantsDevice(mode) || (env.storeOpens && env.entryWrites);
            var slots := ModeSlots(w, mode, password, env);
            var saved := built && env.saves && slots != [];
            var d := ChangeSecurityMode(w, mode, password, totpSecret, env).after.d;
            && (if saved then d.vault.Some? && d.vault.value.FileV2? && d.vault.value.slots == slots
                else d.vault == w.d.vault)
            && (if WantsDevice(mode) != saved && Deletes(env) then
                  d.entry == if WantsDevice(mode) || saved then None else w.d.entry
                else if WantsDevice(mode) && built then d.entry.Some? && d.entry.value.deviceKey == env.dice.deviceKey
                else d.entry == w.d.entry)
  {
  }

  /** The promise in the program's own terms: with a working delete, a mode change that starts from
      a fitting pair ends in one, whatever else fails. */
  lemma ModeChangeStaysCoherent(w: World, mode: AuthMode, password: Option<string>, totpSecret: Option<string>,
      env: Env)
    requires w.state.Unlocked? && FreshlyDrawn(w, env) && Deletes(env) && Coherent(w.d)
    ensures Coherent(ChangeSecurityMode(w, mode, password, totpSecret, env).after.d)
  {
    ModeChangeCoherence(w, mode, password, totpSecret, env);
  }

  /** Exactly when creating a vault leaves entry and vault belonging together.  A mode without a
      device never touches the entry, so one left by an earlier vault of the same identifier stays
      behind and fits nothing. */
  lemma CreationCoherence(w: World, mode: AuthMode, password: Option<string>, totpSecret: Option<string>, env: Env)
    requires FreshlyDrawn(w, env)
    ensures var built := !WantsDevice(mode) || (env.storeOpens && env.entryWrites);
            var written := built && Claims(w, env) && env.saves && (password.Some? || WantsDevice(mode));
            var finished := written && (KeepsSecret(mode) && totpSecret.Some? ==> env.savesAgain);
            Coherent(CreateVault(w, mode, password, totpSecret, env).after.d)
            <==> if WantsDevice(mode) then written || Deletes(env) || (!built && Coherent(w.d))
                 else if written then w.d.entry.None?
                 else Coherent(w.d)
  {
    CreationEffect(w, mode, password, totpSecret, env);
    var mk := Random(env.dice.masterKey);
    var kept := PasswordSlots(password, mk, env.dice);
    NewSlotsUnwrap(kept, env, mk);
    NoDeviceSlotAmongPasswords(kept);
    assert kept + [] == kept;
  }

  /** What creating a vault leaves on disk and in the credential store. */
  lemma CreationEffect(w: World, mode: AuthMode, password: Option<string>, totpSecret: Option<string>, env: Env)
    ensures var built := !WantsDevice(mode) || (env.storeOpens && env.entryWrites);
            var written := built && Claims(w, env) && env.saves && (password.Some? || WantsDevice(mode));
            var finished := written && (KeepsSecret(mode) && totpSecret.Some? ==> env.savesAgain);
            var mk := Random(env.dice.masterKey);
            var slots := PasswordSlots(password, mk, env.dice)
                         + if WantsDevice(mode) then
                           [WrapDevice(env.dice.deviceKey, env.dice.deviceSalt, env.dice.deviceNonce, mk)] else [];
            var d := CreateVault(w, mode, password, totpSecret, env).after.d;
            && (if written then d.vault.Some? && d.vault.value.FileV2? && d.vault.value.slots == slots
                else d.vault == w.d.vault)
            && (if !WantsDevice(mode) then d.entry == w.d.entry
                else if !finished && Deletes(env) then d.entry == None
                else if built then d.entry.Some? && d.entry.value.deviceKey == env.dice.deviceKey
                else d.entry == w.d.entry)
  {
  }

  // ---------------------------------------------------------------- re-enrolment

  /** A password unlock on a machine without an entry re-enrols it: a new entry, and a new device
      slot on disk that fits it.  But the session keeps the slots it found, so the next successful
      save of anything puts the old device slot back.  Exactly then, on a machine where entry and
      slot belonged together, they no longer do. */
  lemma WhenTheNextSaveKeepsTheEntry(w: World, ledger: Ledger, env: Env, rest: nat, rollsBack: bool, later: Env)
    requires Matches(w, ledger) && w.state.Locked? && Claims(w, env) && ledger.password.Some?
    requires w.d.vault.value.FileV2? && FreshlyDrawn(w, env) && Coherent(w.d) && later.saves
    ensures var unlocked := TryUnlock(w, ledger.password.value, env).after;
            var enrolled := Has(w.d.vault.value.slots, SLOT_DEVICE) && w.d.entry.None?
                            && env.storeOpens && env.entryReads && env.entryWrites
                            && (env.savesAgain || !env.entryDeletes);
            Coherent(Edit(unlocked, rest, rollsBack, later).after.d) <==> !enrolled
  {
    var password := ledger.password.value;
    var file := w.d.vault.value;
    PasswordOpens(file, ledger, password);
    var found := OpenVault(Migrated(ledger.config), ledger.masterKey, file.slots);
    assert Load(w, password, env) == Opening(Start(w.(held := true)), Ok(found));
    var e := Reconcile(Start(w.(held := true)), found, env);
    hide Replaced, WrapDevice, OpenWithPassword, Load;
    assert Edit(TryUnlock(w, password, env).after, rest, rollsBack, later).after.d.entry == e.after.d.entry;
  }

  /** The entry and slot the unlock made do fit each other until then. */
  lemma ReenrolmentIsLostByTheNextSave(w: World, ledger: Ledger, env: Env, rest: nat, rollsBack: bool, later: Env)
    requires Matches(w, ledger) && w.state.Locked? && Claims(w, env) && ledger.password.Some?
    requires w.d.vault.value.FileV2? && Has(w.d.vault.value.slots, SLOT_DEVICE) && w.d.entry.None?
    requires env.storeOpens && env.entryReads && env.entryWrites && env.savesAgain && FreshlyDrawn(w, env)
    requires later.saves
    ensures var unlocked := TryUnlock(w, ledger.password.value, env).after;
            && unlocked.state.Unlocked? && unlocked.d.entry.Some? && Coherent(unlocked.d)
            && !Coherent(Edit(unlocked, rest, rollsBack, later).after.d)
  {
    WhenTheNextSaveKeepsTheEntry(w, ledger, env, rest, rollsBack, later);
    var password := ledger.password.value;
    var file := w.d.vault.value;
    PasswordOpens(file, ledger, password);
    var found := OpenVault(Migrated(ledger.config), ledger.masterKey, file.slots);
    assert Load(w, password, env) == Opening(Start(w.(held := true)), Ok(found));
    var slot := WrapDevice(env.dice.deviceKey, env.dice.deviceSalt, env.dice.deviceNonce, ledger.masterKey);
    FindAfterReplacing(file.slots, SLOT_DEVICE, slot, SLOT_DEVICE);
    var e := Reconcile(Start(w.(held := true)), found, env);
    assert e.after.d.entry == Some(FreshDevice(env).(totpSecret := found.config.totp));
    assert e.after.d.vault.Some? && e.after.d.vault.value.FileV2?;
    assert e.after.d.vault.value.slots == Replaced(file.slots, SLOT_DEVICE, slot);
  }

  // ---------------------------------------------------------------- vaults without a password

  /** This machine's entry opens the vault. */
  predicate OpensByDevice(d: Durable) {
    d.entry.Some? && DeviceUnwraps(d.vault, d.entry.value.deviceKey)
  }

  /** Something opens the vault: a password, or this machine's entry. */
  ghost predicate Openable(d: Durable, later: Env) {
    || (exists password: string :: Load(World(d, false, AskPassword(None)), password, later).result.Ok?)
    || (d.entry.Some? && LoadWithDevice(World(d, false, Setup(None)), d.entry.value.deviceKey, later).result.Ok?)
  }

  lemma OpenableMeaning(d: Durable, ledger: Ledger, later: Env)
    requires d.legacySecret.None? && d.vault.Some? && d.vault.value.FileV2? && FileMatches(d.vault.value, ledger)
    requires !later.contended && later.saves
    ensures Openable(d, later) <==> ledger.password.Some? || OpensByDevice(d)
  {
    var w := World(d, false, AskPassword(None));
    forall password: string ensures Load(w, password, later).result.Ok? <==> ledger.password == Some(password) {
      OnlyThePasswordInForceLoads(w, ledger, password, later);
    }
    if ledger.password.Some? {
      assert Load(w, ledger.password.value, later).result.Ok?;
    }
    if d.entry.Some? {
      DeviceOpens(d.vault.value, ledger, d.entry.value.deviceKey);
      if Has(d.vault.value.slots, SLOT_DEVICE) {
        var slot := Find(d.vault.value.slots, SLOT_DEVICE).value;
        assert Wraps(slot, ledger.masterKey);
        var enrolled: nat :| IsDeviceSlot(slot, enrolled, ledger.masterKey);
        DeviceSlotOpens(slot, enrolled, ledger.masterKey, d.entry.value.deviceKey);
      }
    }
  }

  /** A vault that only this device opens, through a mode change.  On the way into a device-backed
      mode the entry is overwritten before the vault is, and deleted if anything fails.  So it opens with nothing
      exactly after an entry write while the new vault is not, or never comes to be, on disk, and
      after a deletion that worked where the write had not. */
  lemma ModeChangeLocksOutADeviceOnlyVault(w: World, ledger: Ledger, mode: AuthMode, password: Option<string>,
                                           totpSecret: Option<string>, env: Env, k: nat, later: Env)
    requires Matches(w, ledger) && w.state.Unlocked? && ledger.password.None? && OpensByDevice(w.d)
    requires FreshlyDrawn(w, env) && !later.contended && later.saves
    ensures var d := LeftBy(w, ChangeSecurityMode(w, mode, password, totpSecret, env), k);
            !Openable(d, later) <==>
              && WantsDevice(mode) && k >= 1 && env.storeOpens
              && if env.entryWrites then k == 1 || !env.saves else env.entryDeletes
  {
    var e := ChangeSecurityMode(w, mode, password, totpSecret, env);
    var promised := Promised(ledger, w, ChangeMode(mode, password, totpSecret, env));
    ModeChangeMatches(w, ledger, mode, password, totpSecret, env, e, promised);
    EveryPointMatches(w, ledger, e, promised, k);
    var d := LeftBy(w, e, k);
    OpenableMeaning(d, if d.vault == w.d.vault then ledger else promised, later);
    if WantsDevice(mode) {
      DeviceModePoints(w, mode, password, totpSecret, env, k);
      NewSlotsUnwrap(KeptPasswordSlots(w.state.u, password, env.dice), env, w.state.u.masterKey);
    } else {
      PasswordModePoints(w, mode, password, totpSecret, env, k);
    }
  }

  /** The points of a change into a mode without a device, from a vault without a password. */
  lemma PasswordModePoints(w: World, mode: AuthMode, password: Option<string>, totpSecret: Option<string>, env: Env,
      k: nat)
    requires w.state.Unlocked? && !WantsDevice(mode) && !Has(w.state.u.slots, SLOT_PASSWORD)
    ensures var d := LeftBy(w, ChangeSecurityMode(w, mode, password, totpSecret, env), k);
            || (d.vault == w.d.vault && d.entry == w.d.entry)
            || (d.vault.Some? && d.vault.value.FileV2? && Has(d.vault.value.slots, SLOT_PASSWORD))
  {
    var slots := ModeSlots(w, mode, password, env);
    assert slots != [] ==> Find(slots, SLOT_PASSWORD) == Some(slots[0]);
  }

  /** The points of such a change: nothing yet, the new entry, the new vault as well, or the entry
      taken back. */
  lemma DeviceModePoints(w: World, mode: AuthMode, password: Option<string>, totpSecret: Option<string>, env: Env,
      k: nat)
    requires w.state.Unlocked? && WantsDevice(mode)
    ensures var d := LeftBy(w, ChangeSecurityMode(w, mode, password, totpSecret, env), k);
            if !(env.storeOpens && env.entryWrites) || k == 0 then
              && d.vault == w.d.vault
              && d.entry == if k > 0 && Deletes(env) then None else w.d.entry
            else if k == 1 || !env.saves then
              d.vault == w.d.vault && (d.entry.Some? ==> d.entry.value.deviceKey == env.dice.deviceKey)
            else
              && d.vault.Some? && d.vault.value.FileV2? && d.vault.value.slots == ModeSlots(w, mode, password, env)
              && d.entry.Some? && d.entry.value.deviceKey == env.dice.deviceKey
  {
  }

  // ---------------------------------------------------------------- leaving the TOTP-only mode

  /** A vault of the retired mode: its password is the secret lying beside it. */
  ghost predicate Legacy(w: World, ledger: Ledger, secret: string) {
    && w.d.legacySecret == Some(secret) && w.d.vault.Some?
    && FileMatches(w.d.vault.value, ledger) && w.state == Locked(MigrateTotpOnly, None, true)
  }

  lemma LegacyLoad(w: World, ledger: Ledger, secret: string, env: Env)
    requires Legacy(w, ledger, secret)
    ensures var opening := Load(w, secret, env);
            && (opening.result.Ok? ==>
                  && ledger.password == Some(secret)
                  && SlotsMatch(opening.result.value.slots, opening.result.value.masterKey, ledger.password)
                  && Readable(opening.result.value.config))
            && (opening.result.Err? ==> opening.effect.after.d == w.d)
            && opening.effect.after.d.legacySecret == w.d.legacySecret
            && opening.effect.after.state == w.state
            && (forall i :: 0 <= i < |opening.effect.writes| ==> opening.effect.writes[i] == opening.effect.after.d)
            && (opening.effect.writes == [] ==> opening.effect.after.d == w.d)
  {
    if w.d.vault.value.FileV2? {
      PasswordOpens(w.d.vault.value, ledger, secret);
    } else {
      var file := w.d.vault.value;
      var slot := WrapPassword(secret, file.params, env.dice.upgradeSalt, env.dice.upgradeNonce,
          Random(env.dice.masterKey));
      PasswordSlotWraps(secret, file.params, env.dice.upgradeSalt, env.dice.upgradeNonce, Random(env.dice.masterKey));
      assert Find([slot], SLOT_PASSWORD) == Some(slot);
    }
  }

  /** The conversion opens the vault only by the old secret: it succeeds exactly if that is still
      the password and every write works.  A failed one leaves vault and secret file as they are
      but deletes this machine's entry. */
  lemma ConversionSucceedsExactlyWithTheOldSecret(w: World, ledger: Ledger, secret: string, newPassword: string,
      env: Env)
    requires Legacy(w, ledger, secret)
    ensures var e := Migrate(w, newPassword, env.storeOpens, env);
            && (e.after.state.Unlocked? <==>
                  && ledger.password == Some(secret) && Claims(w, env)
                  && (w.d.vault.value.FileV1? ==> env.saves) && (env.storeOpens ==> env.entryWrites) && env.savesAgain)
            && (!e.after.state.Unlocked? && Deletes(env) ==> e.after.d.entry == None)
            && (ledger.password != Some(secret) ==>
                  && e.after.d == w.d.(entry := if Deletes(env) then None else w.d.entry)
                  && ResolveInitialState(World(e.after.d, false, Setup(None)), env).after.state
                      == Locked(MigrateTotpOnly, None, true))
  {
    hide MigrateSteps, FileMatches, DeviceBackedInitialState;
    ConversionResult(w, ledger, secret, newPassword, env);
  }

  lemma ConversionResult(w: World, ledger: Ledger, secret: string, newPassword: string, env: Env)
    requires Legacy(w, ledger, secret)
    ensures var steps := MigrateSteps(w, newPassword, env.storeOpens, env);
            && (steps.result.Ok? <==>
                  && ledger.password == Some(secret) && Claims(w, env)
                  && (w.d.vault.value.FileV1? ==> env.saves) && (env.storeOpens ==> env.entryWrites) && env.savesAgain)
            && steps.effect.after.state == w.state
            && (ledger.password != Some(secret) ==> steps.effect.after.d == w.d)
  {
    LegacyLoad(w, ledger, secret, env);
    if w.d.vault.value.FileV2? {
      PasswordOpens(w.d.vault.value, ledger, secret);
    }
    hide OpenWithPassword, WrapDevice;
  }

  /** The vault file has a password slot under `password`, whatever master key and configuration. */
  ghost predicate Under(d: Durable, password: string) {
    d.vault.Some? && exists mk: Key, config: Config :: FileMatches(d.vault.value, Ledger(Some(password), mk, config))
  }

  /** Every launch comes back to the conversion, and no attempt at it can succeed. */
  ghost predicate Stuck(d: Durable) {
    && d.legacySecret.Some?
    && forall again: string, env: Env :: !Migrate(Stranded(d), again, env.storeOpens, env).after.state.Unlocked?
  }

  function Stranded(d: Durable): World {
    World(d, false, Locked(MigrateTotpOnly, None, true))
  }

  /** A point of the conversion: the old password with the secret file, or the new one. */
  ghost predicate PointOfConversion(d: Durable, secret: string, newPassword: string) {
    || (d.legacySecret == Some(secret) && Under(d, secret))
    || ((d.legacySecret == Some(secret) || d.legacySecret.None?) && Under(d, newPassword))
  }

  ghost predicate ThroughPoints(e: Effect, secret: string, newPassword: string) {
    && PointOfConversion(e.after.d, secret, newPassword)
    && forall i :: 0 <= i < |e.writes| ==> PointOfConversion(e.writes[i], secret, newPassword)
  }

  lemma EntryWritesAreNoPoints(e: Effect, secret: string, newPassword: string, entry: Option<DeviceState>)
    requires ThroughPoints(e, secret, newPassword)
    ensures ThroughPoints(PutEntry(e, entry), secret, newPassword)
  {
    hide FileMatches;
    var d := e.after.d.(entry := entry);
    assert Under(d, secret) == Under(e.after.d, secret) && Under(d, newPassword) == Under(e.after.d, newPassword);
  }

  lemma LegacyLoadPoints(w: World, ledger: Ledger, secret: string, newPassword: string, env: Env)
    requires Legacy(w, ledger, secret) && ledger.password == Some(secret)
    ensures ThroughPoints(Load(w, secret, env).effect, secret, newPassword)
  {
    LegacyLoad(w, ledger, secret, env);
    var opening := Load(w, secret, env);
    var d := opening.effect.after.d;
    assert w.d.vault.Some? && FileMatches(w.d.vault.value, Ledger(Some(secret), ledger.masterKey, ledger.config));
    if opening.effect.writes != [] {
      var found := opening.result.value;
      assert FileMatches(d.vault.value, Ledger(Some(secret), found.masterKey, found.config));
    }
  }

  lemma ConversionPoints(w: World, ledger: Ledger, secret: string, newPassword: string, env: Env)
    requires Legacy(w, ledger, secret) && ledger.password == Some(secret)
    ensures ThroughPoints(Migrate(w, newPassword, env.storeOpens, env), secret, newPassword)
  {
    hide FileMatches;
    LegacyLoadPoints(w, ledger, secret, newPassword, env);
    var opening := Load(w, secret, env);
    var steps := MigrateSteps(w, newPassword, env.storeOpens, env);
    if opening.result.Ok? {
      var st := FreshDevice(env).(totpSecret := Some(secret));
      EntryWritesAreNoPoints(opening.effect, secret, newPassword, Some(st));
    }
    if steps.result.Ok? {
      ConvertedFileMatches(w, ledger, secret, newPassword, env);
      var found := steps.result.value;
      assert FileMatches(steps.effect.after.d.vault.value, Ledger(Some(newPassword), found.masterKey, found.config));
      assert Under(steps.effect.after.d, newPassword);
      ConversionEnd(w, secret, newPassword, env);
    } else {
      EntryWritesAreNoPoints(steps.effect, secret, newPassword, None);
    }
  }

  /** From the save on: the save is the last step, and only the secret file goes after it. */
  lemma ConversionEnd(w: World, secret: string, newPassword: string, env: Env)
    requires w.d.legacySecret == Some(secret) && MigrateSteps(w, newPassword, env.storeOpens, env).result.Ok?
    requires ThroughPoints(Load(w, secret, env).effect, secret, newPassword)
    requires ThroughPoints(PutEntry(Load(w, secret, env).effect,
            Some(FreshDevice(env).(totpSecret := Some(secret)))), secret, newPassword)
    requires Under(MigrateSteps(w, newPassword, env.storeOpens, env).effect.after.d, newPassword)
    requires MigrateSteps(w, newPassword, env.storeOpens, env).effect.after.d.legacySecret == Some(secret)
    ensures ThroughPoints(Migrate(w, newPassword, env.storeOpens, env), secret, newPassword)
  {
    hide FileMatches, Load;
    var done := MigrateSteps(w, newPassword, env.storeOpens, env).effect.after.d;
    assert Under(done.(legacySecret := None), newPassword) == Under(done, newPassword);
  }

  lemma UnderMeansOpens(d: Durable, password: string, tried: string, later: Env)
    requires Under(d, password) && !later.contended && later.saves
    ensures Load(World(d, false, AskPassword(None)), tried, later).result.Ok? <==> tried == password
    ensures d.vault.Some? && Under(d, tried) ==> tried == password
  {
    var mk: Key, config: Config :| FileMatches(d.vault.value, Ledger(Some(password), mk, config));
    var ledger := Ledger(Some(password), mk, config);
    var w := World(d.(legacySecret := None), false, AskPassword(None));
    OnlyThePasswordInForceLoads(w, ledger, tried, later);
    if Under(d, tried) {
      var mk': Key, config': Config :| FileMatches(d.vault.value, Ledger(Some(tried), mk', config'));
      OnlyThePasswordInForceLoads(w, Ledger(Some(tried), mk', config'), tried, later);
    }
  }

  /** At every point of the conversion, for every outcome: the vault opens with the old secret or
      with the new password, and with nothing else; the secret file is gone only where the new
      password opens the vault; and a new attempt is hopeless exactly where the secret file is still
      there but no longer opens the vault.  The deletion may have failed or never been reached. */
  lemma EveryPointOfTheConversion(w: World, ledger: Ledger, secret: string, newPassword: string, env: Env, k: nat,
      later: Env)
    requires Legacy(w, ledger, secret) && ledger.password == Some(secret) && !later.contended && later.saves
    ensures var d := LeftBy(w, Migrate(w, newPassword, env.storeOpens, env), k);
            var asked := World(d, false, AskPassword(None));
            && (Under(d, secret) || Under(d, newPassword))
            && (forall tried :: Load(asked, tried, later).result.Ok? <==> Under(d, tried))
            && (d.legacySecret.None? ==> Under(d, newPassword))
            && (Stuck(d) <==> d.legacySecret.Some? && !Under(d, secret))
  {
    var e := Migrate(w, newPassword, env.storeOpens, env);
    var d := LeftBy(w, e, k);
    ConversionPoints(w, ledger, secret, newPassword, env);
    PointIsOnTheWay(w, ledger, e, secret, newPassword, k);
    var password := if Under(d, secret) then secret else newPassword;
    forall tried ensures Load(World(d, false, AskPassword(None)), tried, later).result.Ok? <==> Under(d, tried) {
      UnderMeansOpens(d, password, tried, later);
    }
    if d.legacySecret.Some? {
      StuckMeaning(d, secret, password, later);
    }
  }

  /** The dead end in terms of the crash: the conversion works, the process dies after the save and
      before the deletion, or the deletion fails, and the new password is not the old secret. */
  lemma StuckExactlyWhen(w: World, ledger: Ledger, secret: string, newPassword: string, env: Env, k: nat)
    requires Legacy(w, ledger, secret) && ledger.password == Some(secret)
    ensures var steps := MigrateSteps(w, newPassword, env.storeOpens, env);
            var saved := |steps.effect.writes|;
            Stuck(LeftBy(w, Migrate(w, newPassword, env.storeOpens, env), k)) <==>
              newPassword != secret && steps.result.Ok? && k >= saved && (k == saved || !env.discards)
  {
    var later := env.(contended := false, saves := true);
    var steps := MigrateSteps(w, newPassword, env.storeOpens, env);
    var e := Migrate(w, newPassword, env.storeOpens, env);
    var d := LeftBy(w, e, k);
    EveryPointOfTheConversion(w, ledger, secret, newPassword, env, k, later);
    if steps.result.Err? || k < |steps.effect.writes| {
      BeforeTheSave(w, ledger, secret, newPassword, env, k);
    } else {
      hide Legacy, Stuck, Under, MigrateSteps;
      AfterTheSave(w, ledger, secret, newPassword, env, k);
      if Under(d, secret) {
        UnderMeansOpens(d, newPassword, secret, later);
      }
    }
  }

  /** Until the save, and for good if it fails, the old secret opens the vault. */
  lemma BeforeTheSave(w: World, ledger: Ledger, secret: string, newPassword: string, env: Env, k: nat)
    requires Legacy(w, ledger, secret) && ledger.password == Some(secret)
    requires var steps := MigrateSteps(w, newPassword, env.storeOpens, env);
             steps.result.Err? || k < |steps.effect.writes|
    ensures Under(LeftBy(w, Migrate(w, newPassword, env.storeOpens, env), k), secret)
  {
    hide FileMatches, Load;
    LegacyLoadPoints(w, ledger, secret, secret, env);
    var opening := Load(w, secret, env);
    var st := FreshDevice(env).(totpSecret := Some(secret));
    EntryWritesAreNoPoints(opening.effect, secret, secret, Some(st));
    var e := if opening.result.Ok? && env.storeOpens && env.entryWrites then PutEntry(opening.effect, Some(st))
             else opening.effect;
    EntryWritesAreNoPoints(e, secret, secret, None);
    StepsBeforeTheSave(w, secret, newPassword, env);
    hide MigrateSteps, PointOfConversion;
    PointIsOnTheWay(w, ledger, e, secret, secret, k);
    PointIsOnTheWay(w, ledger, PutEntry(e, None), secret, secret, k);
    PointsUnderTheSecret(LeftBy(w, Migrate(w, newPassword, env.storeOpens, env), k), secret);
  }

  lemma PointsUnderTheSecret(d: Durable, secret: string)
    ensures PointOfConversion(d, secret, secret) ==> Under(d, secret)
  {
  }

  lemma StepsBeforeTheSave(w: World, secret: string, newPassword: string, env: Env)
    requires w.d.legacySecret == Some(secret)
    ensures var opening := Load(w, secret, env);
            var steps := MigrateSteps(w, newPassword, env.storeOpens, env);
            var st := FreshDevice(env).(totpSecret := Some(secret));
            var e := if opening.result.Ok? && env.storeOpens && env.entryWrites then PutEntry(opening.effect, Some(st))
                     else opening.effect;
            if steps.result.Err? then steps.effect == e
            else |steps.effect.writes| == |e.writes| + 1 && steps.effect.writes[..|e.writes|] == e.writes
  {
    hide Load;
  }

  /** From the save on there is the new vault, and the secret file until its deletion. */
  lemma AfterTheSave(w: World, ledger: Ledger, secret: string, newPassword: string, env: Env, k: nat)
    requires Legacy(w, ledger, secret) && MigrateSteps(w, newPassword, env.storeOpens, env).result.Ok?
    requires k >= |MigrateSteps(w, newPassword, env.storeOpens, env).effect.writes|
    ensures var d := LeftBy(w, Migrate(w, newPassword, env.storeOpens, env), k);
            var saved := |MigrateSteps(w, newPassword, env.storeOpens, env).effect.writes|;
            && Under(d, newPassword)
            && d.legacySecret == if k > saved && env.discards then None else Some(secret)
  {
    ConvertedFileMatches(w, ledger, secret, newPassword, env);
    hide MigrateSteps, FileMatches, Legacy, Under, Show;
    var steps := MigrateSteps(w, newPassword, env.storeOpens, env);
    var e, d := Migrate(w, newPassword, env.storeOpens, env), steps.effect.after.d;
    var found := steps.result.value;
    IsUnder(d, newPassword, found.masterKey, found.config);
    var left := LeftBy(w, e, k);
    assert left == if k > |steps.effect.writes| && env.discards then d.(legacySecret := None) else d;
    assert Under(d, newPassword) == Under(left, newPassword) by { OnlyTheVaultDecides(d, left, newPassword); }
  }

  lemma IsUnder(d: Durable, password: string, mk: Key, config: Config)
    requires d.vault.Some? && FileMatches(d.vault.value, Ledger(Some(password), mk, config))
    ensures Under(d, password)
  {
  }

  lemma OnlyTheVaultDecides(a: Durable, b: Durable, password: string)
    requires a.vault == b.vault
    ensures Under(a, password) == Under(b, password)
  {
  }

  /** The plaintext secret never goes before its replacement is in place: wherever it is gone, the
      vault opens with the new password. */
  lemma SecretOutlivesTheOldVault(w: World, ledger: Ledger, secret: string, newPassword: string, env: Env, k: nat,
      later: Env)
    requires Legacy(w, ledger, secret) && !later.contended && later.saves
    ensures var d := LeftBy(w, Migrate(w, newPassword, env.storeOpens, env), k);
            d.legacySecret.None? ==> Load(World(d, false, AskPassword(None)), newPassword, later).result.Ok?
  {
    if ledger.password == Some(secret) {
      EveryPointOfTheConversion(w, ledger, secret, newPassword, env, k, later);
    } else {
      LegacyLoad(w, ledger, secret, env);
    }
  }

  lemma PointIsOnTheWay(w: World, ledger: Ledger, e: Effect, secret: string, newPassword: string, k: nat)
    requires Legacy(w, ledger, secret) && ledger.password == Some(secret) && ThroughPoints(e, secret, newPassword)
    ensures PointOfConversion(LeftBy(w, e, k), secret, newPassword)
  {
    if k == 0 || e.writes == [] {
      assert FileMatches(w.d.vault.value, Ledger(Some(secret), ledger.masterKey, ledger.config));
    } else {
      var i := if k <= |e.writes| then k - 1 else |e.writes| - 1;
      assert e.writes[i] == LeftBy(w, e, k);
    }
  }

  lemma StuckMeaning(d: Durable, secret: string, password: string, later: Env)
    requires d.legacySecret == Some(secret) && Under(d, password) && !later.contended && later.saves
    ensures Stuck(d) <==> !Under(d, secret)
  {
    var mk: Key, config: Config :| FileMatches(d.vault.value, Ledger(Some(password), mk, config));
    var ledger := Ledger(Some(password), mk, config);
    forall again: string, env: Env | password != secret
      ensures !Migrate(Stranded(d), again, env.storeOpens, env).after.state.Unlocked?
    {
      ConversionSucceedsExactlyWithTheOldSecret(Stranded(d), ledger, secret, again, env);
    }
    if Under(d, secret) {
      UnderMeansOpens(d, password, secret, later);
      var env := later.(storeOpens := false, savesAgain := true);
      ConversionSucceedsExactlyWithTheOldSecret(Stranded(d), ledger, secret, secret, env);
    } else {
      assert password != secret;
    }
  }

  /** The dead end is real: whenever the save works, a crash right after it, or a deletion that
      fails, leaves the new vault beside the old secret. */
  lemma ConversionCanBeInterrupted(w: World, ledger: Ledger, secret: string, newPassword: string, env: Env)
    requires Legacy(w, ledger, secret) && newPassword != secret
    requires MigrateSteps(w, newPassword, env.storeOpens, env).result.Ok?
    ensures var saved := |MigrateSteps(w, newPassword, env.storeOpens, env).effect.writes|;
            var e := Migrate(w, newPassword, env.storeOpens, env);
            && Stuck(LeftBy(w, e, saved)) && Under(LeftBy(w, e, saved), newPassword)
            && (env.discards || e.after.d == LeftBy(w, e, saved))
  {
    ConvertedFileMatches(w, ledger, secret, newPassword, env);
    var steps := MigrateSteps(w, newPassword, env.storeOpens, env);
    var d := steps.effect.after.d;
    var found := steps.result.value;
    assert FileMatches(d.vault.value, Ledger(Some(newPassword), found.masterKey, found.config));
    var later := env.(contended := false, saves := true);
    StuckMeaning(d, secret, newPassword, later);
    if Under(d, secret) {
      UnderMeansOpens(d, newPassword, secret, later);
    }
  }

  lemma ConvertedFileMatches(w: World, ledger: Ledger, secret: string, newPassword: string, env: Env)
    requires Legacy(w, ledger, secret)
    requires MigrateSteps(w, newPassword, env.storeOpens, env).result.Ok?
    ensures var steps := MigrateSteps(w, newPassword, env.storeOpens, env);
            var found := steps.result.value;
            && steps.effect.after.d.vault.Some?
            && steps.effect.after.d.legacySecret == Some(secret)
            && FileMatches(steps.effect.after.d.vault.value, Ledger(Some(newPassword), found.masterKey, found.config))
            && steps.effect.writes != [] && steps.effect.writes[|steps.effect.writes| - 1] == steps.effect.after.d
  {
    LegacyLoad(w, ledger, secret, env);
    var found := Load(w, secret, env).result.value;
    var u := UnlockedState(found.config, found.masterKey, found.slots, MainMenu);
    ModeSlotsMatch(u, ledger.(masterKey := found.masterKey), Some(newPassword), env, env.storeOpens);
    assert KeptPasswordSlots(u, Some(newPassword), env.dice)
        == PasswordSlots(Some(newPassword), found.masterKey, env.dice);
  }
}
