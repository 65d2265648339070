/**
 What each operation on the vault comes to, in terms of what was typed, what was stored and what
 failed, and which screen an owner is shown (src/app.rs, src/config/device.rs).

 `Security` says how; here is what, for all modes, outcomes and states, in terms of none of its
 steps.
 */
module Outcomes {
  import opened Wrappers
  import opened Format
  import opened Keyslot
  import opened Totp
  import opened Security
  import opened VaultRuns
  import Coherence
  import CodeRuns

  const FAILED_CODES := 5
  const PASSWORD_EVERY := 30 * 24 * 60 * 60

  function Now(env: Env): nat {
    if env.clock.Some? then env.clock.value else 0
  }

  /** The entry, as far as the credential store lets it be read. */
  function Legible(d: Durable, env: Env): Option<DeviceState> {
    if env.storeOpens && env.entryReads then d.entry else None
  }

  ghost predicate DeviceVault(file: VaultFile) {
    file.FileV2? && exists slot :: slot in file.slots && slot.desc.kind == SLOT_DEVICE
  }

  /** The key of this entry is the one the device slot is wrapped under. */
  ghost predicate Fits(file: VaultFile, st: DeviceState, mk: Key) {
    && DeviceVault(file)
    && IsDeviceSlot(Find(file.slots, SLOT_DEVICE).value, st.deviceKey, mk)
  }

  function Welcome(config: Config): Screen {
    if config.totp.Some? then TotpPrompt(false) else MainMenu
  }

  /** Five refused codes, or thirty days without a password. */
  predicate PasswordIsDue(st: DeviceState, env: Env) {
    st.failedAttempts >= FAILED_CODES || Now(env) > st.lastPasswordCheck + PASSWORD_EVERY
  }

  // ---------------------------------------------------------------- screens

  /** The screen a vault with a password is shown on. */
  ghost predicate ShownRightly(w: World, ledger: Ledger, env: Env, shown: AppState)
    requires w.d.vault.Some?
  {
    var file, entry := w.d.vault.value, Legible(w.d, env);
    if !DeviceVault(file) then shown == Locked(Unlock, None, true)
    else if entry.None? then shown == Locked(Unlock, Some(NotEnrolled), true)
    else if entry.value.totpSecret.Some? then
      if PasswordIsDue(entry.value, env) then shown == Locked(Unlock, Some(PasswordRequiredNow), true)
      else shown == LockedTotpDaily(None, true)
    else if env.contended && !w.held then shown == CannotOpen(VaultInUse)
    else if Fits(file, entry.value, ledger.masterKey) then
      shown == Unlocked(UnlockedState(Migrated(ledger.config), ledger.masterKey, file.slots, Welcome(ledger.config)))
    else shown == Locked(Unlock, Some(Failed(WrongPasswordOrCorrupt)), true)
  }

  lemma ScreenOfAPasswordVault(w: World, ledger: Ledger, env: Env)
    requires Matches(w, ledger) && ledger.password.Some?
    ensures var e := ResolveInitialState(w, env);
            e.writes == [] && e.after.d == w.d && ShownRightly(w, ledger, env, e.after.state)
  {
    ShapeOfAVault(w, ledger);
    if Legible(w.d, env).Some? {
      DeviceLoad(w, ledger, Legible(w.d, env).value, env);
    }
    hide LoadWithDevice, Fits, FileMatches, SessionMatches, ShapeOf, DeviceVault;
  }

  lemma ShapeOfAVault(w: World, ledger: Ledger)
    requires Matches(w, ledger)
    ensures var file := w.d.vault.value;
            && !file.Undecodable? && (file.FileV1? ==> !DeviceVault(file) && ledger.password.Some?)
            && (file.FileV2? && ledger.password.Some? ==>
                  ShapeOf(file.slots) == if DeviceVault(file) then DeviceAndPasswordShape else PasswordShape)
            && (file.FileV2? && ledger.password.None? ==> DeviceVault(file) && ShapeOf(file.slots) == DeviceShape)
  {
    var file := w.d.vault.value;
    if file.FileV2? {
      assert file.slots[0] in file.slots && Wraps(file.slots[0], ledger.masterKey);
    }
  }

  /** So its owner is never turned away: the password screen comes up exactly when there is no device
      slot, or no entry to be read, or the password is due, or the entry does not fit the slot; the
      code screen exactly for a code that is not yet due for a password. */
  lemma ThePasswordIsAskedFor(w: World, ledger: Ledger, env: Env)
    requires Matches(w, ledger) && ledger.password.Some?
    ensures var file, entry := w.d.vault.value, Legible(w.d, env);
            var shown := ResolveInitialState(w, env).after.state;
            && !shown.Unopenable? && !shown.Setup?
            && (shown.Locked? <==>
                  || !DeviceVault(file)
                  || entry.None?
                  || (entry.value.totpSecret.Some? && PasswordIsDue(entry.value, env))
                  || (entry.value.totpSecret.None? && !(env.contended && !w.held)
                      && !Fits(file, entry.value, ledger.masterKey)))
            && (shown.Locked? ==> shown.mode == Unlock && shown.retryable)
            && (shown.LockedTotpDaily? <==>
                  && DeviceVault(file) && entry.Some? && entry.value.totpSecret.Some?
                  && !PasswordIsDue(entry.value, env))
            && (shown.CannotOpen? ==> env.contended && !w.held)
  {
    hide Matches, ResolveInitialState, Fits, DeviceVault;
    ScreenOfAPasswordVault(w, ledger, env);
  }

  /** A vault that only a device opens has no password to ask for. */
  lemma ScreenOfADeviceVault(w: World, ledger: Ledger, env: Env)
    requires Matches(w, ledger) && ledger.password.None?
    ensures var e, file, entry := ResolveInitialState(w, env), w.d.vault.value, Legible(w.d, env);
            var shown := e.after.state;
            && e.writes == [] && e.after.d == w.d
            && if entry.None? then shown == Unopenable
               else if entry.value.totpSecret.Some? then shown == LockedTotpDaily(None, true)
               else if env.contended && !w.held then shown == CannotOpen(VaultInUse)
               else if Fits(file, entry.value, ledger.masterKey) then
                 shown == Unlocked(UnlockedState(Migrated(ledger.config), ledger.masterKey, file.slots,
                                                 Welcome(ledger.config)))
               else shown == Unopenable
  {
    ShapeOfAVault(w, ledger);
    if Legible(w.d, env).Some? {
      DeviceLoad(w, ledger, Legible(w.d, env).value, env);
    }
    hide LoadWithDevice, Fits, FileMatches, SessionMatches, ShapeOf, DeviceVault;
  }

  /** The screens before there is a vault that opens. */
  lemma ScreenWithoutAVault(w: World, env: Env)
    ensures var e := ResolveInitialState(w, env);
            var shown := e.after.state;
            && (w.d.legacySecret.Some? ==> e.after.d == w.d && shown == Locked(MigrateTotpOnly, None, true))
            && (w.d.legacySecret.None? && w.d.vault.None? ==> e.after.d == w.d && shown == Setup(None))
            && (w.d.legacySecret.None? && w.d.vault == Some(Undecodable) ==>
                  e.after.d == w.d && shown == Locked(Unlock, Some(Failed(CorruptFile)), true))
  {
  }

  // ---------------------------------------------------------------- unlocking

  /** A password that is not taken: nothing is written, and the screen says why; only another
      instance's lock is no reason to ask again. */
  lemma AWrongPasswordChangesNothing(w: World, ledger: Ledger, password: string, env: Env)
    requires Matches(w, ledger) && w.state.Locked?
    ensures var e := TryUnlock(w, password, env);
            && (env.contended && !w.held ==>
                  e == Effect([], w.(state := Locked(w.state.mode, Some(Failed(VaultInUse)), false))))
            && (Claims(w, env) && ledger.password != Some(password) ==>
                  e == Effect([], World(w.d, true,
                                        Locked(w.state.mode, Some(Failed(WrongPasswordOrCorrupt)), true))))
            && (Claims(w, env) && ledger.password == Some(password) && w.d.vault.value.FileV1? && !env.saves ==>
                  e == Effect([], World(w.d, true, Locked(w.state.mode, Some(Failed(WriteFailed)), true))))
  {
    hide OpenWithPassword, WrapPassword;
    if w.d.vault.value.FileV2? {
      PasswordOpens(w.d.vault.value, ledger, password);
    }
  }

  /** The password in force opens the vault, on the code prompt if there is a second factor. */
  lemma ThePasswordInForceOpens(w: World, ledger: Ledger, password: string, env: Env)
    requires Matches(w, ledger) && Claims(w, env) && ledger.password == Some(password)
    requires w.d.vault.value.FileV1? ==> env.saves
    ensures var shown := TryUnlock(w, password, env).after.state;
            && shown.Unlocked?
            && Migrated(shown.u.config) == Migrated(ledger.config)
            && shown.u.screen == Welcome(ledger.config)
  {
    hide OpenWithPassword, WrapPassword, Reconcile;
    if w.d.vault.value.FileV2? {
      PasswordOpens(w.d.vault.value, ledger, password);
    }
  }

  /** The entry a password leaves: of a machine that is enrolled the failures are forgotten and the
      stamp is renewed; one that is not is enrolled, with the code of the vault, or left without if
      the vault cannot be written. */
  ghost predicate EntryAfterAPassword(before: Durable, after: Durable, totp: Option<string>, mk: Key, env: Env) {
    if before.vault.None? || !DeviceVault(before.vault.value)
       || !(env.storeOpens && env.entryReads && env.entryWrites) then after == before
    else if before.entry.Some? then
      var st := before.entry.value;
      after == before.(entry := Some(DeviceState(st.deviceKey, st.totpSecret, st.replayStep, 0, Now(env))))
    else
      var enrolled := DeviceState(env.dice.deviceKey, totp, 0, 0, Now(env));
      if env.savesAgain then
        && after.entry == Some(enrolled)
        && after.vault.Some? && Fits(after.vault.value, enrolled, mk)
        && Find(after.vault.value.slots, SLOT_PASSWORD) == Find(before.vault.value.slots, SLOT_PASSWORD)
      else after == before.(entry := if env.entryDeletes then None else Some(enrolled))
  }

  lemma WhatAPasswordStores(w: World, ledger: Ledger, password: string, env: Env)
    requires Matches(w, ledger) && Claims(w, env) && ledger.password == Some(password) && w.d.vault.value.FileV2?
    ensures EntryAfterAPassword(w.d, TryUnlock(w, password, env).after.d, ledger.config.totp, ledger.masterKey, env)
  {
    hide OpenWithPassword, Reconcile, EntryAfterAPassword;
    var file := w.d.vault.value;
    PasswordOpens(file, ledger, password);
    var found := OpenVault(Migrated(ledger.config), ledger.masterKey, file.slots);
    assert Load(w, password, env) == Opening(Start(w.(held := true)), Ok(found));
    WhatReconcilingStores(w.(held := true), found, env);
  }

  lemma WhatReconcilingStores(w: World, found: OpenVault, env: Env)
    requires w.d.vault.Some? && w.d.vault.value.FileV2? && w.d.vault.value.slots == found.slots
    ensures EntryAfterAPassword(w.d, Reconcile(Start(w), found, env).after.d, found.config.totp, found.masterKey, env)
  {
    hide Replaced, WrapDevice;
    var slot := WrapDevice(env.dice.deviceKey, env.dice.deviceSalt, env.dice.deviceNonce, found.masterKey);
    DeviceSlotWraps(env.dice.deviceKey, env.dice.deviceSalt, env.dice.deviceNonce, found.masterKey);
    ADeviceSlot(slot, env.dice.deviceKey, found.masterKey);
    FindAfterReplacing(found.slots, SLOT_DEVICE, slot, SLOT_PASSWORD);
    FindAfterReplacing(found.slots, SLOT_DEVICE, slot, SLOT_DEVICE);
  }

  lemma ADeviceSlot(slot: KeySlot, device: nat, mk: Key)
    requires IsDeviceSlot(slot, device, mk)
    ensures slot.desc.kind == SLOT_DEVICE
  {
  }

  /** A vault of a newer schema is never opened, and never written. */
  lemma ANewerVaultIsLeftAlone(w: World, mk: Key, nonce: Nonce, slots: seq<KeySlot>, config: Config, password: string,
      env: Env)
    requires w.d.vault == Some(FileV2(slots, nonce, Sealed(mk, nonce, slots, config)))
    requires SlotsMatch(slots, mk, Some(password)) && config.schema > CURRENT_SCHEMA_VERSION && Claims(w, env)
    ensures TryUnlock(w, password, env) == Effect([], World(w.d, true, CannotOpen(SchemaTooNew)))
  {
    hide UnwrapPassword;
    PasswordSlotOpens(Find(slots, SLOT_PASSWORD).value, password, mk, password);
  }

  /** What a daily code comes to, by what the check says of it. */
  lemma WhatACodeComesTo(w: World, ledger: Ledger, code: string, auth: Authenticator, env: Env)
    requires Matches(w, ledger) && w.state.LockedTotpDaily?
    ensures var e, entry := TryTotpDaily(w, code, auth, env), Legible(w.d, env);
            if entry.None? || entry.value.totpSecret.None? then
              e == Effect([], w.(state := Locked(Unlock, Some(NotEnrolled), true)))
            else
              var st := entry.value;
              var verdict := CheckCode(auth, st.totpSecret.value, code, env.clock, st.replayStep);
              if verdict.Accepted? then
                var spent := st.(replayStep := verdict.step, failedAttempts := 0);
                && e.after.d == w.d.(entry := if env.entryWrites then Some(spent) else w.d.entry)
                && (if env.contended && !w.held then
                      e.after.state == LockedTotpDaily(Some(Failed(VaultInUse)), false)
                    else if Fits(w.d.vault.value, st, ledger.masterKey) then
                      e.after.state == Unlocked(UnlockedState(Migrated(ledger.config), ledger.masterKey,
                                                              w.d.vault.value.slots, MainMenu))
                    else e.after.state.LockedTotpDaily? && e.after.state.codeError.Some?)
              else
                var failed := st.(failedAttempts := if st.failedAttempts < 0xFFFF_FFFF then st.failedAttempts + 1
                  else st.failedAttempts);
                && e.after.d == w.d.(entry := if env.entryWrites then Some(failed) else w.d.entry)
                && (if verdict.Replayed? then e.after.state == Locked(Unlock, Some(CodeReplayed), true)
                    else if failed.failedAttempts >= FAILED_CODES then
                      e.after.state == Locked(Unlock, Some(TooManyFailures), true)
                    else e.after.state == w.state.(codeError := Some(InvalidCode)))
  {
    hide UnwrapDevice, DecryptBody, CheckCode;
    if w.d.entry.Some? {
      DeviceLoad(w, ledger, w.d.entry.value, env);
      var spent := w.d.(entry := None);
      hide OpenWithDevice;
    }
  }

  lemma DeviceLoad(w: World, ledger: Ledger, st: DeviceState, env: Env)
    requires Matches(w, ledger)
    ensures forall d: Durable, state: AppState :: d.vault == w.d.vault ==>
              var opening := LoadWithDevice(World(d, w.held, state), st.deviceKey, env);
              && opening.effect.writes == [] && opening.effect.after.d == d
              && opening.result == if env.contended && !w.held then Err(VaultInUse)
                                   else if Fits(w.d.vault.value, st, ledger.masterKey) then
                                     Ok(OpenVault(Migrated(ledger.config), ledger.masterKey, w.d.vault.value.slots))
                                   else Err(WrongPasswordOrCorrupt)
  {
    hide UnwrapDevice, DecryptBody;
    if w.d.vault.value.FileV2? {
      DeviceOpens(w.d.vault.value, ledger, st.deviceKey);
    }
  }

  // ---------------------------------------------------------------- changing the mode

  /** The mode opens by this machine's entry. */
  predicate ByDevice(mode: AuthMode) {
    mode == NoPrompt || mode == TotpDaily
  }

  /** The secret a vault holds in each mode: the one typed, else the one it had; none where no code is
      asked for. */
  function SecretOf(mode: AuthMode, typed: Option<string>, before: Option<string>): Option<string> {
    match mode
    case NoPrompt => None
    case PasswordOnly => None
    case PasswordTotp => (match typed case Some(secret) => Some(secret) case None => before)
    case TotpDaily => (match typed case Some(secret) => Some(secret) case None => before)
  }

  /** The entry of a newly enrolled machine: the secret is in it where the code stands alone. */
  function EntryOf(mode: AuthMode, secret: Option<string>, env: Env): DeviceState {
    DeviceState(env.dice.deviceKey, if mode == TotpDaily then secret else None, 0, 0, Now(env))
  }

  predicate CanWriteEntry(env: Env) {
    env.storeOpens && env.entryWrites
  }

  ghost predicate HoldsConfig(d: Durable, u: UnlockedState) {
    && d.vault.Some? && d.vault.value.FileV2? && d.vault.value.slots == u.slots
    && d.vault.value.body == Sealed(u.masterKey, d.vault.value.nonce, u.slots, u.config)
  }

  /** When a mode change works, and what it stores then: the configuration in memory and in the vault
      has the secret of the new mode and is otherwise what it was; the slots are those of the mode;
      the entry is that of the mode.  When it does not, memory and vault are what they were. */
  ghost predicate ModeChanged(w: World, mode: AuthMode, password: Option<string>, typed: Option<string>, env: Env,
      after: World)
    requires w.state.Unlocked?
  {
    var u := w.state.u;
    var works := && env.saves && (ByDevice(mode) ==> CanWriteEntry(env))
                 && (ByDevice(mode) || password.Some? || Find(u.slots, SLOT_PASSWORD).Some?);
    var secret := SecretOf(mode, typed, u.config.totp);
    if works then
      && after.state.Unlocked?
      && after.state.u == u.(config := Config(u.config.schema, secret, u.config.rest), slots := after.state.u.slots)
      && HoldsConfig(after.d, after.state.u)
      && SlotsOfMode(u, mode, password, env, after.state.u.slots)
      && (if ByDevice(mode) then after.d.entry == Some(EntryOf(mode, secret, env))
          else after.d.entry == if env.storeOpens && env.entryDeletes then None else w.d.entry)
    else
      && after.state == w.state && after.d.vault == w.d.vault
      && (if !ByDevice(mode) then after.d.entry == w.d.entry
          else if env.storeOpens && env.entryDeletes then after.d.entry == None
          else after.d.entry == if CanWriteEntry(env) then Some(EntryOf(mode, secret, env)) else w.d.entry)
  }

  /** A typed password replaces the old one, else the old slot stays; the device slot is that of the
      new entry, if the mode has one. */
  ghost predicate SlotsOfMode(u: UnlockedState, mode: AuthMode, password: Option<string>, env: Env,
      slots: seq<KeySlot>) {
    && (if password.Some? then
          && Find(slots, SLOT_PASSWORD).Some?
          && IsPasswordSlot(Find(slots, SLOT_PASSWORD).value, password.value, u.masterKey)
        else Find(slots, SLOT_PASSWORD) == Find(u.slots, SLOT_PASSWORD))
    && (if ByDevice(mode) then
          && Find(slots, SLOT_DEVICE).Some?
          && IsDeviceSlot(Find(slots, SLOT_DEVICE).value, env.dice.deviceKey, u.masterKey)
        else Find(slots, SLOT_DEVICE).None?)
  }

  lemma WhatAModeChangeStores(w: World, mode: AuthMode, password: Option<string>, typed: Option<string>, env: Env)
    requires w.state.Unlocked?
    ensures ModeChanged(w, mode, password, typed, env, ChangeSecurityMode(w, mode, password, typed, env).after)
  {
    if ByDevice(mode) {
      ChangedToADeviceMode(w, mode, password, typed, env);
    } else {
      ChangedToAPasswordMode(w, mode, password, typed, env);
    }
  }

  lemma ChangedToADeviceMode(w: World, mode: AuthMode, password: Option<string>, typed: Option<string>, env: Env)
    requires w.state.Unlocked? && ByDevice(mode)
    ensures ModeChanged(w, mode, password, typed, env, ChangeSecurityMode(w, mode, password, typed, env).after)
  {
    var u := w.state.u;
    var totp := NewTotp(u, mode, typed);
    SlotsAfterAModeChange(u, mode, password, env);
    BuiltForADevice(w, u, mode, password, totp, env);
    var built := BuildMode(w, u, mode, password, totp, env);
    assert ChangeSecurityMode(w, mode, password, typed, env) == FinishMode(built.0, u, mode, totp, built.1, env);
    assert totp == SecretOf(mode, typed, u.config.totp);
    hide ChangeSecurityMode, SlotsOfMode, WrapDevice, KeptPasswordSlots, BuildMode, NewTotp, SecretOf, ModeChanged;
    if CanWriteEntry(env) {
      assert built.1.value != [];
      FinishedForADevice(w, mode, password, typed, env, built.1.value);
    } else {
      NotBegun(w, mode, password, typed, env);
    }
  }

  lemma NotBegun(w: World, mode: AuthMode, password: Option<string>, typed: Option<string>, env: Env)
    requires w.state.Unlocked? && ByDevice(mode) && !CanWriteEntry(env)
    ensures var secret := SecretOf(mode, typed, w.state.u.config.totp);
            ModeChanged(w, mode, password, typed, env, FinishMode(Start(w), w.state.u, mode, secret, None, env).after)
  {
    hide SlotsOfMode, SecretOf;
  }

  lemma FinishedForADevice(w: World, mode: AuthMode, password: Option<string>, typed: Option<string>, env: Env,
      slots: seq<KeySlot>)
    requires w.state.Unlocked? && ByDevice(mode) && CanWriteEntry(env) && slots != []
    requires SlotsOfMode(w.state.u, mode, password, env, slots)
    ensures var secret := SecretOf(mode, typed, w.state.u.config.totp);
            var e := PutEntry(Start(w), Some(EntryOf(mode, secret, env)));
            ModeChanged(w, mode, password, typed, env,
                        FinishMode(e, w.state.u, mode, secret, Some(slots), env).after)
  {
    hide SlotsOfMode, SecretOf;
  }

  lemma BuiltForADevice(w: World, u: UnlockedState, mode: AuthMode, password: Option<string>, totp: Option<string>,
      env: Env)
    requires ByDevice(mode)
    ensures var built := BuildMode(w, u, mode, password, totp, env);
            if !CanWriteEntry(env) then built == (Start(w), None)
            else
              && built.0 == PutEntry(Start(w), Some(EntryOf(mode, totp, env)))
              && built.1 == Some(KeptPasswordSlots(u, password, env.dice)
                                 + [WrapDevice(env.dice.deviceKey, env.dice.deviceSalt, env.dice.deviceNonce,
                                               u.masterKey)])
  {
    hide WrapDevice, KeptPasswordSlots;
  }

  lemma ChangedToAPasswordMode(w: World, mode: AuthMode, password: Option<string>, typed: Option<string>, env: Env)
    requires w.state.Unlocked? && !ByDevice(mode)
    ensures ModeChanged(w, mode, password, typed, env, ChangeSecurityMode(w, mode, password, typed, env).after)
  {
    SlotsAfterAModeChange(w.state.u, mode, password, env);
    hide SlotsOfMode, WrapDevice, KeptPasswordSlots;
    assert KeptPasswordSlots(w.state.u, password, env.dice) + [] == KeptPasswordSlots(w.state.u, password, env.dice);
  }

  lemma SlotsAfterAModeChange(u: UnlockedState, mode: AuthMode, password: Option<string>, env: Env)
    ensures SlotsOfMode(u, mode, password, env,
                        KeptPasswordSlots(u, password, env.dice)
                        + if WantsDevice(mode) then
                          [WrapDevice(env.dice.deviceKey, env.dice.deviceSalt, env.dice.deviceNonce, u.masterKey)]
                            else [])
    ensures KeptPasswordSlots(u, password, env.dice) == [] <==>
              password.None? && Find(u.slots, SLOT_PASSWORD).None?
  {
    var device := WrapDevice(env.dice.deviceKey, env.dice.deviceSalt, env.dice.deviceNonce, u.masterKey);
    var kept := KeptPasswordSlots(u, password, env.dice);
    assert |kept| <= 1;
    assert kept != [] ==> kept[0].desc.kind == SLOT_PASSWORD && kept == [kept[0]];
    FindInTwo(kept, if WantsDevice(mode) then [device] else []);
  }

  lemma FindInTwo(kept: seq<KeySlot>, more: seq<KeySlot>)
    requires |kept| <= 1 && |more| <= 1
    requires kept != [] ==> kept[0].desc.kind == SLOT_PASSWORD
    requires more != [] ==> more[0].desc.kind == SLOT_DEVICE
    ensures Find(kept + more, SLOT_PASSWORD) == if kept == [] then None else Some(kept[0])
    ensures Find(kept + more, SLOT_DEVICE) == if more == [] then None else Some(more[0])
  {
    var all := kept + more;
    if kept != [] {
      assert all[1..] == more;
    } else {
      assert all == more;
    }
    assert more != [] ==> more[1..] == [];
  }

  /** The second factor that was set up is the one asked for: after a change to password and code,
      the vault locks, asks for its password, and then for a code of exactly that secret. */
  lemma TheCodeSetUpIsAskedFor(w: World, ledger: Ledger, password: Option<string>, secret: string, env: Env,
      locking: Env, unlocking: Env, auth: Authenticator)
    requires Matches(w, ledger) && w.state.Unlocked? && env.saves && (password.Some? || ledger.password.Some?)
    ensures var inForce := if password.Some? then password.value else ledger.password.value;
            var changed := ChangeSecurityMode(w, PasswordTotp, password, Some(secret), env).after;
            var locked := ResolveInitialState(changed, locking).after;
            && locked.state == Locked(Unlock, None, true)
            && (Claims(locked, unlocking) ==>
                  var opened_ := TryUnlock(locked, inForce, unlocking).after.state;
                  && opened_.Unlocked? && opened_.u.screen == TotpPrompt(false)
                  && opened_.u.config.totp == Some(secret))
  {
    WhatAModeChangeStores(w, PasswordTotp, password, Some(secret), env);
    var changed := ChangeSecurityMode(w, PasswordTotp, password, Some(secret), env).after;
    var inForce := if password.Some? then password.value else ledger.password.value;
    var ledger' := Ledger(Some(inForce), ledger.masterKey, changed.state.u.config);
    ChangedMatches(w, ledger, password, secret, env);
    hide ChangeSecurityMode, Matches, ResolveInitialState, TryUnlock;
    ScreenOfAPasswordVault(changed, ledger', locking);
    var locked := ResolveInitialState(changed, locking).after;
    LockedMatches(changed, ledger', locking);
    if Claims(locked, unlocking) {
      ThePasswordInForceOpens(locked, ledger', inForce, unlocking);
    }
  }

  lemma ChangedMatches(w: World, ledger: Ledger, password: Option<string>, secret: string, env: Env)
    requires Matches(w, ledger) && w.state.Unlocked? && env.saves && (password.Some? || ledger.password.Some?)
    ensures var changed := ChangeSecurityMode(w, PasswordTotp, password, Some(secret), env).after;
            && changed.state.Unlocked? && changed.state.u.config.totp == Some(secret)
            && changed.d.vault.Some? && changed.d.vault.value.FileV2? && !DeviceVault(changed.d.vault.value)
            && Matches(changed, Ledger(if password.Some? then password else ledger.password, ledger.masterKey,
                                       changed.state.u.config))
  {
    WhatAModeChangeStores(w, PasswordTotp, password, Some(secret), env);
    ModeSlotsMatch(w.state.u, ledger, password, env, false);
    hide WrapPassword, Wraps, SlotsOfMode, FileMatches;
    var kept := KeptPasswordSlots(w.state.u, password, env.dice);
    assert kept + [] == kept;
    SlotsAfterAModeChange(w.state.u, PasswordTotp, password, env);
    var changed := ChangeSecurityMode(w, PasswordTotp, password, Some(secret), env).after;
    assert changed.state.u.slots == kept;
    InOrder(changed, if password.Some? then password else ledger.password);
    NoDeviceSlot(w.state.u, password, env, kept);
  }

  lemma InOrder(w: World, password: Option<string>)
    requires w.d.legacySecret.None? && w.state.Unlocked? && HoldsConfig(w.d, w.state.u) && Readable(w.state.u.config)
    requires SlotsMatch(w.state.u.slots, w.state.u.masterKey, password)
    ensures Matches(w, Ledger(password, w.state.u.masterKey, w.state.u.config))
  {
  }

  lemma NoDeviceSlot(u: UnlockedState, password: Option<string>, env: Env, slots: seq<KeySlot>)
    requires SlotsOfMode(u, PasswordTotp, password, env, slots)
    ensures forall nonce, body :: !DeviceVault(FileV2(slots, nonce, body))
  {
  }

  lemma LockedMatches(w: World, ledger: Ledger, env: Env)
    requires Matches(w, ledger) && ResolveInitialState(w, env).after.d == w.d
    requires ResolveInitialState(w, env).after.state.Locked?
    ensures Matches(ResolveInitialState(w, env).after, ledger)
  {
    hide FileMatches, ResolveInitialState;
  }

  // ---------------------------------------------------------------- the other changes

  /** The master password changes exactly if the one typed for the old is the one in force and the
      vault can be written; then the new one opens it, and nothing else is different. */
  lemma WhatAPasswordChangeStores(w: World, ledger: Ledger, current: string, newPassword: string, env: Env)
    requires Matches(w, ledger) && w.state.Unlocked?
    ensures var e := ChangeMasterPassword(w, current, newPassword, env);
            if w.state.u.screen == SettingsScreen && ledger.password == Some(current) && env.saves then
              && e.after.state.Unlocked? && e.after.state.u == w.state.u.(slots := e.after.state.u.slots)
              && HoldsConfig(e.after.d, e.after.state.u)
              && SlotsMatch(e.after.state.u.slots, ledger.masterKey, Some(newPassword))
              && Find(e.after.state.u.slots, SLOT_DEVICE) == Find(w.state.u.slots, SLOT_DEVICE)
              && e.after.d.entry == w.d.entry && e.writes == [e.after.d]
            else e == Effect([], w)
  {
    hide Wraps;
    if ledger.password.Some? {
      var old_ := Find(w.state.u.slots, SLOT_PASSWORD).value;
      PasswordSlotOpens(old_, ledger.password.value, ledger.masterKey, current);
      var slot := WrapPassword(newPassword, INTERACTIVE, env.dice.passwordSalt, env.dice.passwordNonce,
        ledger.masterKey);
      PasswordSlotWraps(newPassword, INTERACTIVE, env.dice.passwordSalt, env.dice.passwordNonce, ledger.masterKey);
      ReplacingPasswordMatches(w.state.u.slots, ledger.masterKey, ledger.password, slot, newPassword);
      FindAfterReplacing(w.state.u.slots, SLOT_PASSWORD, slot, SLOT_DEVICE);
    }
    hide Replaced, WrapPassword, UnwrapPassword, IsPasswordSlot;
  }

  /** An edit is in memory and in the vault alike; one that cannot be written stays in memory, unless
      it is taken back. */
  lemma WhatAnEditStores(w: World, rest: nat, rollsBack: bool, env: Env)
    requires w.state.Unlocked? && w.state.u.slots != []
    ensures var e, u := Edit(w, rest, rollsBack, env), w.state.u;
            var edited := u.(config := Config(u.config.schema, u.config.totp, rest));
            && e.after.d.entry == w.d.entry
            && (env.saves ==> e.after.state == Unlocked(edited) && HoldsConfig(e.after.d, edited))
            && (!env.saves ==> e.writes == [] && e.after.state == if rollsBack then w.state else Unlocked(edited))
  {
  }

  function WhyNotCreated(w: World, mode: AuthMode, password: Option<string>, secret: Option<string>, env: Env)
    : Option<VaultError> {
    if ByDevice(mode) && !CanWriteEntry(env) then Some(CredentialStoreFailed)
    else if env.contended && !w.held then Some(VaultInUse)
    else if !ByDevice(mode) && password.None? then Some(NoKeySlots)
    else if !env.saves || (secret.Some? && !env.savesAgain) then Some(WriteFailed)
    else None
  }

  /** What a creation needs, and what it stores: an empty configuration with the secret of the mode,
      in memory and in the vault, under a new key that the password and, in a device mode, the new
      entry open. */
  ghost predicate Created(w: World, mode: AuthMode, password: Option<string>, typed: Option<string>, env: Env,
      after: World)
  {
    var mk, secret := Random(env.dice.masterKey), SecretOf(mode, typed, None);
    var failure := WhyNotCreated(w, mode, password, secret, env);
    if failure.Some? then after.state == Setup(failure)
    else
      && after.state.Unlocked?
      && after.state.u == UnlockedState(Config(2, secret, 0), mk, after.state.u.slots, MainMenu)
      && HoldsConfig(after.d, after.state.u)
      && SlotsOfMode(UnlockedState(Config(2, None, 0), mk, [], MainMenu), mode, password, env, after.state.u.slots)
      && after.d.entry == if ByDevice(mode) then Some(EntryOf(mode, secret, env)) else w.d.entry
  }

  lemma WhatACreationStores(w: World, mode: AuthMode, password: Option<string>, typed: Option<string>, env: Env)
    requires w.state.Setup?
    ensures Created(w, mode, password, typed, env, CreateVault(w, mode, password, typed, env).after)
  {
    var u := UnlockedState(Config(2, None, 0), Random(env.dice.masterKey), [], MainMenu);
    SlotsAfterAModeChange(u, mode, password, env);
    if ByDevice(mode) {
      CreatedByDevice(w, mode, password, typed, env);
    } else {
      assert KeptPasswordSlots(u, password, env.dice) + [] == KeptPasswordSlots(u, password, env.dice);
      CreatedByPassword(w, mode, password, typed, env);
    }
  }

  lemma CreatedByDevice(w: World, mode: AuthMode, password: Option<string>, typed: Option<string>, env: Env)
    requires w.state.Setup? && ByDevice(mode)
    requires var mk := Random(env.dice.masterKey);
             SlotsOfMode(UnlockedState(Config(2, None, 0), mk, [], MainMenu), mode, password, env,
                         PasswordSlots(password, mk, env.dice)
                         + [WrapDevice(env.dice.deviceKey, env.dice.deviceSalt, env.dice.deviceNonce, mk)])
    ensures Created(w, mode, password, typed, env, CreateVault(w, mode, password, typed, env).after)
  {
    hide SlotsOfMode, WrapDevice, PasswordSlots;
  }

  lemma CreatedByPassword(w: World, mode: AuthMode, password: Option<string>, typed: Option<string>, env: Env)
    requires w.state.Setup? && !ByDevice(mode)
    requires var mk := Random(env.dice.masterKey);
             SlotsOfMode(UnlockedState(Config(2, None, 0), mk, [], MainMenu), mode, password, env,
                         PasswordSlots(password, mk, env.dice))
    ensures Created(w, mode, password, typed, env, CreateVault(w, mode, password, typed, env).after)
  {
    var slots := PasswordSlots(password, Random(env.dice.masterKey), env.dice);
    assert slots + [] == slots && (slots == [] <==> password.None?);
    hide SlotsOfMode, PasswordSlots;
  }

  /** A converted vault asks for the old secret as its code, and has its configuration otherwise. */
  lemma WhatAConversionStores(w: World, ledger: Ledger, secret: string, newPassword: string, env: Env)
    requires Coherence.Legacy(w, ledger, secret) && Migrate(w, newPassword, env.storeOpens, env).after.state.Unlocked?
    ensures var after := Migrate(w, newPassword, env.storeOpens, env).after;
            && Migrated(after.state.u.config) == Migrated(ledger.config).(totp := Some(secret))
            && after.state.u.screen == MainMenu
            && HoldsConfig(after.d, after.state.u)
            && SlotsMatch(after.state.u.slots, after.state.u.masterKey, Some(newPassword))
            && after.d.entry == (if env.storeOpens then Some(EntryOf(TotpDaily, Some(secret), env)) else w.d.entry)
            && after.d.legacySecret == if env.discards then None else Some(secret)
  {
    ConvertedSession(w, ledger, secret, newPassword, env);
  }

  /** A conversion that fails says why, on the screen it was tried on. */
  lemma AFailedConversionSaysWhy(w: World, ledger: Ledger, secret: string, newPassword: string, env: Env)
    requires Coherence.Legacy(w, ledger, secret) && !Migrate(w, newPassword, env.storeOpens, env).after.state.Unlocked?
    ensures Migrate(w, newPassword, env.storeOpens, env).after.state
            == Locked(MigrateTotpOnly, Some(Failed(
                 if env.contended && !w.held then VaultInUse
                 else if ledger.password != Some(secret) then WrongPasswordOrCorrupt
                 else if w.d.vault.value.FileV1? && !env.saves then WriteFailed
                 else if env.storeOpens && !env.entryWrites then CredentialStoreFailed
                 else WriteFailed)), true)
  {
    hide OpenWithPassword, WrapPassword, WrapDevice;
    if w.d.vault.value.FileV2? {
      PasswordOpens(w.d.vault.value, ledger, secret);
    }
  }

  lemma ConvertedSession(w: World, ledger: Ledger, secret: string, newPassword: string, env: Env)
    requires Coherence.Legacy(w, ledger, secret) && MigrateSteps(w, newPassword, env.storeOpens, env).result.Ok?
    ensures var steps := MigrateSteps(w, newPassword, env.storeOpens, env);
            var found, d := steps.result.value, steps.effect.after.d;
            && Migrated(found.config) == Migrated(ledger.config).(totp := Some(secret))
            && d.vault.Some? && d.vault.value.FileV2? && d.vault.value.slots == found.slots
            && d.vault.value.body == Sealed(found.masterKey, d.vault.value.nonce, found.slots, found.config)
            && SlotsMatch(found.slots, found.masterKey, Some(newPassword))
            && d.legacySecret == Some(secret)
            && d.entry == if env.storeOpens then Some(EntryOf(TotpDaily, Some(secret), env)) else w.d.entry
  {
    Coherence.ConvertedFileMatches(w, ledger, secret, newPassword, env);
    if w.d.vault.value.FileV2? {
      PasswordOpens(w.d.vault.value, ledger, secret);
    }
    hide SlotsMatch, OpenWithPassword, WrapPassword, WrapDevice;
  }

  // ---------------------------------------------------------------- after any run

  /** Whatever has happened to a vault with a password, a launch that no other instance is in the way
      of ends in the vault, at its code screen or at its password screen; and at the password screen
      the password in force opens it. */
  lemma EveryRunOffersAWayIn(w: World, ledger: Ledger, events: seq<Event>, auth: Authenticator, env: Env,
      unlocking: Env)
    requires Matches(w, ledger) && ledger.password.Some? && !env.contended && !unlocking.contended && unlocking.saves
    ensures var (w', ledger') := Run(w, ledger, events, auth);
            var shown := Launch(w'.d, env).after;
            && ledger'.password.Some?
            && (shown.state.Unlocked? || shown.state.LockedTotpDaily? || shown.state.Locked?)
            && (shown.state.Locked? ==>
                  TryUnlock(shown, ledger'.password.value, unlocking).after.state.Unlocked?)
  {
    EveryRunStaysOpenable(w, ledger, events, auth);
    PasswordsStay(w, ledger, events, auth);
    var (w', ledger') := Run(w, ledger, events, auth);
    hide Run, Launch, Matches, TryUnlock, FileMatches;
    LaunchIsInOrder(w', ledger', env);
    var shown := Launch(w'.d, env).after;
    if shown.state.Locked? {
      ThePasswordInForceOpens(shown, ledger', ledger'.password.value, unlocking);
    }
  }

  lemma LaunchIsInOrder(w: World, ledger: Ledger, env: Env)
    requires Matches(w, ledger) && ledger.password.Some? && !env.contended
    ensures var shown := Launch(w.d, env).after;
            && Matches(shown, ledger)
            && (shown.state.Unlocked? || shown.state.LockedTotpDaily? || shown.state.Locked?)
  {
    hide FileMatches, ResolveInitialState;
    LaunchMatches(w.d, ledger, env);
    ScreenOfAPasswordVault(World(w.d, false, Setup(None)), ledger, env);
  }

  lemma {:induction false} PasswordsStay(w: World, ledger: Ledger, events: seq<Event>, auth: Authenticator)
    requires ledger.password.Some?
    ensures Run(w, ledger, events, auth).1.password.Some?
    decreases |events|
  {
    if events != [] {
      hide Performed;
      CodeRuns.ThePasswordStays(ledger, w, events[0]);
      PasswordsStay(Performed(w, events[0], auth).after, NextLedger(ledger, w, events[0], auth), events[1..], auth);
    }
  }
}
