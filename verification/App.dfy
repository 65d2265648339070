/**
 The unlock and security-mode operations of src/app.rs and src/config/store.rs as the program runs
 them: objects whose methods change the vault file, the credential-store entry and the screen
 statement by statement.  Each method is proved against its function in `Security`: the world it
 leaves, and the durable states it passes through in order.
 */
module App {
  import opened Wrappers
  import opened Format
  import opened Keyslot
  import opened Totp
  import opened Security
  import VaultRuns
  import CodeRuns
  import Coherence
  import Outcomes

  /** The disk and the credential store of one machine. */
  class Machine {
    var vault: Option<VaultFile>
    var entry: Option<DeviceState>
    var legacySecret: Option<string>
    ghost var writes: seq<Durable>

    constructor (d: Durable)
      ensures Now() == d && writes == []
    {
      vault, entry, legacySecret := d.vault, d.entry, d.legacySecret;
      writes := [];
    }

    function Now(): Durable
      reads this
    {
      Durable(vault, entry, legacySecret)
    }

    method WriteEntry(st: Option<DeviceState>)
      modifies this
      ensures Now() == old(Now()).(entry := st) && writes == old(writes) + [Now()]
    {
      entry := st;
      writes := writes + [Now()];
    }

    /** Best effort, as the program treats it. */
    method DeleteEntry(env: Env)
      modifies this
      ensures Now() == if env.storeOpens && env.entryDeletes then old(Now()).(entry := None) else old(Now())
      ensures writes == old(writes) + if env.storeOpens && env.entryDeletes then [Now()] else []
    {
      if env.storeOpens && env.entryDeletes {
        WriteEntry(None);
      }
    }

    method WriteVault(file: VaultFile)
      modifies this
      ensures Now() == old(Now()).(vault := Some(file)) && writes == old(writes) + [Now()]
    {
      vault := Some(file);
      writes := writes + [Now()];
    }

    method DiscardLegacySecret()
      modifies this
      ensures Now() == old(Now()).(legacySecret := None) && writes == old(writes) + [Now()]
    {
      legacySecret := None;
      writes := writes + [Now()];
    }
  }

  class ConfigStore {
    const machine: Machine
    var held: bool

    constructor (machine: Machine)
      ensures this.machine == machine && !held
    {
      this.machine := machine;
      held := false;
    }

    /** A no-op once held. */
    method Claim(env: Env) returns (ok: bool)
      modifies this
      ensures ok == (old(held) || !env.contended) && held == ok
    {
      if held {
        return true;
      }
      if env.contended {
        return false;
      }
      held := true;
      return true;
    }

    /** Writes the whole vault anew under a fresh nonce, or changes nothing. */
    method Save(config: Config, mk: Key, slots: seq<KeySlot>, nonce: Nonce, works: bool)
      returns (error: Option<VaultError>)
      modifies machine
      ensures error == if slots == [] then Some(NoKeySlots) else if works then None else Some(WriteFailed)
      ensures machine.Now() == if error.None? then
              old(machine.Now()).(vault := Some(FileV2(slots, nonce, Sealed(mk, nonce, slots, config))))
                               else old(machine.Now())
      ensures machine.writes == old(machine.writes) + if error.None? then [machine.Now()] else []
    {
      if slots == [] {
        return Some(NoKeySlots);
      }
      var body := Sealed(mk, nonce, slots, config);
      if !works {
        return Some(WriteFailed);
      }
      machine.WriteVault(FileV2(slots, nonce, body));
      return None;
    }

    /** A new vault under a new master key: the claim comes first. */
    method InitSlots(mk: Key, slots: seq<KeySlot>, env: Env) returns (r: Result<OpenVault, VaultError>)
      modifies this, machine
      ensures held == (old(held) || !env.contended)
      ensures r == if !held then Err(VaultInUse) else if slots == [] then Err(NoKeySlots) else if !env.saves then
              Err(WriteFailed)
                   else Ok(OpenVault(DEFAULT_CONFIG, mk, slots))
      ensures machine.Now() == if r.Ok? then
              old(machine.Now()).(vault := Some(FileV2(slots, env.dice.bodyNonce,
                Sealed(mk, env.dice.bodyNonce, slots, DEFAULT_CONFIG))))
                               else old(machine.Now())
      ensures machine.writes == old(machine.writes) + if r.Ok? then [machine.Now()] else []
    {
      var claimed := Claim(env);
      if !claimed {
        return Err(VaultInUse);
      }
      var config := DEFAULT_CONFIG;
      var error := Save(config, mk, slots, env.dice.bodyNonce, env.saves);
      if error.Some? {
        return Err(error.value);
      }
      return Ok(OpenVault(config, mk, slots));
    }

    method UpgradeV1(file: VaultFile, password: string, env: Env, ghost state: AppState)
      returns (r: Result<OpenVault, VaultError>)
      requires file.FileV1?
      modifies machine
      ensures var opening := Security.UpgradeV1(World(old(machine.Now()), held, state), file, password, env);
              && r == opening.result && machine.Now() == opening.effect.after.d
              && machine.writes == old(machine.writes) + opening.effect.writes
    {
      var oldKey := Stretched(password, file.salt, file.params);
      var plaintext := Decrypt(oldKey, file.v1Nonce, (file.params, file.salt), file.v1Body);
      if plaintext.None? {
        return Err(WrongPasswordOrCorrupt);
      }
      var mk := Random(env.dice.masterKey);
      var slots := [WrapPassword(password, file.params, env.dice.upgradeSalt, env.dice.upgradeNonce, mk)];
      var error := Save(plaintext.value, mk, slots, env.dice.upgradeBodyNonce, env.saves);
      if error.Some? {
        return Err(error.value);
      }
      return Ok(OpenVault(plaintext.value, mk, slots));
    }

    method Load(password: string, env: Env, ghost state: AppState) returns (r: Result<OpenVault, VaultError>)
      modifies this, machine
      ensures var opening := Security.Load(World(old(machine.Now()), old(held), state), password, env);
              && r == opening.result
              && machine.Now() == opening.effect.after.d && held == opening.effect.after.held
              && opening.effect.after.state == state
              && machine.writes == old(machine.writes) + opening.effect.writes
    {
      var claimed := Claim(env);
      if !claimed {
        return Err(VaultInUse);
      }
      match machine.vault
      case None => return Err(ConfigNotFound);
      case Some(file) =>
        if file.Undecodable? {
          return Err(CorruptFile);
        }
        if file.FileV1? {
          r := UpgradeV1(file, password, env, state);
          return;
        }
        var slot := Find(file.slots, SLOT_PASSWORD);
        if slot.None? {
          return Err(WrongPasswordOrCorrupt);
        }
        var mk := UnwrapPassword(slot.value, password);
        if mk.Err? {
          return Err(mk.error);
        }
        var config := DecryptBody(file, mk.value);
        if config.Err? {
          return Err(config.error);
        }
        return Ok(OpenVault(config.value, mk.value, file.slots));
    }

    method LoadWithDevice(device: nat, env: Env, ghost state: AppState) returns (r: Result<OpenVault, VaultError>)
      modifies this
      ensures var opening := Security.LoadWithDevice(World(machine.Now(), old(held), state), device, env);
              && r == opening.result && held == opening.effect.after.held
              && opening.effect.writes == [] && opening.effect.after == World(machine.Now(), held, state)
    {
      var claimed := Claim(env);
      if !claimed {
        return Err(VaultInUse);
      }
      if machine.vault.None? {
        return Err(ConfigNotFound);
      }
      return OpenWithDevice(machine.vault.value, device);
    }
  }

  class App {
    const machine: Machine
    const store: ConfigStore
    const auth: Authenticator
    var state: AppState

    ghost predicate Valid()
      reads this
    {
      store.machine == machine
    }

    function Now(): World
      reads this, machine, store
    {
      World(machine.Now(), store.held, state)
    }

    /** A new process on this machine. */
    constructor (machine: Machine, auth: Authenticator, env: Env)
      ensures Valid() && this.machine == machine && this.auth == auth && fresh(store)
      ensures Now() == Launch(machine.Now(), env).after
    {
      this.machine := machine;
      this.auth := auth;
      this.store := new ConfigStore(machine);
      this.state := Setup(None);
      new;
      ResolveInitialState(env);
    }

    method ReadEntry(env: Env) returns (r: Result<Option<DeviceState>, VaultError>)
      ensures r == Security.ReadEntry(machine.Now(), env)
    {
      if !env.storeOpens || !env.entryReads {
        return Err(CredentialStoreFailed);
      }
      return Ok(machine.entry);
    }

    method ResolveInitialState(env: Env)
      requires Valid()
      modifies this, store
      ensures Valid()
      ensures Now() == Security.ResolveInitialState(old(Now()), env).after
      ensures Security.ResolveInitialState(old(Now()), env).writes == []
      ensures ScreenGuarantees(old(Now()), auth, env, Security.ResolveInitialState(old(Now()), env))
    {
      ScreenIsGuarded(Now(), auth, env);
      hide ScreenGuarantees;
      if machine.legacySecret.Some? {
        state := Locked(MigrateTotpOnly, None, true);
        return;
      }
      if machine.vault.None? {
        state := Setup(None);
        return;
      }
      match machine.vault.value
      case Undecodable => state := AskPassword(Some(Failed(CorruptFile)));
      case FileV1(_, _, _, _) => state := AskPassword(None);
      case FileV2(slots, _, _) =>
        var shape := ShapeOf(slots);
        if shape == PasswordShape {
          state := AskPassword(None);
        } else {
          DeviceBackedInitialState(shape, env);
        }
    }

    method DeviceBackedInitialState(shape: VaultShape, env: Env)
      requires Valid()
      modifies this, store
      ensures Valid()
      ensures Now() == Security.DeviceBackedInitialState(old(Now()), shape, env).after
      ensures Security.DeviceBackedInitialState(old(Now()), shape, env).writes == []
    {
      var hasPassword := shape == DeviceAndPasswordShape;
      var entry := ReadEntry(env);
      if entry.Err? || entry.value.None? {
        state := if hasPassword then AskPassword(Some(NotEnrolled)) else Unopenable;
        return;
      }
      var st := entry.value.value;
      if st.totpSecret.None? {
        var r := store.LoadWithDevice(st.deviceKey, env, state);
        match r {
          case Ok(unlocked) => state := AskingForCode(unlocked);
          case Err(e) =>
            if e == VaultInUse || e == SchemaTooNew {
              state := CannotOpen(e);
            } else if hasPassword {
              state := AskPassword(Some(Failed(e)));
            } else {
              state := Unopenable;
            }
        }
        return;
      }
      if hasPassword && MustEscalate(st, MAX_TOTP_FAILURES, PASSWORD_CHECK_DAYS, env.clock) {
        state := AskPassword(Some(PasswordRequiredNow));
        return;
      }
      state := LockedTotpDaily(None, true);
    }

    /** Reads the entry, then either stamps the password check on it or enrols this machine anew:
        the entry is written first, and taken back if the vault cannot be. */
    method ReconcileDeviceState(unlocked: OpenVault, env: Env)
      requires Valid()
      modifies machine
      ensures var e := Reconcile(Start(old(Now())), unlocked, env);
              Now() == e.after && machine.writes == old(machine.writes) + e.writes
    {
      if !Has(unlocked.slots, SLOT_DEVICE) {
        return;
      }
      var entry := ReadEntry(env);
      if entry.Err? {
        return;
      }
      if entry.value.Some? {
        if env.entryWrites {
          machine.WriteEntry(Some(RecordPasswordCheck(entry.value.value, env.clock)));
        }
        return;
      }
      var st := FreshDevice(env).(totpSecret := unlocked.config.totp);
      var slot := WrapDevice(st.deviceKey, env.dice.deviceSalt, env.dice.deviceNonce, unlocked.masterKey);
      var slots := Replace(unlocked.slots, SLOT_DEVICE, slot);
      if !env.entryWrites {
        return;
      }
      machine.WriteEntry(Some(st));
      var error := store.Save(unlocked.config, unlocked.masterKey, slots, env.dice.bodyNonce, env.savesAgain);
      if error.Some? && env.entryDeletes {
        machine.WriteEntry(None);
      }
    }

    method TryUnlock(password: string, env: Env)
      requires Valid()
      modifies this, store, machine
      ensures Valid()
      ensures var e := Security.TryUnlock(old(Now()), password, env);
              Now() == e.after && machine.writes == old(machine.writes) + e.writes
      ensures old(state).Locked? && old(state).mode == Unlock ==>
                UnlockGuarantees(old(Now()), password, auth, env, Security.TryUnlock(old(Now()), password, env))
    {
      UnlockIsGuarded(Now(), password, auth, env);
      hide UnlockGuarantees, Security.Load, Reconcile;
      ghost var was := machine.writes;
      ghost var half := Security.Load(Now(), password, env).effect;
      var r := store.Load(password, env, state);
      match r
      case Ok(unlocked) =>
        assert Now() == half.after;
        ReconcileDeviceState(unlocked, env);
        assert machine.writes == was + (half.writes + Reconcile(Start(half.after), unlocked, env).writes);
        ReconcileAppends(half, unlocked, env);
        state := AskingForCode(unlocked);
      case Err(e) =>
        if e == SchemaTooNew {
          state := CannotOpen(SchemaTooNew);
        } else if state.Locked? {
          state := state.(error := Some(Failed(e)), retryable := e != VaultInUse);
        }
    }

    method TryTotpDailyUnlock(code: string, env: Env)
      requires Valid()
      modifies this, store, machine
      ensures Valid()
      ensures var e := TryTotpDaily(old(Now()), code, auth, env);
              Now() == e.after && machine.writes == old(machine.writes) + e.writes
      ensures old(state).LockedTotpDaily? ==>
                CodeGuarantees(old(Now()), code, auth, env, TryTotpDaily(old(Now()), code, auth, env))
    {
      CodeIsGuarded(Now(), code, auth, env);
      hide CodeGuarantees, SpendCode, CheckCode;
      var entry := ReadEntry(env);
      if entry.Err? || entry.value.None? || entry.value.value.totpSecret.None? {
        state := AskPassword(Some(NotEnrolled));
        return;
      }
      var st := entry.value.value;
      match CheckCode(auth, st.totpSecret.value, code, env.clock, st.replayStep)
      case Accepted(step) =>
        OpenWithCode(st, step, env);
      case Replayed =>
        st := Failing(st);
        if env.entryWrites {
          machine.WriteEntry(Some(st));
        }
        state := AskPassword(Some(CodeReplayed));
      case Invalid =>
        st := Failing(st);
        if env.entryWrites {
          machine.WriteEntry(Some(st));
        }
        if st.failedAttempts >= MAX_TOTP_FAILURES {
          state := AskPassword(Some(TooManyFailures));
        } else {
          SetTotpDailyError(InvalidCode);
        }
    }

    /** The code was right: spend its step, then open the vault with the device key. */
    method OpenWithCode(st: DeviceState, step: nat, env: Env)
      requires Valid()
      modifies this, store, machine
      ensures Valid()
      ensures var e := SpendCode(old(Now()), st, step, env);
              Now() == e.after && machine.writes == old(machine.writes) + e.writes
    {
      hide Security.LoadWithDevice;
      if env.entryWrites {
        machine.WriteEntry(Some(st.(replayStep := step, failedAttempts := 0)));
      }
      var r := store.LoadWithDevice(st.deviceKey, env, state);
      match r {
        case Ok(unlocked) => state := SkippingCode(unlocked);
        case Err(e) =>
          if e == VaultInUse {
            if state.LockedTotpDaily? {
              state := LockedTotpDaily(Some(Failed(VaultInUse)), false);
            }
          } else if e == SchemaTooNew {
            state := CannotOpen(SchemaTooNew);
          } else {
            SetTotpDailyError(Failed(e));
          }
      }
    }

    method SetTotpDailyError(notice: Notice)
      modifies this
      ensures state == if old(state).LockedTotpDaily? then old(state).(codeError := Some(notice)) else old(state)
    {
      if state.LockedTotpDaily? {
        state := state.(codeError := Some(notice));
      }
    }

    method VerifyTotpPrompt(code: string, env: Env)
      modifies this
      ensures Now() == Security.VerifyTotpPrompt(old(Now()), code, auth, env)
      ensures old(state).Unlocked? && old(state).u.screen.TotpPrompt? && old(state).u.config.totp.Some? ==>
                var passed := exists step: nat ::
                  step > 0 && Shows(auth, old(state).u.config.totp.value, code, env.clock, step);
                Now() == old(Now()).(state := Unlocked(old(state).u.(screen := if passed then MainMenu
                  else TotpPrompt(true))))
    {
      if state.Unlocked? && state.u.screen.TotpPrompt? && state.u.config.totp.Some? {
        CodeRuns.SecondFactorMeaning(Now(), code, auth, env);
      }
      if !state.Unlocked? {
        return;
      }
      var u := state.u;
      if u.config.totp.None? {
        state := Unlocked(u.(screen := MainMenu));
        return;
      }
      if VerifyEnrollment(auth, u.config.totp.value, code, env.clock) {
        state := Unlocked(u.(screen := MainMenu));
      } else if u.screen.TotpPrompt? {
        state := Unlocked(u.(screen := TotpPrompt(true)));
      }
    }

    method ChangeMasterPassword(current: string, newPassword: string, env: Env)
      requires Valid()
      modifies this, machine
      ensures Valid()
      ensures var e := Security.ChangeMasterPassword(old(Now()), current, newPassword, env);
              Now() == e.after && machine.writes == old(machine.writes) + e.writes
      ensures PasswordGuarantees(old(Now()), current, newPassword,
              Security.ChangeMasterPassword(old(Now()), current, newPassword, env), env)
    {
      PasswordIsGuarded(Now(), current, newPassword, env, auth);
      hide PasswordGuarantees;
      if !state.Unlocked? || state.u.screen != SettingsScreen {
        return;
      }
      var u := state.u;
      var slot := Find(u.slots, SLOT_PASSWORD);
      if slot.None? {
        return;
      }
      var check := UnwrapPassword(slot.value, current);
      if check.Err? {
        return;
      }
      var slot' := WrapPassword(newPassword, INTERACTIVE, env.dice.passwordSalt, env.dice.passwordNonce, u.masterKey);
      var slots := Replace(u.slots, SLOT_PASSWORD, slot');
      var error := store.Save(u.config, u.masterKey, slots, env.dice.bodyNonce, env.saves);
      if error.None? {
        state := Unlocked(u.(slots := slots));
      }
    }

    /** The first half of a mode change: the slots of the new mode, with the entry written if the
        mode has a device; `None` if that could not be done. */
    method BuildModeSlots(u: UnlockedState, mode: AuthMode, password: Option<string>, totp: Option<string>, env: Env)
      returns (built: Option<seq<KeySlot>>)
      modifies machine
      ensures var (e, slots) := BuildMode(old(Now()), u, mode, password, totp, env);
              && built == slots && Now() == e.after && machine.writes == old(machine.writes) + e.writes
    {
      var slots: seq<KeySlot> := [];
      if password.Some? {
        slots := slots
          + [WrapPassword(password.value, RECOVERY, env.dice.passwordSalt, env.dice.passwordNonce, u.masterKey)];
      } else {
        var existing := Find(u.slots, SLOT_PASSWORD);
        if existing.Some? {
          slots := slots + [existing.value];
        }
      }
      assert slots == KeptPasswordSlots(u, password, env.dice);
      if WantsDevice(mode) {
        var st := FreshDevice(env);
        if mode == TotpDaily {
          st := st.(totpSecret := totp);
        }
        if !env.storeOpens || !env.entryWrites {
          return None;
        }
        machine.WriteEntry(Some(st));
        slots := slots + [WrapDevice(st.deviceKey, env.dice.deviceSalt, env.dice.deviceNonce, u.masterKey)];
      } else {
        assert slots + [] == slots;
      }
      if slots == [] {
        return None;
      }
      return Some(slots);
    }

    /** The credential-store entry goes first; the vault only after it; and an entry that ends up
        without its vault, or a vault that ends up without a device slot, loses the entry. */
    method ChangeSecurityMode(mode: AuthMode, password: Option<string>, totpSecret: Option<string>, env: Env)
      requires Valid()
      modifies this, machine
      ensures Valid()
      ensures var e := Security.ChangeSecurityMode(old(Now()), mode, password, totpSecret, env);
              Now() == e.after && machine.writes == old(machine.writes) + e.writes
      ensures ModeGuarantees(old(Now()), mode, password, totpSecret, auth, env,
                             Security.ChangeSecurityMode(old(Now()), mode, password, totpSecret, env))
    {
      ModeIsGuarded(Now(), mode, password, totpSecret, auth, env);
      hide ModeGuarantees;
      if !state.Unlocked? {
        return;
      }
      var u := state.u;
      var totp := NewTotp(u, mode, totpSecret);
      ghost var was := machine.writes;
      ghost var half := BuildMode(Now(), u, mode, password, totp, env).0;
      var built := BuildModeSlots(u, mode, password, totp, env);
      assert Now() == half.after;
      FinishModeChange(u, mode, totp, built, env);
      assert machine.writes == was + (half.writes + FinishMode(Start(half.after), u, mode, totp, built, env).writes);
      FinishAppends(half, u, mode, totp, built, env);
    }

    /** The second half: the vault is saved under the new slots, and the entry goes if it is no
        longer wanted or its vault could not be written. */
    method FinishModeChange(u: UnlockedState, mode: AuthMode, totp: Option<string>, built: Option<seq<KeySlot>>,
        env: Env)
      requires Valid()
      modifies this, machine
      ensures Valid()
      ensures var e := FinishMode(Start(old(Now())), u, mode, totp, built, env);
              Now() == e.after && machine.writes == old(machine.writes) + e.writes
    {
      if built.None? {
        if WantsDevice(mode) {
          machine.DeleteEntry(env);
        }
        return;
      }
      var slots := built.value;
      var error := store.Save(u.config.(totp := totp), u.masterKey, slots, env.dice.bodyNonce, env.saves);
      if error.None? {
        state := Unlocked(u.(config := u.config.(totp := totp), slots := slots));
        if !WantsDevice(mode) {
          machine.DeleteEntry(env);
        }
      } else if WantsDevice(mode) {
        machine.DeleteEntry(env);
      }
    }

    /** `create_vault`: entry, vault, then the vault again with the secret in it; any error takes the
        entry back but leaves a vault that was already written. */
    method CreateVault(mode: AuthMode, password: Option<string>, totpSecret: Option<string>, env: Env)
      requires Valid()
      modifies this, store, machine
      ensures Valid()
      ensures var e := Security.CreateVault(old(Now()), mode, password, totpSecret, env);
              Now() == e.after && machine.writes == old(machine.writes) + e.writes
      ensures CreationGuarantees(old(Now()), mode, password, totpSecret, env,
              Security.CreateVault(old(Now()), mode, password, totpSecret, env))
    {
      CreationIsGuarded(Now(), mode, password, totpSecret, env);
      hide CreationGuarantees;
      var r := RunCreateSteps(mode, password, totpSecret, env);
      match r
      case Ok(unlocked) => state := SkippingCode(unlocked);
      case Err(e) =>
        if WantsDevice(mode) {
          machine.DeleteEntry(env);
        }
        if state.Setup? {
          state := Setup(Some(e));
        }
    }

    method RunCreateSteps(mode: AuthMode, password: Option<string>, totpSecret: Option<string>, env: Env)
      returns (r: Result<OpenVault, VaultError>)
      requires Valid()
      modifies store, machine
      ensures var steps := CreateSteps(old(Now()), mode, password, totpSecret, env);
              && r == steps.result && Now() == steps.effect.after
              && machine.writes == old(machine.writes) + steps.effect.writes
    {
      hide WrapDevice, PasswordSlots, FreshDevice, Decrypt;
      var mk := Random(env.dice.masterKey);
      var slots := PasswordSlots(password, mk, env.dice);
      if WantsDevice(mode) {
        var st := FreshDevice(env).(totpSecret := if mode == TotpDaily then totpSecret else None);
        if !env.storeOpens || !env.entryWrites {
          return Err(CredentialStoreFailed);
        }
        machine.WriteEntry(Some(st));
        slots := slots + [WrapDevice(st.deviceKey, env.dice.deviceSalt, env.dice.deviceNonce, mk)];
      } else {
        slots := slots + [];
      }
      r := store.InitSlots(mk, slots, env);
      if r.Err? {
        return;
      }
      if KeepsSecret(mode) && totpSecret.Some? {
        var config := r.value.config.(totp := totpSecret);
        var error := store.Save(config, mk, slots, env.dice.secondBodyNonce, env.savesAgain);
        if error.Some? {
          return Err(error.value);
        }
        r := Ok(OpenVault(config, mk, slots));
      }
    }

    method RunMigrateSteps(newPassword: string, storeAvailable: bool, env: Env)
      returns (r: Result<OpenVault, VaultError>)
      requires Valid()
      modifies store, machine
      ensures var steps := MigrateSteps(old(Now()), newPassword, storeAvailable, env);
              && r == steps.result && Now() == steps.effect.after
              && machine.writes == old(machine.writes) + steps.effect.writes
    {
      if machine.legacySecret.None? {
        return Err(ConfigNotFound);
      }
      var secret := machine.legacySecret.value;
      r := store.Load(secret, env, state);
      if r.Err? {
        return;
      }
      var unlocked := r.value;
      var slots := PasswordSlots(Some(newPassword), unlocked.masterKey, env.dice);
      if storeAvailable {
        var st := FreshDevice(env).(totpSecret := Some(secret));
        if !env.storeOpens || !env.entryWrites {
          return Err(CredentialStoreFailed);
        }
        machine.WriteEntry(Some(st));
        slots := slots + [WrapDevice(st.deviceKey, env.dice.deviceSalt, env.dice.deviceNonce, unlocked.masterKey)];
      } else {
        slots := slots + [];
      }
      var config := unlocked.config.(totp := Some(secret));
      var error := store.Save(config, unlocked.masterKey, slots, env.dice.bodyNonce, env.savesAgain);
      if error.Some? {
        return Err(error.value);
      }
      return Ok(OpenVault(config, unlocked.masterKey, slots));
    }

    /** The plaintext secret goes only after the replacement has been written. */
    method MigrateTotpOnlyVault(newPassword: string, storeAvailable: bool, env: Env)
      requires Valid()
      modifies this, store, machine
      ensures Valid()
      ensures var e := Migrate(old(Now()), newPassword, storeAvailable, env);
              Now() == e.after && machine.writes == old(machine.writes) + e.writes
      ensures storeAvailable == env.storeOpens ==>
                ConversionGuarantees(old(Now()), newPassword, env,
                  Migrate(old(Now()), newPassword, storeAvailable, env))
    {
      ConversionIsGuarded(Now(), newPassword, env);
      hide ConversionGuarantees;
      var r := RunMigrateSteps(newPassword, storeAvailable, env);
      match r
      case Ok(unlocked) =>
        if env.discards {
          machine.DiscardLegacySecret();
        }
        state := SkippingCode(unlocked);
      case Err(e) =>
        machine.DeleteEntry(env);
        if state.Locked? {
          state := state.(error := Some(Failed(e)));
        }
    }

    method EditConfig(rest: nat, rollsBack: bool, env: Env)
      requires Valid()
      modifies this, machine
      ensures Valid()
      ensures var e := Edit(old(Now()), rest, rollsBack, env);
              Now() == e.after && machine.writes == old(machine.writes) + e.writes
      ensures EditGuarantees(old(Now()), rest, rollsBack, Edit(old(Now()), rest, rollsBack, env), env)
    {
      EditIsGuarded(Now(), rest, rollsBack, env, auth);
      hide EditGuarantees;
      if !state.Unlocked? {
        return;
      }
      var previous := state.u;
      state := Unlocked(state.u.(config := state.u.config.(rest := rest)));
      var error := store.Save(state.u.config, state.u.masterKey, state.u.slots, env.dice.bodyNonce, env.saves);
      if error.Some? && rollsBack {
        state := Unlocked(previous);
      }
    }
  }

  // ---------------------------------------------------------------- what the methods guarantee

  /** Showing the right screen, at launch or on locking: nothing is written, a vault that opens at
      once opens to what it promises, no code screen is shown beyond the limit, and the owner of a
      password gets the screen that fits the entry. */
  ghost predicate ScreenGuarantees(w: World, auth: Authenticator, env: Env, e: Effect) {
    && (forall ledger :: VaultRuns.Matches(w, ledger) && ledger.password.Some? ==>
          Outcomes.ShownRightly(w, ledger, env, e.after.state))
    && VaultRuns.Guarded(w, VaultRuns.Lock(env), e.writes, e.after)
    && CodeRuns.CodesGuarded(w, VaultRuns.Lock(env), auth, e.writes, e.after)
  }

  lemma ScreenIsGuarded(w: World, auth: Authenticator, env: Env)
    ensures ScreenGuarantees(w, auth, env, Security.ResolveInitialState(w, env))
  {
    hide VaultRuns.Guarded, CodeRuns.CodesGuarded, Security.ResolveInitialState, Outcomes.ShownRightly,
      VaultRuns.FileMatches, VaultRuns.SessionMatches;
    forall ledger | VaultRuns.Matches(w, ledger) && ledger.password.Some?
      ensures Outcomes.ShownRightly(w, ledger, env, Security.ResolveInitialState(w, env).after.state)
    {
      Outcomes.ScreenOfAPasswordVault(w, ledger, env);
    }
    VaultRuns.EventsAreGuarded(w, VaultRuns.Lock(env), auth);
    CodeRuns.EventsGuardCodes(w, VaultRuns.Lock(env), auth);
  }

  /** A password attempt, for whatever the vault promises before it: the vault and the session stay in
      order through every durable state, and so does the history of codes. */
  ghost predicate UnlockGuarantees(w: World, password: string, auth: Authenticator, env: Env, e: Effect) {
    && VaultRuns.Guarded(w, VaultRuns.TypePassword(password, env), e.writes, e.after)
    && CodeRuns.CodesGuarded(w, VaultRuns.TypePassword(password, env), auth, e.writes, e.after)
  }

  lemma UnlockIsGuarded(w: World, password: string, auth: Authenticator, env: Env)
    ensures w.state.Locked? && w.state.mode == Unlock ==>
              UnlockGuarantees(w, password, auth, env, Security.TryUnlock(w, password, env))
  {
    hide VaultRuns.Guarded, CodeRuns.CodesGuarded, Security.TryUnlock;
    VaultRuns.EventsAreGuarded(w, VaultRuns.TypePassword(password, env), auth);
    CodeRuns.EventsGuardCodes(w, VaultRuns.TypePassword(password, env), auth);
  }

  ghost predicate CodeGuarantees(w: World, code: string, auth: Authenticator, env: Env, e: Effect) {
    && VaultRuns.Guarded(w, VaultRuns.TypeCode(code, env), e.writes, e.after)
    && CodeRuns.CodesGuarded(w, VaultRuns.TypeCode(code, env), auth, e.writes, e.after)
  }

  lemma CodeIsGuarded(w: World, code: string, auth: Authenticator, env: Env)
    ensures w.state.LockedTotpDaily? ==> CodeGuarantees(w, code, auth, env, TryTotpDaily(w, code, auth, env))
  {
    hide VaultRuns.Guarded, CodeRuns.CodesGuarded, TryTotpDaily;
    VaultRuns.EventsAreGuarded(w, VaultRuns.TypeCode(code, env), auth);
    CodeRuns.EventsGuardCodes(w, VaultRuns.TypeCode(code, env), auth);
  }

  ghost predicate PasswordGuarantees(w: World, current: string, newPassword: string, e: Effect, env: Env) {
    VaultRuns.Guarded(w, VaultRuns.ChangePassword(current, newPassword, env), e.writes, e.after)
  }

  lemma PasswordIsGuarded(w: World, current: string, newPassword: string, env: Env, auth: Authenticator)
    ensures PasswordGuarantees(w, current, newPassword, Security.ChangeMasterPassword(w, current, newPassword, env),
            env)
  {
    hide VaultRuns.Guarded, Security.ChangeMasterPassword;
    VaultRuns.EventsAreGuarded(w, VaultRuns.ChangePassword(current, newPassword, env), auth);
  }

  /** A mode change stores what the mode says, guarantees both, and with a working delete it keeps
      entry and vault together. */
  ghost predicate ModeGuarantees(w: World, mode: AuthMode, password: Option<string>, totpSecret: Option<string>,
                                 auth: Authenticator, env: Env, e: Effect)
  {
    var event := VaultRuns.ChangeMode(mode, password, totpSecret, env);
    && (w.state.Unlocked? ==> Outcomes.ModeChanged(w, mode, password, totpSecret, env, e.after))
    && VaultRuns.Guarded(w, event, e.writes, e.after)
    && CodeRuns.CodesGuarded(w, event, auth, e.writes, e.after)
    && (Coherence.Deletes(env) && Coherence.FreshlyDrawn(w, env) && Coherence.Coherent(w.d) ==>
        Coherence.Coherent(e.after.d))
  }

  lemma ModeIsGuarded(w: World, mode: AuthMode, password: Option<string>, totpSecret: Option<string>,
      auth: Authenticator, env: Env)
    ensures ModeGuarantees(w, mode, password, totpSecret, auth, env,
                           Security.ChangeSecurityMode(w, mode, password, totpSecret, env))
  {
    hide VaultRuns.Guarded, CodeRuns.CodesGuarded, Coherence.Coherent, Coherence.FreshlyDrawn, Outcomes.ModeChanged;
    if w.state.Unlocked? {
      Outcomes.WhatAModeChangeStores(w, mode, password, totpSecret, env);
    }
    var event := VaultRuns.ChangeMode(mode, password, totpSecret, env);
    VaultRuns.EventsAreGuarded(w, event, auth);
    CodeRuns.EventsGuardCodes(w, event, auth);
    if w.state.Unlocked? && Coherence.Deletes(env) && Coherence.FreshlyDrawn(w, env) && Coherence.Coherent(w.d) {
      Coherence.ModeChangeStaysCoherent(w, mode, password, totpSecret, env);
    }
    assert !w.state.Unlocked? ==> Security.ChangeSecurityMode(w, mode, password, totpSecret, env).after == w;
    hide Security.ChangeSecurityMode;
  }

  ghost predicate EditGuarantees(w: World, rest: nat, rollsBack: bool, e: Effect, env: Env) {
    VaultRuns.Guarded(w, VaultRuns.EditConfig(rest, rollsBack, env), e.writes, e.after)
  }

  lemma EditIsGuarded(w: World, rest: nat, rollsBack: bool, env: Env, auth: Authenticator)
    ensures EditGuarantees(w, rest, rollsBack, Edit(w, rest, rollsBack, env), env)
  {
    hide VaultRuns.Guarded, Edit;
    VaultRuns.EventsAreGuarded(w, VaultRuns.EditConfig(rest, rollsBack, env), auth);
  }

  /** A creation: a new vault in order with its session, the password the only way in at every point
      but by the old file, and entry and vault together where the mode has a device. */
  ghost predicate CreationGuarantees(w: World, mode: AuthMode, password: Option<string>, totpSecret: Option<string>,
      env: Env, e: Effect) {
    && (w.d.legacySecret.None? && w.state.Setup? && e.after.state.Unlocked? ==>
          VaultRuns.Matches(e.after, VaultRuns.Ledger(password, Random(env.dice.masterKey), e.after.state.u.config)))
    && (w.state.Setup? ==> Outcomes.Created(w, mode, password, totpSecret, env, e.after))
    && (forall i :: 0 <= i < |e.writes| ==>
          e.writes[i].vault == VaultRuns.CreationFile(w, mode, password, totpSecret, env, i + 1))
    && (WantsDevice(mode) && Coherence.Deletes(env) && Coherence.FreshlyDrawn(w, env) ==> Coherence.Coherent(e.after.d))
  }

  lemma CreationIsGuarded(w: World, mode: AuthMode, password: Option<string>, totpSecret: Option<string>, env: Env)
    ensures CreationGuarantees(w, mode, password, totpSecret, env,
            Security.CreateVault(w, mode, password, totpSecret, env))
  {
    hide VaultRuns.Matches, Coherence.Coherent, Coherence.FreshlyDrawn, VaultRuns.CreationFile, CreateSteps,
      Outcomes.Created;
    if w.state.Setup? {
      Outcomes.WhatACreationStores(w, mode, password, totpSecret, env);
    }
    var e := Security.CreateVault(w, mode, password, totpSecret, env);
    if Coherence.FreshlyDrawn(w, env) {
      Coherence.CreationCoherence(w, mode, password, totpSecret, env);
    }
    if w.d.legacySecret.None? && CreateSteps(w, mode, password, totpSecret, env).result.Ok? {
      VaultRuns.CreationMatches(w, mode, password, totpSecret, env);
    }
    forall i | 0 <= i < |e.writes|
      ensures e.writes[i].vault == VaultRuns.CreationFile(w, mode, password, totpSecret, env, i + 1)
    {
      VaultRuns.CreationPoints(w, mode, password, totpSecret, env, i + 1);
      assert VaultRuns.LeftBy(w, e, i + 1) == e.writes[i];
    }
    VaultRuns.FailedCreationState(w, mode, password, totpSecret, env);
  }

  /** A conversion passes only through states that open with the old secret, or with the new
      password. */
  ghost predicate ConversionGuarantees(w: World, newPassword: string, env: Env, e: Effect) {
    forall ledger, secret :: Coherence.Legacy(w, ledger, secret) && ledger.password == Some(secret) ==>
      Coherence.ThroughPoints(e, secret, newPassword)
  }

  lemma ConversionIsGuarded(w: World, newPassword: string, env: Env)
    ensures ConversionGuarantees(w, newPassword, env, Migrate(w, newPassword, env.storeOpens, env))
  {
    hide Coherence.Legacy, Coherence.ThroughPoints, Migrate;
    forall ledger, secret | Coherence.Legacy(w, ledger, secret) && ledger.password == Some(secret)
      ensures Coherence.ThroughPoints(Migrate(w, newPassword, env.storeOpens, env), secret, newPassword)
    {
      Coherence.ConversionPoints(w, ledger, secret, newPassword, env);
    }
  }

  /** Reconciling after some writes is reconciling from scratch, after those writes. */
  lemma ReconcileAppends(e: Effect, unlocked: OpenVault, env: Env)
    ensures Reconcile(e, unlocked, env).after == Reconcile(Start(e.after), unlocked, env).after
    ensures Reconcile(e, unlocked, env).writes == e.writes + Reconcile(Start(e.after), unlocked, env).writes
  {
  }

  lemma FinishAppends(e: Effect, u: UnlockedState, mode: AuthMode, totp: Option<string>, built: Option<seq<KeySlot>>,
      env: Env)
    ensures FinishMode(e, u, mode, totp, built, env).after
            == FinishMode(Start(e.after), u, mode, totp, built, env).after
    ensures FinishMode(e, u, mode, totp, built, env).writes
            == e.writes + FinishMode(Start(e.after), u, mode, totp, built, env).writes
  {
  }
}
