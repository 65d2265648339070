/**
 Whole runs of one instance over one vault: launches, lock screens, unlocks, edits, password and
 mode changes, lost credential-store entries, and crashes after any durable step of any of them.

 A ledger beside the run says what the last vault write that took effect promised: which password
 opens the vault, under which master key, and what configuration is in it.
 */
module VaultRuns {
  import opened Wrappers
  import opened Format
  import opened Keyslot
  import opened Totp
  import opened Security

  datatype Event =
    | Relaunch(env: Env)
    | Lock(env: Env)
    | TypePassword(password: string, env: Env)
    | TypeCode(code: string, env: Env)
    | SecondFactor(code: string, env: Env)
    | Visit(screen: Screen)
    | EditConfig(rest: nat, rollsBack: bool, env: Env)
    | ChangePassword(current: string, newPassword: string, env: Env)
    | ChangeMode(mode: AuthMode, modePassword: Option<string>, totpSecret: Option<string>, env: Env)
    | EntryLost
    | Crash(during: Event, after: nat, env: Env)

  /** One event.  A crash stops another event after some of its durable writes and relaunches. */
  function Performed(w: World, event: Event, auth: Authenticator): Effect {
    match event
    case Relaunch(env) => Launch(w.d, env)
    case Lock(env) => ResolveInitialState(w, env)
    case TypePassword(password, env) =>
      if w.state.Locked? && w.state.mode == Unlock then TryUnlock(w, password, env) else Start(w)
    case TypeCode(code, env) =>
      if w.state.LockedTotpDaily? then TryTotpDaily(w, code, auth, env) else Start(w)
    case SecondFactor(code, env) => Effect([], VerifyTotpPrompt(w, code, auth, env))
    case Visit(screen) =>
      if w.state.Unlocked? && !w.state.u.screen.TotpPrompt? && !screen.TotpPrompt?
      then Show(Start(w), Unlocked(w.state.u.(screen := screen))) else Start(w)
    case EditConfig(rest, rollsBack, env) => Edit(w, rest, rollsBack, env)
    case ChangePassword(current, newPassword, env) => ChangeMasterPassword(w, current, newPassword, env)
    case ChangeMode(mode, password, totpSecret, env) => ChangeSecurityMode(w, mode, password, totpSecret, env)
    case EntryLost => PutEntry(Start(w), None)
    case Crash(during, k, env) => Crashed(w, Performed(w, during, auth), k, env)
  }

  /** The process dies after `k` of the writes of `e`, and a new one starts. */
  function Crashed(w: World, e: Effect, k: nat, env: Env): Effect {
    var passed := if k < |e.writes| then e.writes[..k] else e.writes;
    var launched := Launch(if passed == [] then w.d else passed[|passed| - 1], env);
    Effect(passed + launched.writes, launched.after)
  }

  datatype Ledger = Ledger(password: Option<string>, masterKey: Key, config: Config)

  /** What the user was told would hold once the vault write of `event` takes effect. */
  function Promised(ledger: Ledger, w: World, event: Event): Ledger {
    match event
    case TypePassword(_, env) =>
      if w.d.vault.Some? && w.d.vault.value.FileV1? then ledger.(masterKey := Random(env.dice.masterKey))
      else ledger.(config := ledger.config.(schema := CURRENT_SCHEMA_VERSION))
    case EditConfig(rest, _, _) =>
      if w.state.Unlocked? then ledger.(config := w.state.u.config.(rest := rest)) else ledger
    case ChangePassword(_, newPassword, _) =>
      if w.state.Unlocked? then ledger.(password := Some(newPassword), config := w.state.u.config) else ledger
    case ChangeMode(mode, password, totpSecret, _) =>
      if w.state.Unlocked? then
        ledger.(password := if password.Some? then password else ledger.password,
                config := w.state.u.config.(totp := NewTotp(w.state.u, mode, totpSecret)))
      else ledger
    case Crash(during, _, _) => Promised(ledger, w, during)
    case _ => ledger
  }

  function NextLedger(ledger: Ledger, w: World, event: Event, auth: Authenticator): Ledger {
    if Performed(w, event, auth).after.d.vault == w.d.vault then ledger else Promised(ledger, w, event)
  }

  // ---------------------------------------------------------------- the invariant

  /** Every slot wraps the one master key, and the password slot, if any, is under `password`. */
  ghost predicate SlotsMatch(slots: seq<KeySlot>, mk: Key, password: Option<string>) {
    && slots != []
    && (forall s :: s in slots ==> Wraps(s, mk))
    && (match password
        case None => !Has(slots, SLOT_PASSWORD)
        case Some(p) => Has(slots, SLOT_PASSWORD) && IsPasswordSlot(Find(slots, SLOT_PASSWORD).value, p, mk))
  }

  predicate Readable(config: Config) {
    1 <= config.schema <= CURRENT_SCHEMA_VERSION
  }

  ghost predicate FileMatches(file: VaultFile, ledger: Ledger) {
    && Readable(ledger.config)
    && match file
       case Undecodable => false
       case FileV1(params, salt, nonce, body) =>
         ledger.password.Some?
         && body == Sealed(Stretched(ledger.password.value, salt, params), nonce, (params, salt), ledger.config)
       case FileV2(slots, nonce, body) =>
         && body == Sealed(ledger.masterKey, nonce, slots, ledger.config)
         && SlotsMatch(slots, ledger.masterKey, ledger.password)
  }

  ghost predicate SessionMatches(state: AppState, d: Durable, ledger: Ledger) {
    state.Unlocked? ==>
      && d.vault.Some? && d.vault.value.FileV2?
      && state.u.masterKey == ledger.masterKey
      && SlotsMatch(state.u.slots, ledger.masterKey, ledger.password)
      && Readable(state.u.config)
  }

  ghost predicate Matches(w: World, ledger: Ledger) {
    && w.d.legacySecret.None?
    && w.d.vault.Some?
    && FileMatches(w.d.vault.value, ledger)
    && SessionMatches(w.state, w.d, ledger)
  }

  // ---------------------------------------------------------------- opening

  function Migrated(config: Config): Config {
    config.(schema := CURRENT_SCHEMA_VERSION)
  }

  lemma PasswordOpens(file: VaultFile, ledger: Ledger, tried: string)
    requires FileMatches(file, ledger) && file.FileV2?
    ensures OpenWithPassword(file, tried)
            == if ledger.password == Some(tried) then
              Ok(OpenVault(Migrated(ledger.config), ledger.masterKey, file.slots))
               else Err(WrongPasswordOrCorrupt)
  {
    if ledger.password.Some? {
      PasswordSlotOpens(Find(file.slots, SLOT_PASSWORD).value, ledger.password.value, ledger.masterKey, tried);
    }
  }

  /** A device key opens the vault exactly when it is the one its device slot was wrapped under. */
  lemma DeviceOpens(file: VaultFile, ledger: Ledger, device: nat)
    requires FileMatches(file, ledger) && file.FileV2?
    ensures OpenWithDevice(file, device)
            == if Has(file.slots, SLOT_DEVICE) && IsDeviceSlot(Find(file.slots, SLOT_DEVICE).value, device,
              ledger.masterKey)
               then Ok(OpenVault(Migrated(ledger.config), ledger.masterKey, file.slots))
               else Err(WrongPasswordOrCorrupt)
  {
    if Has(file.slots, SLOT_DEVICE) {
      var slot := Find(file.slots, SLOT_DEVICE).value;
      var enrolled: nat :| IsDeviceSlot(slot, enrolled, ledger.masterKey);
      DeviceSlotOpens(slot, enrolled, ledger.masterKey, device);
    }
  }

  lemma DeviceLoadMatches(w: World, ledger: Ledger, device: nat, env: Env)
    requires Matches(w, ledger)
    ensures var opening := LoadWithDevice(w, device, env);
            && opening.effect.writes == [] && opening.effect.after.d == w.d
            && opening.effect.after.state == w.state
            && (opening.result.Ok? ==> w.d.vault.value.FileV2?)
            && (opening.result.Ok? ==>
                  opening.result.value == OpenVault(Migrated(ledger.config), ledger.masterKey, w.d.vault.value.slots))
  {
    if w.d.vault.value.FileV2? {
      DeviceOpens(w.d.vault.value, ledger, device);
    }
  }

  /** From a lock screen, a password loads the vault if and only if it is the one in force, and
      then yields exactly the configuration of the last write that took effect. */
  lemma OnlyThePasswordInForceLoads(w: World, ledger: Ledger, tried: string, env: Env)
    requires Matches(w, ledger) && Claims(w, env) && env.saves
    ensures Load(w, tried, env).result.Ok? <==> ledger.password == Some(tried)
    ensures ledger.password == Some(tried) ==>
              Migrated(Load(w, tried, env).result.value.config) == Migrated(ledger.config)
  {
    if w.d.vault.value.FileV2? {
      PasswordOpens(w.d.vault.value, ledger, tried);
    }
  }

  // ---------------------------------------------------------------- slot lists that match

  lemma PasswordSlotWraps(password: string, params: KdfParams, salt: Salt, nonce: Nonce, mk: Key)
    ensures var slot := WrapPassword(password, params, salt, nonce, mk);
            IsPasswordSlot(slot, password, mk) && Wraps(slot, mk)
  {
    assert IsPasswordSlot(WrapPassword(password, params, salt, nonce, mk), password, mk);
  }

  lemma DeviceSlotWraps(device: nat, salt: Salt, nonce: Nonce, mk: Key)
    ensures var slot := WrapDevice(device, salt, nonce, mk);
            IsDeviceSlot(slot, device, mk) && Wraps(slot, mk)
  {
    assert IsDeviceSlot(WrapDevice(device, salt, nonce, mk), device, mk);
  }

  lemma ReplacingPasswordMatches(slots: seq<KeySlot>, mk: Key, old_: Option<string>, slot: KeySlot, password: string)
    requires SlotsMatch(slots, mk, old_) && IsPasswordSlot(slot, password, mk)
    ensures SlotsMatch(Replaced(slots, SLOT_PASSWORD, slot), mk, Some(password))
  {
    assert Wraps(slot, mk);
    FindAfterReplacing(slots, SLOT_PASSWORD, slot, SLOT_PASSWORD);
    MembersAfterReplacing(slots, SLOT_PASSWORD, slot);
  }

  lemma ReplacingDeviceMatches(slots: seq<KeySlot>, mk: Key, password: Option<string>, slot: KeySlot, device: nat)
    requires SlotsMatch(slots, mk, password) && IsDeviceSlot(slot, device, mk)
    ensures SlotsMatch(Replaced(slots, SLOT_DEVICE, slot), mk, password)
    ensures Find(Replaced(slots, SLOT_DEVICE, slot), SLOT_DEVICE) == Some(slot)
  {
    assert Wraps(slot, mk);
    FindAfterReplacing(slots, SLOT_DEVICE, slot, SLOT_PASSWORD);
    FindAfterReplacing(slots, SLOT_DEVICE, slot, SLOT_DEVICE);
    MembersAfterReplacing(slots, SLOT_DEVICE, slot);
  }

  /** The slot set of a mode change keeps a password slot whenever there was one or one was typed. */
  lemma ModeSlotsMatch(u: UnlockedState, ledger: Ledger, password: Option<string>, env: Env, wantsDevice: bool)
    requires SlotsMatch(u.slots, ledger.masterKey, ledger.password) && u.masterKey == ledger.masterKey
    ensures var slots := KeptPasswordSlots(u, password, env.dice)
                         + if wantsDevice then
                           [WrapDevice(env.dice.deviceKey, env.dice.deviceSalt, env.dice.deviceNonce, u.masterKey)]
                             else [];
            slots != [] ==> SlotsMatch(slots, ledger.masterKey, if password.Some? then password else ledger.password)
  {
    var kept := KeptPasswordSlots(u, password, env.dice);
    var device := WrapDevice(env.dice.deviceKey, env.dice.deviceSalt, env.dice.deviceNonce, u.masterKey);
    DeviceSlotWraps(env.dice.deviceKey, env.dice.deviceSalt, env.dice.deviceNonce, u.masterKey);
    if password.Some? {
      PasswordSlotWraps(password.value, RECOVERY, env.dice.passwordSalt, env.dice.passwordNonce, u.masterKey);
    }
    var slots := kept + if wantsDevice then [device] else [];
    if slots != [] && kept == [] {
      assert slots == [device];
      assert Find(slots[1..], SLOT_PASSWORD) == None;
    }
    assert forall s :: s in slots ==> s == device || s in kept;
  }

  // ---------------------------------------------------------------- every operation

  /** What one operation may do to the durable state: the vault file changes at most once, and the
      last write is the state at the end. */
  ghost predicate OneVaultWrite(w: World, e: Effect) {
    && (forall i, j :: 0 <= i <= j < |e.writes| && e.writes[i].vault != w.d.vault ==>
        e.writes[j].vault == e.after.d.vault)
    && (forall i :: 0 <= i < |e.writes| ==> e.writes[i].legacySecret == w.d.legacySecret)
    && (if e.writes == [] then e.after.d == w.d else e.writes[|e.writes| - 1] == e.after.d)
  }

  /** The vault file is the old one as the ledger has it, or the one the operation promised. */
  ghost predicate KeepsVault(w: World, ledger: Ledger, e: Effect, promised: Ledger) {
    && OneVaultWrite(w, e)
    && e.after.d.legacySecret.None? && e.after.d.vault.Some?
    && FileMatches(e.after.d.vault.value, if e.after.d.vault == w.d.vault then ledger else promised)
  }

  ghost predicate Keeps(w: World, ledger: Ledger, e: Effect, promised: Ledger) {
    && KeepsVault(w, ledger, e, promised)
    && SessionMatches(e.after.state, e.after.d, if e.after.d.vault == w.d.vault then ledger else promised)
  }

  lemma NothingYet(w: World, ledger: Ledger, promised: Ledger)
    requires Matches(w, ledger)
    ensures Keeps(w, ledger, Start(w), promised)
  {
  }

  lemma AfterEntryWrite(w: World, ledger: Ledger, e: Effect, promised: Ledger, entry: Option<DeviceState>)
    requires KeepsVault(w, ledger, e, promised)
    ensures KeepsVault(w, ledger, PutEntry(e, entry), promised)
  {
    var e' := PutEntry(e, entry);
    assert e'.writes[..|e.writes|] == e.writes;
  }

  lemma AfterEntryWriteToo(w: World, ledger: Ledger, e: Effect, promised: Ledger, entry: Option<DeviceState>)
    requires Keeps(w, ledger, e, promised)
    ensures Keeps(w, ledger, PutEntry(e, entry), promised)
  {
    AfterEntryWrite(w, ledger, e, promised, entry);
  }

  lemma AfterVaultWrite(w: World, ledger: Ledger, e: Effect, promised: Ledger, file: VaultFile)
    requires KeepsVault(w, ledger, e, promised) && e.after.d.vault == w.d.vault
    requires FileMatches(file, promised)
    ensures KeepsVault(w, ledger, PutVault(e, file), promised)
  {
    NotWrittenYet(w, e);
  }

  lemma NotWrittenYet(w: World, e: Effect)
    requires OneVaultWrite(w, e) && e.after.d.vault == w.d.vault && e.after.d.legacySecret == w.d.legacySecret
    ensures forall i :: 0 <= i < |e.writes| ==> e.writes[i].vault == w.d.vault
    ensures forall file :: OneVaultWrite(w, PutVault(e, file))
  {
    if e.writes != [] {
      var last := |e.writes| - 1;
      assert e.writes[last] == e.after.d;
      forall i | 0 <= i < |e.writes| ensures e.writes[i].vault == w.d.vault {
        assert i <= last;
      }
    }
  }

  /** A save under the promised slots and configuration; a failed one changes nothing. */
  lemma AfterSave(w: World, ledger: Ledger, e: Effect, promised: Ledger, slots: seq<KeySlot>, nonce: Nonce, works: bool)
    requires KeepsVault(w, ledger, e, promised) && e.after.d.vault == w.d.vault
    requires SlotsMatch(slots, promised.masterKey, promised.password) && Readable(promised.config)
    ensures var r := Save(e, promised.config, promised.masterKey, slots, nonce, works);
            && r.Ok? == works
            && (works ==> KeepsVault(w, ledger, r.value, promised) && r.value.after.state == e.after.state
                          && r.value.after.d.vault.value.FileV2? && r.value.after.d.vault.value.slots == slots)
  {
    if works {
      AfterVaultWrite(w, ledger, e, promised, SealVault(promised.config, promised.masterKey, slots, nonce).value);
    }
  }

  /** Showing a lock screen writes nothing, and opens the vault only through its device slot. */
  lemma ScreenEffect(w: World, env: Env)
    ensures var e := ResolveInitialState(w, env);
            && e.writes == [] && e.after.d == w.d
            && (e.after.state.Unlocked? ==> w.d.entry.Some?)
            && (e.after.state.Unlocked? ==>
                  var opening := LoadWithDevice(w, w.d.entry.value.deviceKey, env);
                  opening.result.Ok? && e.after.state == AskingForCode(opening.result.value))
  {
  }

  lemma ScreensMatch(w: World, ledger: Ledger, env: Env, promised: Ledger)
    requires Matches(w, ledger)
    ensures var e := ResolveInitialState(w, env);
            e.writes == [] && e.after.d == w.d && Keeps(w, ledger, e, promised)
  {
    var e := ResolveInitialState(w, env);
    ScreenEffect(w, env);
    if e.after.state.Unlocked? {
      DeviceLoadMatches(w, ledger, w.d.entry.value.deviceKey, env);
    }
    Quiet(w, ledger, e, promised);
  }

  lemma Quiet(w: World, ledger: Ledger, e: Effect, promised: Ledger)
    requires Matches(w, ledger) && e.writes == [] && e.after.d == w.d && SessionMatches(e.after.state, w.d, ledger)
    ensures Keeps(w, ledger, e, promised)
  {
  }

  lemma LaunchMatches(d: Durable, ledger: Ledger, env: Env)
    requires d.legacySecret.None? && d.vault.Some? && FileMatches(d.vault.value, ledger)
    ensures var e := Launch(d, env);
            e.writes == [] && e.after.d == d && Matches(e.after, ledger)
  {
    ScreensMatch(World(d, false, Setup(None)), ledger, env, ledger);
  }

  lemma ReconcileMatches(e: Effect, w: World, ledger: Ledger, unlocked: OpenVault, env: Env, promised: Ledger)
    requires KeepsVault(w, ledger, e, promised) && e.after.d.vault == w.d.vault && w.d.vault.value.FileV2?
    requires promised == ledger.(config := Migrated(ledger.config))
    requires unlocked == OpenVault(promised.config, ledger.masterKey, w.d.vault.value.slots)
    ensures KeepsVault(w, ledger, Reconcile(e, unlocked, env), promised)
    ensures Reconcile(e, unlocked, env).after.d.vault.value.FileV2?
  {
    if Has(unlocked.slots, SLOT_DEVICE) {
      match ReadEntry(e.after.d, env)
      case Err(_) =>
      case Ok(Some(st)) => AfterEntryWrite(w, ledger, e, promised, Some(RecordPasswordCheck(st, env.clock)));
      case Ok(None) => ReenrolMatches(e, w, ledger, unlocked, env, promised);
    }
  }

  lemma ReenrolMatches(e: Effect, w: World, ledger: Ledger, unlocked: OpenVault, env: Env, promised: Ledger)
    requires KeepsVault(w, ledger, e, promised) && e.after.d.vault == w.d.vault && w.d.vault.value.FileV2?
    requires promised == ledger.(config := Migrated(ledger.config))
    requires unlocked == OpenVault(promised.config, ledger.masterKey, w.d.vault.value.slots)
    requires Has(unlocked.slots, SLOT_DEVICE) && ReadEntry(e.after.d, env) == Ok(None)
    ensures KeepsVault(w, ledger, Reconcile(e, unlocked, env), promised)
    ensures Reconcile(e, unlocked, env).after.d.vault.value.FileV2?
  {
    var st := FreshDevice(env).(totpSecret := unlocked.config.totp);
    var slot := WrapDevice(st.deviceKey, env.dice.deviceSalt, env.dice.deviceNonce, ledger.masterKey);
    var slots := Replaced(unlocked.slots, SLOT_DEVICE, slot);
    var enrolled := PutEntry(e, Some(st));
    AfterEntryWrite(w, ledger, e, promised, Some(st));
    if env.savesAgain {
      DeviceSlotWraps(st.deviceKey, env.dice.deviceSalt, env.dice.deviceNonce, ledger.masterKey);
      ReplacingDeviceMatches(unlocked.slots, ledger.masterKey, ledger.password, slot, st.deviceKey);
      AfterSave(w, ledger, enrolled, promised, slots, env.dice.bodyNonce, true);
    } else {
      AfterEntryWrite(w, ledger, enrolled, promised, None);
    }
  }

  lemma PasswordUnlockMatches(w: World, ledger: Ledger, password: string, env: Env)
    requires Matches(w, ledger) && w.state.Locked?
    ensures Keeps(w, ledger, TryUnlock(w, password, env), Promised(ledger, w, TypePassword(password, env)))
  {
    var promised := Promised(ledger, w, TypePassword(password, env));
    NothingYet(w, ledger, promised);
    if Claims(w, env) {
      if w.d.vault.value.FileV2? {
        PasswordOpens(w.d.vault.value, ledger, password);
        if ledger.password == Some(password) {
          var held := Start(w.(held := true));
          assert KeepsVault(w, ledger, held, promised);
          ReconcileMatches(held, w, ledger, OpenVault(promised.config, ledger.masterKey, w.d.vault.value.slots), env,
            promised);
        }
      } else {
        UpgradeMatches(w, ledger, password, env);
      }
    }
  }

  lemma UpgradeMatches(w: World, ledger: Ledger, password: string, env: Env)
    requires Matches(w, ledger) && w.state.Locked? && Claims(w, env) && w.d.vault.value.FileV1?
    ensures Keeps(w, ledger, TryUnlock(w, password, env), ledger.(masterKey := Random(env.dice.masterKey)))
  {
    var promised := ledger.(masterKey := Random(env.dice.masterKey));
    var file := w.d.vault.value;
    var slot := WrapPassword(password, file.params, env.dice.upgradeSalt, env.dice.upgradeNonce, promised.masterKey);
    PasswordSlotWraps(password, file.params, env.dice.upgradeSalt, env.dice.upgradeNonce, promised.masterKey);
    assert Find([slot], SLOT_PASSWORD) == Some(slot);
    assert Find([slot][1..], SLOT_DEVICE) == None;
    assert !Has([slot], SLOT_DEVICE);
    var held := Start(w.(held := true));
    assert KeepsVault(w, ledger, held, promised);
    if ledger.password == Some(password) {
      AfterSave(w, ledger, held, promised, [slot], env.dice.upgradeBodyNonce, env.saves);
    }
  }

  lemma DailyUnlockMatches(w: World, ledger: Ledger, code: string, auth: Authenticator, env: Env)
    requires Matches(w, ledger) && w.state.LockedTotpDaily?
    ensures Keeps(w, ledger, TryTotpDaily(w, code, auth, env), ledger)
  {
    match ReadEntry(w.d, env)
    case Ok(Some(st)) =>
      if st.totpSecret.None? {
        Quiet(w, ledger, TryTotpDaily(w, code, auth, env), ledger);
      } else if CheckCode(auth, st.totpSecret.value, code, env.clock, st.replayStep).Accepted? {
        CodeAcceptedMatches(w, ledger, code, auth, env, st,
          CheckCode(auth, st.totpSecret.value, code, env.clock, st.replayStep).step);
      } else {
        CodeRejectedMatches(w, ledger, code, auth, env, st);
      }
    case _ => Quiet(w, ledger, TryTotpDaily(w, code, auth, env), ledger);
  }

  lemma CodeRejectedMatches(w: World, ledger: Ledger, code: string, auth: Authenticator, env: Env, st: DeviceState)
    requires Matches(w, ledger) && w.state.LockedTotpDaily?
    requires ReadEntry(w.d, env) == Ok(Some(st)) && st.totpSecret.Some?
    requires !CheckCode(auth, st.totpSecret.value, code, env.clock, st.replayStep).Accepted?
    ensures Keeps(w, ledger, TryTotpDaily(w, code, auth, env), ledger)
  {
    var r := TryTotpDaily(w, code, auth, env);
    if env.entryWrites {
      NothingYet(w, ledger, ledger);
      AfterEntryWrite(w, ledger, Start(w), ledger, Some(Failing(st)));
      assert r.writes == PutEntry(Start(w), Some(Failing(st))).writes;
    } else {
      Quiet(w, ledger, r, ledger);
    }
  }

  /** What accepting a code does, whatever opening the vault then says. */
  lemma CodeAcceptedEffect(w: World, code: string, auth: Authenticator, env: Env, st: DeviceState, step: nat)
    requires w.state.LockedTotpDaily?
    requires ReadEntry(w.d, env) == Ok(Some(st)) && st.totpSecret.Some?
    requires CheckCode(auth, st.totpSecret.value, code, env.clock, st.replayStep) == Accepted(step)
    ensures var r := TryTotpDaily(w, code, auth, env);
            var spent := st.(replayStep := step, failedAttempts := 0);
            var e := if env.entryWrites then PutEntry(Start(w), Some(spent)) else Start(w);
            var opening := LoadWithDevice(e.after, st.deviceKey, env);
            && opening.effect.writes == [] && opening.effect.after.d == e.after.d
            && r.writes == e.writes && r.after.d == e.after.d
            && (r.after.state.Unlocked? ==> opening.result.Ok? && r.after.state == SkippingCode(opening.result.value))
  {
    var spent := st.(replayStep := step, failedAttempts := 0);
    var e := if env.entryWrites then PutEntry(Start(w), Some(spent)) else Start(w);
    assert e.writes + [] == e.writes;
  }

  lemma CodeAcceptedMatches(w: World, ledger: Ledger, code: string, auth: Authenticator, env: Env, st: DeviceState,
      step: nat)
    requires Matches(w, ledger) && w.state.LockedTotpDaily?
    requires ReadEntry(w.d, env) == Ok(Some(st)) && st.totpSecret.Some?
    requires CheckCode(auth, st.totpSecret.value, code, env.clock, st.replayStep) == Accepted(step)
    ensures Keeps(w, ledger, TryTotpDaily(w, code, auth, env), ledger)
  {
    var spent := st.(replayStep := step, failedAttempts := 0);
    var e := if env.entryWrites then PutEntry(Start(w), Some(spent)) else Start(w);
    CodeAcceptedEffect(w, code, auth, env, st, step);
    AfterEntryWrite(w, ledger, Start(w), ledger, Some(spent));
    DeviceLoadMatches(e.after, ledger, st.deviceKey, env);
  }

  /** A save that happens to produce the very file that was there promised nothing new. */
  lemma OldLedgerIfUnchanged(w: World, ledger: Ledger, promised: Ledger, slots: seq<KeySlot>, nonce: Nonce)
    requires Matches(w, ledger) && SlotsMatch(slots, promised.masterKey, promised.password)
    requires SealVault(promised.config, promised.masterKey, slots, nonce).Ok?
    requires Some(SealVault(promised.config, promised.masterKey, slots, nonce).value) == w.d.vault
    ensures promised == ledger
  {
  }

  /** The state after a successful save with which the session continues. */
  function SavedSession(e: Effect, promised: Ledger, slots: seq<KeySlot>, nonce: Nonce, screen: Screen): Effect {
    Show(PutVault(e, FileV2(slots, nonce, Sealed(promised.masterKey, nonce, slots, promised.config))),
         Unlocked(UnlockedState(promised.config, promised.masterKey, slots, screen)))
  }

  lemma SavedSessionMatches(w: World, ledger: Ledger, e: Effect, promised: Ledger, slots: seq<KeySlot>, nonce: Nonce,
      screen: Screen)
    requires Matches(w, ledger) && KeepsVault(w, ledger, e, promised) && e.after.d.vault == w.d.vault
    requires SlotsMatch(slots, promised.masterKey, promised.password) && Readable(promised.config)
    ensures Keeps(w, ledger, SavedSession(e, promised, slots, nonce, screen), promised)
  {
    AfterSave(w, ledger, e, promised, slots, nonce, true);
    var file := SealVault(promised.config, promised.masterKey, slots, nonce).value;
    if Some(file) == w.d.vault {
      OldLedgerIfUnchanged(w, ledger, promised, slots, nonce);
    }
  }

  lemma SavedAtOnceMatches(w: World, ledger: Ledger, promised: Ledger, slots: seq<KeySlot>, nonce: Nonce,
      screen: Screen)
    requires Matches(w, ledger)
    requires SlotsMatch(slots, promised.masterKey, promised.password) && Readable(promised.config)
    ensures Keeps(w, ledger, SavedSession(Start(w), promised, slots, nonce, screen), promised)
  {
    NothingYet(w, ledger, promised);
    SavedSessionMatches(w, ledger, Start(w), promised, slots, nonce, screen);
  }

  lemma PasswordChangeMatches(w: World, ledger: Ledger, current: string, newPassword: string, env: Env, r: Effect,
      promised: Ledger)
    requires Matches(w, ledger) && w.state.Unlocked?
    requires r == ChangeMasterPassword(w, current, newPassword, env)
    requires promised == ledger.(password := Some(newPassword), config := w.state.u.config)
    ensures Keeps(w, ledger, r, promised)
  {
    if r == Start(w) {
      NothingYet(w, ledger, promised);
    } else {
      PasswordSlotsMatch(w.state.u, ledger, newPassword, env);
      SavedAtOnceMatches(w, ledger, promised, PasswordChangeSlots(w.state.u, newPassword, env), env.dice.bodyNonce,
        SettingsScreen);
      PasswordEffect(w, promised, current, newPassword, env);
    }
  }

  function PasswordChangeSlots(u: UnlockedState, newPassword: string, env: Env): seq<KeySlot> {
    Replaced(u.slots, SLOT_PASSWORD,
             WrapPassword(newPassword, INTERACTIVE, env.dice.passwordSalt, env.dice.passwordNonce, u.masterKey))
  }

  lemma PasswordSlotsMatch(u: UnlockedState, ledger: Ledger, newPassword: string, env: Env)
    requires SlotsMatch(u.slots, ledger.masterKey, ledger.password) && u.masterKey == ledger.masterKey
    ensures SlotsMatch(PasswordChangeSlots(u, newPassword, env), ledger.masterKey, Some(newPassword))
  {
    var slot := WrapPassword(newPassword, INTERACTIVE, env.dice.passwordSalt, env.dice.passwordNonce, u.masterKey);
    PasswordSlotWraps(newPassword, INTERACTIVE, env.dice.passwordSalt, env.dice.passwordNonce, u.masterKey);
    ReplacingPasswordMatches(u.slots, u.masterKey, ledger.password, slot, newPassword);
  }

  lemma PasswordEffect(w: World, promised: Ledger, current: string, newPassword: string, env: Env)
    requires w.state.Unlocked? && w.state.u.masterKey == promised.masterKey && w.state.u.config == promised.config
    ensures var r := ChangeMasterPassword(w, current, newPassword, env);
            || r == Start(w)
            || r == SavedSession(Start(w), promised, PasswordChangeSlots(w.state.u, newPassword, env),
              env.dice.bodyNonce, SettingsScreen)
  {
  }

  lemma ModeChangeMatches(w: World, ledger: Ledger, mode: AuthMode, password: Option<string>,
      totpSecret: Option<string>,
                          env: Env, r: Effect, promised: Ledger)
    requires Matches(w, ledger) && w.state.Unlocked?
    requires r == ChangeSecurityMode(w, mode, password, totpSecret, env)
    requires promised == ledger.(password := if password.Some? then password else ledger.password,
                                 config := w.state.u.config.(totp := NewTotp(w.state.u, mode, totpSecret)))
    ensures Keeps(w, ledger, r, promised)
  {
    var e := ModeEntryStep(w, mode, totpSecret, env);
    ModeEffect(w, mode, password, totpSecret, env, promised);
    if r == Start(w) || r == PutEntry(Start(w), None) || r == e || r == PutEntry(e, None) {
      EntryOnlyMatches(w, ledger, e, promised, r);
    } else {
      ModeSlotsMatch(w.state.u, ledger, password, env, WantsDevice(mode));
      ModeSavedMatches(w, ledger, e, promised, ModeSlots(w, mode, password, env), env, w.state.u.screen);
    }
  }

  lemma EntryOnlyMatches(w: World, ledger: Ledger, e: Effect, promised: Ledger, r: Effect)
    requires Matches(w, ledger)
    requires e == Start(w) || e == PutEntry(Start(w), e.after.d.entry)
    requires r == Start(w) || r == PutEntry(Start(w), None) || r == e || r == PutEntry(e, None)
    ensures Keeps(w, ledger, r, promised)
  {
    NothingYet(w, ledger, promised);
    AfterEntryWriteToo(w, ledger, Start(w), promised, None);
    AfterEntryWriteToo(w, ledger, Start(w), promised, e.after.d.entry);
    AfterEntryWriteToo(w, ledger, e, promised, None);
  }

  function ModeEntryStep(w: World, mode: AuthMode, totpSecret: Option<string>, env: Env): Effect
    requires w.state.Unlocked?
  {
    var st := FreshDevice(env).(totpSecret := if mode == TotpDaily then NewTotp(w.state.u, mode, totpSecret) else None);
    if WantsDevice(mode) then PutEntry(Start(w), Some(st)) else Start(w)
  }

  function ModeSlots(w: World, mode: AuthMode, password: Option<string>, env: Env): seq<KeySlot>
    requires w.state.Unlocked?
  {
    KeptPasswordSlots(w.state.u, password, env.dice)
    + if WantsDevice(mode) then
      [WrapDevice(env.dice.deviceKey, env.dice.deviceSalt, env.dice.deviceNonce, w.state.u.masterKey)] else []
  }

  /** The ways a mode change can end: nothing, the entry written, the vault written, and in each
      case the entry possibly deleted after that. */
  lemma ModeEffect(w: World, mode: AuthMode, password: Option<string>, totpSecret: Option<string>, env: Env,
      promised: Ledger)
    requires w.state.Unlocked? && w.state.u.masterKey == promised.masterKey
    requires promised.config == w.state.u.config.(totp := NewTotp(w.state.u, mode, totpSecret))
    ensures var r := ChangeSecurityMode(w, mode, password, totpSecret, env);
            var e := ModeEntryStep(w, mode, totpSecret, env);
            var slots := ModeSlots(w, mode, password, env);
            var changed := SavedSession(e, promised, slots, env.dice.bodyNonce, w.state.u.screen);
            || r == Start(w) || r == PutEntry(Start(w), None) || r == e || r == PutEntry(e, None)
            || ((r == changed || r == PutEntry(changed, None)) && slots != [])
  {
  }

  lemma ModeSavedMatches(w: World, ledger: Ledger, e: Effect, promised: Ledger, slots: seq<KeySlot>, env: Env,
      screen: Screen)
    requires Matches(w, ledger)
    requires e == Start(w) || e == PutEntry(Start(w), e.after.d.entry)
    requires SlotsMatch(slots, promised.masterKey, promised.password) && Readable(promised.config)
    ensures var changed := SavedSession(e, promised, slots, env.dice.bodyNonce, screen);
            Keeps(w, ledger, changed, promised) && Keeps(w, ledger, PutEntry(changed, None), promised)
  {
    NothingYet(w, ledger, promised);
    if e != Start(w) { AfterEntryWrite(w, ledger, Start(w), promised, e.after.d.entry); }
    SavedSessionMatches(w, ledger, e, promised, slots, env.dice.bodyNonce, screen);
    AfterEntryWriteToo(w, ledger, SavedSession(e, promised, slots, env.dice.bodyNonce, screen), promised, None);
  }

  // ---------------------------------------------------------------- main results

  /** The events of the lock screens. */
  lemma LockedEventKeeps(w: World, ledger: Ledger, event: Event, auth: Authenticator)
    requires Matches(w, ledger)
    requires event.Relaunch? || event.Lock? || event.TypePassword? || event.TypeCode?
    ensures Keeps(w, ledger, Performed(w, event, auth), Promised(ledger, w, event))
  {
    var promised := Promised(ledger, w, event);
    NothingYet(w, ledger, promised);
    match event
    case Relaunch(env) =>
      LaunchMatches(w.d, ledger, env);
      Quiet(w, ledger, Launch(w.d, env), promised);
    case Lock(env) => ScreensMatch(w, ledger, env, promised);
    case TypePassword(password, env) =>
      if w.state.Locked? { PasswordUnlockMatches(w, ledger, password, env); }
    case TypeCode(code, env) =>
      if w.state.LockedTotpDaily? { DailyUnlockMatches(w, ledger, code, auth, env); }
  }

  /** The events of an open vault, and the loss of the entry. */
  lemma OpenEventKeeps(w: World, ledger: Ledger, event: Event, auth: Authenticator)
    requires Matches(w, ledger)
    requires event.SecondFactor? || event.Visit? || event.EditConfig? || event.ChangePassword? || event.ChangeMode?
            || event.EntryLost?
    ensures Keeps(w, ledger, Performed(w, event, auth), Promised(ledger, w, event))
  {
    var promised := Promised(ledger, w, event);
    if event.EntryLost? {
      NothingYet(w, ledger, promised);
      AfterEntryWriteToo(w, ledger, Start(w), promised, None);
    } else if event.EditConfig? {
      EditMatches(w, ledger, event.rest, event.rollsBack, event.env);
    } else if event.ChangePassword? && w.state.Unlocked? {
      PasswordChangeMatches(w, ledger, event.current, event.newPassword, event.env, Performed(w, event, auth),
        promised);
    } else if event.ChangeMode? && w.state.Unlocked? {
      ModeChangeMatches(w, ledger, event.mode, event.modePassword, event.totpSecret, event.env,
        Performed(w, event, auth), promised);
    } else {
      Quiet(w, ledger, Performed(w, event, auth), promised);
    }
  }

  /** Every event keeps the invariant, and the ledger moves on exactly if the vault file changed. */
  lemma {:induction false} EveryEventKeeps(w: World, ledger: Ledger, event: Event, auth: Authenticator)
    requires Matches(w, ledger)
    ensures Keeps(w, ledger, Performed(w, event, auth), Promised(ledger, w, event))
    decreases event
  {
    if event.Crash? {
      EveryEventKeeps(w, ledger, event.during, auth);
      CrashKeeps(w, ledger, Performed(w, event.during, auth), Promised(ledger, w, event.during), event.after,
        event.env);
    } else if event.Relaunch? || event.Lock? || event.TypePassword? || event.TypeCode? {
      LockedEventKeeps(w, ledger, event, auth);
    } else {
      OpenEventKeeps(w, ledger, event, auth);
    }
  }

  lemma EditMatches(w: World, ledger: Ledger, rest: nat, rollsBack: bool, env: Env)
    requires Matches(w, ledger)
    ensures Keeps(w, ledger, Edit(w, rest, rollsBack, env), Promised(ledger, w, EditConfig(rest, rollsBack, env)))
  {
    var promised := Promised(ledger, w, EditConfig(rest, rollsBack, env));
    if !w.state.Unlocked? || !env.saves {
      Quiet(w, ledger, Edit(w, rest, rollsBack, env), promised);
    } else {
      SavedAtOnceMatches(w, ledger, promised, w.state.u.slots, env.dice.bodyNonce, w.state.u.screen);
    }
  }

  /** The durable state a crash after `k` writes of `e` leaves. */
  function LeftBy(w: World, e: Effect, k: nat): Durable {
    if k == 0 || e.writes == [] then w.d
    else if k <= |e.writes| then e.writes[k - 1]
    else e.writes[|e.writes| - 1]
  }

  /** At every point between the durable steps of an operation, the vault file is the old one as
      the ledger has it or the new one as promised. */
  lemma EveryPointMatches(w: World, ledger: Ledger, e: Effect, promised: Ledger, k: nat)
    requires Matches(w, ledger) && Keeps(w, ledger, e, promised)
    ensures var d := LeftBy(w, e, k);
            && d.legacySecret.None? && d.vault.Some?
            && (d.vault == w.d.vault || d.vault == e.after.d.vault)
            && FileMatches(d.vault.value, if d.vault == w.d.vault then ledger else promised)
  {
    if k > 0 && e.writes != [] {
      var i := if k <= |e.writes| then k - 1 else |e.writes| - 1;
      assert e.writes[i] == LeftBy(w, e, k);
    }
  }

  lemma CrashKeeps(w: World, ledger: Ledger, e: Effect, promised: Ledger, k: nat, env: Env)
    requires Matches(w, ledger) && Keeps(w, ledger, e, promised)
    ensures Keeps(w, ledger, Crashed(w, e, k, env), promised)
  {
    hide Matches, FileMatches, Launch, OneVaultWrite;
    var passed := if k < |e.writes| then e.writes[..k] else e.writes;
    var d := if passed == [] then w.d else passed[|passed| - 1];
    assert d == LeftBy(w, e, k);
    EveryPointMatches(w, ledger, e, promised, k);
    var kept := if d.vault == w.d.vault then ledger else promised;
    LaunchMatches(d, kept, env);
    var launched := Launch(d, env);
    assert passed + launched.writes == passed;
    PrefixWritesOnce(w, e, passed, launched.after);
  }

  lemma PrefixWritesOnce(w: World, e: Effect, passed: seq<Durable>, after: World)
    requires OneVaultWrite(w, e) && passed <= e.writes
    requires after.d == if passed == [] then w.d else passed[|passed| - 1]
    ensures OneVaultWrite(w, Effect(passed, after))
  {
    if passed != [] {
      var last := |passed| - 1;
      forall i, j | 0 <= i <= j < |passed| && passed[i].vault != w.d.vault ensures passed[j].vault == after.d.vault {
        assert e.writes[i] == passed[i] && e.writes[j] == passed[j] && e.writes[last] == passed[last];
      }
    }
  }

  /** What an event guarantees, as a caller sees it: a world in order stays in order, and every
      durable state it passes through has the old vault file, or the promised one, opening as the
      ledger of that file says. */
  ghost predicate Guarded(w: World, event: Event, writes: seq<Durable>, after: World) {
    forall ledger :: Matches(w, ledger) ==> GuardedFor(w, ledger, Promised(ledger, w, event), writes, after)
  }

  ghost predicate GuardedFor(w: World, ledger: Ledger, promised: Ledger, writes: seq<Durable>, after: World) {
    && Matches(after, if after.d.vault == w.d.vault then ledger else promised)
    && forall i :: 0 <= i < |writes| ==>
         && writes[i].legacySecret.None? && writes[i].vault.Some?
         && FileMatches(writes[i].vault.value, if writes[i].vault == w.d.vault then ledger else promised)
  }

  lemma EventsAreGuarded(w: World, event: Event, auth: Authenticator)
    ensures var e := Performed(w, event, auth);
            Guarded(w, event, e.writes, e.after)
  {
    hide Matches, FileMatches, Performed, Promised;
    var e := Performed(w, event, auth);
    forall ledger | Matches(w, ledger) ensures GuardedFor(w, ledger, Promised(ledger, w, event), e.writes, e.after) {
      var promised := Promised(ledger, w, event);
      EveryEventKeeps(w, ledger, event, auth);
      forall i | 0 <= i < |e.writes|
        ensures e.writes[i].legacySecret.None? && e.writes[i].vault.Some?
        ensures FileMatches(e.writes[i].vault.value, if e.writes[i].vault == w.d.vault then ledger else promised)
      {
        EveryPointMatches(w, ledger, e, promised, i + 1);
      }
      KeptMatches(w, ledger, e, promised);
    }
  }

  lemma KeptMatches(w: World, ledger: Ledger, e: Effect, promised: Ledger)
    requires Keeps(w, ledger, e, promised)
    ensures Matches(e.after, if e.after.d.vault == w.d.vault then ledger else promised)
  {
  }

  function Run(w: World, ledger: Ledger, events: seq<Event>, auth: Authenticator): (World, Ledger)
    decreases |events|
  {
    if events == [] then (w, ledger)
    else
      var e := Performed(w, events[0], auth);
      Run(e.after, NextLedger(ledger, w, events[0], auth), events[1..], auth)
  }

  /** Whatever happens, in any order and with any failures and crashes: the password in force and
      no other loads the vault, and it loads exactly the configuration of the last vault write
      that took effect; a device key loads the same configuration if and only if the device slot
      was wrapped under it; and all slots wrap one master key. */
  lemma {:induction false} EveryRunStaysOpenable(w: World, ledger: Ledger, events: seq<Event>, auth: Authenticator)
    requires Matches(w, ledger)
    ensures Matches(Run(w, ledger, events, auth).0, Run(w, ledger, events, auth).1)
    decreases |events|
  {
    if events != [] {
      EveryEventKeeps(w, ledger, events[0], auth);
      EveryRunStaysOpenable(Performed(w, events[0], auth).after, NextLedger(ledger, w, events[0], auth), events[1..],
        auth);
    }
  }

  /** The same with the conclusion spelled out for the next unlock, by password or by device. */
  lemma EveryRunOpensWithThePasswordInForce(w: World, ledger: Ledger, events: seq<Event>, auth: Authenticator,
                                            tried: string, device: nat, env: Env)
    requires Matches(w, ledger) && !env.contended && env.saves
    ensures var (w', ledger') := Run(w, ledger, events, auth);
            && (Load(w', tried, env).result.Ok? <==> ledger'.password == Some(tried))
            && (ledger'.password == Some(tried) ==>
                  Migrated(Load(w', tried, env).result.value.config) == Migrated(ledger'.config))
            && (LoadWithDevice(w', device, env).result.Ok? <==>
                  w'.d.vault.Some? && HasDeviceSlotFor(w'.d.vault.value, device, ledger'.masterKey))
            && (LoadWithDevice(w', device, env).result.Ok? ==>
                  LoadWithDevice(w', device, env).result.value.config == Migrated(ledger'.config))
  {
    EveryRunStaysOpenable(w, ledger, events, auth);
    var (w', ledger') := Run(w, ledger, events, auth);
    OnlyThePasswordInForceLoads(w', ledger', tried, env);
    if w'.d.vault.value.FileV2? {
      DeviceOpens(w'.d.vault.value, ledger', device);
    }
  }

  // ---------------------------------------------------------------- vault writes that power loss takes back

  /** A vault file that was on disk once, and what it promised. */
  datatype Past = Past(file: VaultFile, ledger: Ledger)

  /** An event, or a power loss that takes the vault file back to an earlier one: the directory was
      not synced since. */
  datatype Turn = Happens(event: Event) | PowerLoss(back: nat, env: Env)

  datatype Life = Life(w: World, ledger: Ledger, past: seq<Past>)

  function Lived(life: Life, turn: Turn, auth: Authenticator): Life {
    match turn
    case Happens(event) =>
      var after := Performed(life.w, event, auth).after;
      var ledger := NextLedger(life.ledger, life.w, event, auth);
      Life(after, ledger, if after.d.vault.Some? then life.past + [Past(after.d.vault.value, ledger)] else life.past)
    case PowerLoss(back, env) =>
      if back >= |life.past| then life
      else
        var found := life.past[back];
        Life(Launch(life.w.d.(vault := Some(found.file)), env).after, found.ledger, life.past[..back + 1])
  }

  function Lifetime(life: Life, turns: seq<Turn>, auth: Authenticator): Life
    decreases |turns|
  {
    if turns == [] then life else Lifetime(Lived(life, turns[0], auth), turns[1..], auth)
  }

  ghost predicate LifeMatches(life: Life) {
    && Matches(life.w, life.ledger)
    && forall i :: 0 <= i < |life.past| ==> FileMatches(life.past[i].file, life.past[i].ledger)
  }

  lemma TurnKeeps(life: Life, turn: Turn, auth: Authenticator)
    requires LifeMatches(life)
    ensures LifeMatches(Lived(life, turn, auth))
  {
    hide FileMatches, Performed, Launch, SessionMatches;
    match turn
    case Happens(event) =>
      EveryEventKeeps(life.w, life.ledger, event, auth);
    case PowerLoss(back, env) =>
      if back < |life.past| {
        var found := life.past[back];
        LaunchMatches(life.w.d.(vault := Some(found.file)), found.ledger, env);
      }
  }

  /** Power losses that take completed vault writes back change nothing of this: the vault opens with
      the password that was in force when the file it went back to was written, and with no other,
      to the configuration of that file, whatever has become of the credential entry meanwhile. */
  lemma {:induction false} LifetimesStayOpenable(life: Life, turns: seq<Turn>, auth: Authenticator, tried: string,
      env: Env)
    requires LifeMatches(life) && !env.contended && env.saves
    ensures var end := Lifetime(life, turns, auth);
            && LifeMatches(end)
            && (Load(end.w, tried, env).result.Ok? <==> end.ledger.password == Some(tried))
            && (end.ledger.password == Some(tried) ==>
                  Migrated(Load(end.w, tried, env).result.value.config) == Migrated(end.ledger.config))
    decreases |turns|
  {
    if turns == [] {
      OnlyThePasswordInForceLoads(life.w, life.ledger, tried, env);
    } else {
      hide LifeMatches, Lived, Load;
      TurnKeeps(life, turns[0], auth);
      LifetimesStayOpenable(Lived(life, turns[0], auth), turns[1..], auth, tried, env);
    }
  }

  predicate HasDeviceSlotFor(file: VaultFile, device: nat, mk: Key) {
    && file.FileV2? && Has(file.slots, SLOT_DEVICE)
    && IsDeviceSlot(Find(file.slots, SLOT_DEVICE).value, device, mk)
  }

  /** A vault that was just created is in order, so every run can start there. */
  lemma CreationMatches(w: World, mode: AuthMode, password: Option<string>, totpSecret: Option<string>, env: Env)
    requires w.d.legacySecret.None? && CreateSteps(w, mode, password, totpSecret, env).result.Ok?
    ensures var e := CreateVault(w, mode, password, totpSecret, env);
            e.after.state.Unlocked? && Matches(e.after,
              Ledger(password, Random(env.dice.masterKey), e.after.state.u.config))
  {
    hide WrapPassword, WrapDevice, PasswordSlots, SlotsMatch, Decrypt;
    CreatedSlotsMatch(mode, password, env.dice);
  }

  function CreatedSlots(mode: AuthMode, password: Option<string>, dice: Dice): seq<KeySlot> {
    var mk := Random(dice.masterKey);
    PasswordSlots(password, mk, dice)
    + if WantsDevice(mode) then [WrapDevice(dice.deviceKey, dice.deviceSalt, dice.deviceNonce, mk)] else []
  }

  /** The file of the first save of a creation, and of the second one, with the code secret in it. */
  function FirstFile(mode: AuthMode, password: Option<string>, dice: Dice): VaultFile {
    var slots := CreatedSlots(mode, password, dice);
    FileV2(slots, dice.bodyNonce, Sealed(Random(dice.masterKey), dice.bodyNonce, slots, DEFAULT_CONFIG))
  }

  function SecondFile(mode: AuthMode, password: Option<string>, secret: Option<string>, dice: Dice): VaultFile {
    var slots := CreatedSlots(mode, password, dice);
    FileV2(slots, dice.secondBodyNonce,
           Sealed(Random(dice.masterKey), dice.secondBodyNonce, slots, DEFAULT_CONFIG.(totp := secret)))
  }

  predicate CreationWrites(w: World, mode: AuthMode, password: Option<string>, env: Env) {
    && (WantsDevice(mode) ==> env.storeOpens && env.entryWrites) && Claims(w, env) && env.saves
    && CreatedSlots(mode, password, env.dice) != []
  }

  /** Which vault file is on disk after `k` writes of a creation: the one from before, the first, or
      the second. */
  function CreationFile(w: World, mode: AuthMode, password: Option<string>, totpSecret: Option<string>, env: Env,
      k: nat)
    : Option<VaultFile>
  {
    var first := if WantsDevice(mode) then 2 else 1;
    if !CreationWrites(w, mode, password, env) || k < first then w.d.vault
    else if k > first && KeepsSecret(mode) && totpSecret.Some? && env.savesAgain
    then Some(SecondFile(mode, password, totpSecret, env.dice))
    else Some(FirstFile(mode, password, env.dice))
  }

  ghost predicate CreationSteps(w: World, mode: AuthMode, password: Option<string>, totpSecret: Option<string>,
      env: Env,
                                writes: seq<Durable>)
  {
    && (forall i :: 0 <= i < |writes| ==>
          writes[i].vault == CreationFile(w, mode, password, totpSecret, env, i + 1)
          && writes[i].legacySecret == w.d.legacySecret)
    && |writes| >= (if WantsDevice(mode) && env.storeOpens && env.entryWrites then 1 else 0)
                   + (if CreationWrites(w, mode, password, env) then
                        1 + if KeepsSecret(mode) && totpSecret.Some? && env.savesAgain then 1 else 0
                      else 0)
  }

  lemma CreationStepsAreThose(w: World, mode: AuthMode, password: Option<string>, totpSecret: Option<string>, env: Env)
    ensures CreationSteps(w, mode, password, totpSecret, env,
            CreateSteps(w, mode, password, totpSecret, env).effect.writes)
  {
    hide WrapDevice, PasswordSlots, SealVault, FirstFile, SecondFile;
    CreationSeals(mode, password, totpSecret, env);
  }

  lemma CreationSeals(mode: AuthMode, password: Option<string>, totpSecret: Option<string>, env: Env)
    ensures var slots, mk := CreatedSlots(mode, password, env.dice), Random(env.dice.masterKey);
            && SealVault(DEFAULT_CONFIG, mk, slots, env.dice.bodyNonce)
               == (if slots == [] then Err(NoKeySlots) else Ok(FirstFile(mode, password, env.dice)))
            && SealVault(DEFAULT_CONFIG.(totp := totpSecret), mk, slots, env.dice.secondBodyNonce)
               == (if slots == [] then Err(NoKeySlots) else Ok(SecondFile(mode, password, totpSecret, env.dice)))
  {
    hide WrapDevice, PasswordSlots;
  }

  lemma CreationStepsEnd(w: World, mode: AuthMode, password: Option<string>, totpSecret: Option<string>, env: Env)
    ensures var e := CreateSteps(w, mode, password, totpSecret, env).effect;
            if e.writes == [] then e.after.d == w.d else e.after.d == e.writes[|e.writes| - 1]
    ensures CreateSteps(w, mode, password, totpSecret, env).result.Err? ==>
              var n := |CreateSteps(w, mode, password, totpSecret, env).effect.writes|;
              CreationFile(w, mode, password, totpSecret, env, n + 1)
                == CreationFile(w, mode, password, totpSecret, env, n)
  {
    hide WrapDevice, PasswordSlots;
  }

  lemma CreationPoints(w: World, mode: AuthMode, password: Option<string>, totpSecret: Option<string>, env: Env, k: nat)
    ensures var d := LeftBy(w, CreateVault(w, mode, password, totpSecret, env), k);
            && d.legacySecret == w.d.legacySecret
            && d.vault == CreationFile(w, mode, password, totpSecret, env, k)
  {
    CreationStepsAreThose(w, mode, password, totpSecret, env);
    CreationStepsEnd(w, mode, password, totpSecret, env);
    hide CreateSteps, FirstFile, SecondFile, CreatedSlots;
    var steps := CreateSteps(w, mode, password, totpSecret, env);
    var e := CreateVault(w, mode, password, totpSecret, env);
    assert CreationSteps(w, mode, password, totpSecret, env, e.writes);
  }

  lemma FailedCreationState(w: World, mode: AuthMode, password: Option<string>, totpSecret: Option<string>, env: Env)
    ensures CreateSteps(w, mode, password, totpSecret, env).effect.after.state == w.state
    ensures CreateSteps(w, mode, password, totpSecret, env).result.Err? ==>
              var after := CreateVault(w, mode, password, totpSecret, env).after;
              after.state.Unlocked? ==> w.state.Unlocked?
  {
    hide WrapDevice, PasswordSlots;
  }

  /** At every point of creating a vault, for every error and crash: the file is the one from before,
      or it opens with the chosen password and nothing else. */
  lemma CreationNeverLeavesAFragment(w: World, mode: AuthMode, password: Option<string>, totpSecret: Option<string>,
                                     env: Env, k: nat, later: Env)
    requires w.d.legacySecret.None? && !later.contended && later.saves
    ensures var d := LeftBy(w, CreateVault(w, mode, password, totpSecret, env), k);
            d.vault == w.d.vault
            || forall tried ::
                 Load(World(d, false, AskPassword(None)), tried, later).result.Ok? <==> Some(tried) == password
  {
    CreationPoints(w, mode, password, totpSecret, env, k);
    CreatedSlotsMatch(mode, password, env.dice);
    var d := LeftBy(w, CreateVault(w, mode, password, totpSecret, env), k);
    if d.vault != w.d.vault {
      var second := d.vault == Some(SecondFile(mode, password, totpSecret, env.dice));
      var config := if second then DEFAULT_CONFIG.(totp := totpSecret) else DEFAULT_CONFIG;
      forall tried {
        OnlyThePasswordInForceLoads(World(d, false, AskPassword(None)),
          Ledger(password, Random(env.dice.masterKey), config), tried, later);
      }
    }
  }

  /** A vault to be opened by password and code is written first without the code.  Exactly when it
      is left like that, and the password alone opens it: the process died between the two saves,
      or the second one failed. */
  lemma TheSecondFactorComesSecond(w: World, password: string, secret: string, env: Env, k: nat, later: Env)
    requires w.d.legacySecret.None? && w.d.vault.None? && !later.contended && later.saves
    ensures var d := LeftBy(w, CreateVault(w, PasswordTotp, Some(password), Some(secret), env), k);
            var found := Load(World(d, false, AskPassword(None)), password, later).result;
            && (found.Ok? && found.value.config.totp == None <==>
                  Claims(w, env) && env.saves && k >= 1 && (k == 1 || !env.savesAgain))
            && (found.Ok? && found.value.config.totp == Some(secret) <==>
                  Claims(w, env) && env.saves && k >= 2 && env.savesAgain)
  {
    hide WrapPassword, LeftBy, CreateVault;
    CreationPoints(w, PasswordTotp, Some(password), Some(secret), env, k);
    CreatedSlotsMatch(PasswordTotp, Some(password), env.dice);
    var d := LeftBy(w, CreateVault(w, PasswordTotp, Some(password), Some(secret), env), k);
    if d.vault.Some? {
      var second := d.vault == Some(SecondFile(PasswordTotp, Some(password), Some(secret), env.dice));
      var config := if second then DEFAULT_CONFIG.(totp := Some(secret)) else DEFAULT_CONFIG;
      PasswordOpens(d.vault.value, Ledger(Some(password), Random(env.dice.masterKey), config), password);
    }
  }

  lemma CreatedSlotsMatch(mode: AuthMode, password: Option<string>, dice: Dice)
    ensures var slots := CreatedSlots(mode, password, dice);
            slots != [] ==> SlotsMatch(slots, Random(dice.masterKey), password)
  {
    var mk := Random(dice.masterKey);
    var device := WrapDevice(dice.deviceKey, dice.deviceSalt, dice.deviceNonce, mk);
    var slots := PasswordSlots(password, mk, dice) + if WantsDevice(mode) then [device] else [];
    DeviceSlotWraps(dice.deviceKey, dice.deviceSalt, dice.deviceNonce, mk);
    if password.Some? {
      PasswordSlotWraps(password.value, RECOVERY, dice.passwordSalt, dice.passwordNonce, mk);
      assert Find(slots, SLOT_PASSWORD) == Some(slots[0]);
    } else if slots != [] {
      assert slots == [device];
      assert Find(slots[1..], SLOT_PASSWORD) == None;
    }
    assert forall s :: s in slots ==> s == device || s in PasswordSlots(password, mk, dice);
  }

  /** Through a mode change, at every crash point and for every outcome: a vault with a password
      opens with the old password while the old file stands and with the new one (or still the old,
      if none was typed) once the new file stands.  The password slot is never dropped. */
  lemma ModeChangeNeverLocksOut(w: World, ledger: Ledger, mode: AuthMode, password: Option<string>,
      totpSecret: Option<string>,
                                env: Env, k: nat, later: Env)
    requires Matches(w, ledger) && w.state.Unlocked? && ledger.password.Some? && !later.contended && later.saves
    ensures var e := ChangeSecurityMode(w, mode, password, totpSecret, env);
            var d := LeftBy(w, e, k);
            var inForce := if d.vault == w.d.vault || password.None? then ledger.password.value else password.value;
            forall tried :: Load(World(d, false, AskPassword(None)), tried, later).result.Ok? <==> tried == inForce
  {
    var event := ChangeMode(mode, password, totpSecret, env);
    var promised := Promised(ledger, w, event);
    var e := ChangeSecurityMode(w, mode, password, totpSecret, env);
    ModeChangeMatches(w, ledger, mode, password, totpSecret, env, e, promised);
    EveryPointMatches(w, ledger, e, promised, k);
    var d := LeftBy(w, e, k);
    forall tried {
      OnlyThePasswordInForceLoads(World(d, false, AskPassword(None)), if d.vault == w.d.vault then ledger
        else promised, tried, later);
    }
  }
}
