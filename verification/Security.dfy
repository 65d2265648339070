/**
 What the unlock and security-mode operations of src/app.rs do, as functions on one world: the
 vault file, this machine's credential-store entry, the leftover file of the retired TOTP-only
 mode, whether this process holds the vault lock, and the screen.

 Every operation yields the durable states it passes through, in order, so that a crash after
 any of them can be talked about.  `App` runs the same operations statement by statement and is
 proved against these functions.
 */
module Security {
  import opened Wrappers
  import opened Format
  import opened Keyslot
  import opened Totp

  const MAX_TOTP_FAILURES := 5
  const PASSWORD_CHECK_DAYS := 30

  /** This device's relationship to one vault (src/config/device.rs). */
  datatype DeviceState = DeviceState(
    deviceKey: nat,
    totpSecret: Option<string>,
    replayStep: nat,
    failedAttempts: nat,
    lastPasswordCheck: nat)

  datatype AuthMode = NoPrompt | PasswordOnly | PasswordTotp | TotpDaily

  datatype UnlockMode = Unlock | MigrateTotpOnly

  datatype Notice =
    | NotEnrolled
    | PasswordRequiredNow
    | CodeReplayed
    | TooManyFailures
    | InvalidCode
    | Failed(error: VaultError)

  datatype Screen = MainMenu | TotpPrompt(failed: bool) | SettingsScreen | OtherScreen

  datatype UnlockedState = UnlockedState(config: Config, masterKey: Key, slots: seq<KeySlot>, screen: Screen)

  datatype AppState =
    | Setup(setupError: Option<VaultError>)
    | Locked(mode: UnlockMode, error: Option<Notice>, retryable: bool)
    | LockedTotpDaily(codeError: Option<Notice>, codeRetryable: bool)
    | Unopenable
    | CannotOpen(why: VaultError)
    | Unlocked(u: UnlockedState)

  /** What survives the process. */
  datatype Durable = Durable(vault: Option<VaultFile>, entry: Option<DeviceState>, legacySecret: Option<string>)

  datatype World = World(d: Durable, held: bool, state: AppState)

  /** The durable states passed through, and the world at the end. */
  datatype Effect = Effect(writes: seq<Durable>, after: World)

  /** Values drawn from the system's random source by one operation. */
  datatype Dice = Dice(
    masterKey: nat,
    deviceKey: nat,
    passwordSalt: Salt, passwordNonce: Nonce,
    deviceSalt: Salt, deviceNonce: Nonce,
    upgradeSalt: Salt, upgradeNonce: Nonce, upgradeBodyNonce: Nonce,
    bodyNonce: Nonce, secondBodyNonce: Nonce)

  /** Everything outside the program that one operation meets.  `clock` is `None` before the epoch;
      `contended` says another instance holds the lock; `saves` and `savesAgain` are whether the
      first and second vault write succeed. */
  datatype Env = Env(
    clock: Option<nat>,
    storeOpens: bool, entryReads: bool, entryWrites: bool, entryDeletes: bool,
    contended: bool,
    saves: bool, savesAgain: bool, discards: bool,
    dice: Dice)

  // ---------------------------------------------------------------- device state

  function NowUnix(clock: Option<nat>): nat {
    if clock.Some? then clock.value else 0
  }

  function FreshDevice(env: Env): DeviceState {
    DeviceState(env.dice.deviceKey, None, 0, 0, NowUnix(env.clock))
  }

  function RecordPasswordCheck(st: DeviceState, clock: Option<nat>): DeviceState {
    st.(lastPasswordCheck := NowUnix(clock), failedAttempts := 0)
  }

  /** A limit of 0 disables its trigger. */
  predicate MustEscalate(st: DeviceState, maxFailed: nat, maxAgeDays: nat, clock: Option<nat>) {
    || (maxFailed > 0 && st.failedAttempts >= maxFailed)
    || (maxAgeDays > 0 && NowUnix(clock) > st.lastPasswordCheck + maxAgeDays * 86_400)
  }

  /** One more failure, in a 32-bit counter that saturates. */
  function Failing(st: DeviceState): DeviceState {
    st.(failedAttempts := if st.failedAttempts >= 0xFFFF_FFFF then st.failedAttempts else st.failedAttempts + 1)
  }

  // ---------------------------------------------------------------- durable steps

  function Start(w: World): Effect { Effect([], w) }

  function PutEntry(e: Effect, entry: Option<DeviceState>): Effect {
    var d := e.after.d.(entry := entry);
    Effect(e.writes + [d], e.after.(d := d))
  }

  function PutVault(e: Effect, file: VaultFile): Effect {
    var d := e.after.d.(vault := Some(file));
    Effect(e.writes + [d], e.after.(d := d))
  }

  function DiscardLegacy(e: Effect): Effect {
    var d := e.after.d.(legacySecret := None);
    Effect(e.writes + [d], e.after.(d := d))
  }

  function Show(e: Effect, state: AppState): Effect {
    e.(after := e.after.(state := state))
  }

  /** Opening the credential store and deleting are both best effort. */
  function DeleteEntry(e: Effect, env: Env): Effect {
    if env.storeOpens && env.entryDeletes then PutEntry(e, None) else e
  }

  function Save(e: Effect, config: Config, mk: Key, slots: seq<KeySlot>, nonce: Nonce, works: bool)
    : Result<Effect, VaultError> {
    match SealVault(config, mk, slots, nonce)
    case Err(error) => Err(error)
    case Ok(file) => if works then Ok(PutVault(e, file)) else Err(WriteFailed)
  }

  // ---------------------------------------------------------------- opening the vault (store.rs)

  datatype Opening = Opening(effect: Effect, result: Result<OpenVault, VaultError>)

  predicate Claims(w: World, env: Env) {
    w.held || !env.contended
  }

  function UpgradeV1(w: World, file: VaultFile, password: string, env: Env): Opening
    requires file.FileV1?
  {
    var oldKey := Stretched(password, file.salt, file.params);
    match Decrypt(oldKey, file.v1Nonce, (file.params, file.salt), file.v1Body)
    case None => Opening(Start(w), Err(WrongPasswordOrCorrupt))
    case Some(config) =>
      var mk := Random(env.dice.masterKey);
      var slots := [WrapPassword(password, file.params, env.dice.upgradeSalt, env.dice.upgradeNonce, mk)];
      match Save(Start(w), config, mk, slots, env.dice.upgradeBodyNonce, env.saves)
      case Err(e) => Opening(Start(w), Err(e))
      case Ok(effect) => Opening(effect, Ok(OpenVault(config, mk, slots)))
  }

  /** `load`: the claim comes before the read. */
  function Load(w: World, password: string, env: Env): Opening {
    if !Claims(w, env) then Opening(Start(w), Err(VaultInUse))
    else
      var held := w.(held := true);
      match w.d.vault
      case None => Opening(Start(held), Err(ConfigNotFound))
      case Some(Undecodable) => Opening(Start(held), Err(CorruptFile))
      case Some(FileV1(_, _, _, _)) => UpgradeV1(held, w.d.vault.value, password, env)
      case Some(FileV2(_, _, _)) => Opening(Start(held), OpenWithPassword(w.d.vault.value, password))
  }

  function LoadWithDevice(w: World, device: nat, env: Env): Opening {
    if !Claims(w, env) then Opening(Start(w), Err(VaultInUse))
    else
      var held := w.(held := true);
      match w.d.vault
      case None => Opening(Start(held), Err(ConfigNotFound))
      case Some(file) => Opening(Start(held), OpenWithDevice(file, device))
  }

  // ---------------------------------------------------------------- screens (app.rs)

  function ReadEntry(d: Durable, env: Env): Result<Option<DeviceState>, VaultError> {
    if env.storeOpens && env.entryReads then Ok(d.entry) else Err(CredentialStoreFailed)
  }

  function AskingForCode(unlocked: OpenVault): AppState {
    Unlocked(UnlockedState(unlocked.config, unlocked.masterKey, unlocked.slots,
                           if unlocked.config.totp.Some? then TotpPrompt(false) else MainMenu))
  }

  function SkippingCode(unlocked: OpenVault): AppState {
    Unlocked(UnlockedState(unlocked.config, unlocked.masterKey, unlocked.slots, MainMenu))
  }

  function AskPassword(error: Option<Notice>): AppState {
    Locked(Unlock, error, true)
  }

  function DeviceBackedInitialState(w: World, shape: VaultShape, env: Env): Effect {
    var hasPassword := shape == DeviceAndPasswordShape;
    match ReadEntry(w.d, env)
    case Err(_) => Show(Start(w), if hasPassword then AskPassword(Some(NotEnrolled)) else Unopenable)
    case Ok(None) => Show(Start(w), if hasPassword then AskPassword(Some(NotEnrolled)) else Unopenable)
    case Ok(Some(st)) =>
      if st.totpSecret.None? then
        var opening := LoadWithDevice(w, st.deviceKey, env);
        match opening.result
        case Ok(unlocked) => Show(opening.effect, AskingForCode(unlocked))
        case Err(VaultInUse) => Show(opening.effect, CannotOpen(VaultInUse))
        case Err(SchemaTooNew) => Show(opening.effect, CannotOpen(SchemaTooNew))
        case Err(e) => Show(opening.effect, if hasPassword then AskPassword(Some(Failed(e))) else Unopenable)
      else if hasPassword && MustEscalate(st, MAX_TOTP_FAILURES, PASSWORD_CHECK_DAYS, env.clock) then
        Show(Start(w), AskPassword(Some(PasswordRequiredNow)))
      else Show(Start(w), LockedTotpDaily(None, true))
  }

  function ResolveInitialState(w: World, env: Env): Effect {
    if w.d.legacySecret.Some? then Show(Start(w), Locked(MigrateTotpOnly, None, true))
    else
      match w.d.vault
      case None => Show(Start(w), Setup(None))
      case Some(Undecodable) => Show(Start(w), AskPassword(Some(Failed(CorruptFile))))
      case Some(FileV1(_, _, _, _)) => Show(Start(w), AskPassword(None))
      case Some(FileV2(slots, _, _)) =>
        if ShapeOf(slots) == PasswordShape then Show(Start(w), AskPassword(None))
        else DeviceBackedInitialState(w, ShapeOf(slots), env)
  }

  /** A new process: the kernel released the old one's lock. */
  function Launch(d: Durable, env: Env): Effect {
    ResolveInitialState(World(d, false, Setup(None)), env)
  }

  // ---------------------------------------------------------------- unlocking

  function Reconcile(e: Effect, unlocked: OpenVault, env: Env): Effect {
    if !Has(unlocked.slots, SLOT_DEVICE) then e
    else
      match ReadEntry(e.after.d, env)
      case Err(_) => e
      case Ok(Some(st)) =>
        if env.entryWrites then PutEntry(e, Some(RecordPasswordCheck(st, env.clock))) else e
      case Ok(None) =>
        var st := FreshDevice(env).(totpSecret := unlocked.config.totp);
        var slot := WrapDevice(st.deviceKey, env.dice.deviceSalt, env.dice.deviceNonce, unlocked.masterKey);
        var slots := Replaced(unlocked.slots, SLOT_DEVICE, slot);
        if !env.entryWrites then e
        else
          var enrolled := PutEntry(e, Some(st));
          match Save(enrolled, unlocked.config, unlocked.masterKey, slots, env.dice.bodyNonce, env.savesAgain)
          case Ok(done) => done
          case Err(_) => if env.entryDeletes then PutEntry(enrolled, None) else enrolled
  }

  function TryUnlock(w: World, password: string, env: Env): Effect {
    var opening := Load(w, password, env);
    match opening.result
    case Ok(unlocked) => Show(Reconcile(opening.effect, unlocked, env), AskingForCode(unlocked))
    case Err(SchemaTooNew) => Show(opening.effect, CannotOpen(SchemaTooNew))
    case Err(e) =>
      if w.state.Locked? then
        Show(opening.effect, w.state.(error := Some(Failed(e)), retryable := e != VaultInUse))
      else opening.effect
  }

  function CodeScreen(w: World, notice: Notice): AppState {
    if w.state.LockedTotpDaily? then w.state.(codeError := Some(notice)) else w.state
  }

  /** An accepted code: its step is written before the vault is opened. */
  function SpendCode(w: World, st: DeviceState, step: nat, env: Env): Effect {
    var spent := st.(replayStep := step, failedAttempts := 0);
    var e := if env.entryWrites then PutEntry(Start(w), Some(spent)) else Start(w);
    var opening := LoadWithDevice(e.after, st.deviceKey, env);
    var tried := Effect(e.writes + opening.effect.writes, opening.effect.after);
    match opening.result
    case Ok(unlocked) => Show(tried, SkippingCode(unlocked))
    case Err(VaultInUse) =>
      if w.state.LockedTotpDaily? then Show(tried, LockedTotpDaily(Some(Failed(VaultInUse)), false)) else tried
    case Err(SchemaTooNew) => Show(tried, CannotOpen(SchemaTooNew))
    case Err(error) => Show(tried, CodeScreen(w, Failed(error)))
  }

  function TryTotpDaily(w: World, code: string, auth: Authenticator, env: Env): Effect {
    match ReadEntry(w.d, env)
    case Err(_) => Show(Start(w), AskPassword(Some(NotEnrolled)))
    case Ok(None) => Show(Start(w), AskPassword(Some(NotEnrolled)))
    case Ok(Some(st)) =>
      if st.totpSecret.None? then Show(Start(w), AskPassword(Some(NotEnrolled)))
      else
        match CheckCode(auth, st.totpSecret.value, code, env.clock, st.replayStep)
        case Accepted(step) => SpendCode(w, st, step, env)
        case Replayed =>
          var e := if env.entryWrites then PutEntry(Start(w), Some(Failing(st))) else Start(w);
          Show(e, AskPassword(Some(CodeReplayed)))
        case Invalid =>
          var e := if env.entryWrites then PutEntry(Start(w), Some(Failing(st))) else Start(w);
          if Failing(st).failedAttempts >= MAX_TOTP_FAILURES then Show(e, AskPassword(Some(TooManyFailures)))
          else Show(e, CodeScreen(w, InvalidCode))
  }

  /** The second factor after a password: no replay history is consulted. */
  function VerifyTotpPrompt(w: World, code: string, auth: Authenticator, env: Env): World {
    if !w.state.Unlocked? then w
    else
      var u := w.state.u;
      if u.config.totp.None? then w.(state := Unlocked(u.(screen := MainMenu)))
      else if VerifyEnrollment(auth, u.config.totp.value, code, env.clock) then
        w.(state := Unlocked(u.(screen := MainMenu)))
      else if u.screen.TotpPrompt? then w.(state := Unlocked(u.(screen := TotpPrompt(true))))
      else w
  }

  // ---------------------------------------------------------------- creating and changing

  function WantsDevice(mode: AuthMode): bool {
    mode == NoPrompt || mode == TotpDaily
  }

  function KeepsSecret(mode: AuthMode): bool {
    mode == PasswordTotp || mode == TotpDaily
  }

  const DEFAULT_CONFIG := Config(CURRENT_SCHEMA_VERSION, None, 0)

  function PasswordSlots(password: Option<string>, mk: Key, dice: Dice): seq<KeySlot> {
    if password.None? then []
    else [WrapPassword(password.value, RECOVERY, dice.passwordSalt, dice.passwordNonce, mk)]
  }

  /** The steps of `create_vault` up to its result, with what was done before an error. */
  function CreateSteps(w: World, mode: AuthMode, password: Option<string>, totpSecret: Option<string>, env: Env)
    : Opening {
    var st := FreshDevice(env).(totpSecret := if mode == TotpDaily then totpSecret else None);
    if WantsDevice(mode) && !(env.storeOpens && env.entryWrites) then Opening(Start(w), Err(CredentialStoreFailed))
    else
      var e := if WantsDevice(mode) then PutEntry(Start(w), Some(st)) else Start(w);
      if !Claims(w, env) then Opening(e, Err(VaultInUse))
      else
        var held := e.(after := e.after.(held := true));
        var mk := Random(env.dice.masterKey);
        var slots := PasswordSlots(password, mk, env.dice)
                     + if WantsDevice(mode) then
                       [WrapDevice(st.deviceKey, env.dice.deviceSalt, env.dice.deviceNonce, mk)] else [];
        match Save(held, DEFAULT_CONFIG, mk, slots, env.dice.bodyNonce, env.saves)
        case Err(error) => Opening(held, Err(error))
        case Ok(written) =>
          if KeepsSecret(mode) && totpSecret.Some? then
            var config := DEFAULT_CONFIG.(totp := totpSecret);
            match Save(written, config, mk, slots, env.dice.secondBodyNonce, env.savesAgain)
            case Err(error) => Opening(written, Err(error))
            case Ok(done) => Opening(done, Ok(OpenVault(config, mk, slots)))
          else Opening(written, Ok(OpenVault(DEFAULT_CONFIG, mk, slots)))
  }

  function CreateVault(w: World, mode: AuthMode, password: Option<string>, totpSecret: Option<string>, env: Env)
    : Effect {
    var steps := CreateSteps(w, mode, password, totpSecret, env);
    match steps.result
    case Ok(unlocked) => Show(steps.effect, SkippingCode(unlocked))
    case Err(error) =>
      var e := if WantsDevice(mode) then DeleteEntry(steps.effect, env) else steps.effect;
      if w.state.Setup? then Show(e, Setup(Some(error))) else e
  }

  /** The password slot a mode change ends up with: a new one, else the one already there. */
  function KeptPasswordSlots(u: UnlockedState, password: Option<string>, dice: Dice): seq<KeySlot> {
    if password.Some? then PasswordSlots(password, u.masterKey, dice)
    else if Has(u.slots, SLOT_PASSWORD) then [Find(u.slots, SLOT_PASSWORD).value]
    else []
  }

  function NewTotp(u: UnlockedState, mode: AuthMode, totpSecret: Option<string>): Option<string> {
    if !KeepsSecret(mode) then None else if totpSecret.Some? then totpSecret else u.config.totp
  }

  /** The first half of a mode change: the entry, if the mode has a device, and the new slots. */
  function BuildMode(w: World, u: UnlockedState, mode: AuthMode, password: Option<string>, totp: Option<string>,
      env: Env)
    : (Effect, Option<seq<KeySlot>>)
  {
    var st := FreshDevice(env).(totpSecret := if mode == TotpDaily then totp else None);
    if WantsDevice(mode) && !(env.storeOpens && env.entryWrites) then (Start(w), None)
    else
      var slots := KeptPasswordSlots(u, password, env.dice)
                   + if WantsDevice(mode) then
                     [WrapDevice(st.deviceKey, env.dice.deviceSalt, env.dice.deviceNonce, u.masterKey)] else [];
      (if WantsDevice(mode) then PutEntry(Start(w), Some(st)) else Start(w),
       if slots == [] then None else Some(slots))
  }

  /** The second half: the vault, and the entry deleted if it is left without one. */
  function FinishMode(e: Effect, u: UnlockedState, mode: AuthMode, totp: Option<string>, built: Option<seq<KeySlot>>,
      env: Env): Effect {
    match built
    case None => if WantsDevice(mode) then DeleteEntry(e, env) else e
    case Some(slots) =>
      match Save(e, u.config.(totp := totp), u.masterKey, slots, env.dice.bodyNonce, env.saves)
      case Ok(done) =>
        var changed := Show(done, Unlocked(u.(config := u.config.(totp := totp), slots := slots)));
        if WantsDevice(mode) then changed else DeleteEntry(changed, env)
      case Err(_) => if WantsDevice(mode) then DeleteEntry(e, env) else e
  }

  function ChangeSecurityMode(w: World, mode: AuthMode, password: Option<string>, totpSecret: Option<string>,
      env: Env): Effect {
    if !w.state.Unlocked? then Start(w)
    else
      var totp := NewTotp(w.state.u, mode, totpSecret);
      var built := BuildMode(w, w.state.u, mode, password, totp, env);
      FinishMode(built.0, w.state.u, mode, totp, built.1, env)
  }

  function ChangeMasterPassword(w: World, current: string, newPassword: string, env: Env): Effect {
    if !w.state.Unlocked? || w.state.u.screen != SettingsScreen then Start(w)
    else
      var u := w.state.u;
      match Find(u.slots, SLOT_PASSWORD)
      case None => Start(w)
      case Some(slot) =>
        if UnwrapPassword(slot, current).Err? then Start(w)
        else
          var slot' := WrapPassword(newPassword, INTERACTIVE, env.dice.passwordSalt, env.dice.passwordNonce,
              u.masterKey);
          var slots := Replaced(u.slots, SLOT_PASSWORD, slot');
          match Save(Start(w), u.config, u.masterKey, slots, env.dice.bodyNonce, env.saves)
          case Ok(done) => Show(done, Unlocked(u.(slots := slots)))
          case Err(_) => Start(w)
  }

  /** Any edit of the configuration: memory changes first, then the vault is written, and a failed
      write leaves the edit in memory unless the caller rolls it back. */
  function Edit(w: World, rest: nat, rollsBack: bool, env: Env): Effect {
    if !w.state.Unlocked? then Start(w)
    else
      var u := w.state.u;
      var edited := u.config.(rest := rest);
      match Save(Start(w), edited, u.masterKey, u.slots, env.dice.bodyNonce, env.saves)
      case Ok(done) => Show(done, Unlocked(u.(config := edited)))
      case Err(_) => if rollsBack then Start(w) else Show(Start(w), Unlocked(u.(config := edited)))
  }

  /** The steps of `migrate_totp_only` up to its result. */
  function MigrateSteps(w: World, newPassword: string, storeAvailable: bool, env: Env): Opening {
    match w.d.legacySecret
    case None => Opening(Start(w), Err(ConfigNotFound))
    case Some(secret) =>
      var opening := Load(w, secret, env);
      match opening.result
      case Err(e) => Opening(opening.effect, Err(e))
      case Ok(unlocked) =>
        var st := FreshDevice(env).(totpSecret := Some(secret));
        if storeAvailable && !(env.storeOpens && env.entryWrites) then Opening(opening.effect,
            Err(CredentialStoreFailed))
        else
          var e := if storeAvailable then PutEntry(opening.effect, Some(st)) else opening.effect;
          var slots := PasswordSlots(Some(newPassword), unlocked.masterKey, env.dice)
                       + if storeAvailable then
                         [WrapDevice(st.deviceKey, env.dice.deviceSalt, env.dice.deviceNonce, unlocked.masterKey)]
                           else [];
          var config := unlocked.config.(totp := Some(secret));
          match Save(e, config, unlocked.masterKey, slots, env.dice.bodyNonce, env.savesAgain)
          case Err(error) => Opening(e, Err(error))
          case Ok(done) => Opening(done, Ok(OpenVault(config, unlocked.masterKey, slots)))
  }

  function Migrate(w: World, newPassword: string, storeAvailable: bool, env: Env): Effect {
    var steps := MigrateSteps(w, newPassword, storeAvailable, env);
    match steps.result
    case Ok(unlocked) =>
      Show(if env.discards then DiscardLegacy(steps.effect) else steps.effect, SkippingCode(unlocked))
    case Err(error) =>
      var e := DeleteEntry(steps.effect, env);
      if w.state.Locked? then Show(e, w.state.(error := Some(Failed(error)))) else e
  }
}
