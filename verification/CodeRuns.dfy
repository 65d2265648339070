/**
 The daily code over whole runs: what steps are accepted and how often a wrong code may be typed,
 across quits, restarts and crashes (src/totp.rs, src/app.rs, src/config/device.rs).
 */
module CodeRuns {
  import opened Wrappers
  import opened Format
  import opened Keyslot
  import opened Totp
  import opened Security
  import opened VaultRuns

  /** Within the current enrolment: the steps accepted so far, and the codes refused since a code
      was accepted or a password unlocked the vault. */
  datatype CodeLog = CodeLog(accepted: seq<nat>, refused: nat)

  /** The event replaced this machine's entry by a newly enrolled one. */
  predicate Enrols(before: Durable, after: Durable) {
    after.entry.Some? && (before.entry.None? || before.entry.value.deviceKey != after.entry.value.deviceKey)
  }

  function Logged(log: CodeLog, w: World, event: Event, auth: Authenticator): CodeLog {
    match event
    case TypeCode(code, env) =>
      if w.state.LockedTotpDaily? && ReadEntry(w.d, env).Ok? && ReadEntry(w.d, env).value.Some?
          && w.d.entry.value.totpSecret.Some? then
        match CheckCode(auth, w.d.entry.value.totpSecret.value, code, env.clock, w.d.entry.value.replayStep)
        case Accepted(step) => CodeLog(log.accepted + [step], 0)
        case _ => log.(refused := log.refused + 1)
      else log
    case TypePassword(_, _) =>
      if Performed(w, event, auth).after.state.Unlocked? then log.(refused := 0) else log
    case Crash(during, k, _) =>
      if k > 0 && Performed(w, during, auth).writes != [] then Logged(log, w, during, auth) else log
    case _ => log
  }

  function NextLog(log: CodeLog, w: World, event: Event, auth: Authenticator): CodeLog {
    if Enrols(w.d, Performed(w, event, auth).after.d) then CodeLog([], 0) else Logged(log, w, event, auth)
  }

  /** Entry writes of the daily path work, and newly drawn device keys are new. */
  predicate Sound(w: World, event: Event) {
    match event
    case TypeCode(_, env) => env.entryWrites
    case TypePassword(_, env) => w.d.entry.Some? ==> w.d.entry.value.deviceKey != env.dice.deviceKey
    case ChangeMode(_, _, _, env) => w.d.entry.Some? ==> w.d.entry.value.deviceKey != env.dice.deviceKey
    case Crash(during, _, _) => Sound(w, during)
    case _ => true
  }

  predicate Increasing(steps: seq<nat>) {
    forall i, j :: 0 <= i < j < |steps| ==> steps[i] < steps[j]
  }

  /** What the stored counters know about the log. */
  predicate EntryKnows(d: Durable, log: CodeLog) {
    && Increasing(log.accepted)
    && log.refused <= MAX_TOTP_FAILURES
    && (d.entry.Some? ==>
          && (log.accepted != [] ==> log.accepted[|log.accepted| - 1] <= d.entry.value.replayStep)
          && log.refused <= d.entry.value.failedAttempts <= MAX_TOTP_FAILURES)
  }

  predicate LogMatches(w: World, log: CodeLog) {
    && EntryKnows(w.d, log)
    && (w.state.LockedTotpDaily? && w.d.entry.Some? ==> w.d.entry.value.failedAttempts < MAX_TOTP_FAILURES)
  }

  // ---------------------------------------------------------------- per event

  /** A code screen is only ever offered while fewer than five codes have failed. */
  lemma ScreensRespectTheLimit(w: World, ledger: Ledger, env: Env)
    requires w.d.vault.Some? && FileMatches(w.d.vault.value, ledger) && ledger.password.Some?
    ensures var e := ResolveInitialState(w, env);
            && e.after.d == w.d
            && (e.after.state.LockedTotpDaily? ==>
                  w.d.entry.Some? && w.d.entry.value.failedAttempts < MAX_TOTP_FAILURES)
  {
  }

  lemma LaunchKeepsLog(d: Durable, ledger: Ledger, env: Env, log: CodeLog)
    requires d.vault.Some? && FileMatches(d.vault.value, ledger) && ledger.password.Some? && EntryKnows(d, log)
    ensures Launch(d, env).after.d == d && LogMatches(Launch(d, env).after, log)
  {
    ScreensRespectTheLimit(World(d, false, Setup(None)), ledger, env);
  }

  /** Typing a code: an accepted step is newer than every one before it and resets the count; a
      refused code leaves the replay step as it was and is counted before it is answered, and the
      fifth one takes the code screen away. */
  lemma CodeKeepsLog(w: World, log: CodeLog, code: string, auth: Authenticator, env: Env)
    requires LogMatches(w, log) && w.state.LockedTotpDaily? && env.entryWrites
    ensures var e := TryTotpDaily(w, code, auth, env);
            var log' := Logged(log, w, TypeCode(code, env), auth);
            && LogMatches(e.after, log')
            && !Enrols(w.d, e.after.d)
            && (e.writes != [] ==> e.writes == [e.after.d])
            && (e.writes == [] ==> e.after.d == w.d && log' == log)
  {
    hide CheckCode, LoadWithDevice, Increasing;
    match ReadEntry(w.d, env)
    case Ok(Some(st)) =>
      if st.totpSecret.Some? && CheckCode(auth, st.totpSecret.value, code, env.clock, st.replayStep).Accepted? {
        var step := CheckCode(auth, st.totpSecret.value, code, env.clock, st.replayStep).step;
        CheckCodeMeaning(auth, st.totpSecret.value, code, env.clock, st.replayStep);
        AcceptedAfterAll(log, step, st.replayStep);
        CodeAcceptedEffect(w, code, auth, env, st, step);
      }
    case _ =>
  }

  lemma AcceptedAfterAll(log: CodeLog, step: nat, replayStep: nat)
    requires Increasing(log.accepted) && step > replayStep
    requires log.accepted != [] ==> log.accepted[|log.accepted| - 1] <= replayStep
    ensures Increasing(log.accepted + [step])
  {
    var n := |log.accepted|;
    forall i | 0 <= i < n ensures log.accepted[i] < step {
      assert i == n - 1 || log.accepted[i] < log.accepted[n - 1];
    }
  }

  /** `d` has the entry `w` had, or none, or one newly enrolled. */
  predicate EntryReplaced(w: World, d: Durable, env: Env) {
    || d.entry == w.d.entry
    || d.entry.None?
    || (d.entry.value.deviceKey == env.dice.deviceKey && d.entry.value.failedAttempts == 0)
  }

  /** `d` has the entry `w` had, with a password check stamped on it. */
  predicate EntryChecked(w: World, d: Durable, env: Env) {
    w.d.entry.Some? && d.entry == Some(RecordPasswordCheck(w.d.entry.value, env.clock))
  }

  lemma PasswordEntries(w: World, password: string, env: Env)
    requires w.state.Locked?
    ensures var e := TryUnlock(w, password, env);
            && !e.after.state.LockedTotpDaily?
            && (e.writes != [] ==> e.after.state.Unlocked?)
            && (EntryReplaced(w, e.after.d, env) || (EntryChecked(w, e.after.d, env) && e.after.state.Unlocked?))
            && (forall i :: 0 <= i < |e.writes| ==>
                EntryReplaced(w, e.writes[i], env) || EntryChecked(w, e.writes[i], env))
  {
    hide OpenWithPassword, Replaced, WrapDevice, WrapPassword, Decrypt;
  }

  /** A password attempt: each durable state it passes through has the counters no worse, or a new
      enrolment; and after it no code screen is shown. */
  lemma PasswordKeepsLog(w: World, log: CodeLog, password: string, env: Env)
    requires LogMatches(w, log) && w.state.Locked?
    requires w.d.entry.Some? ==> w.d.entry.value.deviceKey != env.dice.deviceKey
    ensures var e := TryUnlock(w, password, env);
            && !e.after.state.LockedTotpDaily?
            && EntryKnows(e.after.d, if Enrols(w.d, e.after.d) then CodeLog([], 0)
                                     else if e.after.state.Unlocked? then log.(refused := 0) else log)
            && (e.writes != [] ==> e.after.state.Unlocked?)
            && (forall i :: 0 <= i < |e.writes| ==>
                  EntryKnows(e.writes[i], if Enrols(w.d, e.writes[i]) then CodeLog([], 0) else log.(refused := 0)))
  {
    PasswordEntries(w, password, env);
    hide TryUnlock;
  }

  lemma ModeReplacesEntry(w: World, mode: AuthMode, password: Option<string>, totpSecret: Option<string>, env: Env)
    requires w.state.Unlocked?
    ensures var e := ChangeSecurityMode(w, mode, password, totpSecret, env);
            && e.after.state.Unlocked?
            && EntryReplaced(w, e.after.d, env)
            && (forall i :: 0 <= i < |e.writes| ==> EntryReplaced(w, e.writes[i], env))
  {
  }

  lemma ReplacedEntryKeepsLog(w: World, log: CodeLog, d: Durable, env: Env)
    requires EntryKnows(w.d, log) && EntryReplaced(w, d, env)
    requires w.d.entry.Some? ==> w.d.entry.value.deviceKey != env.dice.deviceKey
    ensures EntryKnows(d, if Enrols(w.d, d) then CodeLog([], 0) else log)
  {
  }

  /** Everything else an open vault can do leaves the entry alone. */
  predicate LeavesEntryAlone(event: Event) {
    event.SecondFactor? || event.Visit? || event.EditConfig? || event.ChangePassword?
  }

  lemma EntryLeftAlone(w: World, event: Event, auth: Authenticator)
    requires LeavesEntryAlone(event)
    ensures var e := Performed(w, event, auth);
            && e.after.d.entry == w.d.entry
            && (e.after.state.LockedTotpDaily? ==> w.state.LockedTotpDaily?)
            && (forall i :: 0 <= i < |e.writes| ==> e.writes[i].entry == w.d.entry)
  {
  }

  /** Every durable state an event passes through, and the state it ends in, agrees with the log. */
  ghost predicate LogKept(w: World, e: Effect, logged: CodeLog) {
    && LogMatches(e.after, if Enrols(w.d, e.after.d) then CodeLog([], 0) else logged)
    && (forall i :: 0 <= i < |e.writes| ==>
        EntryKnows(e.writes[i], if Enrols(w.d, e.writes[i]) then CodeLog([], 0) else logged))
    && (e.writes == [] ==> e.after.d == w.d)
  }

  lemma NothingHappened(w: World, log: CodeLog, e: Effect)
    requires EntryKnows(w.d, log) && e.writes == [] && e.after.d == w.d
    requires e.after.state.LockedTotpDaily? && w.d.entry.Some? ==> w.d.entry.value.failedAttempts < MAX_TOTP_FAILURES
    ensures LogKept(w, e, log)
  {
  }

  lemma ScreenEventKeepsLog(w: World, ledger: Ledger, log: CodeLog, event: Event, auth: Authenticator)
    requires Matches(w, ledger) && ledger.password.Some? && LogMatches(w, log)
    requires event.Relaunch? || event.Lock?
    ensures LogKept(w, Performed(w, event, auth), log)
  {
    match event
    case Relaunch(env) =>
      LaunchKeepsLog(w.d, ledger, env, log);
      LaunchMatches(w.d, ledger, env);
    case Lock(env) =>
      ScreensRespectTheLimit(w, ledger, env);
      ScreenEffect(w, env);
    NothingHappened(w, log, Performed(w, event, auth));
  }

  lemma UnlockEventKeepsLog(w: World, log: CodeLog, event: Event, auth: Authenticator)
    requires LogMatches(w, log) && Sound(w, event)
    requires event.TypeCode? || event.TypePassword?
    ensures LogKept(w, Performed(w, event, auth), Logged(log, w, event, auth))
  {
    var e := Performed(w, event, auth);
    if event.TypeCode? && w.state.LockedTotpDaily? {
      CodeKeepsLog(w, log, event.code, auth, event.env);
    } else if event.TypePassword? && w.state.Locked? && w.state.mode == Unlock {
      PasswordKeepsLog(w, log, event.password, event.env);
      PasswordWritesOrNot(w, event.password, event.env);
    } else {
      NothingHappened(w, log, Start(w));
    }
  }

  lemma PasswordWritesOrNot(w: World, password: string, env: Env)
    ensures var e := TryUnlock(w, password, env);
            e.writes == [] ==> e.after.d == w.d
  {
  }

  lemma OpenEventKeepsLog(w: World, log: CodeLog, event: Event, auth: Authenticator)
    requires LogMatches(w, log) && Sound(w, event)
    requires event.ChangeMode? || event.EntryLost? || LeavesEntryAlone(event)
    ensures LogKept(w, Performed(w, event, auth), log)
  {
    if event.ChangeMode? {
      if w.state.Unlocked? {
        ModeEventKeepsLog(w, log, event.mode, event.modePassword, event.totpSecret, event.env);
      } else {
        NothingHappened(w, log, Start(w));
      }
    } else if LeavesEntryAlone(event) {
      EntryLeftAlone(w, event, auth);
      QuietWritesOrNot(w, event, auth);
    }
  }

  lemma QuietWritesOrNot(w: World, event: Event, auth: Authenticator)
    requires LeavesEntryAlone(event)
    ensures Performed(w, event, auth).writes == [] ==> Performed(w, event, auth).after.d == w.d
  {
  }

  lemma ModeEventKeepsLog(w: World, log: CodeLog, mode: AuthMode, password: Option<string>,
      totpSecret: Option<string>, env: Env)
    requires LogMatches(w, log) && w.state.Unlocked?
    requires w.d.entry.Some? ==> w.d.entry.value.deviceKey != env.dice.deviceKey
    ensures LogKept(w, ChangeSecurityMode(w, mode, password, totpSecret, env), log)
  {
    var e := ChangeSecurityMode(w, mode, password, totpSecret, env);
    ModeReplacesEntry(w, mode, password, totpSecret, env);
    ReplacedEntryKeepsLog(w, log, e.after.d, env);
    forall i | 0 <= i < |e.writes| ensures EntryKnows(e.writes[i], if Enrols(w.d, e.writes[i]) then CodeLog([], 0)
        else log) {
      ReplacedEntryKeepsLog(w, log, e.writes[i], env);
    }
    ModeWritesOrNot(w, mode, password, totpSecret, env);
  }

  lemma ModeWritesOrNot(w: World, mode: AuthMode, password: Option<string>, totpSecret: Option<string>, env: Env)
    ensures var e := ChangeSecurityMode(w, mode, password, totpSecret, env);
            e.writes == [] ==> e.after.d == w.d
  {
  }

  lemma CrashKeepsLog(w: World, log: CodeLog, e: Effect, logged: CodeLog, kept: Ledger, k: nat, env: Env)
    requires LogMatches(w, log) && LogKept(w, e, logged)
    requires var d := LeftBy(w, e, k);
             d.legacySecret.None? && d.vault.Some? && FileMatches(d.vault.value, kept) && kept.password.Some?
    ensures LogKept(w, Crashed(w, e, k, env), if k > 0 && e.writes != [] then logged else log)
  {
    var passed := if k < |e.writes| then e.writes[..k] else e.writes;
    var d := LeftBy(w, e, k);
    assert d == if passed == [] then w.d else passed[|passed| - 1];
    if passed != [] { assert d == e.writes[|passed| - 1]; }
    var after := if k > 0 && e.writes != [] then logged else log;
    LaunchKeepsLog(d, kept, env, if Enrols(w.d, d) then CodeLog([], 0) else after);
    LaunchMatches(d, kept, env);
    assert passed + Launch(d, env).writes == passed;
  }

  lemma {:induction false} ThePasswordStays(ledger: Ledger, w: World, event: Event)
    requires ledger.password.Some?
    ensures Promised(ledger, w, event).password.Some?
    decreases event
  {
    if event.Crash? { ThePasswordStays(ledger, w, event.during); }
  }

  lemma {:induction false} EveryEventKeepsLog(w: World, ledger: Ledger, log: CodeLog, event: Event, auth: Authenticator)
    requires Matches(w, ledger) && ledger.password.Some? && LogMatches(w, log) && Sound(w, event)
    ensures LogKept(w, Performed(w, event, auth), Logged(log, w, event, auth))
    decreases event
  {
    if event.Crash? {
      var e := Performed(w, event.during, auth);
      var promised := Promised(ledger, w, event.during);
      EveryEventKeepsLog(w, ledger, log, event.during, auth);
      EveryEventKeeps(w, ledger, event.during, auth);
      EveryPointMatches(w, ledger, e, promised, event.after);
      ThePasswordStays(ledger, w, event.during);
      var kept := if LeftBy(w, e, event.after).vault == w.d.vault then ledger else promised;
      CrashKeepsLog(w, log, e, Logged(log, w, event.during, auth), kept, event.after, event.env);
    } else if event.Relaunch? || event.Lock? {
      ScreenEventKeepsLog(w, ledger, log, event, auth);
    } else if event.TypeCode? || event.TypePassword? {
      UnlockEventKeepsLog(w, log, event, auth);
    } else {
      OpenEventKeepsLog(w, log, event, auth);
    }
  }

  // ---------------------------------------------------------------- main result

  /** Every event of the run is sound where it happens. */
  ghost predicate SoundRun(w: World, events: seq<Event>, auth: Authenticator)
    decreases |events|
  {
    events != [] ==> Sound(w, events[0]) && SoundRun(Performed(w, events[0], auth).after, events[1..], auth)
  }

  function LogOf(w: World, log: CodeLog, events: seq<Event>, auth: Authenticator): CodeLog
    decreases |events|
  {
    if events == [] then log
    else LogOf(Performed(w, events[0], auth).after, NextLog(log, w, events[0], auth), events[1..], auth)
  }

  /** For a vault with a password slot, over every run, with any codes, any clock (backwards too),
      any quits, restarts and crashes: within one enrolment the accepted steps strictly increase,
      and no more than five codes are refused between one accepted code or password unlock and the
      next. */
  lemma {:induction false} CodesAreSpentAndGuessesAreBounded(w: World, ledger: Ledger, log: CodeLog,
      events: seq<Event>, auth: Authenticator)
    requires Matches(w, ledger) && ledger.password.Some? && LogMatches(w, log) && SoundRun(w, events, auth)
    ensures var log' := LogOf(w, log, events, auth);
            Increasing(log'.accepted) && log'.refused <= MAX_TOTP_FAILURES
    decreases |events|
  {
    if events != [] {
      var e := Performed(w, events[0], auth);
      EveryEventKeepsLog(w, ledger, log, events[0], auth);
      EveryEventKeeps(w, ledger, events[0], auth);
      ThePasswordStays(ledger, w, events[0]);
      CodesAreSpentAndGuessesAreBounded(e.after, NextLedger(ledger, w, events[0], auth),
        NextLog(log, w, events[0], auth), events[1..], auth);
    }
  }

  /** A refused code leaves everything but the failure counter of the entry as it was. */
  lemma RefusalsDoNotAdvanceReplay(w: World, code: string, auth: Authenticator, env: Env)
    requires w.d.entry.Some? && w.d.entry.value.totpSecret.Some?
    requires !CheckCode(auth, w.d.entry.value.totpSecret.value, code, env.clock, w.d.entry.value.replayStep).Accepted?
    ensures var after := TryTotpDaily(w, code, auth, env).after.d;
            && after.vault == w.d.vault && after.entry.Some?
            && after.entry.value.(failedAttempts := 0) == w.d.entry.value.(failedAttempts := 0)
  {
  }

  /** What an event guarantees about codes, as a caller sees it. */
  ghost predicate CodesGuarded(w: World, event: Event, auth: Authenticator, writes: seq<Durable>, after: World) {
    forall ledger, log :: Matches(w, ledger) && ledger.password.Some? && LogMatches(w, log) && Sound(w, event) ==>
      LogKept(w, Effect(writes, after), Logged(log, w, event, auth))
  }

  lemma EventsGuardCodes(w: World, event: Event, auth: Authenticator)
    ensures var e := Performed(w, event, auth);
            CodesGuarded(w, event, auth, e.writes, e.after)
  {
    hide Matches, LogMatches, Sound, LogKept, Logged, Performed;
    var e := Performed(w, event, auth);
    assert Effect(e.writes, e.after) == e;
    forall ledger, log | Matches(w, ledger) && ledger.password.Some? && LogMatches(w, log) && Sound(w, event)
      ensures LogKept(w, e, Logged(log, w, event, auth))
    {
      EveryEventKeepsLog(w, ledger, log, event, auth);
    }
  }

  // ---------------------------------------------------------------- the second factor

  /** The code after a password opens the way exactly if some step of the window shows it; nothing
      is recorded of it, and a wrong one changes nothing but the prompt. */
  lemma SecondFactorMeaning(w: World, code: string, auth: Authenticator, env: Env)
    requires w.state.Unlocked? && w.state.u.screen.TotpPrompt? && w.state.u.config.totp.Some?
    ensures var after := VerifyTotpPrompt(w, code, auth, env);
            var passed := exists step: nat ::
                            step > 0 && Shows(auth, w.state.u.config.totp.value, code, env.clock, step);
            after == w.(state := Unlocked(w.state.u.(screen := if passed then MainMenu else TotpPrompt(true))))
  {
    EnrollmentMeaning(auth, w.state.u.config.totp.value, code, env.clock);
  }

  /** So the same code passes twice: locked and unlocked again by password, the prompt takes it again
      while the clock still shows it. */
  lemma TheSameCodePassesTwice(w: World, ledger: Ledger, secret: string, code: string, auth: Authenticator,
      first: Env, relock: Env, again: Env)
    requires Matches(w, ledger) && ledger.password.Some? && w.held && w.d.vault.value.FileV2?
    requires !Has(w.d.vault.value.slots, SLOT_DEVICE) && ledger.config.totp == Some(secret)
    requires w.state.Unlocked? && w.state.u.screen.TotpPrompt? && w.state.u.config.totp == Some(secret)
    requires VerifyTotpPrompt(w, code, auth, first).state.u.screen == MainMenu
    requires exists step: nat :: step > 0 && Shows(auth, secret, code, again.clock, step)
    ensures var locked := ResolveInitialState(VerifyTotpPrompt(w, code, auth, first), relock).after;
            var prompted := TryUnlock(locked, ledger.password.value, relock).after;
            && prompted.state.Unlocked? && prompted.state.u.screen == TotpPrompt(false)
            && VerifyTotpPrompt(prompted, code, auth, again).state.u.screen == MainMenu
  {
    PasswordOpens(w.d.vault.value, ledger, ledger.password.value);
    var locked := ResolveInitialState(VerifyTotpPrompt(w, code, auth, first), relock).after;
    assert locked == w.(state := AskPassword(None));
    var prompted := TryUnlock(locked, ledger.password.value, relock).after;
    assert prompted.state == AskingForCode(OpenVault(Migrated(ledger.config), ledger.masterKey, w.d.vault.value.slots));
    SecondFactorMeaning(prompted, code, auth, again);
  }

  // ---------------------------------------------------------------- why a password is needed

  /** A guess, and what the program meets when it is typed. */
  datatype Guess = Guess(code: string, env: Env)

  /** Each guess is followed by a restart. */
  function Guesses(guesses: seq<Guess>): seq<Event> {
    if guesses == [] then []
    else [TypeCode(guesses[0].code, guesses[0].env), Relaunch(guesses[0].env)] + Guesses(guesses[1..])
  }

  /** The code screen of a vault that only the device opens. */
  predicate AsksADeviceOnlyVault(w: World) {
    && w.state.LockedTotpDaily? && w.d.legacySecret.None?
    && w.d.vault.Some? && w.d.vault.value.FileV2? && ShapeOf(w.d.vault.value.slots) == DeviceShape
    && w.d.entry.Some? && w.d.entry.value.totpSecret.Some?
  }

  /** Each guess is one the check refuses, as wrong or as spent, whatever the clock reads. */
  predicate AllRefused(w: World, guesses: seq<Guess>, auth: Authenticator)
    requires w.d.entry.Some? && w.d.entry.value.totpSecret.Some?
  {
    forall i :: 0 <= i < |guesses| ==>
      var st, guess := w.d.entry.value, guesses[i];
      && guess.env.storeOpens && guess.env.entryReads && guess.env.entryWrites
      && !CheckCode(auth, st.totpSecret.value, guess.code, guess.env.clock, st.replayStep).Accepted?
  }

  /** Without a password slot there is nothing to escalate to and the bound does not hold: restarting
      brings the code screen back after any number of refusals. */
  lemma {:induction false} WithoutAPasswordGuessesAreUnbounded(w: World, log: CodeLog, guesses: seq<Guess>,
      auth: Authenticator)
    requires AsksADeviceOnlyVault(w) && AllRefused(w, guesses, auth)
    ensures LogOf(w, log, Guesses(guesses), auth).refused == log.refused + |guesses|
    decreases |guesses|
  {
    if guesses != [] {
      var code, env := guesses[0].code, guesses[0].env;
      var typed := TryTotpDaily(w, code, auth, env).after;
      var again := Launch(typed.d, env).after;
      RefusedAndBack(w, guesses, auth);
      var events := Guesses(guesses);
      assert events[0] == TypeCode(code, env) && events[1..][0] == Relaunch(env)
          && events[1..][1..] == Guesses(guesses[1..]);
      var log' := log.(refused := log.refused + 1);
      hide CheckCode, AsksADeviceOnlyVault, AllRefused;
      assert NextLog(log, w, events[0], auth) == log';
      assert NextLog(log', typed, events[1..][0], auth) == log';
      WithoutAPasswordGuessesAreUnbounded(again, log', guesses[1..], auth);
    }
  }

  lemma RefusedAndBack(w: World, guesses: seq<Guess>, auth: Authenticator)
    requires AsksADeviceOnlyVault(w) && AllRefused(w, guesses, auth) && guesses != []
    ensures var env := guesses[0].env;
            var typed := TryTotpDaily(w, guesses[0].code, auth, env).after;
            var again := Launch(typed.d, env).after;
            && AsksADeviceOnlyVault(again) && AllRefused(again, guesses[1..], auth)
            && again.d == typed.d && !Enrols(w.d, typed.d)
            && Logged(CodeLog([], 0), w, TypeCode(guesses[0].code, env), auth) == CodeLog([], 1)
  {
    var st, guess := w.d.entry.value, guesses[0];
    assert !CheckCode(auth, st.totpSecret.value, guess.code, guess.env.clock, st.replayStep).Accepted?;
    hide CheckCode;
    var typed := TryTotpDaily(w, guess.code, auth, guess.env).after;
    assert typed.d == w.d.(entry := Some(Failing(st)));
    forall i | 0 <= i < |guesses[1..]| ensures
      var next := guesses[1..][i];
      && next.env.storeOpens && next.env.entryReads && next.env.entryWrites
      && !CheckCode(auth, st.totpSecret.value, next.code, next.env.clock, st.replayStep).Accepted?
    {
      assert guesses[1..][i] == guesses[i + 1];
    }
  }

  /** Such a vault comes about: one that opens without any prompt is created, its owner changes it to
      the daily code, with the password that mode asks for, and the process dies after the entry was
      written and before the vault was. */
  lemma DeviceOnlyVaultsCanAskForCodes(w: World, created: Env, changed: Env, password: string, secret: string,
      later: Env, auth: Authenticator)
    requires w.d.legacySecret.None? && !created.contended && created.storeOpens && created.entryWrites && created.saves
    requires changed.storeOpens && changed.entryWrites && later.storeOpens && later.entryReads
    ensures var made := CreateVault(w, NoPrompt, None, None, created).after;
            var change := ChangeMode(TotpDaily, Some(password), Some(secret), changed);
            && made.state.Unlocked? && Matches(made, Ledger(None, Random(created.dice.masterKey), DEFAULT_CONFIG))
            && AsksADeviceOnlyVault(Performed(made, Crash(change, 1, later), auth).after)
  {
    CreationMatches(w, NoPrompt, None, None, created);
    CreatedForTheDevice(w, created);
    var made := CreateVault(w, NoPrompt, None, None, created).after;
    FirstWriteIsTheEntry(made, Some(password), Some(secret), changed);
    hide ChangeSecurityMode, CreateVault, Matches;
    var change := ChangeMode(TotpDaily, Some(password), Some(secret), changed);
    var e := Performed(made, change, auth);
    var d := made.d.(entry := Some(FreshDevice(changed).(totpSecret := Some(secret))));
    assert e.writes[0] == d;
    assert Performed(made, Crash(change, 1, later), auth).after == Launch(d, later).after;
  }

  lemma CreatedForTheDevice(w: World, created: Env)
    requires w.d.legacySecret.None? && !created.contended && created.storeOpens && created.entryWrites && created.saves
    ensures var d := CreateVault(w, NoPrompt, None, None, created).after.d;
            && d.legacySecret.None? && d.vault.Some? && d.vault.value.FileV2?
            && ShapeOf(d.vault.value.slots) == DeviceShape
  {
    hide Decrypt;
    var dice := created.dice;
    var device := WrapDevice(dice.deviceKey, dice.deviceSalt, dice.deviceNonce, Random(dice.masterKey));
    assert [] + [device] == [device];
    assert Find([device], SLOT_DEVICE) == Some(device) && Find([device][1..], SLOT_PASSWORD) == None;
  }

  lemma FirstWriteIsTheEntry(w: World, password: Option<string>, secret: Option<string>, env: Env)
    requires w.state.Unlocked? && secret.Some? && env.storeOpens && env.entryWrites
    ensures var e := ChangeSecurityMode(w, TotpDaily, password, secret, env);
            e.writes != [] && e.writes[0] == w.d.(entry := Some(FreshDevice(env).(totpSecret := secret)))
  {
  }
}
