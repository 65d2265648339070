/**
 Opening the vault with no screen (src/cli/unlock.rs): one loop that asks for whatever the current
 lock screen wants, with a single count of failed tries.
 */
module CliUnlock {
  import opened Wrappers
  import opened Keyslot
  import opened Totp
  import opened Security
  import opened App
  import Text

  const MAX_TRIES := 3

  datatype Answer = Typed(secret: string) | Dismissed | ReadFailed

  datatype CliError =
    | Cancelled
    | PromptFailed
    | TooManyIncorrectCodes
    | Refused(notice: Notice)
    | ConvertFirst
    | NoVaultYet
    | DeviceKeyElsewhere
    | CannotOpenNow(why: VaultError)

  predicate Open(state: AppState) {
    state.Unlocked? && !state.u.screen.TotpPrompt?
  }

  /** How many screens are at most still ahead. */
  function Rank(state: AppState): nat {
    match state
    case LockedTotpDaily(_, _) => 3
    case Locked(mode, _, _) => if mode == Unlock then 2 else 0
    case Unlocked(u) => if u.screen.TotpPrompt? then 1 else 0
    case _ => 0
  }

  /** What one typed answer does to the world on the screen it was typed on. */
  function Tried(w: World, secret: string, auth: Authenticator, env: Env): World {
    match w.state
    case Unlocked(_) => VerifyTotpPrompt(w, Text.Trim(secret), auth, env)
    case LockedTotpDaily(_, _) => TryTotpDaily(w, Text.Trim(secret), auth, env).after
    case _ => TryUnlock(w, secret, env).after
  }

  /** The screen shows why the last answer was no good. */
  predicate ShowsError(state: AppState) {
    match state
    case Unlocked(u) => u.screen == TotpPrompt(true)
    case Locked(_, error, _) => error.Some?
    case LockedTotpDaily(error, _) => error.Some?
    case _ => false
  }

  /** Asked on a screen of some rank, an answer either moves to a screen of lower rank or stays on
      this one with its error showing: no answer is silently swallowed. */
  lemma AnAnswerMovesOnOrFails(w: World, secret: string, auth: Authenticator, env: Env)
    requires Rank(w.state) > 0
    ensures var w' := Tried(w, secret, auth, env);
            || Rank(w'.state) < Rank(w.state)
            || (Rank(w'.state) == Rank(w.state) && ShowsError(w'.state))
  {
  }

  /** Types one answer on whatever screen is up. */
  method Type(app: App, secret: string, env: Env)
    requires app.Valid() && Rank(app.state) > 0
    modifies app, app.store, app.machine
    ensures app.Valid()
    ensures app.Now() == Tried(old(app.Now()), secret, app.auth, env)
    ensures || Rank(app.state) < Rank(old(app.state))
            || (Rank(app.state) == Rank(old(app.state)) && ShowsError(app.state))
    ensures old(app.state).Locked? && !old(app.store.held) && env.contended ==>
              app.state == Locked(Unlock, Some(Failed(VaultInUse)), false)
  {
    AnAnswerMovesOnOrFails(app.Now(), secret, app.auth, env);
    if app.state.Unlocked? {
      app.VerifyTotpPrompt(Text.Trim(secret), env);
    } else if app.state.LockedTotpDaily? {
      app.TryTotpDailyUnlock(Text.Trim(secret), env);
    } else {
      app.TryUnlock(secret, env);
    }
  }

  /** What the loop reports after a failed answer, if it stops there. */
  function GivenUp(state: AppState, tries: nat): Option<CliError> {
    match state
    case Unlocked(_) => if tries >= MAX_TRIES then Some(TooManyIncorrectCodes) else None
    case Locked(_, Some(notice), retryable) => if !retryable || tries >= MAX_TRIES then Some(Refused(notice)) else None
    case LockedTotpDaily(Some(notice), retryable) => if !retryable
        || tries >= MAX_TRIES then Some(Refused(notice)) else None
    case _ => None
  }

  /** The worlds a run of the loop went through: each comes from the one before by the answer typed
      there. */
  ghost predicate Session(worlds: seq<World>, answers: nat -> Answer, auth: Authenticator, envs: nat -> Env) {
    && worlds != []
    && forall i :: 0 <= i < |worlds| - 1 ==>
         answers(i).Typed? && worlds[i + 1] == Tried(worlds[i], answers(i).secret, auth, envs(i))
  }

  /** A code may be typed with white space around it; a password is taken as it is. */
  lemma CodesAreTrimmed(w: World, lead: string, code: string, trail: string, auth: Authenticator, env: Env)
    requires Text.Blank(lead) && Text.Blank(trail)
    requires code != [] ==> !Text.IsSpace(code[0]) && !Text.IsSpace(code[|code| - 1])
    ensures w.state.Unlocked? ==> Tried(w, lead + code + trail, auth, env) == VerifyTotpPrompt(w, code, auth, env)
    ensures w.state.LockedTotpDaily? ==>
              Tried(w, lead + code + trail, auth, env) == TryTotpDaily(w, code, auth, env).after
    ensures w.state.Locked? ==> Tried(w, code, auth, env) == TryUnlock(w, code, env).after
  {
    hide VerifyTotpPrompt, TryTotpDaily, TryUnlock, Text.Trim, Text.IsSpace;
    Text.TrimIs(lead, code, trail);
  }

  /** The answer typed in the `i`th world was a mistake: the screen is no nearer the vault. */
  predicate Mistaken(worlds: seq<World>, i: nat)
    requires i + 1 < |worlds|
  {
    Rank(worlds[i + 1].state) == Rank(worlds[i].state)
  }

  function Failures(worlds: seq<World>): nat {
    if |worlds| < 2 then 0
    else Failures(worlds[..|worlds| - 1]) + if Mistaken(worlds, |worlds| - 2) then 1 else 0
  }

  /** Asking again may help. */
  predicate Retryable(state: AppState) {
    match state
    case Locked(_, _, retryable) => retryable
    case LockedTotpDaily(_, retryable) => retryable
    case _ => true
  }

  /** Fewer than three mistakes so far, each of which may be asked again. */
  ghost predicate MayGoOn(worlds: seq<World>) {
    && Failures(worlds) < 3
    && forall i :: 0 <= i < |worlds| - 1 && Mistaken(worlds, i) ==> Retryable(worlds[i + 1].state)
  }

  /** The last answer was a mistake, and the third, or one that asking again cannot help. */
  ghost predicate MustStop(worlds: seq<World>) {
    var n := |worlds|;
    && n >= 2 && Mistaken(worlds, n - 2) && MayGoOn(worlds[..n - 1])
    && (Failures(worlds) == 3 || !Retryable(worlds[n - 1].state))
  }

  /** Why the loop ended where it did. */
  ghost predicate EndsWith(error: Option<CliError>, worlds: seq<World>, last: Answer)
    requires worlds != []
  {
    var end := worlds[|worlds| - 1].state;
    match error
    case None => Open(end) && MayGoOn(worlds)
    case Some(Cancelled) => last.Dismissed? && Rank(end) > 0 && MayGoOn(worlds)
    case Some(PromptFailed) => last.ReadFailed? && Rank(end) > 0 && MayGoOn(worlds)
    case Some(ConvertFirst) => end.Locked? && end.mode == MigrateTotpOnly && MayGoOn(worlds)
    case Some(NoVaultYet) => end.Setup? && MayGoOn(worlds)
    case Some(DeviceKeyElsewhere) => end.Unopenable? && MayGoOn(worlds)
    case Some(CannotOpenNow(why)) => end == CannotOpen(why) && MayGoOn(worlds)
    case Some(Refused(notice)) =>
      && MustStop(worlds)
      && ((end.Locked? && end.error == Some(notice)) || (end.LockedTotpDaily? && end.codeError == Some(notice)))
    case Some(TooManyIncorrectCodes) => MustStop(worlds) && end.Unlocked? && end.u.screen == TotpPrompt(true)
  }

  lemma OneAnswerMore(worlds: seq<World>, w: World)
    requires worlds != [] && MayGoOn(worlds)
    ensures var all, mistake := worlds + [w], Rank(w.state) == Rank(worlds[|worlds| - 1].state);
            && Failures(all) == Failures(worlds) + (if mistake then 1 else 0)
            && (mistake && (Failures(all) == 3 || !Retryable(w.state)) ==> MustStop(all))
            && (!mistake || (Failures(all) < 3 && Retryable(w.state)) ==> MayGoOn(all))
  {
    var all, n := worlds + [w], |worlds| - 1;
    assert all[..|all| - 1] == worlds;
    assert Mistaken(all, n) <==> Rank(w.state) == Rank(worlds[n].state);
    assert forall i :: 0 <= i < n ==> Mistaken(all, i) == Mistaken(worlds, i);
  }

  lemma NoAnswerYet(worlds: seq<World>, answers: nat -> Answer, auth: Authenticator, envs: nat -> Env)
    requires |worlds| == 1
    ensures MayGoOn(worlds) && Failures(worlds) == 0 && Session(worlds, answers, auth, envs)
  {
  }

  lemma SessionGoesOn(worlds: seq<World>, w: World, answers: nat -> Answer, auth: Authenticator, envs: nat -> Env)
    requires Session(worlds, answers, auth, envs) && answers(|worlds| - 1).Typed?
    requires w == Tried(worlds[|worlds| - 1], answers(|worlds| - 1).secret, auth, envs(|worlds| - 1))
    ensures Session(worlds + [w], answers, auth, envs)
  {
    hide Tried;
  }

  /** What a mistake is answered with, if it is the last. */
  lemma GivingUp(state: AppState, tries: nat)
    requires Rank(state) > 0 && ShowsError(state)
    ensures GivenUp(state, tries).None? <==> tries < 3 && Retryable(state)
    ensures GivenUp(state, tries).Some? && state.Unlocked? ==> GivenUp(state, tries) == Some(TooManyIncorrectCodes)
    ensures GivenUp(state, tries).Some? && state.Locked? ==> GivenUp(state, tries) == Some(Refused(state.error.value))
    ensures GivenUp(state, tries).Some? && state.LockedTotpDaily? ==>
              GivenUp(state, tries) == Some(Refused(state.codeError.value))
  {
  }

  /** The loop asks at most five times from any start, whatever is answered and whatever the disk, the
      credential store and other instances do: every answer lowers the rank of the screen or is one
      of at most three failures, the third of which is the last.  It reports success if and only if
      the vault is open past any second factor.  A vault another instance holds is refused after
      one prompt. */
  method Run(app: App, answers: nat -> Answer, envs: nat -> Env)
    returns (error: Option<CliError>, prompts: nat, ghost worlds: seq<World>)
    requires app.Valid()
    modifies app, app.store, app.machine
    ensures app.Valid()
    ensures prompts <= 5
    ensures error.None? <==> Open(app.state)
    ensures Session(worlds, answers, app.auth, envs)
    ensures EndsWith(error, worlds, answers(if prompts > 0 then prompts - 1 else 0))
    ensures worlds[0] == old(app.Now()) && worlds[|worlds| - 1] == app.Now()
    ensures prompts == |worlds| - 1 + if error == Some(Cancelled) || error == Some(PromptFailed) then 1 else 0
    ensures old(app.state).Locked? && old(app.state).mode == Unlock && !old(app.store.held)
            && answers(0).Typed? && envs(0).contended ==>
              prompts == 1 && error == Some(Refused(Failed(VaultInUse)))
  {
    hide Tried, Failures, MayGoOn, MustStop, GivenUp, Session;
    var tries := 0;
    prompts := 0;
    worlds := [app.Now()];
    NoAnswerYet(worlds, answers, app.auth, envs);
    ghost var heldElsewhere := app.state.Locked? && app.state.mode == Unlock && !app.store.held
                               && answers(0).Typed? && envs(0).contended;
    while true
      invariant app.Valid() && tries < MAX_TRIES
      invariant prompts == |worlds| - 1
      invariant prompts + Rank(app.state) <= 3 + tries
      invariant worlds != [] && Session(worlds, answers, app.auth, envs)
      invariant MayGoOn(worlds) && Failures(worlds) == tries
      invariant worlds[0] == old(app.Now()) && worlds[|worlds| - 1] == app.Now()
      invariant heldElsewhere ==> prompts == 0 && app.state.Locked? && app.state.mode == Unlock && !app.store.held
      decreases Rank(app.state), MAX_TRIES - tries
    {
      match app.state {
        case Unlocked(u) =>
          if !u.screen.TotpPrompt? {
            return None, prompts, worlds;
          }
        case Locked(mode, _, _) =>
          if mode == MigrateTotpOnly {
            return Some(ConvertFirst), prompts, worlds;
          }
        case LockedTotpDaily(_, _) =>
        case Setup(_) => return Some(NoVaultYet), prompts, worlds;
        case Unopenable => return Some(DeviceKeyElsewhere), prompts, worlds;
        case CannotOpen(why) => return Some(CannotOpenNow(why)), prompts, worlds;
      }
      var rank := Rank(app.state);
      var answer := answers(prompts);
      if !answer.Typed? {
        return Some(if answer.Dismissed? then Cancelled else PromptFailed), prompts + 1, worlds;
      }
      Type(app, answer.secret, envs(prompts));
      prompts := prompts + 1;
      OneAnswerMore(worlds, app.Now());
      SessionGoesOn(worlds, app.Now(), answers, app.auth, envs);
      worlds := worlds + [app.Now()];
      if Rank(app.state) == rank {
        tries := tries + 1;
        error := GivenUp(app.state, tries);
        GivingUp(app.state, tries);
        if error.Some? {
          return error, prompts, worlds;
        }
      }
    }
  }
}
