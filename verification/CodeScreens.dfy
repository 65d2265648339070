/**
 Several instances with the code screen up at once (src/app.rs).

 The stored failure count is looked at when a screen is chosen, not when a code is typed, and no lock
 guards the credential-store entry.  So an instance that already shows the code screen takes one more
 code after the fifth failure.  Here is exactly how many codes can be refused then, a key press of one
 instance being handled before the next of another.
 */
module CodeScreens {
  import opened Wrappers
  import opened Format
  import opened Keyslot
  import opened Totp
  import opened Security
  import opened VaultRuns
  import opened CodeRuns

  datatype Instance = Instance(held: bool, state: AppState)

  /** One vault and one credential-store entry, and every instance that is running. */
  datatype Fleet = Fleet(d: Durable, instances: map<nat, Instance>)

  /** `Open` starts an instance, or locks one that is running. */
  datatype Move =
    | Open(pid: nat, env: Env)
    | Code(pid: nat, code: string, env: Env)
    | Password(pid: nat, password: string, env: Env)
    | Quit(pid: nat)

  function WorldOf(f: Fleet, pid: nat): World {
    if pid in f.instances then World(f.d, f.instances[pid].held, f.instances[pid].state)
    else World(f.d, false, Setup(None))
  }

  /** What the move does in the world its instance sees. */
  function Effective(f: Fleet, m: Move, auth: Authenticator): World {
    var w := WorldOf(f, m.pid);
    match m
    case Open(_, env) => ResolveInitialState(w, env).after
    case Code(_, code, env) => if w.state.LockedTotpDaily? then TryTotpDaily(w, code, auth, env).after else w
    case Password(_, password, env) =>
      if w.state.Locked? && w.state.mode == Unlock then TryUnlock(w, password, env).after else w
    case Quit(_) => w
  }

  function Moved(f: Fleet, m: Move, auth: Authenticator): Fleet {
    var w := Effective(f, m, auth);
    if m.Quit? then f.(instances := f.instances - {m.pid})
    else if m.pid !in f.instances && !m.Open? then f
    else Fleet(w.d, f.instances[m.pid := Instance(w.held, w.state)])
  }

  /** The move types a code that is refused. */
  predicate Refuses(f: Fleet, m: Move, auth: Authenticator) {
    && m.Code? && m.pid in f.instances && f.instances[m.pid].state.LockedTotpDaily?
    && m.env.storeOpens && m.env.entryReads && f.d.entry.Some? && f.d.entry.value.totpSecret.Some?
    && var st := f.d.entry.value;
       !CheckCode(auth, st.totpSecret.value, m.code, m.env.clock, st.replayStep).Accepted?
  }

  /** The move gets an instance past its screen: a code accepted, or a password that unlocks. */
  predicate Passes(f: Fleet, m: Move, auth: Authenticator) {
    && m.pid in f.instances
    && match m
       case Code(_, code, env) =>
         && f.instances[m.pid].state.LockedTotpDaily?
         && env.storeOpens && env.entryReads && f.d.entry.Some? && f.d.entry.value.totpSecret.Some?
         && !Refuses(f, m, auth)
       case Password(_, _, _) => f.instances[m.pid].state.Locked? && Effective(f, m, auth).state.Unlocked?
       case _ => false
  }

  /** The codes refused since an instance last got past its screen. */
  function RefusedAfter(refused: nat, f: Fleet, m: Move, auth: Authenticator): nat {
    if Passes(f, m, auth) then 0 else if Refuses(f, m, auth) then refused + 1 else refused
  }

  function OnCodeScreen(f: Fleet): set<nat> {
    set pid | pid in f.instances && f.instances[pid].state.LockedTotpDaily?
  }

  /** A vault for the daily code, with a password to fall back to, enrolled on this machine. */
  predicate Enrolled(d: Durable) {
    && d.legacySecret.None? && d.vault.Some? && d.vault.value.FileV2?
    && ShapeOf(d.vault.value.slots) == DeviceAndPasswordShape
    && d.entry.Some? && d.entry.value.totpSecret.Some?
  }

  predicate Works(m: Move) {
    m.Code? ==> m.env.entryWrites
  }

  function Run(f: Fleet, moves: seq<Move>, auth: Authenticator): Fleet
    decreases |moves|
  {
    if moves == [] then f else Run(Moved(f, moves[0], auth), moves[1..], auth)
  }

  function RefusedIn(refused: nat, f: Fleet, moves: seq<Move>, auth: Authenticator): nat
    decreases |moves|
  {
    if moves == [] then refused
    else RefusedIn(RefusedAfter(refused, f, moves[0], auth), Moved(f, moves[0], auth), moves[1..], auth)
  }

  /** Entry writes work, and never more than `n` instances show the code screen at once. */
  ghost predicate AtMost(n: nat, f: Fleet, moves: seq<Move>, auth: Authenticator)
    decreases |moves|
  {
    && |OnCodeScreen(f)| <= n
    && (moves != [] ==> Works(moves[0]) && AtMost(n, Moved(f, moves[0], auth), moves[1..], auth))
  }

  // ---------------------------------------------------------------- the bound

  /** Below five the stored count covers the refusals; from five on each further refusal takes a code
      screen away, and no new one opens. */
  predicate Bounded(n: nat, f: Fleet, refused: nat) {
    && Enrolled(f.d)
    && if f.d.entry.value.failedAttempts < MAX_TOTP_FAILURES then refused <= f.d.entry.value.failedAttempts
       else refused + |OnCodeScreen(f)| <= MAX_TOTP_FAILURES - 1 + n
  }

  /** What a move can do to entry and screen. */
  ghost predicate Counts(f: Fleet, m: Move, auth: Authenticator, after: World)
    requires Enrolled(f.d)
  {
    && Enrolled(after.d)
    && var st, was := after.d.entry.value, f.d.entry.value;
       && (Refuses(f, m, auth) ==> st == Failing(was))
       && (Passes(f, m, auth) ==> st.failedAttempts == 0 || (m.Password? && st.failedAttempts == was.failedAttempts))
       && (!Refuses(f, m, auth) && !Passes(f, m, auth) ==> st.failedAttempts == was.failedAttempts)
       && (after.state.LockedTotpDaily? ==>
             if m.Open? then was.failedAttempts < MAX_TOTP_FAILURES
             else m.pid in OnCodeScreen(f) && (Refuses(f, m, auth) ==> st.failedAttempts < MAX_TOTP_FAILURES))
  }

  lemma MoveEffect(f: Fleet, m: Move, auth: Authenticator)
    requires Enrolled(f.d) && Works(m) && (m.Open? || m.pid in f.instances) && !m.Quit?
    ensures Counts(f, m, auth, Effective(f, m, auth))
  {
    hide CheckCode, OpenWithDevice, OpenWithPassword, Counts, Effective;
    match m
    case Open(_, _) => OpenEffect(f, m, auth);
    case Code(_, _, _) => CodeEffect(f, m, auth);
    case Password(_, _, _) => PasswordEffect(f, m, auth);
  }

  lemma OpenEffect(f: Fleet, m: Move, auth: Authenticator)
    requires Enrolled(f.d) && m.Open?
    ensures Counts(f, m, auth, Effective(f, m, auth))
  {
    hide OpenWithDevice, ShapeOf;
  }

  lemma CodeEffect(f: Fleet, m: Move, auth: Authenticator)
    requires Enrolled(f.d) && Works(m) && m.Code? && m.pid in f.instances
    ensures Counts(f, m, auth, Effective(f, m, auth))
  {
    hide CheckCode, OpenWithDevice, ShapeOf;
  }

  lemma PasswordEffect(f: Fleet, m: Move, auth: Authenticator)
    requires Enrolled(f.d) && m.Password? && m.pid in f.instances
    ensures Counts(f, m, auth, Effective(f, m, auth))
  {
    hide OpenWithPassword, ShapeOf;
  }

  lemma ScreensAfter(f: Fleet, m: Move, auth: Authenticator)
    ensures var pids := if m.Quit? || (m.pid !in f.instances && !m.Open?) then OnCodeScreen(f) - {m.pid}
                        else if Effective(f, m, auth).state.LockedTotpDaily? then OnCodeScreen(f) + {m.pid}
                        else OnCodeScreen(f) - {m.pid};
            OnCodeScreen(Moved(f, m, auth)) == pids
  {
    hide Effective;
  }

  lemma MoveStaysBounded(n: nat, f: Fleet, refused: nat, m: Move, auth: Authenticator)
    requires Bounded(n, f, refused) && Works(m)
    requires |OnCodeScreen(f)| <= n && |OnCodeScreen(Moved(f, m, auth))| <= n
    ensures Bounded(n, Moved(f, m, auth), RefusedAfter(refused, f, m, auth))
  {
    hide Effective, Refuses, Passes, OnCodeScreen, Enrolled;
    ScreensAfter(f, m, auth);
    var before := OnCodeScreen(f);
    if m.Quit? || (m.pid !in f.instances && !m.Open?) {
      NothingCounted(f, m, auth);
      Without(before, m.pid);
    } else {
      MoveEffect(f, m, auth);
      RefusingIsOnScreen(f, m, auth);
      Without(before, m.pid);
      assert m.pid in before ==> before + {m.pid} == before;
    }
  }

  lemma Without(s: set<nat>, pid: nat)
    ensures |s - {pid}| == if pid in s then |s| - 1 else |s|
  {
    if pid !in s {
      assert s - {pid} == s;
    }
  }

  lemma NothingCounted(f: Fleet, m: Move, auth: Authenticator)
    requires m.Quit? || m.pid !in f.instances
    ensures !Refuses(f, m, auth) && !Passes(f, m, auth)
  {
  }

  lemma RefusingIsOnScreen(f: Fleet, m: Move, auth: Authenticator)
    ensures Refuses(f, m, auth) ==> m.Code? && m.pid in OnCodeScreen(f) && !Passes(f, m, auth)
  {
  }

  /** With any number of instances, any codes and any clocks, between two times that one of them gets
      past its screen no more codes are refused than four, and one for each code screen that was up at
      once. */
  lemma {:induction false} RefusalsAreBoundedByTheScreens(n: nat, f: Fleet, refused: nat, moves: seq<Move>,
      auth: Authenticator)
    requires Bounded(n, f, refused) && AtMost(n, f, moves, auth)
    ensures RefusedIn(refused, f, moves, auth) <= MAX_TOTP_FAILURES - 1 + n
    decreases |moves|
  {
    if moves != [] {
      MoveStaysBounded(n, f, refused, moves[0], auth);
      RefusalsAreBoundedByTheScreens(n, Moved(f, moves[0], auth), RefusedAfter(refused, f, moves[0], auth),
        moves[1..], auth);
    }
  }

  /** From no instance running, whatever was refused before. */
  lemma RefusalsFromTheStart(n: nat, d: Durable, moves: seq<Move>, auth: Authenticator)
    requires Enrolled(d) && AtMost(n, Fleet(d, map[]), moves, auth)
    ensures RefusedIn(0, Fleet(d, map[]), moves, auth) <= MAX_TOTP_FAILURES - 1 + n
  {
    assert OnCodeScreen(Fleet(d, map[])) == {};
    RefusalsAreBoundedByTheScreens(n, Fleet(d, map[]), 0, moves, auth);
  }

  // ---------------------------------------------------------------- the bound is reached

  /** A wrong code, whatever was accepted or refused before. */
  predicate WrongNow(d: Durable, code: string, env: Env, auth: Authenticator) {
    && env.storeOpens && env.entryReads && env.entryWrites
    && d.entry.Some? && d.entry.value.totpSecret.Some?
    && CheckCode(auth, d.entry.value.totpSecret.value, code, env.clock, d.entry.value.replayStep) == Invalid
  }

  function Opens(n: nat, env: Env): seq<Move> {
    if n == 0 then [] else Opens(n - 1, env) + [Open(n - 1, env)]
  }

  function Repeated(times: nat, code: string, env: Env): seq<Move> {
    if times == 0 then [] else [Code(0, code, env)] + Repeated(times - 1, code, env)
  }

  /** Each instance from `from` to `n` types the code once. */
  function OnceEach(from: nat, n: nat, code: string, env: Env): seq<Move>
    decreases n - from
  {
    if from >= n then [] else [Code(from, code, env)] + OnceEach(from + 1, n, code, env)
  }

  predicate Parked(f: Fleet, from: nat, n: nat) {
    forall pid :: from <= pid < n ==> pid in f.instances && f.instances[pid].state.LockedTotpDaily?
  }

  lemma WrongCodeStep(f: Fleet, pid: nat, code: string, env: Env, auth: Authenticator)
    requires Enrolled(f.d) && WrongNow(f.d, code, env, auth)
    requires pid in f.instances && f.instances[pid].state.LockedTotpDaily?
    requires f.d.entry.value.failedAttempts < 0xFFFF_FFFF
    ensures var m := Code(pid, code, env);
            var next := Moved(f, m, auth);
            && Refuses(f, m, auth) && !Passes(f, m, auth)
            && next.d == f.d.(entry := Some(Failing(f.d.entry.value)))
            && WrongNow(next.d, code, env, auth) && Enrolled(next.d)
            && next.d.entry.value.failedAttempts == f.d.entry.value.failedAttempts + 1
            && next.instances.Keys == f.instances.Keys
            && (forall other :: other in f.instances && other != pid ==> next.instances[other] == f.instances[other])
            && (f.d.entry.value.failedAttempts + 1 < MAX_TOTP_FAILURES ==> next.instances[pid].state.LockedTotpDaily?)
  {
    hide CheckCode;
  }

  lemma {:induction false} RefusedConcat(refused: nat, f: Fleet, a: seq<Move>, b: seq<Move>, auth: Authenticator)
    ensures Run(f, a + b, auth) == Run(Run(f, a, auth), b, auth)
    ensures RefusedIn(refused, f, a + b, auth) == RefusedIn(RefusedIn(refused, f, a, auth), Run(f, a, auth), b, auth)
    decreases |a|
  {
    if a == [] {
      assert a + b == b;
    } else {
      hide Moved, RefusedAfter;
      assert (a + b)[1..] == a[1..] + b;
      RefusedConcat(RefusedAfter(refused, f, a[0], auth), Moved(f, a[0], auth), a[1..], b, auth);
    }
  }

  lemma {:induction false} OpeningScreens(d: Durable, n: nat, env: Env, auth: Authenticator)
    requires Enrolled(d) && env.storeOpens && env.entryReads
    requires !MustEscalate(d.entry.value, MAX_TOTP_FAILURES, PASSWORD_CHECK_DAYS, env.clock)
    ensures var f := Run(Fleet(d, map[]), Opens(n, env), auth);
            f.d == d && Parked(f, 0, n) && (forall pid: nat :: pid in f.instances <==> pid < n)
    ensures RefusedIn(0, Fleet(d, map[]), Opens(n, env), auth) == 0
  {
    if n > 0 {
      hide MustEscalate, Moved, RefusedAfter, Enrolled;
      OpeningScreens(d, n - 1, env, auth);
      RefusedConcat(0, Fleet(d, map[]), Opens(n - 1, env), [Open(n - 1, env)], auth);
      var f := Run(Fleet(d, map[]), Opens(n - 1, env), auth);
      OneMoreScreen(f, n - 1, env, auth);
      assert [Open(n - 1, env)][1..] == [];
      assert Run(f, [Open(n - 1, env)], auth) == Moved(f, Open(n - 1, env), auth);
    }
  }

  lemma OneMoreScreen(f: Fleet, pid: nat, env: Env, auth: Authenticator)
    requires Enrolled(f.d) && env.storeOpens && env.entryReads && pid !in f.instances
    requires !MustEscalate(f.d.entry.value, MAX_TOTP_FAILURES, PASSWORD_CHECK_DAYS, env.clock)
    ensures var next := Moved(f, Open(pid, env), auth);
            next == f.(instances := f.instances[pid := Instance(false, LockedTotpDaily(None, true))])
    ensures RefusedAfter(0, f, Open(pid, env), auth) == 0
  {
  }

  lemma {:induction false} TypingAgain(f: Fleet, n: nat, times: nat, refused: nat, code: string, env: Env,
      auth: Authenticator)
    requires Enrolled(f.d) && WrongNow(f.d, code, env, auth) && Parked(f, 0, n) && n > 0
    requires f.d.entry.value.failedAttempts + times < MAX_TOTP_FAILURES
    ensures var after := Run(f, Repeated(times, code, env), auth);
            && Enrolled(after.d) && WrongNow(after.d, code, env, auth) && Parked(after, 0, n)
            && after.d.entry.value.failedAttempts == f.d.entry.value.failedAttempts + times
            && RefusedIn(refused, f, Repeated(times, code, env), auth) == refused + times
    decreases times
  {
    hide *;
    if times == 0 {
      NothingTyped(f, refused, code, env, auth);
    } else {
      var m := Code(0, code, env);
      AgainTypes(f, n, code, env, auth);
      TypingAgain(Moved(f, m, auth), n, times - 1, refused + 1, code, env, auth);
      AgainFirst(f, m, times, refused, code, env, auth);
    }
  }

  lemma NothingTyped(f: Fleet, refused: nat, code: string, env: Env, auth: Authenticator)
    ensures Run(f, Repeated(0, code, env), auth) == f
    ensures RefusedIn(refused, f, Repeated(0, code, env), auth) == refused
  {
  }

  lemma AgainTypes(f: Fleet, n: nat, code: string, env: Env, auth: Authenticator)
    requires Enrolled(f.d) && WrongNow(f.d, code, env, auth) && Parked(f, 0, n) && n > 0
    requires f.d.entry.value.failedAttempts + 1 < MAX_TOTP_FAILURES
    ensures var m := Code(0, code, env);
            var next := Moved(f, m, auth);
            && Refuses(f, m, auth) && !Passes(f, m, auth)
            && Enrolled(next.d) && WrongNow(next.d, code, env, auth) && Parked(next, 0, n)
            && next.d.entry.value.failedAttempts == f.d.entry.value.failedAttempts + 1
  {
    hide Enrolled, WrongNow, Moved, Refuses, Passes, Failing;
    WrongCodeStep(f, 0, code, env, auth);
  }

  lemma AgainFirst(f: Fleet, m: Move, times: nat, refused: nat, code: string, env: Env, auth: Authenticator)
    requires times > 0 && m == Code(0, code, env) && Refuses(f, m, auth) && !Passes(f, m, auth)
    ensures Run(f, Repeated(times, code, env), auth)
         == Run(Moved(f, m, auth), Repeated(times - 1, code, env), auth)
    ensures RefusedIn(refused, f, Repeated(times, code, env), auth)
         == RefusedIn(refused + 1, Moved(f, m, auth), Repeated(times - 1, code, env), auth)
  {
    hide Moved, Refuses, Passes;
    assert Repeated(times, code, env)[1..] == Repeated(times - 1, code, env);
  }

  lemma {:induction false} EachTypesOnce(f: Fleet, from: nat, n: nat, refused: nat, code: string, env: Env,
      auth: Authenticator)
    requires Enrolled(f.d) && WrongNow(f.d, code, env, auth) && Parked(f, from, n) && from <= n
    requires f.d.entry.value.failedAttempts + (n - from) < 0xFFFF_FFFF
    ensures RefusedIn(refused, f, OnceEach(from, n, code, env), auth) == refused + (n - from)
    decreases n - from
  {
    hide *;
    if from == n {
      NobodyTypes(f, n, refused, code, env, auth);
    } else {
      var m := Code(from, code, env);
      OneTypes(f, from, n, code, env, auth);
      EachTypesOnce(Moved(f, m, auth), from + 1, n, refused + 1, code, env, auth);
      TypesFirst(f, m, from, n, refused, code, env, auth);
    }
  }

  lemma NobodyTypes(f: Fleet, n: nat, refused: nat, code: string, env: Env, auth: Authenticator)
    ensures RefusedIn(refused, f, OnceEach(n, n, code, env), auth) == refused
  {
  }

  lemma OneTypes(f: Fleet, from: nat, n: nat, code: string, env: Env, auth: Authenticator)
    requires Enrolled(f.d) && WrongNow(f.d, code, env, auth) && Parked(f, from, n) && from < n
    requires f.d.entry.value.failedAttempts < 0xFFFF_FFFF
    ensures var m := Code(from, code, env);
            var next := Moved(f, m, auth);
            && Refuses(f, m, auth) && !Passes(f, m, auth)
            && Enrolled(next.d) && WrongNow(next.d, code, env, auth) && Parked(next, from + 1, n)
            && next.d.entry.value.failedAttempts == f.d.entry.value.failedAttempts + 1
  {
    hide Enrolled, WrongNow, Moved, Refuses, Passes, Failing;
    WrongCodeStep(f, from, code, env, auth);
  }

  lemma TypesFirst(f: Fleet, m: Move, from: nat, n: nat, refused: nat, code: string, env: Env, auth: Authenticator)
    requires from < n && m == Code(from, code, env) && Refuses(f, m, auth) && !Passes(f, m, auth)
    ensures RefusedIn(refused, f, OnceEach(from, n, code, env), auth)
         == RefusedIn(refused + 1, Moved(f, m, auth), OnceEach(from + 1, n, code, env), auth)
  {
    hide Moved, Refuses, Passes;
    assert OnceEach(from, n, code, env)[1..] == OnceEach(from + 1, n, code, env);
  }

  lemma {:induction false} FewNumbers(s: set<nat>, n: nat)
    requires forall pid :: pid in s ==> pid < n
    ensures |s| <= n
    decreases n
  {
    if n > 0 {
      Without(s, n - 1);
      FewNumbers(s - {n - 1}, n - 1);
    } else {
      assert s == {};
    }
  }

  predicate FirstOnes(n: nat, moves: seq<Move>) {
    forall i :: 0 <= i < |moves| ==> moves[i].pid < n && Works(moves[i])
  }

  /** With `n` instances no more than `n` show the code screen. */
  lemma {:induction false} AtMostTheInstances(n: nat, f: Fleet, moves: seq<Move>, auth: Authenticator)
    requires (forall pid :: pid in f.instances ==> pid < n) && FirstOnes(n, moves)
    ensures AtMost(n, f, moves, auth)
    decreases |moves|
  {
    hide Effective;
    FewNumbers(OnCodeScreen(f), n);
    if moves != [] {
      assert moves[0].pid < n && Works(moves[0]);
      assert FirstOnes(n, moves[1..]);
      AtMostTheInstances(n, Moved(f, moves[0], auth), moves[1..], auth);
    }
  }

  lemma {:induction false} TheseAreFirstOnes(n: nat, k: nat, code: string, env: Env)
    requires env.entryWrites && n > 0
    ensures k <= n ==> FirstOnes(n, Opens(k, env)) && FirstOnes(n, OnceEach(n - k, n, code, env))
    ensures FirstOnes(n, Repeated(k, code, env))
    decreases k
  {
    if k > 0 {
      TheseAreFirstOnes(n, k - 1, code, env);
    }
  }

  /** The bound is exact: `n` instances are started, one of them types four wrong codes, then each of
      them one more. */
  lemma TheBoundIsReached(d: Durable, n: nat, code: string, env: Env, auth: Authenticator)
    requires Enrolled(d) && WrongNow(d, code, env, auth) && 0 < n < 0xFFFF_0000 && d.entry.value.failedAttempts == 0
    requires !MustEscalate(d.entry.value, MAX_TOTP_FAILURES, PASSWORD_CHECK_DAYS, env.clock)
    ensures var moves := Opens(n, env) + Repeated(4, code, env) + OnceEach(0, n, code, env);
            && AtMost(n, Fleet(d, map[]), moves, auth)
            && RefusedIn(0, Fleet(d, map[]), moves, auth) == MAX_TOTP_FAILURES - 1 + n
  {
    hide Enrolled, Repeated, OnceEach, Opens, RefusedIn, Run, AtMost, MustEscalate;
    var start := Fleet(d, map[]);
    OpeningScreens(d, n, env, auth);
    var parked := Run(start, Opens(n, env), auth);
    TypingAgain(parked, n, 4, 0, code, env, auth);
    var typed := Run(parked, Repeated(4, code, env), auth);
    EachTypesOnce(typed, 0, n, 4, code, env, auth);
    RefusedConcat(0, start, Opens(n, env), Repeated(4, code, env), auth);
    RefusedConcat(0, start, Opens(n, env) + Repeated(4, code, env), OnceEach(0, n, code, env), auth);
    TheseAreFirstOnes(n, n, code, env);
    TheseAreFirstOnes(n, 4, code, env);
    AtMostTheInstances(n, start, Opens(n, env) + Repeated(4, code, env) + OnceEach(0, n, code, env), auth);
  }
}
