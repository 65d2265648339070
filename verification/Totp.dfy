/**
 Authenticator codes (src/totp.rs).

 Code generation itself is a parameter: which secrets are well formed and what code a secret
 shows at a time step.  Modelled here is the one check every caller goes through.
 */
module Totp {
  import opened Wrappers

  const SKEW := 1
  const STEP_SECONDS := 30

  datatype Authenticator = Authenticator(wellFormed: string -> bool, code: (string, nat) -> string)

  datatype CodeCheck = Accepted(step: nat) | Replayed | Invalid

  // ---------------------------------------------------------------- comparing codes

  function Differences(a: seq<bv8>, b: seq<bv8>): bv8
    requires |a| == |b|
  {
    if a == [] then 0 else (a[0] ^ b[0]) | Differences(a[1..], b[1..])
  }

  /** `codes_match`: no early exit on the first differing byte. */
  predicate CodesMatch(a: seq<bv8>, b: seq<bv8>) {
    |a| == |b| && Differences(a, b) == 0
  }

  lemma {:induction false} MatchingCodesAreEqual(a: seq<bv8>, b: seq<bv8>)
    ensures CodesMatch(a, b) <==> a == b
  {
    if |a| == |b| && a != [] {
      MatchingCodesAreEqual(a[1..], b[1..]);
      OrIsZero(a[0] ^ b[0], Differences(a[1..], b[1..]));
      XorIsZero(a[0], b[0]);
      assert a == [a[0]] + a[1..] && b == [b[0]] + b[1..];
    }
  }

  lemma OrIsZero(x: bv8, y: bv8)
    ensures x | y == 0 <==> x == 0 && y == 0
  {
  }

  lemma XorIsZero(x: bv8, y: bv8)
    ensures x ^ y == 0 <==> x == y
  {
  }

  // ---------------------------------------------------------------- checking a code

  /** The scan of `check_code`, newest step first, from `step` down to `last`. */
  function Scan(auth: Authenticator, secret: string, code: string, step: nat, oldest: nat, lastStep: nat): CodeCheck
    requires oldest <= step
    decreases step
  {
    if auth.code(secret, step) == code then
      if step > lastStep then Accepted(step) else Replayed
    else if step == oldest then Invalid
    else Scan(auth, secret, code, step - 1, oldest, lastStep)
  }

  function Oldest(current: nat): nat {
    if current < SKEW then 0 else current - SKEW
  }

  /** `clock` is the wall clock in seconds, `None` if it reads before the epoch. */
  function CheckCode(auth: Authenticator, secret: string, code: string, clock: Option<nat>, lastStep: nat): CodeCheck {
    if !auth.wellFormed(secret) then Invalid
    else if clock.None? then Invalid
    else
      var current := clock.value / STEP_SECONDS;
      Scan(auth, secret, code, current + SKEW, Oldest(current), lastStep)
  }

  predicate VerifyEnrollment(auth: Authenticator, secret: string, code: string, clock: Option<nat>) {
    CheckCode(auth, secret, code, clock, 0).Accepted?
  }

  /** The thirty seconds of `step` are those of the clock, the ones before or the ones after, and
      their code is `code`. */
  predicate Shows(auth: Authenticator, secret: string, code: string, clock: Option<nat>, step: nat) {
    && auth.wellFormed(secret) && clock.Some?
    && 30 * step - 30 <= clock.value < 30 * step + 60
    && auth.code(secret, step) == code
  }

  lemma TheWindow(now: nat, step: nat)
    ensures Oldest(now / STEP_SECONDS) <= step <= now / STEP_SECONDS + SKEW
            <==> 30 * step - 30 <= now < 30 * step + 60
  {
  }

  ghost predicate NewestShowing(auth: Authenticator, secret: string, code: string, clock: Option<nat>, step: nat) {
    && Shows(auth, secret, code, clock, step)
    && forall later: nat :: Shows(auth, secret, code, clock, later) ==> later <= step
  }

  /** `s` shows `code` and no later step up to `top` does. */
  ghost predicate LastMatch(auth: Authenticator, secret: string, code: string, s: nat, top: nat) {
    auth.code(secret, s) == code && forall k :: s < k <= top ==> auth.code(secret, k) != code
  }

  lemma {:induction false} ScanFindsNewest(auth: Authenticator, secret: string, code: string, step: nat, oldest: nat,
      lastStep: nat)
    requires oldest <= step
    ensures var r := Scan(auth, secret, code, step, oldest, lastStep);
            && (r.Accepted? ==> lastStep < r.step <= step && oldest <= r.step && LastMatch(auth, secret, code,
                r.step, step))
            && (r.Replayed? ==> exists s :: oldest <= s <= step && s <= lastStep && LastMatch(auth, secret, code, s,
                step))
            && (r.Invalid? ==> forall k :: oldest <= k <= step ==> auth.code(secret, k) != code)
    decreases step
  {
    if auth.code(secret, step) != code && step != oldest {
      ScanFindsNewest(auth, secret, code, step - 1, oldest, lastStep);
      if Scan(auth, secret, code, step, oldest, lastStep).Replayed? {
        var s :| oldest <= s <= step - 1 && s <= lastStep && LastMatch(auth, secret, code, s, step - 1);
        assert LastMatch(auth, secret, code, s, step);
      }
    } else if auth.code(secret, step) == code {
      assert LastMatch(auth, secret, code, step, step);
    }
  }

  /** The check by what it means: it accepts with the newest step of the window that shows the code,
      provided that step is newer than any accepted before; a window that shows the code only at
      spent steps is a replay; a window that does not show it at all is a wrong code. */
  lemma CheckCodeMeaning(auth: Authenticator, secret: string, code: string, clock: Option<nat>, lastStep: nat)
    ensures var r := CheckCode(auth, secret, code, clock, lastStep);
            && (forall step: nat ::
                  r == Accepted(step) <==> NewestShowing(auth, secret, code, clock, step) && step > lastStep)
            && (r == Replayed <==>
                exists step: nat :: NewestShowing(auth, secret, code, clock, step) && step <= lastStep)
            && (r == Invalid <==> forall step: nat :: !Shows(auth, secret, code, clock, step))
  {
    var r := CheckCode(auth, secret, code, clock, lastStep);
    if auth.wellFormed(secret) && clock.Some? {
      var current := clock.value / STEP_SECONDS;
      ScanFindsNewest(auth, secret, code, current + SKEW, Oldest(current), lastStep);
      forall step: nat
        ensures Oldest(current) <= step <= current + SKEW <==> 30 * step - 30 <= clock.value < 30 * step + 60
      {
        TheWindow(clock.value, step);
      }
      if r.Accepted? {
        assert NewestShowing(auth, secret, code, clock, r.step);
      } else if r.Replayed? {
        var s :| Oldest(current) <= s <= current + SKEW && s <= lastStep
            && LastMatch(auth, secret, code, s, current + SKEW);
        assert NewestShowing(auth, secret, code, clock, s);
      }
    }
  }

  /** The check without history: any step of the window but the very first of the epoch will do, spent
      or not. */
  lemma EnrollmentMeaning(auth: Authenticator, secret: string, code: string, clock: Option<nat>)
    ensures VerifyEnrollment(auth, secret, code, clock) <==>
              exists step: nat :: step > 0 && Shows(auth, secret, code, clock, step)
  {
    CheckCodeMeaning(auth, secret, code, clock, 0);
    var r := CheckCode(auth, secret, code, clock, 0);
    if r.Accepted? {
      assert NewestShowing(auth, secret, code, clock, r.step);
    }
  }
}
