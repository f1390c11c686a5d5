/**
 * Sign-in with lockout (views.py `signin`): after four failed attempts for
 * the same identifier from the same address, every attempt is refused for
 * ten minutes after the last failure, whatever the password.
 *
 * The failure counters live in Django's cache, a map from key to value with
 * an expiry instant; an entry is live while the clock is before its expiry.
 * The reCAPTCHA verdict comes from a remote service and is a parameter.
 * Signing in writes nothing to the database.
 */
module Signin {
  import opened Wrappers
  import opened Models
  import opened Serializers
  import Authentication

  const LockoutThreshold: nat := 4
  const LockoutMinutes: nat := 10
  const LockoutSeconds: int := LockoutMinutes * 60

  /** A cached counter and the instant it expires. */
  datatype Entry = Entry(failures: nat, expiresAt: Time)

  type Cache = map<string, Entry>

  /** The cache key of the failures of `username` from `sourceIp` (the text "None" when the address is unknown). */
  function FailureKey(username: string, sourceIp: string): string {
    "LOGIN_FAILURES_OF_" + username + "_AT_" + sourceIp
  }

  /** `cache.get(key) or 0`. */
  function Failures(cache: Cache, key: string, now: Time): nat {
    if key in cache && now < cache[key].expiresAt then cache[key].failures else 0
  }

  /** The identifier the counter is kept for: the email if given, else the mobile. */
  function Username(req: SigninRequest): string {
    if Supplied(req.email) then req.email.value
    else if Supplied(req.mobile) then req.mobile.value
    else ""
  }

  datatype SigninResponse =
    | SignedIn(customer: Id)          // a fresh token pair
    | Rejected(error: ValidationError)
    | WrongCaptcha                    // "Wrong Captcha."
    | LockedOut                       // "Username is locked out. Try in 10 minutes."
    | InvalidCredentials(failures: nat)  // "Invalid username/password." with the earlier failures
    | Disabled                        // "Customer account is disabled."

  datatype SigninOutcome = SigninOutcome(response: SigninResponse, cache: Cache)

  /** The request passed validation and, when reCAPTCHA is on, the captcha check. */
  predicate Admitted(req: SigninRequest, recaptchaEnabled: bool, recaptchaOk: bool) {
    ValidateSignin(req, recaptchaEnabled).None? && (recaptchaEnabled ==> recaptchaOk)
  }

  /** The customer the credentials of the request authenticate, if any. */
  function Credentials(db: Db, req: SigninRequest): Option<Id>
    requires req.password.Some?
  {
    Authentication.Authenticate(db, req.email, req.mobile, req.password.value)
  }

  /** `signin`. */
  function Signin(db: Db, cache: Cache, req: SigninRequest, sourceIp: string, recaptchaEnabled: bool,
                  recaptchaOk: bool, now: Time): (o: SigninOutcome)
    ensures o.response.Rejected? <==> ValidateSignin(req, recaptchaEnabled).Some?
    ensures o.response.WrongCaptcha? <==> ValidateSignin(req, recaptchaEnabled).None? && recaptchaEnabled && !recaptchaOk
    ensures var key := FailureKey(Username(req), sourceIp);
      Admitted(req, recaptchaEnabled, recaptchaOk) ==>
        (o.response.LockedOut? <==> Failures(cache, key, now) >= LockoutThreshold) &&
        (Failures(cache, key, now) < LockoutThreshold ==>
          (o.response.InvalidCredentials? <==> Credentials(db, req).None?))
    ensures var key := FailureKey(Username(req), sourceIp);
      o.response.InvalidCredentials? ==>
        o.response.failures == Failures(cache, key, now) &&
        o.cache == cache[key := Entry(o.response.failures + 1, now + LockoutSeconds)]
    ensures var key := FailureKey(Username(req), sourceIp);
      o.response.SignedIn? || o.response.Disabled? ==>
        Admitted(req, recaptchaEnabled, recaptchaOk) && Failures(cache, key, now) < LockoutThreshold &&
        Credentials(db, req).Some? && CustomerIndex(db, Credentials(db, req).value).Some? &&
        o.cache == cache - {key} &&
        (o.response.SignedIn? <==> db.customers[CustomerIndex(db, Credentials(db, req).value).value].isActive)
    ensures o.response.SignedIn? ==> o.response.customer == Credentials(db, req).value
    ensures !(o.response.InvalidCredentials? || o.response.SignedIn? || o.response.Disabled?) ==> o.cache == cache
    ensures (forall k | k in cache :: cache[k].failures <= LockoutThreshold) ==>
      forall k | k in o.cache :: o.cache[k].failures <= LockoutThreshold
  {
    var err := ValidateSignin(req, recaptchaEnabled);
    if err.Some? then SigninOutcome(Rejected(err.value), cache)
    else if recaptchaEnabled && !recaptchaOk then SigninOutcome(WrongCaptcha, cache)
    else
      var key := FailureKey(Username(req), sourceIp);
      var failures := Failures(cache, key, now);
      if failures >= LockoutThreshold then SigninOutcome(LockedOut, cache)
      else
        match Credentials(db, req)
        case None => SigninOutcome(InvalidCredentials(failures), cache[key := Entry(failures + 1, now + LockoutSeconds)])
        case Some(id) =>
          match CustomerIndex(db, id)
          case None => assert false; SigninOutcome(Disabled, cache - {key})
          case Some(i) =>
            if db.customers[i].isActive then SigninOutcome(SignedIn(id), cache - {key})
            else SigninOutcome(Disabled, cache - {key})
  }

  // ---------------------------------------------------------------------------
  // Repeated attempts

  /** One sign-in attempt: the request, the captcha verdict and the instant it arrives. */
  datatype Attempt = Attempt(req: SigninRequest, recaptchaOk: bool, at: Time)

  /** The cache after a run of attempts from one address, in order. */
  function Replay(db: Db, cache: Cache, sourceIp: string, recaptchaEnabled: bool, attempts: seq<Attempt>): Cache
    decreases |attempts|
  {
    if |attempts| == 0 then cache
    else
      var last := attempts[|attempts| - 1];
      var before := Replay(db, cache, sourceIp, recaptchaEnabled, attempts[..|attempts| - 1]);
      Signin(db, before, last.req, sourceIp, recaptchaEnabled, last.recaptchaOk, last.at).cache
  }

  /** Every attempt is admitted, names `username`, and carries credentials that fail. */
  predicate FailingAttempts(db: Db, username: string, recaptchaEnabled: bool, attempts: seq<Attempt>) {
    forall i :: 0 <= i < |attempts| ==>
      Admitted(attempts[i].req, recaptchaEnabled, attempts[i].recaptchaOk) &&
      Username(attempts[i].req) == username &&
      Credentials(db, attempts[i].req).None?
  }

  /** Each attempt comes after the previous one and before its failure counter expires. */
  predicate WithinLockout(attempts: seq<Attempt>) {
    forall i :: 0 < i < |attempts| ==> attempts[i - 1].at <= attempts[i].at < attempts[i - 1].at + LockoutSeconds
  }

  /** Up to four failing attempts, each within ten minutes of the previous, are all counted. */
  lemma {:induction false} FailuresCounted(db: Db, cache: Cache, sourceIp: string, recaptchaEnabled: bool,
                                           attempts: seq<Attempt>, username: string)
    requires 1 <= |attempts| <= LockoutThreshold
    requires FailingAttempts(db, username, recaptchaEnabled, attempts) && WithinLockout(attempts)
    requires Failures(cache, FailureKey(username, sourceIp), attempts[0].at) == 0
    ensures var c := Replay(db, cache, sourceIp, recaptchaEnabled, attempts);
      FailureKey(username, sourceIp) in c &&
      c[FailureKey(username, sourceIp)] == Entry(|attempts|, attempts[|attempts| - 1].at + LockoutSeconds)
    decreases |attempts|
  {
    var n := |attempts|;
    var last := attempts[n - 1];
    var key := FailureKey(username, sourceIp);
    assert Admitted(last.req, recaptchaEnabled, last.recaptchaOk) && Username(last.req) == username;
    if n > 1 {
      var prefix := attempts[..n - 1];
      FailingPrefix(db, username, recaptchaEnabled, attempts);
      FailuresCounted(db, cache, sourceIp, recaptchaEnabled, prefix, username);
      var before := Replay(db, cache, sourceIp, recaptchaEnabled, prefix);
      assert attempts[n - 2].at <= last.at < attempts[n - 2].at + LockoutSeconds;
      assert Failures(before, key, last.at) == n - 1;
      FailureRecorded(db, before, last, sourceIp, recaptchaEnabled, username);
    } else {
      FailureRecorded(db, cache, last, sourceIp, recaptchaEnabled, username);
    }
  }

  /** Dropping the last of a run of failing attempts within the lockout time leaves such a run. */
  lemma FailingPrefix(db: Db, username: string, recaptchaEnabled: bool, attempts: seq<Attempt>)
    requires 1 <= |attempts|
    requires FailingAttempts(db, username, recaptchaEnabled, attempts) && WithinLockout(attempts)
    ensures var prefix := attempts[..|attempts| - 1];
      FailingAttempts(db, username, recaptchaEnabled, prefix) && WithinLockout(prefix) &&
      (|prefix| > 0 ==> prefix[0] == attempts[0] && prefix[|prefix| - 1] == attempts[|attempts| - 2])
  {
    var prefix := attempts[..|attempts| - 1];
    assert forall i | 0 <= i < |prefix| :: prefix[i] == attempts[i];
  }

  /** An admitted attempt with failing credentials, not locked out, counts one more failure for ten minutes. */
  lemma FailureRecorded(db: Db, cache: Cache, a: Attempt, sourceIp: string, recaptchaEnabled: bool, username: string)
    requires Admitted(a.req, recaptchaEnabled, a.recaptchaOk) && Username(a.req) == username
    requires Credentials(db, a.req).None?
    requires Failures(cache, FailureKey(username, sourceIp), a.at) < LockoutThreshold
    ensures var key := FailureKey(username, sourceIp);
      Signin(db, cache, a.req, sourceIp, recaptchaEnabled, a.recaptchaOk, a.at).cache ==
        cache[key := Entry(Failures(cache, key, a.at) + 1, a.at + LockoutSeconds)]
  {
  }

  /**
   * After four failing attempts within the lockout time of each other, any
   * admitted attempt for the same identifier and address before the counter
   * expires is refused and changes nothing, even with the right password.
   */
  lemma LockedOutAfterFailures(db: Db, cache: Cache, sourceIp: string, recaptchaEnabled: bool,
                               attempts: seq<Attempt>, username: string, req: SigninRequest, ok: bool, now: Time)
    requires |attempts| == LockoutThreshold
    requires FailingAttempts(db, username, recaptchaEnabled, attempts) && WithinLockout(attempts)
    requires Failures(cache, FailureKey(username, sourceIp), attempts[0].at) == 0
    requires Admitted(req, recaptchaEnabled, ok) && Username(req) == username
    requires now < attempts[|attempts| - 1].at + LockoutSeconds
    ensures var c := Replay(db, cache, sourceIp, recaptchaEnabled, attempts);
      Signin(db, c, req, sourceIp, recaptchaEnabled, ok, now) == SigninOutcome(LockedOut, c)
  {
    FailuresCounted(db, cache, sourceIp, recaptchaEnabled, attempts, username);
  }

  /** Once the counter has expired, the same attempt is checked against the credentials again. */
  lemma LockoutExpires(db: Db, cache: Cache, req: SigninRequest, sourceIp: string, recaptchaEnabled: bool,
                       ok: bool, now: Time)
    requires Admitted(req, recaptchaEnabled, ok)
    requires var key := FailureKey(Username(req), sourceIp); key in cache && cache[key].expiresAt <= now
    ensures !Signin(db, cache, req, sourceIp, recaptchaEnabled, ok, now).response.LockedOut?
  {
  }
}
