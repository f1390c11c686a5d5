/**
 * The customer app as it runs: one store whose tables the view actions and
 * the tasks update in place, request after request, and beside it the cache
 * that holds the sign-in failure counters.
 *
 * Every action method does what its view does, save by save, and is proved
 * to end in the response and the database that the action's function in
 * Views, EmailViews, MobileViews or Sessions describes; started on a
 * consistent database, it leaves the database consistent. No action needs
 * more of the store than the view does of its database: a missing row takes
 * the same error path as in the functions.
 */
module Store {
  import opened Wrappers
  import opened Fields
  import opened Models
  import opened Serializers
  import opened Views
  import Tasks
  import EmailViews
  import MobileViews
  import Sessions
  import Lockout = Signin

  class Store {
    var people: seq<People>
    var contacts: seq<Contact>
    var customers: seq<Customer>
    var emailTemps: seq<EmailTemp>
    var otpTemps: seq<OTPTemp>
    var emailChanges: seq<EmailChange>
    var phoneChanges: seq<PhoneChange>
    var revoked: set<string>
    var outbox: seq<Mail>
    var nextId: Id

    /** The database the fields hold. */
    function State(): Db
      reads this
    {
      Db(people, contacts, customers, emailTemps, otpTemps, emailChanges, phoneChanges, revoked, outbox, nextId)
    }

    /** The keys, UNIQUE columns, links and change logs are consistent. */
    ghost predicate Valid()
      reads this
    {
      Models.Valid(State())
    }

    /** An empty database. */
    constructor ()
      ensures State() == EmptyDb && Valid()
    {
      people, contacts, customers := [], [], [];
      emailTemps, otpTemps, emailChanges, phoneChanges := [], [], [], [];
      revoked, outbox, nextId := {}, [], 0;
      EmptyValid();
    }

    // -------------------------------------------------------------------------
    // Tasks

    /** `send_email_verification(contact_id)`. */
    method SendEmailVerification(contactId: Id, now: Time)
      modifies this
      ensures State() == Tasks.SendEmailVerification(old(State()), contactId, now)
    {
      var k := IndexOf(ContactIds(contacts), contactId);
      var i := IndexOf(Usernames(customers), contactId);
      if k.None? || i.None? {
        return;
      }
      var c := contacts[k.value];
      var u := customers[i.value];
      if c.email.Null? {
        return;
      }
      var ticket := Row(nextId, u.id, now, c.email.s);
      emailTemps, nextId := emailTemps + [ticket], nextId + 1;
      var latest := NewestOf(emailChanges, u.id);
      if latest.Some? {
        var pending := emailChanges[latest.value].data.newValue;
        outbox := outbox + [Mail(Tasks.Recipient(u.emailVerify, pending, c.email.s), u.id, ticket.id)];
      }
    }

    /** `send_mobile_verification_code(contact_id)`. */
    method SendMobileVerificationCode(contactId: Id, now: Time)
      modifies this
      ensures State() == Tasks.SendMobileVerificationCode(old(State()), contactId, now)
    {
      var k := IndexOf(ContactIds(contacts), contactId);
      var i := IndexOf(Usernames(customers), contactId);
      if k.None? || i.None? {
        return;
      }
      otpTemps, nextId := otpTemps + [Row(nextId, customers[i.value].id, now, Tasks.OtpCode)], nextId + 1;
    }

    /** The tasks a saved contact asks for: the email task, then the mobile task, each when asked. */
    method StartVerifications(contactId: Id, sendEmail: bool, sendCode: bool, now: Time)
      modifies this
      ensures State() == Views.StartVerifications(old(State()), contactId, sendEmail, sendCode, now)
    {
      if sendEmail {
        SendEmailVerification(contactId, now);
      }
      if sendCode {
        SendMobileVerificationCode(contactId, now);
      }
    }

    // -------------------------------------------------------------------------
    // signup and update

    /** `SignupSerializer.create`: People, Contact, Customer, then an empty EmailChange and PhoneChange. */
    method CreateAccount(req: SignupRequest, now: Time)
      modifies this
      requires ValidateSignup(req, TakenEmails(contacts), TakenMobiles(contacts), TakenCodes(people)).None?
      ensures State() == Views.CreateAccount(old(State()), req, now)
    {
      var n := nextId;
      var person := NewPeople(n, req.nationalCode.value);
      var contact := NewContact(n + 1, n, GetPrepValue(FromOption(req.email)), GetPrepValue(FromOption(req.mobile)));
      var customer := NewCustomer(n + 2, n + 1, MakePassword(req.password.value), n);
      var emailLog := Row(n + 3, n + 2, now, Change(GetPrepValue(Text("")), GetPrepValue(Text(""))));
      var phoneLog := Row(n + 4, n + 2, now, Change(GetPrepValue(Text("")), GetPrepValue(Text(""))));
      people, contacts, customers := people + [person], contacts + [contact], customers + [customer];
      emailChanges, phoneChanges, nextId := emailChanges + [emailLog], phoneChanges + [phoneLog], n + 5;
    }

    /** `signup`: validate, `SignupSerializer.create`, then the task for the identifier given. */
    method Signup(req: SignupRequest, now: Time) returns (r: Response)
      modifies this
      ensures Outcome(r, State()) == Views.Signup(old(State()), req, now)
      ensures old(Valid()) ==> Valid()
    {
      ghost var before := State();
      if Valid() {
        SignupValid(before, req, now);
      }
      var err := ValidateSignup(req, TakenEmails(contacts), TakenMobiles(contacts), TakenCodes(people));
      if err.Some? {
        return Invalid(err.value);
      }
      SignupAccepted(before, req, now);
      var n := nextId;
      CreateAccount(req, now);
      StartVerifications(n + 1, Truthy(FromOption(req.email)), Truthy(FromOption(req.mobile)), now);
      r := Created(n + 2);
    }

    /** The email branch of `CustomerUpdateSerializer.update`: unverify the email and log the change. */
    method RequestEmailChange(i: nat, current: Nullable, email: string, now: Time)
      modifies this
      requires i < |customers|
      ensures State() == Views.RequestEmailChange(old(State()), i, current, email, now)
    {
      var u := customers[i];
      var change := Row(nextId, u.id, now, Change(GetPrepValue(current), GetPrepValue(Text(email))));
      customers, emailChanges, nextId := customers[i := u.(emailVerify := None)], emailChanges + [change], nextId + 1;
    }

    /** The mobile branch of `CustomerUpdateSerializer.update`: unverify the mobile and log the change. */
    method RequestMobileChange(i: nat, current: Nullable, mobile: string, now: Time)
      modifies this
      requires i < |customers|
      ensures State() == Views.RequestMobileChange(old(State()), i, current, mobile, now)
    {
      var u := customers[i];
      var change := Row(nextId, u.id, now, Change(GetPrepValue(current), GetPrepValue(Text(mobile))));
      customers, phoneChanges, nextId := customers[i := u.(mobileVerify := None)], phoneChanges + [change], nextId + 1;
    }

    /** `CustomerUpdateSerializer.update` on the customer at index i. */
    method UpdateProfile(i: nat, req: UpdateRequest, now: Time)
      modifies this
      requires i < |customers|
      requires IndexOf(ContactIds(contacts), customers[i].username).Some?
      requires IndexOf(PeopleIds(people), customers[i].owner).Some?
      requires ValidateUpdate(req, TakenEmails(contacts), TakenMobiles(contacts), TakenCodes(people)).None?
      ensures State() == Views.UpdateProfile(old(State()), i, req, now)
    {
      var u := customers[i];
      var c := contacts[IndexOf(ContactIds(contacts), u.username).value];
      var k := IndexOf(PeopleIds(people), u.owner).value;
      if req.email.Some? {
        RequestEmailChange(i, c.email, req.email.value, now);
      }
      if req.mobile.Some? {
        RequestMobileChange(i, c.mobile, req.mobile.value, now);
      }
      var p := people[k];
      people := people[k := p.(
        name := req.name.GetOr(p.name),
        lastName := req.lastName.GetOr(p.lastName),
        nationalCode := req.nationalCode.GetOr(p.nationalCode))];
    }

    /** `update`: `CustomerUpdateSerializer.update`, then the tasks the latest changes ask for. */
    method Update(id: Id, req: UpdateRequest, now: Time) returns (r: Response)
      modifies this
      ensures Outcome(r, State()) == Views.Update(old(State()), id, req, now)
      ensures old(Valid()) ==> Valid()
    {
      if Valid() {
        UpdateValid(State(), id, req, now);
      }
      var ci := IndexOf(CustomerIds(customers), id);
      if ci.None? {
        return NotFound;
      }
      var i := ci.value;
      var err := ValidateUpdate(req, TakenEmails(contacts), TakenMobiles(contacts), TakenCodes(people));
      if err.Some? {
        return Invalid(err.value);
      }
      var u := customers[i];
      if IndexOf(ContactIds(contacts), u.username).None? || IndexOf(PeopleIds(people), u.owner).None? {
        return ServerError;
      }
      UpdateProfile(i, req, now);
      var e := NewestOf(emailChanges, u.id);
      var m := NewestOf(phoneChanges, u.id);
      if e.None? || m.None? {
        return ServerError;
      }
      StartVerifications(u.username, Truthy(emailChanges[e.value].data.newValue), Truthy(phoneChanges[m.value].data.newValue), now);
      r := Created(id);
    }

    // -------------------------------------------------------------------------
    // The email channel

    /**
     * The saves of a successful email verification: the customer is saved
     * verified and active, the pending email (if any) is moved into the
     * contact, the change is cleared and the customer's tickets are deleted.
     */
    method ConfirmEmail(i: nat, e: nat, now: Time) returns (r: Response)
      modifies this
      requires i < |customers| && e < |emailChanges|
      ensures Outcome(r, State()) == EmailViews.ConfirmEmail(old(State()), i, e, now)
    {
      var u := customers[i];
      customers := customers[i := u.(emailVerify := Some(now), isActive := true)];
      var pending := emailChanges[e].data.newValue;
      if Truthy(pending) {
        var ck := IndexOf(ContactIds(contacts), u.username);
        if ck.None? {
          return ServerError;
        }
        if EmailHeldElsewhere(contacts, ck.value, pending) {
          return IntegrityError;
        }
        contacts := contacts[ck.value := contacts[ck.value].(email := pending)];
      }
      var row := emailChanges[e];
      emailChanges := emailChanges[e := row.(data := row.data.(newValue := GetPrepValue(Text(""))))];
      emailTemps := DeleteOwned(emailTemps, u.id);
      r := Verified;
    }

    /** `verify_email`. */
    method VerifyEmail(id: Id, ticket: Option<Id>, now: Time) returns (r: Response)
      modifies this
      ensures Outcome(r, State()) == EmailViews.VerifyEmail(old(State()), id, ticket, now)
      ensures old(Valid()) ==> Valid()
    {
      if Valid() {
        EmailViews.VerifyEmailValid(State(), id, ticket, now);
      }
      var err := ValidateTicketId(ticket);
      if err.Some? {
        return Invalid(err.value);
      }
      var ci := IndexOf(CustomerIds(customers), id);
      if ci.None? {
        return NotFound;
      }
      var i := ci.value;
      var u := customers[i];
      var e := NewestOf(emailChanges, u.id);
      if e.None? {
        return ServerError;
      }
      if u.emailVerify.Some? {
        return AlreadyVerified;
      }
      var t := FindOwned(emailTemps, u.id, ticket.value);
      if t.None? {
        return TicketNotFound;
      }
      if now - emailTemps[t.value].createdAt > EmailVerificationExpireTime {
        return Expired;
      }
      r := ConfirmEmail(i, e.value, now);
    }

    /** `resend_email`. */
    method ResendEmail(id: Id, now: Time) returns (r: Response)
      modifies this
      ensures Outcome(r, State()) == EmailViews.ResendEmail(old(State()), id, now)
      ensures old(Valid()) ==> Valid()
    {
      if Valid() {
        EmailViews.ResendEmailValid(State(), id, now);
      }
      var ci := IndexOf(CustomerIds(customers), id);
      if ci.None? {
        return NotFound;
      }
      var u := customers[ci.value];
      if u.emailVerify.Some? {
        return AlreadyVerified;
      }
      var t := NewestOf(emailTemps, u.id);
      if t.None? {
        return NoTickets;
      }
      var age := now - emailTemps[t.value].createdAt;
      if age < EmailVerificationResendTimeLimit {
        return TooSoon(EmailVerificationResendTimeLimit - age);
      }
      SendEmailVerification(u.username, now);
      r := Sent;
    }

    /** `contact.email = email; contact.save()` for the contact at index k. */
    method SetContactEmail(k: nat, email: string)
      modifies this
      requires k < |contacts|
      ensures State() == EmailViews.SetContactEmail(old(State()), k, email)
    {
      contacts := contacts[k := contacts[k].(email := GetPrepValue(Text(email)))];
    }

    /** `change_email`. */
    method ChangeEmail(id: Id, email: Option<string>, now: Time) returns (r: Response)
      modifies this
      ensures Outcome(r, State()) == EmailViews.ChangeEmail(old(State()), id, email, now)
      ensures old(Valid()) ==> Valid()
    {
      ghost var before := State();
      var err := ValidateChangeEmail(email, TakenEmails(contacts));
      if err.Some? {
        return Invalid(err.value);
      }
      var ci := IndexOf(CustomerIds(customers), id);
      if ci.None? {
        return NotFound;
      }
      var u := customers[ci.value];
      if u.emailVerify.Some? {
        return AlreadyVerified;
      }
      if |TicketEmails(emailTemps, u.id)| >= EmailVerificationChangeLimit {
        return ChangeLimitExceeded;
      }
      if email.None? {
        return ServerError;
      }
      var ck := IndexOf(ContactIds(contacts), u.username);
      if ck.None? {
        return ServerError;
      }
      SetContactEmail(ck.value, email.value);
      SendEmailVerification(u.username, now);
      assert State() == Tasks.SendEmailVerification(EmailViews.SetContactEmail(before, ck.value, email.value), u.username, now);
      r := Sent;
      if Models.Valid(before) {
        EmailViews.ChangeEmailValid(before, id, email, now);
      }
    }

    // -------------------------------------------------------------------------
    // The mobile channel

    /**
     * The saves of a successful mobile verification: the customer's codes
     * are deleted, the customer is saved verified and active, the pending
     * mobile (if any) is moved into the contact and the change is cleared.
     */
    method ConfirmMobile(i: nat, m: nat, now: Time) returns (r: Response)
      modifies this
      requires i < |customers| && m < |phoneChanges|
      ensures Outcome(r, State()) == MobileViews.ConfirmMobile(old(State()), i, m, now)
    {
      var u := customers[i];
      otpTemps := DeleteOwned(otpTemps, u.id);
      customers := customers[i := u.(mobileVerify := Some(now), isActive := true)];
      var pending := phoneChanges[m].data.newValue;
      if Truthy(pending) {
        var ck := IndexOf(ContactIds(contacts), u.username);
        if ck.None? {
          return ServerError;
        }
        if MobileHeldElsewhere(contacts, ck.value, pending) {
          return IntegrityError;
        }
        contacts := contacts[ck.value := contacts[ck.value].(mobile := pending)];
      }
      var row := phoneChanges[m];
      phoneChanges := phoneChanges[m := row.(data := row.data.(newValue := GetPrepValue(Text(""))))];
      r := Verified;
    }

    /** `verify_mobile`. */
    method VerifyMobile(id: Id, code: Option<int>, now: Time) returns (r: Response)
      modifies this
      ensures Outcome(r, State()) == MobileViews.VerifyMobile(old(State()), id, code, now)
      ensures old(Valid()) ==> Valid()
    {
      if Valid() {
        MobileViews.VerifyMobileValid(State(), id, code, now);
      }
      var err := ValidateOtp(code);
      if err.Some? {
        return Invalid(err.value);
      }
      var ci := IndexOf(CustomerIds(customers), id);
      if ci.None? {
        return NotFound;
      }
      var i := ci.value;
      var u := customers[i];
      var m := NewestOf(phoneChanges, u.id);
      if m.None? {
        return ServerError;
      }
      if u.mobileVerify.Some? {
        return AlreadyVerified;
      }
      var t := NewestOf(otpTemps, u.id);
      if t.None? {
        return ServerError;
      }
      if now - otpTemps[t.value].createdAt > OtpExpireTime {
        return Expired;
      }
      if code.value != otpTemps[t.value].data {
        return InvalidCode;
      }
      r := ConfirmMobile(i, m.value, now);
    }

    /** `resend_mobile_code`. */
    method ResendMobileCode(id: Id, now: Time) returns (r: Response)
      modifies this
      ensures Outcome(r, State()) == MobileViews.ResendMobileCode(old(State()), id, now)
      ensures old(Valid()) ==> Valid()
    {
      if Valid() {
        MobileViews.ResendMobileCodeValid(State(), id, now);
      }
      var ci := IndexOf(CustomerIds(customers), id);
      if ci.None? {
        return NotFound;
      }
      var u := customers[ci.value];
      if u.mobileVerify.Some? {
        return AlreadyVerified;
      }
      var t := NewestOf(otpTemps, u.id);
      if t.None? {
        return ServerError;
      }
      var age := now - otpTemps[t.value].createdAt;
      if age < OtpExpireTime {
        return TooSoon(OtpExpireTime - age);
      }
      SendMobileVerificationCode(u.username, now);
      r := Sent;
    }

    /** `contact.mobile = mobile; contact.save()` for the contact at index k. */
    method SetContactMobile(k: nat, mobile: string)
      modifies this
      requires k < |contacts|
      ensures State() == MobileViews.SetContactMobile(old(State()), k, mobile)
    {
      contacts := contacts[k := contacts[k].(mobile := GetPrepValue(Text(mobile)))];
    }

    /** `change_mobile`. */
    method ChangeMobile(id: Id, mobile: Option<string>, now: Time) returns (r: Response)
      modifies this
      ensures Outcome(r, State()) == MobileViews.ChangeMobile(old(State()), id, mobile, now)
      ensures old(Valid()) ==> Valid()
    {
      ghost var before := State();
      if Valid() {
        MobileViews.ChangeMobileValid(before, id, mobile, now);
      }
      var err := ValidateMobile(mobile, TakenMobiles(contacts));
      if err.Some? {
        return Invalid(err.value);
      }
      var ci := IndexOf(CustomerIds(customers), id);
      if ci.None? {
        return NotFound;
      }
      var u := customers[ci.value];
      if u.mobileVerify.Some? {
        return AlreadyVerified;
      }
      var ck := IndexOf(ContactIds(contacts), u.username);
      if ck.None? {
        return ServerError;
      }
      SetContactMobile(ck.value, mobile.value);
      SendMobileVerificationCode(u.username, now);
      assert State() == Tasks.SendMobileVerificationCode(MobileViews.SetContactMobile(before, ck.value, mobile.value), u.username, now);
      r := Sent;
    }

    // -------------------------------------------------------------------------
    // Passwords, tokens and sign-in

    /** `RefreshToken(token).blacklist()`; false when TokenError is raised. */
    method Blacklist(token: string, intact: bool) returns (ok: bool)
      modifies this
      ensures ok <==> Sessions.Blacklist(old(State()), token, intact).Some?
      ensures ok ==> State() == Sessions.Blacklist(old(State()), token, intact).value
      ensures !ok ==> State() == old(State())
    {
      ok := intact && token !in revoked;
      if ok {
        revoked := revoked + {token};
      }
    }

    /** `change_password`. */
    method ChangePassword(id: Id, req: ChangePasswordRequest, tokenIntact: bool) returns (r: Response)
      modifies this
      ensures Outcome(r, State()) == Sessions.ChangePassword(old(State()), id, req, tokenIntact)
      ensures old(Valid()) ==> Valid()
    {
      ghost var before := State();
      if Valid() {
        Sessions.ChangePasswordValid(before, id, req, tokenIntact);
      }
      var ci := IndexOf(CustomerIds(customers), id);
      if ci.None? {
        return NotFound;
      }
      var i := ci.value;
      var err := ValidateChangePassword(req);
      if err.Some? {
        return Invalid(err.value);
      }
      if !CheckPassword(customers[i].password, req.oldPassword.value) {
        return IncorrectPassword;
      }
      customers := customers[i := customers[i].(password := MakePassword(req.newPassword.value))];
      assert State() == Sessions.SetPassword(before, i, req.newPassword.value);
      var ok := Blacklist(req.refresh.value, tokenIntact);
      r := if ok then PasswordChanged else InvalidToken;
    }

    /** `signout`. */
    method Signout(refresh: Option<string>, tokenIntact: bool) returns (r: Response)
      modifies this
      ensures Outcome(r, State()) == Sessions.Signout(old(State()), refresh, tokenIntact)
      ensures old(Valid()) ==> Valid()
    {
      if Valid() {
        Sessions.SignoutValid(State(), refresh, tokenIntact);
      }
      var err := ValidateSignout(refresh);
      if err.Some? {
        return Invalid(err.value);
      }
      var ok := Blacklist(refresh.value, tokenIntact);
      r := if ok then SignedOut else InvalidToken;
    }

    /** `signin`: reads the database and changes only the failure counter in the cache. */
    method Signin(failures: FailureCache, req: SigninRequest, sourceIp: string, recaptchaEnabled: bool,
                  recaptchaOk: bool, now: Time) returns (r: Lockout.SigninResponse)
      modifies failures
      ensures Lockout.SigninOutcome(r, failures.entries) ==
        Lockout.Signin(State(), old(failures.entries), req, sourceIp, recaptchaEnabled, recaptchaOk, now)
    {
      var err := ValidateSignin(req, recaptchaEnabled);
      if err.Some? {
        return Lockout.Rejected(err.value);
      }
      if recaptchaEnabled && !recaptchaOk {
        return Lockout.WrongCaptcha;
      }
      var key := Lockout.FailureKey(Lockout.Username(req), sourceIp);
      var count := failures.Get(key, now);
      if count >= Lockout.LockoutThreshold {
        return Lockout.LockedOut;
      }
      var who := Lockout.Credentials(State(), req);
      if who.None? {
        failures.Set(key, count + 1, now + Lockout.LockoutSeconds);
        return Lockout.InvalidCredentials(count);
      }
      failures.Delete(key);
      var i := IndexOf(CustomerIds(customers), who.value);
      if i.Some? && customers[i.value].isActive {
        r := Lockout.SignedIn(who.value);
      } else {
        r := Lockout.Disabled;
      }
    }
  }

  /**
   * Django's default local-memory cache, as far as sign-in uses it: counters
   * under string keys, each with the instant it expires.
   */
  class FailureCache {
    var entries: Lockout.Cache

    constructor ()
      ensures entries == map[]
    {
      entries := map[];
    }

    /** `cache.get(key) or 0`: an expired entry reads as absent. */
    method Get(key: string, now: Time) returns (n: nat)
      ensures key in entries && now < entries[key].expiresAt ==> n == entries[key].failures
      ensures !(key in entries && now < entries[key].expiresAt) ==> n == 0
      ensures n == Lockout.Failures(entries, key, now)
    {
      n := 0;
      if key in entries && now < entries[key].expiresAt {
        n := entries[key].failures;
      }
    }

    /** `cache.set(key, n, timeout)`. */
    method Set(key: string, n: nat, expiresAt: Time)
      modifies this
      ensures entries == old(entries)[key := Lockout.Entry(n, expiresAt)]
    {
      entries := entries[key := Lockout.Entry(n, expiresAt)];
    }

    /** `cache.delete(key)`. */
    method Delete(key: string)
      modifies this
      ensures entries == old(entries) - {key}
      ensures key !in entries
    {
      entries := entries - {key};
    }
  }
}
