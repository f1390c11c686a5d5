/**
 * The mobile channel of the customer view set (views.py `verify_mobile`,
 * `resend_mobile_code`, `change_mobile`): checking the one-time code,
 * asking for another code, and replacing the number before it is verified.
 */
module MobileViews {
  import opened Wrappers
  import opened Fields
  import opened Models
  import opened Serializers
  import opened Integrity
  import opened Views
  import Tasks
  import EmailViews

  // ---------------------------------------------------------------------------
  // verify_mobile

  /**
   * The writes after the code matched, for customer i whose latest
   * PhoneChange is row m: every OTP ticket of the customer is deleted, the
   * customer is verified and activated, a pending new mobile moves into the
   * contact unless another contact holds it, and the pending mobile is
   * cleared. Each write is committed before the next one runs.
   */
  function ConfirmMobile(db: Db, i: nat, m: nat, now: Time): (o: Outcome)
    requires i < |db.customers| && m < |db.phoneChanges|
    ensures o.response.Verified? || o.response.IntegrityError? || o.response.ServerError?
    ensures var u := db.customers[i];
      o.db.otpTemps == DeleteOwned(db.otpTemps, u.id) && !Owns(o.db.otpTemps, u.id) &&
      o.db.customers == db.customers[i := u.(mobileVerify := Some(now), isActive := true)] &&
      o.db.people == db.people && o.db.emailTemps == db.emailTemps && o.db.emailChanges == db.emailChanges &&
      o.db.revoked == db.revoked && o.db.outbox == db.outbox && o.db.nextId == db.nextId
    ensures !o.response.Verified? ==> o.db.contacts == db.contacts && o.db.phoneChanges == db.phoneChanges
    ensures var u := db.customers[i]; var pending := db.phoneChanges[m].data.newValue;
      o.response.IntegrityError? <==>
        Truthy(pending) && ContactIndex(db, u.username).Some? &&
        MobileHeldElsewhere(db.contacts, ContactIndex(db, u.username).value, pending)
    ensures var u := db.customers[i]; var pending := db.phoneChanges[m].data.newValue;
      o.response.Verified? ==>
        (Truthy(pending) ==>
          ContactIndex(db, u.username).Some? &&
          var k := ContactIndex(db, u.username).value;
          o.db.contacts == db.contacts[k := db.contacts[k].(mobile := pending)]) &&
        (!Truthy(pending) ==> o.db.contacts == db.contacts) &&
        o.db.phoneChanges == db.phoneChanges[m := db.phoneChanges[m].(data := Change(db.phoneChanges[m].data.oldValue, Null))]
  {
    var u := db.customers[i];
    var d0 := db.(otpTemps := DeleteOwned(db.otpTemps, u.id));
    var d1 := d0.(customers := d0.customers[i := u.(mobileVerify := Some(now), isActive := true)]);
    var pending := db.phoneChanges[m].data.newValue;
    if Truthy(pending) && ContactIndex(db, u.username).None? then Outcome(ServerError, d1)
    else if Truthy(pending) && MobileHeldElsewhere(db.contacts, ContactIndex(db, u.username).value, pending) then
      Outcome(IntegrityError, d1)
    else
      var d2 :=
        if Truthy(pending) then
          var k := ContactIndex(db, u.username).value;
          d1.(contacts := d1.contacts[k := d1.contacts[k].(mobile := pending)])
        else d1;
      var row := db.phoneChanges[m];
      Outcome(Verified, d2.(phoneChanges := d2.phoneChanges[m := row.(data := row.data.(newValue := GetPrepValue(Text(""))))]))
  }

  /**
   * `verify_mobile`: validate the code, find the customer; the newest OTP
   * ticket decides: expired, matching, or not.
   */
  function VerifyMobile(db: Db, id: Id, code: Option<int>, now: Time): (o: Outcome)
    ensures o.response.Invalid? <==> ValidateOtp(code).Some?
    ensures o.response.NotFound? <==> ValidateOtp(code).None? && id !in CustomerIds(db.customers)
    ensures !(o.response.Verified? || o.response.IntegrityError? || o.response.ServerError?) ==> o.db == db
    ensures o.response.AlreadyVerified? <==>
      ValidateOtp(code).None? && CustomerIndex(db, id).Some? && Owns(db.phoneChanges, id) &&
      db.customers[CustomerIndex(db, id).value].mobileVerify.Some?
    ensures o.response.Expired? || o.response.InvalidCode? || o.response.Verified? || o.response.IntegrityError? ==>
      ValidateOtp(code).None? && CustomerIndex(db, id).Some? && Owns(db.phoneChanges, id) &&
      db.customers[CustomerIndex(db, id).value].mobileVerify.None? && Owns(db.otpTemps, id)
    ensures o.response.Expired? <==>
      ValidateOtp(code).None? && CustomerIndex(db, id).Some? && Owns(db.phoneChanges, id) &&
      db.customers[CustomerIndex(db, id).value].mobileVerify.None? && Owns(db.otpTemps, id) &&
      now - db.otpTemps[NewestOf(db.otpTemps, id).value].createdAt > OtpExpireTime
    ensures o.response.ServerError? && o.db == db <==>
      ValidateOtp(code).None? && id in CustomerIds(db.customers) &&
      (!Owns(db.phoneChanges, id) ||
       (db.customers[CustomerIndex(db, id).value].mobileVerify.None? && !Owns(db.otpTemps, id)))
    ensures o.response.InvalidCode? <==>
      ValidateOtp(code).None? && CustomerIndex(db, id).Some? && Owns(db.phoneChanges, id) &&
      db.customers[CustomerIndex(db, id).value].mobileVerify.None? && Owns(db.otpTemps, id) &&
      now - db.otpTemps[NewestOf(db.otpTemps, id).value].createdAt <= OtpExpireTime &&
      code.value != db.otpTemps[NewestOf(db.otpTemps, id).value].data
    ensures (ValidateOtp(code).None? && CustomerIndex(db, id).Some? && Owns(db.phoneChanges, id) &&
             db.customers[CustomerIndex(db, id).value].mobileVerify.None? && Owns(db.otpTemps, id) &&
             now - db.otpTemps[NewestOf(db.otpTemps, id).value].createdAt <= OtpExpireTime &&
             code.value == db.otpTemps[NewestOf(db.otpTemps, id).value].data) ==>
      o == ConfirmMobile(db, CustomerIndex(db, id).value, NewestOf(db.phoneChanges, id).value, now)
    ensures o.response.Verified? || o.response.IntegrityError? || (o.response.ServerError? && o.db != db) ==>
      ValidateOtp(code).None? && CustomerIndex(db, id).Some? && Owns(db.phoneChanges, id) &&
      db.customers[CustomerIndex(db, id).value].mobileVerify.None? && Owns(db.otpTemps, id) &&
      now - db.otpTemps[NewestOf(db.otpTemps, id).value].createdAt <= OtpExpireTime &&
      code.value == db.otpTemps[NewestOf(db.otpTemps, id).value].data &&
      o == ConfirmMobile(db, CustomerIndex(db, id).value, NewestOf(db.phoneChanges, id).value, now)
  {
    var err := ValidateOtp(code);
    if err.Some? then Outcome(Invalid(err.value), db)
    else
      match CustomerIndex(db, id)
      case None => Outcome(NotFound, db)
      case Some(i) =>
        var u := db.customers[i];
        match NewestOf(db.phoneChanges, u.id)
        case None => Outcome(ServerError, db)    // latest() raises DoesNotExist
        case Some(m) =>
          if u.mobileVerify.Some? then Outcome(AlreadyVerified, db)
          else
            match NewestOf(db.otpTemps, u.id)
            case None => Outcome(ServerError, db)    // temp[0] raises IndexError
            case Some(t) =>
              if now - db.otpTemps[t].createdAt > OtpExpireTime then Outcome(Expired, db)
              else if code.value == db.otpTemps[t].data then ConfirmMobile(db, i, m, now)
              else Outcome(InvalidCode, db)
  }

  lemma ConfirmMobileValid(db: Db, i: nat, m: nat, now: Time)
    requires Valid(db) && i < |db.customers| && m < |db.phoneChanges|
    ensures Valid(ConfirmMobile(db, i, m, now).db)
  {
    var u := db.customers[i];
    OtpTicketsDeleted(db, u.id);
    var d0 := db.(otpTemps := DeleteOwned(db.otpTemps, u.id));
    CustomerSaved(d0, i, u.(mobileVerify := Some(now), isActive := true));
    var d1 := d0.(customers := d0.customers[i := u.(mobileVerify := Some(now), isActive := true)]);
    var pending := db.phoneChanges[m].data.newValue;
    var o := ConfirmMobile(db, i, m, now);
    if o.response.Verified? {
      var d2 :=
        if Truthy(pending) then
          var k := ContactIndex(db, u.username).value;
          d1.(contacts := d1.contacts[k := d1.contacts[k].(mobile := pending)])
        else d1;
      if Truthy(pending) {
        var k := ContactIndex(db, u.username).value;
        ContactSaved(d1, k, d1.contacts[k].(mobile := pending));
      }
      var row := db.phoneChanges[m];
      PhoneChangeSaved(d2, m, row.(data := row.data.(newValue := GetPrepValue(Text("")))));
    }
  }

  lemma VerifyMobileValid(db: Db, id: Id, code: Option<int>, now: Time)
    requires Valid(db)
    ensures Valid(VerifyMobile(db, id, code, now).db)
  {
    var o := VerifyMobile(db, id, code, now);
    if o.db != db {
      ConfirmMobileValid(db, CustomerIndex(db, id).value, NewestOf(db.phoneChanges, id).value, now);
    }
  }

  /**
   * In a consistent database the newest code, while live, verifies the
   * mobile: the customer is active and verified, no OTP ticket of theirs is
   * left, and the pending mobile (if any) is the contact's mobile unless
   * another contact holds it.
   */
  lemma LiveCodeVerifies(db: Db, id: Id, code: int, now: Time)
    requires Valid(db) && id in CustomerIds(db.customers) && ValidateOtp(Some(code)).None?
    requires db.customers[CustomerIndex(db, id).value].mobileVerify.None?
    requires NewestOf(db.otpTemps, id).Some?
    requires now - db.otpTemps[NewestOf(db.otpTemps, id).value].createdAt <= OtpExpireTime
    requires code == db.otpTemps[NewestOf(db.otpTemps, id).value].data
    ensures NewestOf(db.phoneChanges, id).Some?
    ensures VerifyMobile(db, id, Some(code), now) ==
      ConfirmMobile(db, CustomerIndex(db, id).value, NewestOf(db.phoneChanges, id).value, now)
    ensures ConfirmedMobile(db, CustomerIndex(db, id).value, NewestOf(db.phoneChanges, id).value, now)
  {
    var i := CustomerIndex(db, id).value;
    assert db.customers[i].id == id;
    assert db.customers[i] in db.customers;
    assert Owns(db.phoneChanges, id);
    ConfirmMobileConfirms(db, i, NewestOf(db.phoneChanges, id).value, now);
  }

  /**
   * The confirmation writes of customer i, latest PhoneChange m, verified or
   * stopped by a taken mobile: active and verified, no OTP ticket left, and
   * when verified the pending mobile applied and cleared.
   */
  ghost predicate ConfirmedMobile(db: Db, i: nat, m: nat, now: Time)
    requires Valid(db) && i < |db.customers| && m < |db.phoneChanges|
  {
    var o := ConfirmMobile(db, i, m, now);
    var k := ContactOfCustomer(db, i);
    var pending := db.phoneChanges[m].data.newValue;
    (o.response.Verified? <==> !(Truthy(pending) && MobileHeldElsewhere(db.contacts, k, pending))) &&
    (o.response.Verified? || o.response.IntegrityError?) &&
    o.db.customers[i].isActive && o.db.customers[i].mobileVerify == Some(now) &&
    !Owns(o.db.otpTemps, db.customers[i].id) &&
    (o.response.Verified? ==>
      o.db.contacts[k].mobile == (if Truthy(pending) then pending else db.contacts[k].mobile) &&
      !Truthy(o.db.phoneChanges[m].data.newValue))
  }

  /** In a consistent database the confirmation never fails for a missing contact. */
  lemma ConfirmMobileConfirms(db: Db, i: nat, m: nat, now: Time)
    requires Valid(db) && i < |db.customers| && m < |db.phoneChanges|
    ensures ConfirmedMobile(db, i, m, now)
  {
    assert ContactIndex(db, db.customers[i].username) == Some(ContactOfCustomer(db, i));
  }

  /** Right after a verification, the next valid verify_mobile is answered "already verified" and changes nothing. */
  lemma VerifiedMobileIsFinal(db: Db, id: Id, code: Option<int>, now: Time, code': Option<int>, later: Time)
    requires VerifyMobile(db, id, code, now).response.Verified?
    ensures var d := VerifyMobile(db, id, code, now).db;
      ValidateOtp(code').None? ==> VerifyMobile(d, id, code', later) == Outcome(AlreadyVerified, d)
  {
    var i := CustomerIndex(db, id).value;
    var m := NewestOf(db.phoneChanges, id).value;
    var d := VerifyMobile(db, id, code, now).db;
    assert CustomerIds(d.customers) == CustomerIds(db.customers);
    assert d.phoneChanges[m].customer == id;
  }

  /** A code is accepted once: its ticket and every other ticket of the customer are gone afterwards. */
  lemma CodeUsedOnce(db: Db, id: Id, code: Option<int>, now: Time)
    requires VerifyMobile(db, id, code, now).response.Verified?
    ensures !Owns(VerifyMobile(db, id, code, now).db.otpTemps, id)
  {
  }

  // ---------------------------------------------------------------------------
  // resend_mobile_code

  /** `resend_mobile_code`: another code, unless the newest is younger than the OTP lifetime. */
  function ResendMobileCode(db: Db, id: Id, now: Time): (o: Outcome)
    ensures o.response.NotFound? || o.response.AlreadyVerified? || o.response.ServerError? ||
            o.response.TooSoon? || o.response.Sent?
    ensures o.response.NotFound? <==> id !in CustomerIds(db.customers)
    ensures !o.response.Sent? ==> o.db == db
    ensures o.response.AlreadyVerified? <==>
      id in CustomerIds(db.customers) && db.customers[CustomerIndex(db, id).value].mobileVerify.Some?
    ensures o.response.ServerError? <==>
      id in CustomerIds(db.customers) && db.customers[CustomerIndex(db, id).value].mobileVerify.None? &&
      !Owns(db.otpTemps, id)
    ensures o.response.TooSoon? <==>
      id in CustomerIds(db.customers) && db.customers[CustomerIndex(db, id).value].mobileVerify.None? &&
      EmailViews.RecentTicket(db.otpTemps, id, now, OtpExpireTime)
    ensures o.response.TooSoon? ==>
      0 < o.response.wait &&
      o.response.wait == OtpExpireTime - (now - db.otpTemps[NewestOf(db.otpTemps, id).value].createdAt)
    ensures o.response.Sent? ==>
      Owns(db.otpTemps, id) && !EmailViews.RecentTicket(db.otpTemps, id, now, OtpExpireTime) &&
      o.db == Tasks.SendMobileVerificationCode(db, db.customers[CustomerIndex(db, id).value].username, now)
  {
    match CustomerIndex(db, id)
    case None => Outcome(NotFound, db)
    case Some(i) =>
      var u := db.customers[i];
      if u.mobileVerify.Some? then Outcome(AlreadyVerified, db)
      else
        match NewestOf(db.otpTemps, u.id)
        case None => Outcome(ServerError, db)    // [0] on no ticket raises IndexError
        case Some(t) =>
          var age := now - db.otpTemps[t].createdAt;
          EmailViews.NewestDecidesRecent(db.otpTemps, u.id, now, OtpExpireTime);
          if age < OtpExpireTime then Outcome(TooSoon(OtpExpireTime - age), db)
          else Outcome(Sent, Tasks.SendMobileVerificationCode(db, u.username, now))
  }

  lemma ResendMobileCodeValid(db: Db, id: Id, now: Time)
    requires Valid(db)
    ensures Valid(ResendMobileCode(db, id, now).db)
  {
    if CustomerIndex(db, id).Some? {
      Tasks.SendMobileVerificationCodeValid(db, db.customers[CustomerIndex(db, id).value].username, now);
    }
  }

  /**
   * A resent code becomes the newest ticket when the clock has not gone
   * back, so verify_mobile then checks the code against it.
   */
  lemma ResentCodeIsNewest(db: Db, id: Id, now: Time)
    requires Valid(db) && ResendMobileCode(db, id, now).response.Sent?
    requires forall t | t in db.otpTemps && t.customer == id :: t.createdAt <= now
    ensures var d := ResendMobileCode(db, id, now).db;
      NewestOf(d.otpTemps, id) == Some(|db.otpTemps|) && d.otpTemps[|db.otpTemps|].data == Tasks.OtpCode &&
      d.otpTemps[|db.otpTemps|].createdAt == now
  {
    var i := CustomerIndex(db, id).value;
    var u := db.customers[i];
    assert u in db.customers;
    assert Tasks.CustomerOf(db, u.username) == u by { IndexOfDistinct(Usernames(db.customers), i); }
    Tasks.OtpTicket(db, u.username, now);
  }

  // ---------------------------------------------------------------------------
  // change_mobile

  /** The contact at index k given the mobile `m` (`customer.username.mobile = ...; save()`). */
  function SetContactMobile(db: Db, k: nat, m: string): (d: Db)
    requires k < |db.contacts|
    ensures |d.contacts| == |db.contacts| && d.contacts[k].id == db.contacts[k].id
    ensures m != "" ==> d.contacts[k].mobile == Text(m)
  {
    db.(contacts := db.contacts[k := db.contacts[k].(mobile := GetPrepValue(Text(m)))])
  }

  /**
   * `change_mobile`: validate, find the customer; unless the mobile is
   * verified, store the new mobile in the contact and send a code. There is
   * no limit on the number of changes, and no PhoneChange is logged.
   */
  function ChangeMobile(db: Db, id: Id, mobile: Option<string>, now: Time): (o: Outcome)
    ensures o.response.Invalid? <==> ValidateMobile(mobile, TakenMobiles(db.contacts)).Some?
    ensures o.response.NotFound? <==>
      ValidateMobile(mobile, TakenMobiles(db.contacts)).None? && id !in CustomerIds(db.customers)
    ensures !o.response.Sent? ==> o.db == db
    ensures o.response.AlreadyVerified? <==>
      ValidateMobile(mobile, TakenMobiles(db.contacts)).None? && id in CustomerIds(db.customers) &&
      db.customers[CustomerIndex(db, id).value].mobileVerify.Some?
    ensures o.response.Invalid? || o.response.NotFound? || o.response.AlreadyVerified? ||
            o.response.ServerError? || o.response.Sent?
    ensures o.response.ServerError? <==>
      ValidateMobile(mobile, TakenMobiles(db.contacts)).None? && id in CustomerIds(db.customers) &&
      db.customers[CustomerIndex(db, id).value].mobileVerify.None? &&
      ContactIndex(db, db.customers[CustomerIndex(db, id).value].username).None?
    ensures o.response.Sent? ==>
      var u := db.customers[CustomerIndex(db, id).value];
      mobile.Some? && MobileOk(mobile.value, TakenMobiles(db.contacts)) && u.mobileVerify.None? &&
      ContactIndex(db, u.username).Some? &&
      o.db == Tasks.SendMobileVerificationCode(
        SetContactMobile(db, ContactIndex(db, u.username).value, mobile.value), u.username, now)
  {
    var err := ValidateMobile(mobile, TakenMobiles(db.contacts));
    if err.Some? then Outcome(Invalid(err.value), db)
    else
      match CustomerIndex(db, id)
      case None => Outcome(NotFound, db)
      case Some(i) =>
        var u := db.customers[i];
        if u.mobileVerify.Some? then Outcome(AlreadyVerified, db)
        else
          match ContactIndex(db, u.username)
          case None => Outcome(ServerError, db)
          case Some(k) => Outcome(Sent, Tasks.SendMobileVerificationCode(SetContactMobile(db, k, mobile.value), u.username, now))
  }

  /**
   * In a consistent database a mobile that passes validation, for a customer
   * whose mobile is unverified, is accepted: the contact takes it and a code
   * is sent, however many changes came before.
   */
  lemma ChangeMobileSent(db: Db, id: Id, mobile: Option<string>, now: Time)
    requires Valid(db) && id in CustomerIds(db.customers)
    requires ValidateMobile(mobile, TakenMobiles(db.contacts)).None?
    requires db.customers[CustomerIndex(db, id).value].mobileVerify.None?
    ensures ChangeMobile(db, id, mobile, now).response == Sent
  {
    var i := CustomerIndex(db, id).value;
    assert db.customers[i] in db.customers;
  }

  /** A new mobile no contact holds keeps the database consistent. */
  lemma SetContactMobileValid(db: Db, k: nat, m: string)
    requires Valid(db) && k < |db.contacts| && m != "" && m !in TakenMobiles(db.contacts)
    ensures Valid(SetContactMobile(db, k, m))
  {
    if MobileHeldElsewhere(db.contacts, k, Text(m)) {
      TakenMobileHeld(db.contacts, k, m);
    }
    ContactSaved(db, k, db.contacts[k].(mobile := Text(m)));
  }

  lemma ChangeMobileValid(db: Db, id: Id, mobile: Option<string>, now: Time)
    requires Valid(db)
    ensures Valid(ChangeMobile(db, id, mobile, now).db)
  {
    var o := ChangeMobile(db, id, mobile, now);
    if o.response.Sent? {
      var u := db.customers[CustomerIndex(db, id).value];
      var k := ContactIndex(db, u.username).value;
      SetContactMobileValid(db, k, mobile.value);
      Tasks.SendMobileVerificationCodeValid(SetContactMobile(db, k, mobile.value), u.username, now);
    }
  }
}
