/**
 * The email channel of the customer view set (views.py `verify_email`,
 * `resend_email`, `change_email`): confirming a ticket from the mailed link,
 * asking for another mail, and replacing the address before it is verified.
 */
module EmailViews {
  import opened Wrappers
  import opened Fields
  import opened Models
  import opened Serializers
  import opened Integrity
  import opened Views
  import Tasks

  /** Some ticket of the customer is younger than `limit` at `now`. */
  predicate RecentTicket<P>(rows: seq<Row<P>>, cid: Id, now: Time, limit: int) {
    exists j :: 0 <= j < |rows| && rows[j].customer == cid && now - rows[j].createdAt < limit
  }

  /** The newest row is recent exactly when some row is. */
  lemma NewestDecidesRecent<P>(rows: seq<Row<P>>, cid: Id, now: Time, limit: int)
    requires NewestOf(rows, cid).Some?
    ensures RecentTicket(rows, cid, now, limit) <==> now - rows[NewestOf(rows, cid).value].createdAt < limit
  {
  }

  // ---------------------------------------------------------------------------
  // verify_email

  /**
   * The writes after a ticket was accepted, for customer i whose latest
   * EmailChange is row e: the customer is verified and activated; a pending
   * new email moves into the contact, unless another contact holds it; then
   * the pending email is cleared and every ticket of the customer deleted.
   * Each write is committed before the next one runs.
   */
  function ConfirmEmail(db: Db, i: nat, e: nat, now: Time): (o: Outcome)
    requires i < |db.customers| && e < |db.emailChanges|
    ensures o.response.Verified? || o.response.IntegrityError? || o.response.ServerError?
    ensures var u := db.customers[i];
      o.db.customers == db.customers[i := u.(emailVerify := Some(now), isActive := true)] &&
      o.db.people == db.people && o.db.otpTemps == db.otpTemps && o.db.phoneChanges == db.phoneChanges &&
      o.db.revoked == db.revoked && o.db.outbox == db.outbox && o.db.nextId == db.nextId
    ensures var u := db.customers[i]; var pending := db.emailChanges[e].data.newValue;
      !o.response.Verified? ==>
        o.db.contacts == db.contacts && o.db.emailChanges == db.emailChanges && o.db.emailTemps == db.emailTemps
    ensures var u := db.customers[i]; var pending := db.emailChanges[e].data.newValue;
      o.response.IntegrityError? <==>
        Truthy(pending) && ContactIndex(db, u.username).Some? &&
        EmailHeldElsewhere(db.contacts, ContactIndex(db, u.username).value, pending)
    ensures var u := db.customers[i]; var pending := db.emailChanges[e].data.newValue;
      o.response.Verified? ==>
        (Truthy(pending) ==>
          ContactIndex(db, u.username).Some? &&
          var k := ContactIndex(db, u.username).value;
          o.db.contacts == db.contacts[k := db.contacts[k].(email := pending)]) &&
        (!Truthy(pending) ==> o.db.contacts == db.contacts) &&
        o.db.emailChanges == db.emailChanges[e := db.emailChanges[e].(data := Change(db.emailChanges[e].data.oldValue, Null))] &&
        o.db.emailTemps == DeleteOwned(db.emailTemps, u.id) &&
        !Owns(o.db.emailTemps, u.id)
  {
    var u := db.customers[i];
    var d1 := db.(customers := db.customers[i := u.(emailVerify := Some(now), isActive := true)]);
    var pending := db.emailChanges[e].data.newValue;
    if Truthy(pending) && ContactIndex(db, u.username).None? then Outcome(ServerError, d1)
    else if Truthy(pending) && EmailHeldElsewhere(db.contacts, ContactIndex(db, u.username).value, pending) then
      Outcome(IntegrityError, d1)
    else
      var d2 :=
        if Truthy(pending) then
          var k := ContactIndex(db, u.username).value;
          d1.(contacts := d1.contacts[k := d1.contacts[k].(email := pending)])
        else d1;
      var row := db.emailChanges[e];
      var d3 := d2.(emailChanges := d2.emailChanges[e := row.(data := row.data.(newValue := GetPrepValue(Text(""))))]);
      Outcome(Verified, d3.(emailTemps := DeleteOwned(d3.emailTemps, u.id)))
  }

  /** `verify_email`: validate the ticket key, find the customer, then accept a live ticket of theirs. */
  function VerifyEmail(db: Db, id: Id, ticket: Option<Id>, now: Time): (o: Outcome)
    ensures o.response.Invalid? <==> ticket.None?
    ensures o.response.NotFound? <==> ticket.Some? && id !in CustomerIds(db.customers)
    ensures !(o.response.Verified? || o.response.IntegrityError? || o.response.ServerError?) ==> o.db == db
    ensures o.response.Verified? || o.response.IntegrityError? ||
            (o.response.ServerError? && o.db != db) || o.response.AlreadyVerified? ||
            o.response.TicketNotFound? || o.response.Expired? ==>
      ticket.Some? && CustomerIndex(db, id).Some? && Owns(db.emailChanges, id)
    ensures o.response.AlreadyVerified? <==>
      ticket.Some? && CustomerIndex(db, id).Some? && Owns(db.emailChanges, id) &&
      db.customers[CustomerIndex(db, id).value].emailVerify.Some?
    ensures o.response.Verified? || o.response.IntegrityError? || (o.response.ServerError? && o.db != db) ==>
        var i := CustomerIndex(db, id).value;
        db.customers[i].emailVerify.None? &&
        FindOwned(db.emailTemps, id, ticket.value).Some? &&
        now - db.emailTemps[FindOwned(db.emailTemps, id, ticket.value).value].createdAt <= EmailVerificationExpireTime &&
        o == ConfirmEmail(db, i, NewestOf(db.emailChanges, id).value, now)
    ensures o.response.ServerError? && o.db == db <==>
      ticket.Some? && id in CustomerIds(db.customers) && !Owns(db.emailChanges, id)
    ensures o.response.TicketNotFound? <==>
      ticket.Some? && CustomerIndex(db, id).Some? && Owns(db.emailChanges, id) &&
      db.customers[CustomerIndex(db, id).value].emailVerify.None? && FindOwned(db.emailTemps, id, ticket.value).None?
    ensures o.response.Expired? <==>
      ticket.Some? && CustomerIndex(db, id).Some? && Owns(db.emailChanges, id) &&
      db.customers[CustomerIndex(db, id).value].emailVerify.None? && FindOwned(db.emailTemps, id, ticket.value).Some? &&
      now - db.emailTemps[FindOwned(db.emailTemps, id, ticket.value).value].createdAt > EmailVerificationExpireTime
    ensures (ticket.Some? && CustomerIndex(db, id).Some? && Owns(db.emailChanges, id) &&
             db.customers[CustomerIndex(db, id).value].emailVerify.None? && FindOwned(db.emailTemps, id, ticket.value).Some? &&
             now - db.emailTemps[FindOwned(db.emailTemps, id, ticket.value).value].createdAt <= EmailVerificationExpireTime) ==>
      o == ConfirmEmail(db, CustomerIndex(db, id).value, NewestOf(db.emailChanges, id).value, now)
  {
    var err := ValidateTicketId(ticket);
    if err.Some? then Outcome(Invalid(err.value), db)
    else
      match CustomerIndex(db, id)
      case None => Outcome(NotFound, db)
      case Some(i) =>
        var u := db.customers[i];
        match NewestOf(db.emailChanges, u.id)
        case None => Outcome(ServerError, db)    // latest() raises DoesNotExist
        case Some(e) =>
          if u.emailVerify.Some? then Outcome(AlreadyVerified, db)
          else
            match FindOwned(db.emailTemps, u.id, ticket.value)
            case None => Outcome(TicketNotFound, db)
            case Some(t) =>
              if now - db.emailTemps[t].createdAt > EmailVerificationExpireTime then Outcome(Expired, db)
              else ConfirmEmail(db, i, e, now)
  }

  lemma ConfirmEmailValid(db: Db, i: nat, e: nat, now: Time)
    requires Valid(db) && i < |db.customers| && e < |db.emailChanges|
    ensures Valid(ConfirmEmail(db, i, e, now).db)
  {
    var u := db.customers[i];
    CustomerSaved(db, i, u.(emailVerify := Some(now), isActive := true));
    var d1 := db.(customers := db.customers[i := u.(emailVerify := Some(now), isActive := true)]);
    var pending := db.emailChanges[e].data.newValue;
    var o := ConfirmEmail(db, i, e, now);
    if o.response.Verified? {
      var d2 :=
        if Truthy(pending) then
          var k := ContactIndex(db, u.username).value;
          d1.(contacts := d1.contacts[k := d1.contacts[k].(email := pending)])
        else d1;
      if Truthy(pending) {
        var k := ContactIndex(db, u.username).value;
        ContactSaved(d1, k, d1.contacts[k].(email := pending));
      }
      var row := db.emailChanges[e];
      EmailChangeSaved(d2, e, row.(data := row.data.(newValue := GetPrepValue(Text("")))));
      var d3 := d2.(emailChanges := d2.emailChanges[e := row.(data := row.data.(newValue := GetPrepValue(Text(""))))]);
      EmailTicketsDeleted(d3, u.id);
    }
  }

  lemma VerifyEmailValid(db: Db, id: Id, ticket: Option<Id>, now: Time)
    requires Valid(db)
    ensures Valid(VerifyEmail(db, id, ticket, now).db)
  {
    var o := VerifyEmail(db, id, ticket, now);
    if o.db != db {
      ConfirmEmailValid(db, CustomerIndex(db, id).value, NewestOf(db.emailChanges, id).value, now);
    }
  }

  /**
   * In a consistent database a live ticket verifies the email: the customer
   * is active and verified, the pending email (if any) is the contact's
   * email unless another contact holds it, no ticket of the customer
   * remains, and nothing is pending.
   */
  lemma LiveTicketVerifies(db: Db, id: Id, ticket: Id, now: Time)
    requires Valid(db) && id in CustomerIds(db.customers)
    requires db.customers[CustomerIndex(db, id).value].emailVerify.None?
    requires FindOwned(db.emailTemps, id, ticket).Some?
    requires now - db.emailTemps[FindOwned(db.emailTemps, id, ticket).value].createdAt <= EmailVerificationExpireTime
    ensures NewestOf(db.emailChanges, id).Some?
    ensures VerifyEmail(db, id, Some(ticket), now) ==
      ConfirmEmail(db, CustomerIndex(db, id).value, NewestOf(db.emailChanges, id).value, now)
    ensures ConfirmedEmail(db, CustomerIndex(db, id).value, NewestOf(db.emailChanges, id).value, now)
  {
    var i := CustomerIndex(db, id).value;
    assert db.customers[i].id == id;
    assert db.customers[i] in db.customers;
    assert Owns(db.emailChanges, id);
    ConfirmEmailConfirms(db, i, NewestOf(db.emailChanges, id).value, now);
  }

  /**
   * The confirmation writes of customer i, latest EmailChange e, verified or
   * stopped by a taken email: active and verified, and when verified the
   * pending email applied and cleared and no ticket of the customer left.
   */
  ghost predicate ConfirmedEmail(db: Db, i: nat, e: nat, now: Time)
    requires Valid(db) && i < |db.customers| && e < |db.emailChanges|
  {
    var o := ConfirmEmail(db, i, e, now);
    var k := ContactOfCustomer(db, i);
    var pending := db.emailChanges[e].data.newValue;
    (o.response.Verified? <==> !(Truthy(pending) && EmailHeldElsewhere(db.contacts, k, pending))) &&
    (o.response.Verified? || o.response.IntegrityError?) &&
    o.db.customers[i].isActive && o.db.customers[i].emailVerify == Some(now) &&
    (o.response.Verified? ==>
      o.db.contacts[k].email == (if Truthy(pending) then pending else db.contacts[k].email) &&
      !Owns(o.db.emailTemps, db.customers[i].id) && !Truthy(o.db.emailChanges[e].data.newValue))
  }

  /** In a consistent database the confirmation never fails for a missing contact. */
  lemma ConfirmEmailConfirms(db: Db, i: nat, e: nat, now: Time)
    requires Valid(db) && i < |db.customers| && e < |db.emailChanges|
    ensures ConfirmedEmail(db, i, e, now)
  {
    assert ContactIndex(db, db.customers[i].username) == Some(ContactOfCustomer(db, i));
  }

  /** Right after a verification, the next verify_email with a ticket is answered "already activated" and changes nothing. */
  lemma VerifiedEmailIsFinal(db: Db, id: Id, ticket: Id, now: Time, ticket': Option<Id>, later: Time)
    requires VerifyEmail(db, id, Some(ticket), now).response.Verified?
    ensures var d := VerifyEmail(db, id, Some(ticket), now).db;
      ticket'.Some? ==> VerifyEmail(d, id, ticket', later) == Outcome(AlreadyVerified, d)
  {
    var i := CustomerIndex(db, id).value;
    var e := NewestOf(db.emailChanges, id).value;
    var d := VerifyEmail(db, id, Some(ticket), now).db;
    assert CustomerIds(d.customers) == CustomerIds(db.customers);
    assert d.emailChanges[e].customer == id;
  }

  // ---------------------------------------------------------------------------
  // resend_email

  /** `resend_email`: another mail, unless a ticket is younger than the resend time limit. */
  function ResendEmail(db: Db, id: Id, now: Time): (o: Outcome)
    ensures o.response.NotFound? <==> id !in CustomerIds(db.customers)
    ensures !o.response.Sent? ==> o.db == db
    ensures o.response.NotFound? || o.response.AlreadyVerified? || o.response.NoTickets? ||
            o.response.TooSoon? || o.response.Sent?
    ensures o.response.AlreadyVerified? <==>
      id in CustomerIds(db.customers) && db.customers[CustomerIndex(db, id).value].emailVerify.Some?
    ensures o.response.NoTickets? <==>
      id in CustomerIds(db.customers) && db.customers[CustomerIndex(db, id).value].emailVerify.None? &&
      !Owns(db.emailTemps, id)
    ensures o.response.TooSoon? <==>
      id in CustomerIds(db.customers) && db.customers[CustomerIndex(db, id).value].emailVerify.None? &&
      RecentTicket(db.emailTemps, id, now, EmailVerificationResendTimeLimit)
    ensures o.response.TooSoon? ==>
      0 < o.response.wait &&
      o.response.wait == EmailVerificationResendTimeLimit - (now - db.emailTemps[NewestOf(db.emailTemps, id).value].createdAt)
    ensures o.response.Sent? ==>
        var i := CustomerIndex(db, id).value;
        Owns(db.emailTemps, id) && !RecentTicket(db.emailTemps, id, now, EmailVerificationResendTimeLimit) &&
        o.db == Tasks.SendEmailVerification(db, db.customers[i].username, now)
  {
    match CustomerIndex(db, id)
    case None => Outcome(NotFound, db)
    case Some(i) =>
      var u := db.customers[i];
      if u.emailVerify.Some? then Outcome(AlreadyVerified, db)
      else
        match NewestOf(db.emailTemps, u.id)
        case None => Outcome(NoTickets, db)
        case Some(t) =>
          var age := now - db.emailTemps[t].createdAt;
          NewestDecidesRecent(db.emailTemps, u.id, now, EmailVerificationResendTimeLimit);
          if age < EmailVerificationResendTimeLimit then Outcome(TooSoon(EmailVerificationResendTimeLimit - age), db)
          else Outcome(Sent, Tasks.SendEmailVerification(db, u.username, now))
  }

  lemma ResendEmailValid(db: Db, id: Id, now: Time)
    requires Valid(db)
    ensures Valid(ResendEmail(db, id, now).db)
  {
    if CustomerIndex(db, id).Some? {
      Tasks.SendEmailVerificationValid(db, db.customers[CustomerIndex(db, id).value].username, now);
    }
  }

  // ---------------------------------------------------------------------------
  // change_email

  /** The contact of the customer at index i given the email `e` (`customer.username.email = ...; save()`). */
  function SetContactEmail(db: Db, k: nat, e: string): (d: Db)
    requires k < |db.contacts|
    ensures |d.contacts| == |db.contacts| && d.contacts[k].id == db.contacts[k].id
    ensures e != "" ==> d.contacts[k].email == Text(e)
  {
    db.(contacts := db.contacts[k := db.contacts[k].(email := GetPrepValue(Text(e)))])
  }

  /**
   * `change_email`: validate, find the customer; unless the email is
   * verified or the customer's tickets already name three distinct
   * addresses, store the new email in the contact and run the email task.
   * No EmailChange is logged.
   */
  function ChangeEmail(db: Db, id: Id, email: Option<string>, now: Time): (o: Outcome)
    ensures o.response.Invalid? <==> ValidateChangeEmail(email, TakenEmails(db.contacts)).Some?
    ensures o.response.NotFound? <==>
      ValidateChangeEmail(email, TakenEmails(db.contacts)).None? && id !in CustomerIds(db.customers)
    ensures !o.response.Sent? ==> o.db == db
    ensures o.response.AlreadyVerified? <==>
      ValidateChangeEmail(email, TakenEmails(db.contacts)).None? && id in CustomerIds(db.customers) &&
      db.customers[CustomerIndex(db, id).value].emailVerify.Some?
    ensures o.response.ChangeLimitExceeded? <==>
      ValidateChangeEmail(email, TakenEmails(db.contacts)).None? && id in CustomerIds(db.customers) &&
      db.customers[CustomerIndex(db, id).value].emailVerify.None? &&
      |TicketEmails(db.emailTemps, id)| >= EmailVerificationChangeLimit
    ensures o.response.Invalid? || o.response.NotFound? || o.response.AlreadyVerified? ||
            o.response.ChangeLimitExceeded? || o.response.ServerError? || o.response.Sent?
    ensures o.response.ServerError? <==>
      ValidateChangeEmail(email, TakenEmails(db.contacts)).None? && id in CustomerIds(db.customers) &&
      db.customers[CustomerIndex(db, id).value].emailVerify.None? &&
      |TicketEmails(db.emailTemps, id)| < EmailVerificationChangeLimit &&
      (email.None? || ContactIndex(db, db.customers[CustomerIndex(db, id).value].username).None?)
    ensures o.response.Sent? ==>
        var i := CustomerIndex(db, id).value;
        email.Some? && EmailOk(email.value, TakenEmails(db.contacts)) &&
        db.customers[i].emailVerify.None? && |TicketEmails(db.emailTemps, id)| < EmailVerificationChangeLimit &&
        ContactIndex(db, db.customers[i].username).Some? &&
        o.db == Tasks.SendEmailVerification(
          SetContactEmail(db, ContactIndex(db, db.customers[i].username).value, email.value),
          db.customers[i].username, now)
  {
    var err := ValidateChangeEmail(email, TakenEmails(db.contacts));
    if err.Some? then Outcome(Invalid(err.value), db)
    else
      match CustomerIndex(db, id)
      case None => Outcome(NotFound, db)
      case Some(i) =>
        var u := db.customers[i];
        if u.emailVerify.Some? then Outcome(AlreadyVerified, db)
        else if |TicketEmails(db.emailTemps, u.id)| >= EmailVerificationChangeLimit then Outcome(ChangeLimitExceeded, db)
        else if email.None? then Outcome(ServerError, db)        // validated_data["email"] raises KeyError
        else
          match ContactIndex(db, u.username)
          case None => Outcome(ServerError, db)
          case Some(k) => Outcome(Sent, Tasks.SendEmailVerification(SetContactEmail(db, k, email.value), u.username, now))
  }

  /**
   * In a consistent database a given email that passes validation, for a
   * customer whose email is unverified and under the change limit, is
   * accepted: the contact takes it and the email task runs.
   */
  lemma ChangeEmailSent(db: Db, id: Id, e: string, now: Time)
    requires Valid(db) && id in CustomerIds(db.customers)
    requires ValidateChangeEmail(Some(e), TakenEmails(db.contacts)).None?
    requires db.customers[CustomerIndex(db, id).value].emailVerify.None?
    requires |TicketEmails(db.emailTemps, id)| < EmailVerificationChangeLimit
    ensures ChangeEmail(db, id, Some(e), now).response == Sent
  {
    var i := CustomerIndex(db, id).value;
    assert db.customers[i] in db.customers;
  }

  /** A new email no contact holds keeps the database consistent. */
  lemma SetContactEmailValid(db: Db, k: nat, e: string)
    requires Valid(db) && k < |db.contacts| && e != "" && e !in TakenEmails(db.contacts)
    ensures Valid(SetContactEmail(db, k, e))
  {
    if EmailHeldElsewhere(db.contacts, k, Text(e)) {
      TakenEmailHeld(db.contacts, k, e);
    }
    ContactSaved(db, k, db.contacts[k].(email := Text(e)));
  }

  lemma ChangeEmailValid(db: Db, id: Id, email: Option<string>, now: Time)
    requires Valid(db)
    ensures Valid(ChangeEmail(db, id, email, now).db)
  {
    var o := ChangeEmail(db, id, email, now);
    if o.response.Sent? {
      var u := db.customers[CustomerIndex(db, id).value];
      var k := ContactIndex(db, u.username).value;
      SetContactEmailValid(db, k, email.value);
      Tasks.SendEmailVerificationValid(SetContactEmail(db, k, email.value), u.username, now);
    }
  }

  /** Appending a ticket adds its address to its customer's set of ticket addresses. */
  lemma TicketEmailsAppend(rows: seq<EmailTemp>, row: EmailTemp)
    ensures TicketEmails(rows + [row], row.customer) == TicketEmails(rows, row.customer) + {row.data}
  {
    var d := rows + [row];
    var n := |rows|;
    forall x | x in TicketEmails(d, row.customer) ensures x in TicketEmails(rows, row.customer) + {row.data} {
      var j :| 0 <= j < |d| && d[j].customer == row.customer && d[j].data == x;
      if j < n { assert rows[j] == d[j]; }
    }
    forall x | x in TicketEmails(rows, row.customer) ensures x in TicketEmails(d, row.customer) {
      var j :| 0 <= j < n && rows[j].customer == row.customer && rows[j].data == x;
      assert d[j] == rows[j];
    }
    assert d[n].customer == row.customer && d[n].data == row.data;
  }

  /** The email task for the contact at index k, which holds email e, of the customer at index i. */
  lemma EmailTaskFor(db: Db, i: nat, k: nat, e: string, now: Time)
    requires Valid(db) && i < |db.customers| && k < |db.contacts|
    requires db.contacts[k].id == db.customers[i].username && db.contacts[k].email == Text(e)
    ensures var d := Tasks.SendEmailVerification(db, db.customers[i].username, now);
      var u := db.customers[i];
      var pending := db.emailChanges[NewestOf(db.emailChanges, u.id).value].data.newValue;
      NewestOf(db.emailChanges, u.id).Some? &&
      d.emailTemps == db.emailTemps + [Row(db.nextId, u.id, now, e)] &&
      d.outbox == db.outbox + [Mail(Tasks.Recipient(u.emailVerify, pending, e), u.id, db.nextId)]
  {
    var u := db.customers[i];
    assert u in db.customers;
    assert Tasks.ContactOf(db, u.username) == db.contacts[k] by { IndexOfDistinct(ContactIds(db.contacts), k); }
    assert Tasks.CustomerOf(db, u.username) == u by { IndexOfDistinct(Usernames(db.customers), i); }
    Tasks.EmailTicketAndMail(db, u.username, now);
  }

  /**
   * An accepted email change records one ticket for the new address, so the
   * set of addresses the change limit counts grows by that address only (a
   * repeated address does not count twice). Its mail goes to the new address
   * unless an update left another email pending, which then receives it.
   */
  lemma ChangeEmailTicket(db: Db, id: Id, email: Option<string>, now: Time)
    requires Valid(db) && ChangeEmail(db, id, email, now).response.Sent?
    ensures var d := ChangeEmail(db, id, email, now).db;
      var pending := db.emailChanges[NewestOf(db.emailChanges, id).value].data.newValue;
      NewestOf(db.emailChanges, id).Some? &&
      TicketEmails(d.emailTemps, id) == TicketEmails(db.emailTemps, id) + {email.value} &&
      d.outbox == db.outbox + [Mail(if Truthy(pending) then pending.s else email.value, id, db.nextId)]
  {
    var i := CustomerIndex(db, id).value;
    var u := db.customers[i];
    var k := ContactIndex(db, u.username).value;
    var e := email.value;
    var d0 := SetContactEmail(db, k, e);
    SetContactEmailValid(db, k, e);
    EmailTaskFor(d0, i, k, e, now);
    TicketEmailsAppend(db.emailTemps, Row(db.nextId, id, now, e));
  }
}
