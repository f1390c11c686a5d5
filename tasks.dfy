/**
 * The background tasks (tasks.py), run synchronously: each appends one
 * verification ticket for a contact's customer, and the email task hands one
 * mail to the mail sink.
 *
 * A task that raises is lost: its committed writes stay and nothing else
 * happens.
 */
module Tasks {
  import opened Wrappers
  import opened Fields
  import opened Models

  /** The code every OTP ticket receives (random codes are commented out in the source). */
  const OtpCode: int := 1234

  /** The one recipient of a verification mail. */
  function Recipient(emailVerify: Option<Time>, pending: Nullable, contactEmail: string): string {
    if emailVerify.None? && Truthy(pending) then pending.s else contactEmail
  }

  /** Nothing but the ticket tables, the outbox and the key counter differ. */
  predicate SameRecords(a: Db, b: Db) {
    a.people == b.people && a.contacts == b.contacts && a.customers == b.customers &&
    a.emailChanges == b.emailChanges && a.phoneChanges == b.phoneChanges && a.revoked == b.revoked
  }

  /** `send_email_verification(contact_id)`. */
  function SendEmailVerification(db: Db, contactId: Id, now: Time): (d: Db)
    ensures SameRecords(db, d) && d.otpTemps == db.otpTemps
  {
    match ContactIndex(db, contactId)
    case None => db                          // Contact.DoesNotExist
    case Some(k) =>
      match CustomerOfContact(db, contactId)
      case None => db                        // the contact has no customer
      case Some(i) =>
        var c := db.contacts[k];
        var u := db.customers[i];
        if c.email.Null? then db             // EmailTemp.email is NOT NULL: the insert fails
        else
          var ticket := Row(db.nextId, u.id, now, c.email.s);
          var d := db.(emailTemps := db.emailTemps + [ticket], nextId := db.nextId + 1);
          match NewestOf(db.emailChanges, u.id)
          case None => d                     // latest() raises after the ticket was saved
          case Some(j) =>
            var pending := db.emailChanges[j].data.newValue;
            d.(outbox := d.outbox + [Mail(Recipient(u.emailVerify, pending, c.email.s), u.id, ticket.id)])
  }

  /** `send_mobile_verification_code(contact_id)`. */
  function SendMobileVerificationCode(db: Db, contactId: Id, now: Time): (d: Db)
    ensures SameRecords(db, d) && d.emailTemps == db.emailTemps && d.outbox == db.outbox
  {
    match ContactIndex(db, contactId)
    case None => db
    case Some(k) =>
      match CustomerOfContact(db, contactId)
      case None => db
      case Some(i) =>
        db.(otpTemps := db.otpTemps + [Row(db.nextId, db.customers[i].id, now, OtpCode)], nextId := db.nextId + 1)
  }

  // ---------------------------------------------------------------------------
  // Properties

  /** Adding tickets with keys below the advanced counter keeps a database consistent. */
  lemma ValidWithTickets(db: Db, d: Db)
    requires Valid(db) && SameRecords(db, d) && db.nextId <= d.nextId
    requires forall t | t in d.emailTemps :: t.id < d.nextId && t.customer < d.nextId
    requires forall t | t in d.otpTemps :: t.id < d.nextId && t.customer < d.nextId
    ensures Valid(d)
  {
    assert TablesValid(d) && LogsValid(d);
  }

  lemma SendEmailVerificationValid(db: Db, contactId: Id, now: Time)
    requires Valid(db)
    ensures Valid(SendEmailVerification(db, contactId, now))
  {
    var d := SendEmailVerification(db, contactId, now);
    if d.emailTemps != db.emailTemps {
      var i := CustomerOfContact(db, contactId).value;
      var c := db.contacts[ContactIndex(db, contactId).value];
      assert db.customers[i] in db.customers;
      assert d.emailTemps == db.emailTemps + [Row(db.nextId, db.customers[i].id, now, c.email.s)];
    }
    ValidWithTickets(db, d);
  }

  lemma SendMobileVerificationCodeValid(db: Db, contactId: Id, now: Time)
    requires Valid(db)
    ensures Valid(SendMobileVerificationCode(db, contactId, now))
  {
    var d := SendMobileVerificationCode(db, contactId, now);
    if d.otpTemps != db.otpTemps {
      var i := CustomerOfContact(db, contactId).value;
      assert db.customers[i] in db.customers;
      assert d.otpTemps == db.otpTemps + [Row(db.nextId, db.customers[i].id, now, OtpCode)];
    }
    ValidWithTickets(db, d);
  }

  /** The customer whose username a contact is, in a consistent database. */
  function CustomerOf(db: Db, contactId: Id): (u: Customer)
    requires Valid(db) && contactId in ContactIds(db.contacts)
    ensures u in db.customers && u.username == contactId
  {
    var k := ContactIndex(db, contactId).value;
    assert db.contacts[k] in db.contacts;
    db.customers[CustomerOfContact(db, contactId).value]
  }

  /** The contact with a given key, in a database that has it. */
  function ContactOf(db: Db, contactId: Id): (c: Contact)
    requires contactId in ContactIds(db.contacts)
    ensures c in db.contacts && c.id == contactId
  {
    db.contacts[ContactIndex(db, contactId).value]
  }

  /** The pending new email of a customer's latest EmailChange. */
  function PendingEmail(db: Db, u: Customer): Nullable
    requires Valid(db) && u in db.customers
  {
    db.emailChanges[NewestOf(db.emailChanges, u.id).value].data.newValue
  }

  /** A row whose key no earlier row reaches is the one its key finds. */
  lemma FreshRowFound<P>(rows: seq<Row<P>>, row: Row<P>, bound: Id)
    requires forall t | t in rows :: t.id < bound
    requires row.id == bound
    ensures FindOwned(rows + [row], row.customer, row.id) == Some(|rows|)
  {
    assert (rows + [row])[|rows|] == row;
    assert forall i :: 0 <= i < |rows| ==> (rows + [row])[i] in rows;
  }

  /**
   * In a consistent database the email task does nothing for a contact
   * without an email; otherwise it records one ticket for the contact's
   * customer and current email, and sends one mail, to the pending new email
   * while the email is unverified and one is pending, else to the contact
   * email, whose link names that customer and a key that finds the new ticket.
   */
  lemma EmailTicketAndMail(db: Db, contactId: Id, now: Time)
    requires Valid(db) && contactId in ContactIds(db.contacts)
    ensures ContactOf(db, contactId).email.Null? ==> SendEmailVerification(db, contactId, now) == db
    ensures ContactOf(db, contactId).email.Text? ==>
      var d := SendEmailVerification(db, contactId, now);
      var c := ContactOf(db, contactId);
      var u := CustomerOf(db, contactId);
      var to := if u.emailVerify.None? && Truthy(PendingEmail(db, u)) then PendingEmail(db, u).s else c.email.s;
      d.emailTemps == db.emailTemps + [Row(db.nextId, u.id, now, c.email.s)] &&
      d.outbox == db.outbox + [Mail(to, u.id, db.nextId)] &&
      d.nextId == db.nextId + 1 &&
      FindOwned(d.emailTemps, u.id, db.nextId) == Some(|db.emailTemps|)
  {
    var u := CustomerOf(db, contactId);
    assert u == db.customers[CustomerOfContact(db, contactId).value];
    if ContactOf(db, contactId).email.Text? {
      FreshRowFound(db.emailTemps, Row(db.nextId, u.id, now, ContactOf(db, contactId).email.s), db.nextId);
    }
  }

  /**
   * In a consistent database the mobile task appends one OTP ticket with the
   * fixed code for the contact's customer; when no earlier ticket of that
   * customer is younger, the new one is the newest.
   */
  lemma OtpTicket(db: Db, contactId: Id, now: Time)
    requires Valid(db) && contactId in ContactIds(db.contacts)
    ensures var d := SendMobileVerificationCode(db, contactId, now); var u := CustomerOf(db, contactId);
      d.otpTemps == db.otpTemps + [Row(db.nextId, u.id, now, OtpCode)] && d.nextId == db.nextId + 1
    ensures var d := SendMobileVerificationCode(db, contactId, now); var u := CustomerOf(db, contactId);
      (forall t | t in db.otpTemps && t.customer == u.id :: t.createdAt <= now) ==>
        NewestOf(d.otpTemps, u.id) == Some(|db.otpTemps|)
  {
    var u := CustomerOf(db, contactId);
    assert forall i :: 0 <= i < |db.otpTemps| ==> db.otpTemps[i] in db.otpTemps;
  }
}
