/**
 * The customer view set (views.py) and the serializer writes it triggers
 * (serializers.py `create` and `update`), as functions from the database
 * before a request to the response and the database after it.
 *
 * Requests run to completion one at a time; `.delay` runs its task at once.
 * Without ATOMIC_REQUESTS every `save()` is committed when it runs, so a
 * request that fails half-way keeps the writes made before the failure.
 */
module Views {
  import opened Wrappers
  import opened Fields
  import opened Models
  import opened Serializers
  import opened Integrity
  import Tasks
  import Authentication

  /** The durations and the limit of the customer app settings, in seconds. */
  const EmailVerificationExpireTime: int := 100
  const EmailVerificationChangeLimit: nat := 3
  const EmailVerificationResendTimeLimit: int := 100
  const OtpExpireTime: int := 100

  datatype Response =
    | Created(customer: Id)          // 201 with the customer's details (signup, update)
    | Verified                       // a channel was verified; a fresh token pair goes back
    | AlreadyVerified                // "Email already activated" / "Mobile already verified"
    | Sent                           // "Email resent", "Email sent", "Code resent", "Code sent"
    | NotFound                       // get_object: no customer with that key
    | Invalid(error: ValidationError)
    | TicketNotFound                 // "Email Verification Request Not Found"
    | Expired                        // "Expired" / "Code expired"
    | NoTickets                      // "You must signup first"
    | TooSoon(wait: int)             // "You must wait <wait> to request to resend ..."
    | ChangeLimitExceeded            // "Max email change request exceeded"
    | InvalidCode                    // "Invalid code"
    | IncorrectPassword              // "Incorrect Password."
    | PasswordChanged                // the password is saved and the refresh token revoked
    | SignedOut                      // the refresh token is revoked
    | InvalidToken                   // "token is invalid or expired"
    | ServerError                    // an uncaught exception (500); earlier writes stay
    | IntegrityError                 // a UNIQUE violation after earlier writes were committed

  datatype Outcome = Outcome(response: Response, db: Db)

  /** The database grew by exactly the rows of one signup, under the next five keys. */
  ghost predicate AccountAdded(db: Db, d: Db, req: SignupRequest, now: Time)
    requires req.nationalCode.Some? && req.password.Some?
  {
    var n := db.nextId;
    d.people == db.people + [NewPeople(n, req.nationalCode.value)] &&
    d.contacts == db.contacts + [NewContact(n + 1, n, GetPrepValue(FromOption(req.email)), GetPrepValue(FromOption(req.mobile)))] &&
    d.customers == db.customers + [NewCustomer(n + 2, n + 1, MakePassword(req.password.value), n)] &&
    d.emailChanges == db.emailChanges + [Row(n + 3, n + 2, now, Change(Null, Null))] &&
    d.phoneChanges == db.phoneChanges + [Row(n + 4, n + 2, now, Change(Null, Null))] &&
    d.emailTemps == db.emailTemps && d.otpTemps == db.otpTemps &&
    d.revoked == db.revoked && d.outbox == db.outbox && d.nextId == n + 5
  }

  /** A key column stays duplicate-free when a value it lacks is appended. */
  lemma AppendDistinct<T>(s: seq<T>, x: T)
    requires Distinct(s) && x !in s
    ensures Distinct(s + [x])
  {
  }

  /** A UNIQUE nullable column stays unique when NULL or a value it lacks is appended. */
  lemma AppendUnique(s: seq<Nullable>, v: Nullable)
    requires UniqueWhenPresent(s) && (v.Null? || v !in s)
    ensures UniqueWhenPresent(s + [v])
  {
  }

  /** A value the UniqueValidator does not find is not stored in the email column. */
  lemma EmailNotStored(cs: seq<Contact>, e: Nullable)
    requires e.Text? ==> e.s !in TakenEmails(cs)
    ensures e.Null? || e !in Emails(cs)
  {
    forall i | 0 <= i < |cs| && e.Text? ensures cs[i].email != e {
      if cs[i].email.Text? {
        assert cs[i].email.s in TakenEmails(cs);
      }
    }
  }

  /** A value the UniqueValidator does not find is not stored in the mobile column. */
  lemma MobileNotStored(cs: seq<Contact>, m: Nullable)
    requires m.Text? ==> m.s !in TakenMobiles(cs)
    ensures m.Null? || m !in Mobiles(cs)
  {
    forall i | 0 <= i < |cs| && m.Text? ensures cs[i].mobile != m {
      if cs[i].mobile.Text? {
        assert cs[i].mobile.s in TakenMobiles(cs);
      }
    }
  }

  /** The keys below the counter are not in a column of keys. */
  lemma FreshKey(ids: seq<Id>, n: Id)
    requires forall i :: 0 <= i < |ids| ==> ids[i] < n
    ensures n !in ids && n + 1 !in ids && n + 2 !in ids
  {
  }

  /** The new People row keeps the People keys and national codes unique and valid. */
  lemma AccountPeopleValid(db: Db, d: Db, req: SignupRequest, now: Time)
    requires Valid(db)
    requires ValidateSignup(req, TakenEmails(db.contacts), TakenMobiles(db.contacts), TakenCodes(db.people)).None?
    requires AccountAdded(db, d, req, now)
    ensures Distinct(PeopleIds(d.people)) && Distinct(NationalCodes(d.people))
    ensures forall p | p in d.people :: NationalCode.IsValid(p.nationalCode)
  {
    var n := db.nextId;
    assert PeopleIds(d.people) == PeopleIds(db.people) + [n];
    assert NationalCodes(d.people) == NationalCodes(db.people) + [req.nationalCode.value];
    assert forall i :: 0 <= i < |db.people| ==> db.people[i] in db.people;
    FreshKey(PeopleIds(db.people), n);
    AppendDistinct(PeopleIds(db.people), n);
    assert forall i :: 0 <= i < |db.people| ==> NationalCodes(db.people)[i] in TakenCodes(db.people);
    AppendDistinct(NationalCodes(db.people), req.nationalCode.value);
  }

  /** The new Contact row keeps the contact keys unique and the email and mobile columns UNIQUE and free of "". */
  lemma AccountContactsValid(db: Db, d: Db, req: SignupRequest, now: Time)
    requires Valid(db)
    requires ValidateSignup(req, TakenEmails(db.contacts), TakenMobiles(db.contacts), TakenCodes(db.people)).None?
    requires AccountAdded(db, d, req, now)
    ensures Distinct(ContactIds(d.contacts))
    ensures UniqueWhenPresent(Emails(d.contacts)) && UniqueWhenPresent(Mobiles(d.contacts))
    ensures Text("") !in Emails(d.contacts) && Text("") !in Mobiles(d.contacts)
  {
    var n := db.nextId;
    var c := NewContact(n + 1, n, GetPrepValue(FromOption(req.email)), GetPrepValue(FromOption(req.mobile)));
    assert ContactIds(d.contacts) == ContactIds(db.contacts) + [n + 1];
    assert Emails(d.contacts) == Emails(db.contacts) + [c.email];
    assert Mobiles(d.contacts) == Mobiles(db.contacts) + [c.mobile];
    assert forall i :: 0 <= i < |db.contacts| ==> db.contacts[i] in db.contacts;
    FreshKey(ContactIds(db.contacts), n);
    AppendDistinct(ContactIds(db.contacts), n + 1);
    EmailNotStored(db.contacts, c.email);
    MobileNotStored(db.contacts, c.mobile);
    AppendUnique(Emails(db.contacts), c.email);
    AppendUnique(Mobiles(db.contacts), c.mobile);
  }

  /** The new Customer row keeps the customer keys and usernames unique and links contact and owner both ways. */
  lemma AccountCustomersValid(db: Db, d: Db, req: SignupRequest, now: Time)
    requires Valid(db) && req.nationalCode.Some? && req.password.Some?
    requires AccountAdded(db, d, req, now)
    ensures Distinct(CustomerIds(d.customers)) && Distinct(Usernames(d.customers))
    ensures forall u | u in d.customers :: u.username in ContactIds(d.contacts) && u.owner in PeopleIds(d.people)
    ensures forall c | c in d.contacts :: c.id in Usernames(d.customers)
  {
    var n := db.nextId;
    assert PeopleIds(d.people) == PeopleIds(db.people) + [n];
    assert ContactIds(d.contacts) == ContactIds(db.contacts) + [n + 1];
    assert CustomerIds(d.customers) == CustomerIds(db.customers) + [n + 2];
    assert Usernames(d.customers) == Usernames(db.customers) + [n + 1];
    assert forall i :: 0 <= i < |db.contacts| ==> db.contacts[i] in db.contacts;
    assert forall i :: 0 <= i < |db.customers| ==> db.customers[i] in db.customers;
    FreshKey(ContactIds(db.contacts), n);
    FreshKey(CustomerIds(db.customers), n);
    assert forall i :: 0 <= i < |db.customers| ==> Usernames(db.customers)[i] in ContactIds(db.contacts);
    AppendDistinct(CustomerIds(db.customers), n + 2);
    AppendDistinct(Usernames(db.customers), n + 1);
  }

  /** The tables of a valid signup's new rows keep their keys, UNIQUE columns and links. */
  lemma AccountTablesValid(db: Db, d: Db, req: SignupRequest, now: Time)
    requires Valid(db)
    requires ValidateSignup(req, TakenEmails(db.contacts), TakenMobiles(db.contacts), TakenCodes(db.people)).None?
    requires AccountAdded(db, d, req, now)
    ensures TablesValid(d)
  {
    AccountPeopleValid(db, d, req, now);
    AccountContactsValid(db, d, req, now);
    AccountCustomersValid(db, d, req, now);
  }

  /** The new customer has its change logs, and the others keep theirs. */
  lemma AccountLogsValid(db: Db, d: Db, req: SignupRequest, now: Time)
    requires LogsValid(db) && req.nationalCode.Some? && req.password.Some?
    requires AccountAdded(db, d, req, now)
    ensures LogsValid(d)
  {
    var u := d.customers[|db.customers|];
    forall v | v in d.customers ensures Owns(d.emailChanges, v.id) && Owns(d.phoneChanges, v.id) {
      if v == u {
        assert d.emailChanges[|db.emailChanges|].customer == v.id;
        assert d.phoneChanges[|db.phoneChanges|].customer == v.id;
      } else {
        assert v in db.customers;
        var a :| 0 <= a < |db.emailChanges| && db.emailChanges[a].customer == v.id;
        var b :| 0 <= b < |db.phoneChanges| && db.phoneChanges[b].customer == v.id;
        assert d.emailChanges[a].customer == v.id;
        assert d.phoneChanges[b].customer == v.id;
      }
    }
  }

  /** The five new rows of a valid signup leave the database consistent. */
  lemma AccountAddedValid(db: Db, d: Db, req: SignupRequest, now: Time)
    requires Valid(db)
    requires ValidateSignup(req, TakenEmails(db.contacts), TakenMobiles(db.contacts), TakenCodes(db.people)).None?
    requires AccountAdded(db, d, req, now)
    ensures Valid(d)
  {
    AccountTablesValid(db, d, req, now);
    AccountLogsValid(db, d, req, now);
    AccountIdsBelow(db, d, req, now);
  }

  /** The five new rows take the keys n .. n + 4 and the counter moves past them. */
  lemma AccountIdsBelow(db: Db, d: Db, req: SignupRequest, now: Time)
    requires IdsBelow(db) && req.nationalCode.Some? && req.password.Some?
    requires AccountAdded(db, d, req, now)
    ensures IdsBelow(d)
  {
    assert forall p | p in d.people :: p in db.people || p.id == db.nextId;
    assert forall c | c in d.contacts :: c in db.contacts || c.id == db.nextId + 1;
    assert forall u | u in d.customers :: u in db.customers || u.id == db.nextId + 2;
    assert forall t | t in d.emailChanges :: t in db.emailChanges || (t.id == db.nextId + 3 && t.customer == db.nextId + 2);
    assert forall t | t in d.phoneChanges :: t in db.phoneChanges || (t.id == db.nextId + 4 && t.customer == db.nextId + 2);
  }

  /** `SignupSerializer.create`: People, Contact, Customer, then one empty EmailChange and PhoneChange. */
  function CreateAccount(db: Db, req: SignupRequest, now: Time): (d: Db)
    requires ValidateSignup(req, TakenEmails(db.contacts), TakenMobiles(db.contacts), TakenCodes(db.people)).None?
    ensures AccountAdded(db, d, req, now)
  {
    var n := db.nextId;
    db.(
      people := db.people + [NewPeople(n, req.nationalCode.value)],
      contacts := db.contacts + [NewContact(n + 1, n, GetPrepValue(FromOption(req.email)), GetPrepValue(FromOption(req.mobile)))],
      customers := db.customers + [NewCustomer(n + 2, n + 1, MakePassword(req.password.value), n)],
      // the change logs start with the field defaults "", stored as NULL
      emailChanges := db.emailChanges + [Row(n + 3, n + 2, now, Change(GetPrepValue(Text("")), GetPrepValue(Text(""))))],
      phoneChanges := db.phoneChanges + [Row(n + 4, n + 2, now, Change(GetPrepValue(Text("")), GetPrepValue(Text(""))))],
      nextId := n + 5)
  }

  /** The tasks a view starts for a contact: the email verification, then the mobile code. */
  function StartVerifications(db: Db, contactId: Id, email: bool, mobile: bool, now: Time): (d: Db)
    ensures Tasks.SameRecords(db, d)
  {
    var d1 := if email then Tasks.SendEmailVerification(db, contactId, now) else db;
    if mobile then Tasks.SendMobileVerificationCode(d1, contactId, now) else d1
  }

  lemma StartVerificationsValid(db: Db, contactId: Id, email: bool, mobile: bool, now: Time)
    requires Valid(db)
    ensures Valid(StartVerifications(db, contactId, email, mobile, now))
  {
    Tasks.SendEmailVerificationValid(db, contactId, now);
    var d1 := if email then Tasks.SendEmailVerification(db, contactId, now) else db;
    Tasks.SendMobileVerificationCodeValid(d1, contactId, now);
  }

  // ---------------------------------------------------------------------------
  // signup

  /** `signup`: validate, create the account, then verify whichever identifier was given. */
  function Signup(db: Db, req: SignupRequest, now: Time): (o: Outcome)
    ensures o.response.Invalid? <==>
      ValidateSignup(req, TakenEmails(db.contacts), TakenMobiles(db.contacts), TakenCodes(db.people)).Some?
    ensures o.response.Invalid? ==> o.db == db
    ensures !o.response.Invalid? ==> o.response == Created(db.nextId + 2)
  {
    var err := ValidateSignup(req, TakenEmails(db.contacts), TakenMobiles(db.contacts), TakenCodes(db.people));
    if err.Some? then Outcome(Invalid(err.value), db)
    else
      var d := CreateAccount(db, req, now);
      // `contact.email` / `contact.mobile` are the validated strings still held in memory
      Outcome(Created(db.nextId + 2),
        StartVerifications(d, db.nextId + 1, Truthy(FromOption(req.email)), Truthy(FromOption(req.mobile)), now))
  }

  /** An accepted signup is the account creation followed by the tasks. */
  lemma SignupAccepted(db: Db, req: SignupRequest, now: Time)
    requires ValidateSignup(req, TakenEmails(db.contacts), TakenMobiles(db.contacts), TakenCodes(db.people)).None?
    ensures Truthy(FromOption(req.email)) == req.email.Some? && Truthy(FromOption(req.mobile)) == req.mobile.Some?
    ensures Signup(db, req, now).db ==
      StartVerifications(CreateAccount(db, req, now), db.nextId + 1, req.email.Some?, req.mobile.Some?, now)
  {
    assert Truthy(FromOption(req.email)) == req.email.Some?;
    assert Truthy(FromOption(req.mobile)) == req.mobile.Some?;
  }

  lemma SignupValid(db: Db, req: SignupRequest, now: Time)
    requires Valid(db)
    ensures Valid(Signup(db, req, now).db)
  {
    if ValidateSignup(req, TakenEmails(db.contacts), TakenMobiles(db.contacts), TakenCodes(db.people)).None? {
      SignupAccepted(db, req, now);
      var d := CreateAccount(db, req, now);
      AccountAddedValid(db, d, req, now);
      StartVerificationsValid(d, db.nextId + 1, req.email.Some?, req.mobile.Some?, now);
    }
  }

  /** A signup adds one inactive, unverified customer with its People and Contact rows and empty change logs. */
  lemma SignupRecords(db: Db, req: SignupRequest, now: Time)
    requires Signup(db, req, now).response.Created?
    ensures var d := Signup(db, req, now).db; var n := db.nextId;
      d.people == db.people + [NewPeople(n, req.nationalCode.value)] &&
      d.contacts == db.contacts + [NewContact(n + 1, n, FromOption(req.email), FromOption(req.mobile))] &&
      d.customers == db.customers + [NewCustomer(n + 2, n + 1, MakePassword(req.password.value), n)] &&
      d.emailChanges == db.emailChanges + [Row(n + 3, n + 2, now, Change(Null, Null))] &&
      d.phoneChanges == db.phoneChanges + [Row(n + 4, n + 2, now, Change(Null, Null))]
    ensures var u := Signup(db, req, now).db.customers[|db.customers|];
      !u.isActive && u.emailVerify.None? && u.mobileVerify.None? && u.totalCredit == 0
  {
    assert GetPrepValue(FromOption(req.email)) == FromOption(req.email);
    assert GetPrepValue(FromOption(req.mobile)) == FromOption(req.mobile);
  }

  /** Right after the account creation, the new contact and customer are found by key, with one empty EmailChange. */
  lemma CreatedAccountFound(db: Db, d: Db, req: SignupRequest, now: Time)
    requires IdsBelow(db) && req.nationalCode.Some? && req.password.Some?
    requires AccountAdded(db, d, req, now)
    requires Distinct(ContactIds(d.contacts)) && Distinct(Usernames(d.customers))
    ensures ContactIndex(d, db.nextId + 1) == Some(|db.contacts|)
    ensures CustomerOfContact(d, db.nextId + 1) == Some(|db.customers|)
    ensures NewestOf(d.emailChanges, db.nextId + 2) == Some(|db.emailChanges|)
  {
    var n := db.nextId;
    assert ContactIds(d.contacts)[|db.contacts|] == n + 1;
    IndexOfDistinct(ContactIds(d.contacts), |db.contacts|);
    assert Usernames(d.customers)[|db.customers|] == n + 1;
    IndexOfDistinct(Usernames(d.customers), |db.customers|);
    NewestOfFreshCustomer(db.emailChanges, d.emailChanges[|db.emailChanges|]);
  }

  /** A row for a customer that no earlier row names is that customer's newest. */
  lemma NewestOfFreshCustomer<P>(rows: seq<Row<P>>, row: Row<P>)
    requires forall t | t in rows :: t.customer < row.customer
    ensures NewestOf(rows + [row], row.customer) == Some(|rows|)
  {
    NewestAppended(rows, row);
  }

  /** The tasks' effect right after the account creation, given the lookups of the new rows. */
  lemma AccountTasks(db: Db, req: SignupRequest, now: Time)
    requires IdsBelow(db)
    requires ValidateSignup(req, TakenEmails(db.contacts), TakenMobiles(db.contacts), TakenCodes(db.people)).None?
    requires Distinct(ContactIds(CreateAccount(db, req, now).contacts))
    requires Distinct(Usernames(CreateAccount(db, req, now).customers))
    ensures var d := StartVerifications(CreateAccount(db, req, now), db.nextId + 1, req.email.Some?, req.mobile.Some?, now);
      var n := db.nextId;
      req.email.Some? ==>
        d.emailTemps == db.emailTemps + [Row(n + 5, n + 2, now, req.email.value)] &&
        d.outbox == db.outbox + [Mail(req.email.value, n + 2, n + 5)] &&
        d.otpTemps == db.otpTemps
    ensures var d := StartVerifications(CreateAccount(db, req, now), db.nextId + 1, req.email.Some?, req.mobile.Some?, now);
      var n := db.nextId;
      req.mobile.Some? ==>
        d.otpTemps == db.otpTemps + [Row(n + 5, n + 2, now, Tasks.OtpCode)] &&
        d.emailTemps == db.emailTemps && d.outbox == db.outbox
  {
    if req.email.Some? {
      AccountEmailTask(db, req, now);
    } else if req.mobile.Some? {
      AccountMobileTask(db, req, now);
    }
  }

  /** The email verification of a signup with an email: one ticket for it and one mail naming the ticket. */
  lemma AccountEmailTask(db: Db, req: SignupRequest, now: Time)
    requires IdsBelow(db) && req.email.Some?
    requires ValidateSignup(req, TakenEmails(db.contacts), TakenMobiles(db.contacts), TakenCodes(db.people)).None?
    requires Distinct(ContactIds(CreateAccount(db, req, now).contacts))
    requires Distinct(Usernames(CreateAccount(db, req, now).customers))
    ensures var d := StartVerifications(CreateAccount(db, req, now), db.nextId + 1, true, false, now);
      var n := db.nextId;
      d.emailTemps == db.emailTemps + [Row(n + 5, n + 2, now, req.email.value)] &&
      d.outbox == db.outbox + [Mail(req.email.value, n + 2, n + 5)] &&
      d.otpTemps == db.otpTemps
  {
    var c := CreateAccount(db, req, now);
    CreatedAccountFound(db, c, req, now);
    assert c.contacts[|db.contacts|].email == Text(req.email.value);
    assert c.emailChanges[|db.emailChanges|].data.newValue == Null;
    assert c.customers[|db.customers|].emailVerify == None;
  }

  /** The mobile verification of a signup with a mobile: one OTP ticket. */
  lemma AccountMobileTask(db: Db, req: SignupRequest, now: Time)
    requires IdsBelow(db) && req.mobile.Some?
    requires ValidateSignup(req, TakenEmails(db.contacts), TakenMobiles(db.contacts), TakenCodes(db.people)).None?
    requires Distinct(ContactIds(CreateAccount(db, req, now).contacts))
    requires Distinct(Usernames(CreateAccount(db, req, now).customers))
    ensures var d := StartVerifications(CreateAccount(db, req, now), db.nextId + 1, false, true, now);
      var n := db.nextId;
      d.otpTemps == db.otpTemps + [Row(n + 5, n + 2, now, Tasks.OtpCode)] &&
      d.emailTemps == db.emailTemps && d.outbox == db.outbox
  {
    CreatedAccountFound(db, CreateAccount(db, req, now), req, now);
  }

  /**
   * The verification a signup starts: for an email, one ticket recording it
   * and one mail to it naming that ticket; for a mobile, one OTP ticket.
   */
  lemma SignupVerification(db: Db, req: SignupRequest, now: Time)
    requires Valid(db) && Signup(db, req, now).response.Created?
    ensures var d := Signup(db, req, now).db; var n := db.nextId;
      req.email.Some? ==>
        d.emailTemps == db.emailTemps + [Row(n + 5, n + 2, now, req.email.value)] &&
        d.outbox == db.outbox + [Mail(req.email.value, n + 2, n + 5)] &&
        d.otpTemps == db.otpTemps
    ensures var d := Signup(db, req, now).db; var n := db.nextId;
      req.mobile.Some? ==>
        d.otpTemps == db.otpTemps + [Row(n + 5, n + 2, now, Tasks.OtpCode)] &&
        d.emailTemps == db.emailTemps && d.outbox == db.outbox
  {
    SignupAccepted(db, req, now);
    AccountAddedValid(db, CreateAccount(db, req, now), req, now);
    AccountTasks(db, req, now);
  }

  /** The new customer can sign in with the identifier and the password it signed up with. */
  lemma SignupThenAuthenticate(db: Db, req: SignupRequest, now: Time)
    requires Valid(db) && Signup(db, req, now).response.Created?
    ensures Authentication.Authenticate(Signup(db, req, now).db, req.email, req.mobile, req.password.value) ==
      Some(db.nextId + 2)
  {
    var d := Signup(db, req, now).db;
    SignupValid(db, req, now);
    SignupRecords(db, req, now);
    var j := |db.customers|;
    assert d.contacts[|db.contacts|].id == d.customers[j].username;
    assert Authentication.Identifies(d.contacts[|db.contacts|], req.email, req.mobile);
    Authentication.AuthenticateCharacterised(d, req.email, req.mobile, req.password.value, j);
  }

  // ---------------------------------------------------------------------------
  // update (partial_update) and CustomerUpdateSerializer.update

  /** The email branch of the update: the email is unverified again and the change is logged. */
  function RequestEmailChange(db: Db, i: nat, current: Nullable, email: string, now: Time): (d: Db)
    requires i < |db.customers|
  {
    var u := db.customers[i];
    db.(customers := db.customers[i := u.(emailVerify := None)],
        emailChanges := db.emailChanges + [Row(db.nextId, u.id, now, Change(GetPrepValue(current), GetPrepValue(Text(email))))],
        nextId := db.nextId + 1)
  }

  /** The mobile branch of the update: the mobile is unverified again and the change is logged. */
  function RequestMobileChange(db: Db, i: nat, current: Nullable, mobile: string, now: Time): (d: Db)
    requires i < |db.customers|
  {
    var u := db.customers[i];
    db.(customers := db.customers[i := u.(mobileVerify := None)],
        phoneChanges := db.phoneChanges + [Row(db.nextId, u.id, now, Change(GetPrepValue(current), GetPrepValue(Text(mobile))))],
        nextId := db.nextId + 1)
  }

  /**
   * `CustomerUpdateSerializer.update` on the customer at index i, after
   * validation: a supplied email or mobile unverifies that channel and logs
   * the change from the contact's current value; the contact itself is not
   * touched. The owner's name, last name and national code take the supplied
   * values and keep the others.
   */
  function UpdateProfile(db: Db, i: nat, req: UpdateRequest, now: Time): (d: Db)
    requires i < |db.customers|
    requires ContactIndex(db, db.customers[i].username).Some? && PeopleIndex(db, db.customers[i].owner).Some?
    requires ValidateUpdate(req, TakenEmails(db.contacts), TakenMobiles(db.contacts), TakenCodes(db.people)).None?
    ensures d.contacts == db.contacts && d.emailTemps == db.emailTemps && d.otpTemps == db.otpTemps
    ensures d.revoked == db.revoked && d.outbox == db.outbox
    ensures |d.customers| == |db.customers|
    ensures forall x :: 0 <= x < |db.customers| && x != i ==> d.customers[x] == db.customers[x]
    ensures d.customers[i] == db.customers[i].(
      emailVerify := if req.email.Some? then None else db.customers[i].emailVerify,
      mobileVerify := if req.mobile.Some? then None else db.customers[i].mobileVerify)
    ensures var u := db.customers[i]; var c := db.contacts[ContactIndex(db, u.username).value];
      d.emailChanges == db.emailChanges +
        (if req.email.Some? then [Row(db.nextId, u.id, now, Change(GetPrepValue(c.email), Text(req.email.value)))] else [])
    ensures var u := db.customers[i]; var c := db.contacts[ContactIndex(db, u.username).value];
      var key := if req.email.Some? then db.nextId + 1 else db.nextId;
      d.phoneChanges == db.phoneChanges +
        (if req.mobile.Some? then [Row(key, u.id, now, Change(GetPrepValue(c.mobile), Text(req.mobile.value)))] else [])
    ensures var p := db.people[PeopleIndex(db, db.customers[i].owner).value];
      d.people == db.people[PeopleIndex(db, db.customers[i].owner).value := p.(
        name := req.name.GetOr(p.name),
        lastName := req.lastName.GetOr(p.lastName),
        nationalCode := req.nationalCode.GetOr(p.nationalCode))]
  {
    var c := db.contacts[ContactIndex(db, db.customers[i].username).value];
    var d1 := if req.email.Some? then RequestEmailChange(db, i, c.email, req.email.value, now) else db;
    var d2 := if req.mobile.Some? then RequestMobileChange(d1, i, c.mobile, req.mobile.value, now) else d1;
    var k := PeopleIndex(db, db.customers[i].owner).value;
    var p := db.people[k];
    d2.(people := d2.people[k := p.(
      name := req.name.GetOr(p.name),
      lastName := req.lastName.GetOr(p.lastName),
      nationalCode := req.nationalCode.GetOr(p.nationalCode))])
  }

  lemma RequestEmailChangeValid(db: Db, i: nat, current: Nullable, email: string, now: Time)
    requires Valid(db) && i < |db.customers|
    ensures Valid(RequestEmailChange(db, i, current, email, now))
  {
    var u := db.customers[i];
    assert u in db.customers;
    CustomerSaved(db, i, u.(emailVerify := None));
    var d0 := db.(customers := db.customers[i := u.(emailVerify := None)]);
    EmailChangeCreated(d0, Row(db.nextId, u.id, now, Change(GetPrepValue(current), GetPrepValue(Text(email)))));
  }

  lemma RequestMobileChangeValid(db: Db, i: nat, current: Nullable, mobile: string, now: Time)
    requires Valid(db) && i < |db.customers|
    ensures Valid(RequestMobileChange(db, i, current, mobile, now))
  {
    var u := db.customers[i];
    assert u in db.customers;
    CustomerSaved(db, i, u.(mobileVerify := None));
    var d0 := db.(customers := db.customers[i := u.(mobileVerify := None)]);
    PhoneChangeCreated(d0, Row(db.nextId, u.id, now, Change(GetPrepValue(current), GetPrepValue(Text(mobile)))));
  }

  /** An update whose fields passed validation leaves the database consistent. */
  lemma UpdateProfileValid(db: Db, i: nat, req: UpdateRequest, now: Time)
    requires Valid(db) && i < |db.customers|
    requires ContactIndex(db, db.customers[i].username).Some? && PeopleIndex(db, db.customers[i].owner).Some?
    requires ValidateUpdate(req, TakenEmails(db.contacts), TakenMobiles(db.contacts), TakenCodes(db.people)).None?
    ensures Valid(UpdateProfile(db, i, req, now))
  {
    var c := db.contacts[ContactIndex(db, db.customers[i].username).value];
    var d1 := if req.email.Some? then RequestEmailChange(db, i, c.email, req.email.value, now) else db;
    if req.email.Some? { RequestEmailChangeValid(db, i, c.email, req.email.value, now); }
    var d2 := if req.mobile.Some? then RequestMobileChange(d1, i, c.mobile, req.mobile.value, now) else d1;
    if req.mobile.Some? { RequestMobileChangeValid(d1, i, c.mobile, req.mobile.value, now); }
    var k := PeopleIndex(db, db.customers[i].owner).value;
    var p := db.people[k];
    var p' := p.(name := req.name.GetOr(p.name), lastName := req.lastName.GetOr(p.lastName),
                 nationalCode := req.nationalCode.GetOr(p.nationalCode));
    assert p in db.people;
    PeopleSaved(d2, k, p');
  }

  /**
   * `update`: find the customer, validate, save the profile, then start a
   * verification for each channel whose latest change has a pending value.
   */
  function Update(db: Db, id: Id, req: UpdateRequest, now: Time): (o: Outcome)
    ensures o.response.NotFound? <==> id !in CustomerIds(db.customers)
    ensures o.response.NotFound? || o.response.Invalid? || o.response.ServerError? || o.response.Created?
    ensures o.response.Invalid? <==>
      id in CustomerIds(db.customers) &&
      ValidateUpdate(req, TakenEmails(db.contacts), TakenMobiles(db.contacts), TakenCodes(db.people)).Some?
    ensures o.response.NotFound? || o.response.Invalid? ==> o.db == db
    ensures o.response.Created? ==>
      o.response == Created(id) && o.db.contacts == db.contacts && |o.db.customers| == |db.customers| &&
      forall x :: 0 <= x < |db.customers| ==> o.db.customers[x].isActive == db.customers[x].isActive
  {
    match CustomerIndex(db, id)
    case None => Outcome(NotFound, db)
    case Some(i) =>
      var err := ValidateUpdate(req, TakenEmails(db.contacts), TakenMobiles(db.contacts), TakenCodes(db.people));
      if err.Some? then Outcome(Invalid(err.value), db)
      else
        var u := db.customers[i];
        if ContactIndex(db, u.username).None? || PeopleIndex(db, u.owner).None? then Outcome(ServerError, db)
        else
          var d := UpdateProfile(db, i, req, now);
          match (NewestOf(d.emailChanges, u.id), NewestOf(d.phoneChanges, u.id))
          case (Some(e), Some(m)) =>
            Outcome(Created(id), StartVerifications(d, u.username,
              Truthy(d.emailChanges[e].data.newValue), Truthy(d.phoneChanges[m].data.newValue), now))
          case _ => Outcome(ServerError, d)    // latest() raises after the profile was saved
  }

  lemma UpdateValid(db: Db, id: Id, req: UpdateRequest, now: Time)
    requires Valid(db)
    ensures Valid(Update(db, id, req, now).db)
  {
    if CustomerIndex(db, id).Some? &&
       ValidateUpdate(req, TakenEmails(db.contacts), TakenMobiles(db.contacts), TakenCodes(db.people)).None? {
      var i := CustomerIndex(db, id).value;
      var u := db.customers[i];
      if ContactIndex(db, u.username).Some? && PeopleIndex(db, u.owner).Some? {
        UpdateProfileValid(db, i, req, now);
        var d := UpdateProfile(db, i, req, now);
        if NewestOf(d.emailChanges, u.id).Some? && NewestOf(d.phoneChanges, u.id).Some? {
          var e := NewestOf(d.emailChanges, u.id).value;
          var m := NewestOf(d.phoneChanges, u.id).value;
          StartVerificationsValid(d, u.username,
            Truthy(d.emailChanges[e].data.newValue), Truthy(d.phoneChanges[m].data.newValue), now);
        }
      }
    }
  }

  /** In a consistent database every validated update of a known customer is saved and answered Created. */
  lemma UpdateCreated(db: Db, id: Id, req: UpdateRequest, now: Time)
    requires Valid(db) && id in CustomerIds(db.customers)
    requires ValidateUpdate(req, TakenEmails(db.contacts), TakenMobiles(db.contacts), TakenCodes(db.people)).None?
    ensures Update(db, id, req, now).response == Created(id)
  {
    var i := CustomerIndex(db, id).value;
    var u := db.customers[i];
    assert u in db.customers;
    UpdateProfileValid(db, i, req, now);
    var d := UpdateProfile(db, i, req, now);
    assert d.customers[i].id == id && d.customers[i] in d.customers;
  }

  /** An accepted update is the profile save followed by the tasks its latest changes ask for. */
  lemma UpdateAccepted(db: Db, id: Id, req: UpdateRequest, now: Time)
    requires Update(db, id, req, now).response.Created?
    ensures CustomerIndex(db, id).Some?
    ensures var i := CustomerIndex(db, id).value; var u := db.customers[i];
      ContactIndex(db, u.username).Some? && PeopleIndex(db, u.owner).Some? &&
      ValidateUpdate(req, TakenEmails(db.contacts), TakenMobiles(db.contacts), TakenCodes(db.people)).None? &&
      var d := UpdateProfile(db, i, req, now);
      NewestOf(d.emailChanges, u.id).Some? && NewestOf(d.phoneChanges, u.id).Some? &&
      Update(db, id, req, now).db == StartVerifications(d, u.username,
        Truthy(d.emailChanges[NewestOf(d.emailChanges, u.id).value].data.newValue),
        Truthy(d.phoneChanges[NewestOf(d.phoneChanges, u.id).value].data.newValue), now)
  {
  }

  /** The email task right after the profile save of an email update. */
  lemma UpdateProfileMail(db: Db, i: nat, req: UpdateRequest, now: Time)
    requires Valid(db) && i < |db.customers|
    requires ContactIndex(db, db.customers[i].username).Some? && PeopleIndex(db, db.customers[i].owner).Some?
    requires ValidateUpdate(req, TakenEmails(db.contacts), TakenMobiles(db.contacts), TakenCodes(db.people)).None?
    requires req.email.Some?
    requires forall t | t in db.emailChanges && t.customer == db.customers[i].id :: t.createdAt <= now
    ensures var u := db.customers[i];
      var c := db.contacts[ContactIndex(db, u.username).value];
      var d := UpdateProfile(db, i, req, now);
      var o := Tasks.SendEmailVerification(d, u.username, now);
      NewestOf(d.emailChanges, u.id) == Some(|db.emailChanges|) &&
      (c.email.Text? ==>
        o.emailTemps == db.emailTemps + [Row(d.nextId, u.id, now, c.email.s)] &&
        o.outbox == db.outbox + [Mail(req.email.value, u.id, d.nextId)]) &&
      (c.email.Null? ==> o.emailTemps == db.emailTemps && o.outbox == db.outbox)
  {
    var u := db.customers[i];
    var k := ContactIndex(db, u.username).value;
    var c := db.contacts[k];
    var d := UpdateProfile(db, i, req, now);
    UpdateProfileValid(db, i, req, now);
    NewestAppended(db.emailChanges, Row(db.nextId, u.id, now, Change(GetPrepValue(c.email), Text(req.email.value))));
    assert u in db.customers;
    assert Tasks.ContactOf(d, u.username) == c by { IndexOfDistinct(ContactIds(db.contacts), k); }
    assert Tasks.CustomerOf(d, u.username) == d.customers[i] by {
      assert d.customers[i].username == u.username;
      IndexOfDistinct(Usernames(d.customers), i);
    }
    Tasks.EmailTicketAndMail(d, u.username, now);
  }

  /**
   * The mail an email update sends. The verification goes to the new address
   * when the contact already has an email (the ticket records the current
   * one); a contact without an email gets the change logged but no ticket and
   * no mail, since a ticket needs the contact's email.
   */
  lemma UpdateEmailMail(db: Db, id: Id, req: UpdateRequest, now: Time)
    requires Valid(db) && Update(db, id, req, now).response.Created? && req.email.Some?
    requires forall t | t in db.emailChanges && t.customer == id :: t.createdAt <= now
    ensures var u := db.customers[CustomerIndex(db, id).value];
      var c := db.contacts[ContactIndex(db, u.username).value];
      var o := Update(db, id, req, now).db;
      var key := if req.mobile.Some? then db.nextId + 2 else db.nextId + 1;
      (c.email.Text? ==>
        o.emailTemps == db.emailTemps + [Row(key, id, now, c.email.s)] &&
        o.outbox == db.outbox + [Mail(req.email.value, id, key)]) &&
      (c.email.Null? ==> o.emailTemps == db.emailTemps && o.outbox == db.outbox)
  {
    UpdateAccepted(db, id, req, now);
    var i := CustomerIndex(db, id).value;
    var u := db.customers[i];
    var d := UpdateProfile(db, i, req, now);
    UpdateProfileMail(db, i, req, now);
    var m := NewestOf(d.phoneChanges, u.id).value;
    assert Truthy(d.emailChanges[|db.emailChanges|].data.newValue);
    assert d.nextId == if req.mobile.Some? then db.nextId + 2 else db.nextId + 1;
    var e := Tasks.SendEmailVerification(d, u.username, now);
    var o := StartVerifications(d, u.username, true, Truthy(d.phoneChanges[m].data.newValue), now);
    assert o.emailTemps == e.emailTemps && o.outbox == e.outbox;
  }
}
