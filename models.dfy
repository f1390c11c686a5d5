/**
 * The customer app's records (models.py) and the database they live in.
 *
 * Every table is a sequence of rows; every row has a UUID primary key,
 * modelled as a natural number drawn from a counter so that new keys are
 * fresh. Nullable-unique columns hold what `get_prep_value` wrote: NULL for
 * an absent or empty value. Timestamps are integers (seconds).
 */
module Models {
  import opened Wrappers
  import opened Fields
  import NationalCode

  type Id = nat
  type Time = int

  datatype Sex = Male | Female | Unsure

  /** People: the owner of a Contact and of a Customer. */
  datatype People = People(
    id: Id,
    name: string,
    lastName: string,
    idNumber: string,
    nationalCode: string,
    birthDate: Option<Time>,
    sex: Sex)

  /** Contact: the login identity. email and mobile are UNIQUE but nullable. */
  datatype Contact = Contact(
    id: Id,
    owner: Id,
    email: Nullable,
    mobile: Nullable,
    telephone: string,
    city: string,
    province: string,
    postalCode: string,
    address: string)

  /** A stored password hash; hashing is modelled as an injective tag. */
  datatype Password = Hashed(raw: string)

  /** `set_password`. */
  function MakePassword(raw: string): Password {
    Hashed(raw)
  }

  /** `check_password`. */
  predicate CheckPassword(p: Password, raw: string) {
    p.raw == raw
  }

  /** Customer: the account, one-to-one with its Contact (`username`). */
  datatype Customer = Customer(
    id: Id,
    username: Id,
    password: Password,
    owner: Id,
    isActive: bool,
    emailVerify: Option<Time>,
    mobileVerify: Option<Time>,
    totalCredit: int)

  /** A row owned by one customer: EmailTemp, OTPTemp, EmailChange, PhoneChange. */
  datatype Row<P> = Row(id: Id, customer: Id, createdAt: Time, data: P)

  /** The old and new value of an EmailChange or PhoneChange. */
  datatype Change = Change(oldValue: Nullable, newValue: Nullable)

  type EmailTemp = Row<string>     // data: the email the ticket was issued for
  type OTPTemp = Row<int>          // data: the code
  type EmailChange = Row<Change>
  type PhoneChange = Row<Change>

  /** A verification mail handed to the mail sink: one recipient, a link naming customer and ticket. */
  datatype Mail = Mail(recipient: string, customer: Id, ticket: Id)

  /** The whole database, plus the token denylist and the mail outbox. */
  datatype Db = Db(
    people: seq<People>,
    contacts: seq<Contact>,
    customers: seq<Customer>,
    emailTemps: seq<EmailTemp>,
    otpTemps: seq<OTPTemp>,
    emailChanges: seq<EmailChange>,
    phoneChanges: seq<PhoneChange>,
    revoked: set<string>,
    outbox: seq<Mail>,
    nextId: Id)

  const EmptyDb: Db := Db([], [], [], [], [], [], [], {}, [], 0)

  /** A new Customer row with the model defaults. */
  function NewCustomer(id: Id, username: Id, password: Password, owner: Id): Customer {
    Customer(id, username, password, owner, false, None, None, 0)
  }

  /** A new People row with the model defaults. */
  function NewPeople(id: Id, nationalCode: string): People {
    People(id, "", "", "", nationalCode, None, Unsure)
  }

  /** A new Contact row with the model defaults. */
  function NewContact(id: Id, owner: Id, email: Nullable, mobile: Nullable): Contact {
    Contact(id, owner, email, mobile, "", "", "", "", "")
  }

  /** An optional request value as a Python value. */
  function FromOption(v: Option<string>): Nullable {
    if v.Some? then Text(v.value) else Null
  }

  // ---------------------------------------------------------------------------
  // Column projections

  function PeopleIds(ps: seq<People>): (r: seq<Id>)
    ensures |r| == |ps| && forall i :: 0 <= i < |ps| ==> r[i] == ps[i].id
  {
    seq(|ps|, i requires 0 <= i < |ps| => ps[i].id)
  }

  function NationalCodes(ps: seq<People>): (r: seq<string>)
    ensures |r| == |ps| && forall i :: 0 <= i < |ps| ==> r[i] == ps[i].nationalCode
  {
    seq(|ps|, i requires 0 <= i < |ps| => ps[i].nationalCode)
  }

  function ContactIds(cs: seq<Contact>): (r: seq<Id>)
    ensures |r| == |cs| && forall i :: 0 <= i < |cs| ==> r[i] == cs[i].id
  {
    seq(|cs|, i requires 0 <= i < |cs| => cs[i].id)
  }

  function Emails(cs: seq<Contact>): (r: seq<Nullable>)
    ensures |r| == |cs| && forall i :: 0 <= i < |cs| ==> r[i] == cs[i].email
  {
    seq(|cs|, i requires 0 <= i < |cs| => cs[i].email)
  }

  function Mobiles(cs: seq<Contact>): (r: seq<Nullable>)
    ensures |r| == |cs| && forall i :: 0 <= i < |cs| ==> r[i] == cs[i].mobile
  {
    seq(|cs|, i requires 0 <= i < |cs| => cs[i].mobile)
  }

  function CustomerIds(us: seq<Customer>): (r: seq<Id>)
    ensures |r| == |us| && forall i :: 0 <= i < |us| ==> r[i] == us[i].id
  {
    seq(|us|, i requires 0 <= i < |us| => us[i].id)
  }

  function Usernames(us: seq<Customer>): (r: seq<Id>)
    ensures |r| == |us| && forall i :: 0 <= i < |us| ==> r[i] == us[i].username
  {
    seq(|us|, i requires 0 <= i < |us| => us[i].username)
  }

  /** The values a UniqueValidator over Contact.email finds. */
  function TakenEmails(cs: seq<Contact>): set<string> {
    set i | 0 <= i < |cs| && cs[i].email.Text? :: cs[i].email.s
  }

  function TakenMobiles(cs: seq<Contact>): set<string> {
    set i | 0 <= i < |cs| && cs[i].mobile.Text? :: cs[i].mobile.s
  }

  function TakenCodes(ps: seq<People>): set<string> {
    set i | 0 <= i < |ps| :: ps[i].nationalCode
  }

  // ---------------------------------------------------------------------------
  // Queries

  /** `objects.get(field=x)` over one column: the first row holding x. */
  function IndexOf<T(==)>(s: seq<T>, x: T): (r: Option<nat>)
    ensures r.Some? ==> r.value < |s| && s[r.value] == x && x !in s[..r.value]
    ensures r.None? <==> x !in s
  {
    if |s| == 0 then None
    else if s[0] == x then Some(0)
    else
      match IndexOf(s[1..], x)
      case None => None
      case Some(k) =>
        assert s[1..][..k] == s[1..k + 1];
        Some(k + 1)
  }

  predicate Owns<P>(rows: seq<Row<P>>, cid: Id) {
    exists i :: 0 <= i < |rows| && rows[i].customer == cid
  }

  /**
   * `filter(customer=cid).latest("created_at")` or `order_by("-created_at")[0]`:
   * a row of the customer with the greatest creation time; among equal times,
   * the one appended last.
   */
  function NewestOf<P>(rows: seq<Row<P>>, cid: Id): (r: Option<nat>)
    ensures r.None? <==> !Owns(rows, cid)
    ensures r.Some? ==> r.value < |rows| && rows[r.value].customer == cid
    ensures r.Some? ==> forall i :: 0 <= i < |rows| && rows[i].customer == cid ==>
      rows[i].createdAt <= rows[r.value].createdAt
    ensures r.Some? ==> forall i :: r.value < i < |rows| && rows[i].customer == cid ==>
      rows[i].createdAt < rows[r.value].createdAt
  {
    if |rows| == 0 then None
    else
      var last := |rows| - 1;
      var prev := NewestOf(rows[..last], cid);
      if rows[last].customer != cid then prev
      else if prev.None? || rows[prev.value].createdAt <= rows[last].createdAt then Some(last)
      else prev
  }

  /** A row appended for a customer none of whose rows is younger is that customer's newest. */
  lemma NewestAppended<P>(rows: seq<Row<P>>, row: Row<P>)
    requires forall t | t in rows && t.customer == row.customer :: t.createdAt <= row.createdAt
    ensures NewestOf(rows + [row], row.customer) == Some(|rows|)
  {
    assert (rows + [row])[..|rows|] == rows;
    var prev := NewestOf(rows, row.customer);
    if prev.Some? {
      assert rows[prev.value] in rows;
    }
  }

  /** `customer.<temps>.filter(id=id)`: the customer's row with that key, if any. */
  function FindOwned<P>(rows: seq<Row<P>>, cid: Id, id: Id): (r: Option<nat>)
    ensures r.Some? ==> r.value < |rows| && rows[r.value].customer == cid && rows[r.value].id == id
    ensures r.None? <==> forall i :: 0 <= i < |rows| ==> !(rows[i].customer == cid && rows[i].id == id)
  {
    if |rows| == 0 then None
    else if rows[0].customer == cid && rows[0].id == id then Some(0)
    else
      match FindOwned(rows[1..], cid, id)
      case None => None
      case Some(k) => Some(k + 1)
  }

  /** `customer.<temps>.all().delete()`: every row of the customer removed, the rest kept in order. */
  function DeleteOwned<P>(rows: seq<Row<P>>, cid: Id): (r: seq<Row<P>>)
    ensures forall i :: 0 <= i < |r| ==> r[i] in rows && r[i].customer != cid
    ensures forall i :: 0 <= i < |rows| && rows[i].customer != cid ==> rows[i] in r
    ensures |r| <= |rows|
  {
    if |rows| == 0 then []
    else if rows[0].customer == cid then DeleteOwned(rows[1..], cid)
    else [rows[0]] + DeleteOwned(rows[1..], cid)
  }

  /** `{temp["email"] for temp in customer.email_temp.values("email")}`. */
  function TicketEmails(rows: seq<EmailTemp>, cid: Id): set<string> {
    set i | 0 <= i < |rows| && rows[i].customer == cid :: rows[i].data
  }

  // ---------------------------------------------------------------------------
  // Integrity constraints

  ghost predicate Distinct<T>(s: seq<T>) {
    forall i, j :: 0 <= i < j < |s| ==> s[i] != s[j]
  }

  /** UNIQUE on a nullable column: any number of NULLs, each value at most once. */
  ghost predicate UniqueWhenPresent(s: seq<Nullable>) {
    forall i, j :: 0 <= i < j < |s| && s[i].Text? ==> s[i] != s[j]
  }

  /** The primary keys, the UNIQUE columns, the one-to-one Contact/Customer link and the owner links. */
  ghost predicate TablesValid(db: Db) {
    Distinct(PeopleIds(db.people)) &&
    Distinct(ContactIds(db.contacts)) &&
    Distinct(CustomerIds(db.customers)) &&
    Distinct(NationalCodes(db.people)) &&
    (forall p | p in db.people :: NationalCode.IsValid(p.nationalCode)) &&
    UniqueWhenPresent(Emails(db.contacts)) &&
    UniqueWhenPresent(Mobiles(db.contacts)) &&
    Text("") !in Emails(db.contacts) &&
    Text("") !in Mobiles(db.contacts) &&
    Distinct(Usernames(db.customers)) &&
    (forall u | u in db.customers :: u.username in ContactIds(db.contacts) && u.owner in PeopleIds(db.people)) &&
    (forall c | c in db.contacts :: c.id in Usernames(db.customers))
  }

  /** Every customer has an EmailChange and a PhoneChange, so `.latest` finds one. */
  ghost predicate LogsValid(db: Db) {
    forall u | u in db.customers :: Owns(db.emailChanges, u.id) && Owns(db.phoneChanges, u.id)
  }

  /** Every key in use, and every customer a row points to, is below the counter, so the counter's value is a fresh key. */
  ghost predicate IdsBelow(db: Db) {
    (forall p | p in db.people :: p.id < db.nextId) &&
    (forall c | c in db.contacts :: c.id < db.nextId) &&
    (forall u | u in db.customers :: u.id < db.nextId) &&
    (forall t | t in db.emailTemps :: t.id < db.nextId && t.customer < db.nextId) &&
    (forall t | t in db.otpTemps :: t.id < db.nextId && t.customer < db.nextId) &&
    (forall t | t in db.emailChanges :: t.id < db.nextId && t.customer < db.nextId) &&
    (forall t | t in db.phoneChanges :: t.id < db.nextId && t.customer < db.nextId)
  }

  ghost predicate Valid(db: Db) {
    TablesValid(db) && LogsValid(db) && IdsBelow(db)
  }

  /** In a column without duplicates, the lookup of a row's value finds that row. */
  lemma IndexOfDistinct<T>(s: seq<T>, k: nat)
    requires Distinct(s) && k < |s|
    ensures IndexOf(s, s[k]) == Some(k)
  {
  }

  /** In a UNIQUE nullable column, the lookup of a present value finds its row. */
  lemma IndexOfPresent(s: seq<Nullable>, k: nat)
    requires UniqueWhenPresent(s) && k < |s| && s[k].Text?
    ensures IndexOf(s, s[k]) == Some(k)
  {
  }

  lemma EmptyValid()
    ensures Valid(EmptyDb)
  {
  }

  // ---------------------------------------------------------------------------
  // Lookups used by the views

  function CustomerIndex(db: Db, id: Id): Option<nat> {
    IndexOf(CustomerIds(db.customers), id)
  }

  function ContactIndex(db: Db, id: Id): Option<nat> {
    IndexOf(ContactIds(db.contacts), id)
  }

  /** `contact.customer`: the customer whose username is the contact. */
  function CustomerOfContact(db: Db, contactId: Id): Option<nat> {
    IndexOf(Usernames(db.customers), contactId)
  }

  function PeopleIndex(db: Db, id: Id): Option<nat> {
    IndexOf(PeopleIds(db.people), id)
  }

  /** Some other contact than the one at index c holds value v in the email column. */
  predicate EmailHeldElsewhere(cs: seq<Contact>, c: nat, v: Nullable) {
    exists j :: 0 <= j < |cs| && j != c && cs[j].email == v
  }

  predicate MobileHeldElsewhere(cs: seq<Contact>, c: nat, v: Nullable) {
    exists j :: 0 <= j < |cs| && j != c && cs[j].mobile == v
  }
}
