/**
 * The authentication backend (authentication.py): credential lookup by
 * email or mobile, and `get_user`.
 */
module Authentication {
  import opened Wrappers
  import opened Fields
  import opened Models
  import opened Serializers

  /**
   * ModelBackend.user_can_authenticate: `getattr(user, "is_active", None)`
   * is True, or the object has no such attribute.
   */
  predicate UserCanAuthenticate(isActive: Option<bool>) {
    isActive.None? || isActive.value
  }

  /**
   * The backend passes `customer.username`, a Contact, to user_can_authenticate;
   * Contact declares no `is_active`, so the attribute read is None.
   */
  const ContactIsActive: Option<bool> := None

  /** The contact matches the identifier the backend looks up: the email if given, else the mobile. */
  predicate Identifies(c: Contact, email: Option<string>, mobile: Option<string>) {
    if Supplied(email) then c.email == Text(email.value)
    else Supplied(mobile) && c.mobile == Text(mobile.value)
  }

  /** The contact with key id holds the identifier. */
  predicate HoldsIdentifier(db: Db, id: Id, email: Option<string>, mobile: Option<string>) {
    exists k :: 0 <= k < |db.contacts| && db.contacts[k].id == id && Identifies(db.contacts[k], email, mobile)
  }

  /** The `else` branch after a successful `Contact.objects.get`: password and eligibility. */
  function CheckContact(db: Db, k: nat, password: string): Option<Id>
    requires k < |db.contacts|
  {
    match CustomerOfContact(db, db.contacts[k].id)
    case None => None
    case Some(j) =>
      if CheckPassword(db.customers[j].password, password) && UserCanAuthenticate(ContactIsActive)
      then Some(db.customers[j].id) else None
  }

  /** `EmailMobileAuthentication.authenticate`. */
  function Authenticate(db: Db, email: Option<string>, mobile: Option<string>, password: string): (r: Option<Id>)
    ensures !Supplied(email) && !Supplied(mobile) ==> r.None?
    ensures Supplied(email) && Text(email.value) !in Emails(db.contacts) ==> r.None?
    ensures !Supplied(email) && Supplied(mobile) && Text(mobile.value) !in Mobiles(db.contacts) ==> r.None?
    ensures r.Some? ==>
      exists j :: 0 <= j < |db.customers| && db.customers[j].id == r.value &&
        CheckPassword(db.customers[j].password, password) &&
        HoldsIdentifier(db, db.customers[j].username, email, mobile)
    ensures r.Some? ==> r.value in CustomerIds(db.customers)
  {
    if Supplied(email) then
      match IndexOf(Emails(db.contacts), Text(email.value))
      case None => None
      case Some(k) => CheckContact(db, k, password)
    else if Supplied(mobile) then
      match IndexOf(Mobiles(db.contacts), Text(mobile.value))
      case None => None
      case Some(k) => CheckContact(db, k, password)
    else None
  }

  /** When an email is given the mobile plays no part. */
  lemma EmailTakesPrecedence(db: Db, email: Option<string>, m1: Option<string>, m2: Option<string>, password: string)
    requires Supplied(email)
    ensures Authenticate(db, email, m1, password) == Authenticate(db, email, m2, password)
  {
  }

  /**
   * In a consistent database, authenticate returns a customer exactly when
   * its contact holds the identifier and its password matches; activity
   * plays no part.
   */
  lemma AuthenticateCharacterised(db: Db, email: Option<string>, mobile: Option<string>, password: string, j: nat)
    requires Distinct(CustomerIds(db.customers)) && Distinct(Usernames(db.customers))
    requires UniqueWhenPresent(Emails(db.contacts)) && UniqueWhenPresent(Mobiles(db.contacts))
    requires j < |db.customers|
    ensures Authenticate(db, email, mobile, password) == Some(db.customers[j].id) <==>
      CheckPassword(db.customers[j].password, password) &&
      HoldsIdentifier(db, db.customers[j].username, email, mobile)
  {
    if Authenticate(db, email, mobile, password) == Some(db.customers[j].id) {
      AuthenticatedHolds(db, email, mobile, password, j);
    }
    if CheckPassword(db.customers[j].password, password) && HoldsIdentifier(db, db.customers[j].username, email, mobile) {
      HolderAuthenticated(db, email, mobile, password, j);
    }
  }

  /** A customer that authenticate returns has the password and its contact holds the identifier. */
  lemma AuthenticatedHolds(db: Db, email: Option<string>, mobile: Option<string>, password: string, j: nat)
    requires Distinct(CustomerIds(db.customers)) && j < |db.customers|
    requires Authenticate(db, email, mobile, password) == Some(db.customers[j].id)
    ensures CheckPassword(db.customers[j].password, password)
    ensures HoldsIdentifier(db, db.customers[j].username, email, mobile)
  {
    var r := Authenticate(db, email, mobile, password);
    var j' :| 0 <= j' < |db.customers| && db.customers[j'].id == r.value &&
      CheckPassword(db.customers[j'].password, password) &&
      HoldsIdentifier(db, db.customers[j'].username, email, mobile);
    IndexOfDistinct(CustomerIds(db.customers), j);
    IndexOfDistinct(CustomerIds(db.customers), j');
  }

  /** A customer whose contact holds the identifier and whose password matches is the one authenticate returns. */
  lemma HolderAuthenticated(db: Db, email: Option<string>, mobile: Option<string>, password: string, j: nat)
    requires Distinct(Usernames(db.customers))
    requires UniqueWhenPresent(Emails(db.contacts)) && UniqueWhenPresent(Mobiles(db.contacts))
    requires j < |db.customers|
    requires CheckPassword(db.customers[j].password, password)
    requires HoldsIdentifier(db, db.customers[j].username, email, mobile)
    ensures Authenticate(db, email, mobile, password) == Some(db.customers[j].id)
  {
    var u := db.customers[j];
    var k :| 0 <= k < |db.contacts| && db.contacts[k].id == u.username && Identifies(db.contacts[k], email, mobile);
    if Supplied(email) {
      IndexOfPresent(Emails(db.contacts), k);
    } else {
      IndexOfPresent(Mobiles(db.contacts), k);
    }
    IndexOfDistinct(Usernames(db.customers), j);
  }

  /**
   * In a consistent database an identifier held by a customer's contact can
   * only ever authenticate that customer.
   */
  lemma IdentifierDeterminesCustomer(db: Db, email: Option<string>, mobile: Option<string>, password: string, j: nat)
    requires Distinct(Usernames(db.customers))
    requires UniqueWhenPresent(Emails(db.contacts)) && UniqueWhenPresent(Mobiles(db.contacts))
    requires j < |db.customers| && HoldsIdentifier(db, db.customers[j].username, email, mobile)
    ensures Authenticate(db, email, mobile, password).Some? ==>
      Authenticate(db, email, mobile, password) == Some(db.customers[j].id)
  {
    var k :| 0 <= k < |db.contacts| && db.contacts[k].id == db.customers[j].username &&
      Identifies(db.contacts[k], email, mobile);
    if Supplied(email) {
      IndexOfPresent(Emails(db.contacts), k);
    } else {
      IndexOfPresent(Mobiles(db.contacts), k);
    }
    IndexOfDistinct(Usernames(db.customers), j);
  }

  /** `get_user`: None for an unknown id, otherwise the customer whenever the contact is eligible. */
  function GetUser(db: Db, id: Id): (r: Option<Id>)
    ensures r.Some? <==> id in CustomerIds(db.customers)
    ensures r.Some? ==> r.value == id
  {
    match CustomerIndex(db, id)
    case None => None
    case Some(i) => if UserCanAuthenticate(ContactIsActive) then Some(id) else None
  }
}
