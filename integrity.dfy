/**
 * The row lookups the views rely on in a consistent database, and the row
 * writes that keep it consistent: each lemma says which checks a write needs
 * so that the keys, the UNIQUE columns and the links still hold afterwards.
 */
module Integrity {
  import opened Wrappers
  import opened Fields
  import opened Models
  import NationalCode

  // ---------------------------------------------------------------------------
  // Lookups that cannot fail in a consistent database

  /** `customer.username`: the index of the customer's Contact. */
  function ContactOfCustomer(db: Db, i: nat): (k: nat)
    requires Valid(db) && i < |db.customers|
    ensures k < |db.contacts| && db.contacts[k].id == db.customers[i].username
  {
    assert db.customers[i] in db.customers;
    ContactIndex(db, db.customers[i].username).value
  }

  /** `customer.owner`: the index of the customer's People row. */
  function OwnerOfCustomer(db: Db, i: nat): (k: nat)
    requires Valid(db) && i < |db.customers|
    ensures k < |db.people| && db.people[k].id == db.customers[i].owner
  {
    assert db.customers[i] in db.customers;
    PeopleIndex(db, db.customers[i].owner).value
  }

  /** `EmailChange.objects.filter(customer=customer).latest("created_at")`. */
  function LatestEmailChange(db: Db, i: nat): (j: nat)
    requires Valid(db) && i < |db.customers|
    ensures j < |db.emailChanges| && db.emailChanges[j].customer == db.customers[i].id
    ensures forall t :: 0 <= t < |db.emailChanges| && db.emailChanges[t].customer == db.customers[i].id ==>
      db.emailChanges[t].createdAt <= db.emailChanges[j].createdAt
  {
    assert db.customers[i] in db.customers;
    NewestOf(db.emailChanges, db.customers[i].id).value
  }

  /** `PhoneChange.objects.filter(customer=customer).latest("created_at")`. */
  function LatestPhoneChange(db: Db, i: nat): (j: nat)
    requires Valid(db) && i < |db.customers|
    ensures j < |db.phoneChanges| && db.phoneChanges[j].customer == db.customers[i].id
    ensures forall t :: 0 <= t < |db.phoneChanges| && db.phoneChanges[t].customer == db.customers[i].id ==>
      db.phoneChanges[t].createdAt <= db.phoneChanges[j].createdAt
  {
    assert db.customers[i] in db.customers;
    NewestOf(db.phoneChanges, db.customers[i].id).value
  }

  /** A value of the email column that no other contact holds is not taken by another. */
  lemma TakenEmailHeld(cs: seq<Contact>, k: nat, e: string)
    requires EmailHeldElsewhere(cs, k, Text(e))
    ensures e in TakenEmails(cs)
  {
    var j :| 0 <= j < |cs| && j != k && cs[j].email == Text(e);
    assert cs[j].email.s == e;
  }

  lemma TakenMobileHeld(cs: seq<Contact>, k: nat, m: string)
    requires MobileHeldElsewhere(cs, k, Text(m))
    ensures m in TakenMobiles(cs)
  {
    var j :| 0 <= j < |cs| && j != k && cs[j].mobile == Text(m);
    assert cs[j].mobile.s == m;
  }

  // ---------------------------------------------------------------------------
  // Writes that keep the database consistent

  /** Saving a customer row whose keys and links are unchanged. */
  lemma CustomerSaved(db: Db, i: nat, u: Customer)
    requires Valid(db) && i < |db.customers|
    requires u.id == db.customers[i].id && u.username == db.customers[i].username && u.owner == db.customers[i].owner
    ensures Valid(db.(customers := db.customers[i := u]))
  {
    var d := db.(customers := db.customers[i := u]);
    assert CustomerIds(d.customers) == CustomerIds(db.customers);
    assert Usernames(d.customers) == Usernames(db.customers);
    assert forall v | v in d.customers :: v == u || v in db.customers;
    assert db.customers[i] in db.customers;
  }

  /** Writing a value into a UNIQUE nullable column at row k, where no other row holds it. */
  lemma UniqueAfterWrite(s: seq<Nullable>, k: nat, v: Nullable)
    requires UniqueWhenPresent(s) && k < |s|
    requires v.Null? || v == s[k] || forall j :: 0 <= j < |s| && j != k ==> s[j] != v
    ensures UniqueWhenPresent(s[k := v])
  {
  }

  /** Saving a contact row whose key is unchanged and whose email and mobile nobody else holds. */
  lemma ContactSaved(db: Db, k: nat, c: Contact)
    requires Valid(db) && k < |db.contacts|
    requires c.id == db.contacts[k].id
    requires c.email != Text("") && c.mobile != Text("")
    requires c.email.Null? || c.email == db.contacts[k].email || !EmailHeldElsewhere(db.contacts, k, c.email)
    requires c.mobile.Null? || c.mobile == db.contacts[k].mobile || !MobileHeldElsewhere(db.contacts, k, c.mobile)
    ensures Valid(db.(contacts := db.contacts[k := c]))
  {
    var d := db.(contacts := db.contacts[k := c]);
    ContactColumnsSaved(db.contacts, k, c);
    assert ContactIds(d.contacts) == ContactIds(db.contacts);
    assert db.contacts[k] in db.contacts;
    assert forall v | v in d.contacts :: v.id in Usernames(d.customers) && v.id < d.nextId by {
      assert forall v | v in d.contacts :: v == c || v in db.contacts;
    }
  }

  /** The email and mobile columns stay UNIQUE and free of "" when row k is overwritten by such a contact. */
  lemma ContactColumnsSaved(cs: seq<Contact>, k: nat, c: Contact)
    requires k < |cs| && UniqueWhenPresent(Emails(cs)) && UniqueWhenPresent(Mobiles(cs))
    requires Text("") !in Emails(cs) && Text("") !in Mobiles(cs)
    requires c.email != Text("") && c.mobile != Text("")
    requires c.email.Null? || c.email == cs[k].email || !EmailHeldElsewhere(cs, k, c.email)
    requires c.mobile.Null? || c.mobile == cs[k].mobile || !MobileHeldElsewhere(cs, k, c.mobile)
    ensures UniqueWhenPresent(Emails(cs[k := c])) && UniqueWhenPresent(Mobiles(cs[k := c]))
    ensures Text("") !in Emails(cs[k := c]) && Text("") !in Mobiles(cs[k := c])
  {
    assert Emails(cs[k := c]) == Emails(cs)[k := c.email];
    assert Mobiles(cs[k := c]) == Mobiles(cs)[k := c.mobile];
    UniqueAfterWrite(Emails(cs), k, c.email);
    UniqueAfterWrite(Mobiles(cs), k, c.mobile);
  }

  /** Saving a People row whose key is unchanged and whose national code is valid and not another's. */
  lemma PeopleSaved(db: Db, k: nat, p: People)
    requires Valid(db) && k < |db.people|
    requires p.id == db.people[k].id && NationalCode.IsValid(p.nationalCode)
    requires p.nationalCode == db.people[k].nationalCode || p.nationalCode !in TakenCodes(db.people)
    ensures Valid(db.(people := db.people[k := p]))
  {
    var d := db.(people := db.people[k := p]);
    assert PeopleIds(d.people) == PeopleIds(db.people);
    assert forall v | v in d.people :: v == p || v in db.people;
    assert db.people[k] in db.people;
    assert Distinct(NationalCodes(d.people)) by {
      forall a, b | 0 <= a < b < |d.people|
        ensures d.people[a].nationalCode != d.people[b].nationalCode
      {
        if a == k && p.nationalCode != db.people[k].nationalCode {
          assert db.people[b].nationalCode in TakenCodes(db.people);
        } else if b == k && p.nationalCode != db.people[k].nationalCode {
          assert db.people[a].nationalCode in TakenCodes(db.people);
        }
      }
    }
  }

  /** Saving an EmailChange row in place. */
  lemma EmailChangeSaved(db: Db, j: nat, row: EmailChange)
    requires Valid(db) && j < |db.emailChanges|
    requires row.id == db.emailChanges[j].id && row.customer == db.emailChanges[j].customer
    ensures Valid(db.(emailChanges := db.emailChanges[j := row]))
  {
    var d := db.(emailChanges := db.emailChanges[j := row]);
    forall u | u in d.customers ensures Owns(d.emailChanges, u.id) {
      var t :| 0 <= t < |db.emailChanges| && db.emailChanges[t].customer == u.id;
      assert d.emailChanges[t].customer == u.id;
    }
    assert forall v | v in d.emailChanges :: v == row || v in db.emailChanges;
  }

  /** Saving a PhoneChange row in place. */
  lemma PhoneChangeSaved(db: Db, j: nat, row: PhoneChange)
    requires Valid(db) && j < |db.phoneChanges|
    requires row.id == db.phoneChanges[j].id && row.customer == db.phoneChanges[j].customer
    ensures Valid(db.(phoneChanges := db.phoneChanges[j := row]))
  {
    var d := db.(phoneChanges := db.phoneChanges[j := row]);
    forall u | u in d.customers ensures Owns(d.phoneChanges, u.id) {
      var t :| 0 <= t < |db.phoneChanges| && db.phoneChanges[t].customer == u.id;
      assert d.phoneChanges[t].customer == u.id;
    }
    assert forall v | v in d.phoneChanges :: v == row || v in db.phoneChanges;
  }

  /** Creating an EmailChange under the next key. */
  lemma EmailChangeCreated(db: Db, row: EmailChange)
    requires Valid(db) && row.id == db.nextId && row.customer < db.nextId
    ensures Valid(db.(emailChanges := db.emailChanges + [row], nextId := db.nextId + 1))
  {
    var d := db.(emailChanges := db.emailChanges + [row], nextId := db.nextId + 1);
    forall u | u in d.customers ensures Owns(d.emailChanges, u.id) {
      var t :| 0 <= t < |db.emailChanges| && db.emailChanges[t].customer == u.id;
      assert d.emailChanges[t].customer == u.id;
    }
  }

  /** Creating a PhoneChange under the next key. */
  lemma PhoneChangeCreated(db: Db, row: PhoneChange)
    requires Valid(db) && row.id == db.nextId && row.customer < db.nextId
    ensures Valid(db.(phoneChanges := db.phoneChanges + [row], nextId := db.nextId + 1))
  {
    var d := db.(phoneChanges := db.phoneChanges + [row], nextId := db.nextId + 1);
    forall u | u in d.customers ensures Owns(d.phoneChanges, u.id) {
      var t :| 0 <= t < |db.phoneChanges| && db.phoneChanges[t].customer == u.id;
      assert d.phoneChanges[t].customer == u.id;
    }
  }

  /** `customer.email_temp.all().delete()`. */
  lemma EmailTicketsDeleted(db: Db, cid: Id)
    requires Valid(db)
    ensures Valid(db.(emailTemps := DeleteOwned(db.emailTemps, cid)))
  {
    var r := DeleteOwned(db.emailTemps, cid);
    assert forall t | t in r :: t in db.emailTemps;
  }

  /** `customer.otp_temp.all().delete()`. */
  lemma OtpTicketsDeleted(db: Db, cid: Id)
    requires Valid(db)
    ensures Valid(db.(otpTemps := DeleteOwned(db.otpTemps, cid)))
  {
    var r := DeleteOwned(db.otpTemps, cid);
    assert forall t | t in r :: t in db.otpTemps;
  }
}
