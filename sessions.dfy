/**
 * The password change and the sign-out of the customer view set
 * (views.py `change_password`, `signout`): both end by blacklisting the
 * client's refresh token.
 *
 * A refresh token is an opaque string. Whether its signature and expiry
 * check out is decided by the token library from the signing key and the
 * clock, outside the database, and reaches each function as `intact`; the
 * blacklist is the database's set `revoked`.
 */
module Sessions {
  import opened Wrappers
  import opened Models
  import opened Serializers
  import opened Integrity
  import opened Views
  import Authentication

  /**
   * `RefreshToken(token)` then `token.blacklist()`: an intact token that is
   * not yet blacklisted is added to the blacklist; any other token raises
   * TokenError (None).
   */
  function Blacklist(db: Db, token: string, intact: bool): (r: Option<Db>)
    ensures r.Some? <==> intact && token !in db.revoked
    ensures r.Some? ==> r.value.revoked == db.revoked + {token} && r.value.(revoked := db.revoked) == db
  {
    if intact && token !in db.revoked then Some(db.(revoked := db.revoked + {token})) else None
  }

  /** The stored password of customer i replaced by the hash of `raw` (`set_password` and `save`). */
  function SetPassword(db: Db, i: nat, raw: string): (d: Db)
    requires i < |db.customers|
    ensures |d.customers| == |db.customers|
    ensures CheckPassword(d.customers[i].password, raw)
    ensures forall old_raw :: old_raw != raw ==> !CheckPassword(d.customers[i].password, old_raw)
  {
    db.(customers := db.customers[i := db.customers[i].(password := MakePassword(raw))])
  }

  /**
   * `change_password`: find the customer, validate, check the old password,
   * save the new one, then blacklist the refresh token. The new password
   * stays saved when the token is refused.
   */
  function ChangePassword(db: Db, id: Id, req: ChangePasswordRequest, tokenIntact: bool): (o: Outcome)
    ensures o.response.NotFound? || o.response.Invalid? || o.response.IncorrectPassword? ||
            o.response.PasswordChanged? || o.response.InvalidToken?
    ensures o.response.NotFound? <==> id !in CustomerIds(db.customers)
    ensures o.response.NotFound? || o.response.Invalid? || o.response.IncorrectPassword? ==> o.db == db
    ensures o.response.Invalid? <==> id in CustomerIds(db.customers) && ValidateChangePassword(req).Some?
    ensures o.response.IncorrectPassword? <==>
      id in CustomerIds(db.customers) && ValidateChangePassword(req).None? &&
      !CheckPassword(db.customers[CustomerIndex(db, id).value].password, req.oldPassword.value)
    ensures o.response.PasswordChanged? || o.response.InvalidToken? ==>
      var i := CustomerIndex(db, id).value;
      CheckPassword(db.customers[i].password, req.oldPassword.value) &&
      ValidateChangePassword(req).None? &&
      o.db.(revoked := db.revoked) == SetPassword(db, i, req.newPassword.value) &&
      CheckPassword(o.db.customers[i].password, req.newPassword.value) &&
      !CheckPassword(o.db.customers[i].password, req.oldPassword.value)
    ensures o.response.PasswordChanged? <==>
      id in CustomerIds(db.customers) && ValidateChangePassword(req).None? &&
      CheckPassword(db.customers[CustomerIndex(db, id).value].password, req.oldPassword.value) &&
      tokenIntact && req.refresh.value !in db.revoked
    ensures o.response.PasswordChanged? ==> o.db.revoked == db.revoked + {req.refresh.value}
    ensures o.response.InvalidToken? ==> o.db.revoked == db.revoked
  {
    match CustomerIndex(db, id)
    case None => Outcome(NotFound, db)
    case Some(i) =>
      var err := ValidateChangePassword(req);
      if err.Some? then Outcome(Invalid(err.value), db)
      else if !CheckPassword(db.customers[i].password, req.oldPassword.value) then Outcome(IncorrectPassword, db)
      else
        var d := SetPassword(db, i, req.newPassword.value);
        match Blacklist(d, req.refresh.value, tokenIntact)
        case None => Outcome(InvalidToken, d)
        case Some(d') => Outcome(PasswordChanged, d')
  }

  /** `signout`: validate, then blacklist the refresh token. */
  function Signout(db: Db, refresh: Option<string>, tokenIntact: bool): (o: Outcome)
    ensures o.response.Invalid? || o.response.SignedOut? || o.response.InvalidToken?
    ensures o.response.Invalid? <==> !RequiredText(refresh)
    ensures o.response.SignedOut? <==> RequiredText(refresh) && tokenIntact && refresh.value !in db.revoked
    ensures o.response.SignedOut? ==> o.db == db.(revoked := db.revoked + {refresh.value})
    ensures !o.response.SignedOut? ==> o.db == db
  {
    var err := ValidateSignout(refresh);
    if err.Some? then Outcome(Invalid(err.value), db)
    else
      match Blacklist(db, refresh.value, tokenIntact)
      case None => Outcome(InvalidToken, db)
      case Some(d) => Outcome(SignedOut, d)
  }

  lemma ChangePasswordValid(db: Db, id: Id, req: ChangePasswordRequest, tokenIntact: bool)
    requires Valid(db)
    ensures Valid(ChangePassword(db, id, req, tokenIntact).db)
  {
    var o := ChangePassword(db, id, req, tokenIntact);
    if o.response.PasswordChanged? || o.response.InvalidToken? {
      var i := CustomerIndex(db, id).value;
      var u := db.customers[i];
      CustomerSaved(db, i, u.(password := MakePassword(req.newPassword.value)));
    }
  }

  lemma SignoutValid(db: Db, refresh: Option<string>, tokenIntact: bool)
    requires Valid(db)
    ensures Valid(Signout(db, refresh, tokenIntact).db)
  {
  }

  /**
   * A refresh token works once: after a sign-out or a password change has
   * blacklisted it, signing out with it again is refused, whatever the
   * token library says of it.
   */
  lemma TokenUsedOnce(db: Db, id: Id, req: ChangePasswordRequest, refresh: Option<string>, intact: bool, intact': bool)
    ensures Signout(db, refresh, intact).response.SignedOut? ==>
      Signout(Signout(db, refresh, intact).db, refresh, intact').response.InvalidToken?
    ensures ChangePassword(db, id, req, intact).response.PasswordChanged? ==>
      Signout(ChangePassword(db, id, req, intact).db, req.refresh, intact').response.InvalidToken?
  {
  }

  /**
   * The password change is not undone when the token is refused: the
   * customer then signs in with the new password only.
   */
  lemma RefusedTokenKeepsPassword(db: Db, id: Id, req: ChangePasswordRequest, j: nat,
                                  email: Option<string>, mobile: Option<string>, intact: bool)
    requires Valid(db)
    requires ChangePassword(db, id, req, intact).response.InvalidToken?
    requires j < |db.customers| && db.customers[j].id == id
    requires Authentication.HoldsIdentifier(db, db.customers[j].username, email, mobile)
    ensures var d := ChangePassword(db, id, req, intact).db;
      Authentication.Authenticate(d, email, mobile, req.newPassword.value) == Some(id) &&
      Authentication.Authenticate(d, email, mobile, req.oldPassword.value) == None
  {
    var d := ChangePassword(db, id, req, intact).db;
    ChangePasswordValid(db, id, req, intact);
    IndexOfDistinct(CustomerIds(db.customers), j);
    assert d.contacts == db.contacts && d.customers[j].username == db.customers[j].username;
    Authentication.AuthenticateCharacterised(d, email, mobile, req.newPassword.value, j);
    Authentication.AuthenticateCharacterised(d, email, mobile, req.oldPassword.value, j);
    Authentication.IdentifierDeterminesCustomer(d, email, mobile, req.oldPassword.value, j);
  }
}
