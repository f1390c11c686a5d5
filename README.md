# Customer authentication service — a verified model

This project models the customer app of a Django authentication service.
It is written and proved in Dafny.

The app keeps **People**, **Contact** and **Customer** records:
- a Contact holds a UNIQUE, nullable email and mobile;
- a Customer is one-to-one with its Contact, which is its `username`.

Beside those records it keeps:
- **EmailChange** and **PhoneChange** logs of pending new values;
- **EmailTemp** verification tickets, named in a mailed link;
- **OTPTemp** one-time codes.

`CustomerViewSet` offers these actions: signup, a partial update, email
verification by ticket (verify, resend, change), mobile verification by
code (verify, resend, change), sign-in with a lockout, sign-out, and a
password change. Two background tasks issue the tickets and codes. An
authentication backend looks customers up by email or by mobile.

The model has three layers:

- **Pure specifications.** These cover the serializers (`Serializers`), the
  nullable field types (`Fields`), the national-code checksum
  (`NationalCode`) and the mobile pattern (`Patterns`). They also cover the
  backend (`Authentication`), the tasks (`Tasks`) and each view action
  (`Views`, `EmailViews`, `MobileViews`, `Sessions`, `Signin`). Each action is
  a function from a database value `Db` and a request to a response and a new
  database, with its error paths. `Models.Valid` states the database's
  consistency:
  - primary keys and UNIQUE columns hold;
  - the Contact/Customer link runs both ways;
  - every customer has both change logs;
  - every key lies below the key counter.

  Each action is proved to keep `Valid`. Further lemmas prove what the
  actions promise, such as:
  - a signed-up customer can authenticate;
  - re-verifying a just-verified channel is refused and changes nothing (a partial update can still clear the verification);
  - an OTP code is used once;
  - four failed sign-ins within ten minutes lock the identifier and address
    out until the counter expires;
  - a refresh token is blacklisted once.
- **The running app** (`Store`). The class `Store.Store` holds the tables as
  fields. Its methods update them save by save, in the order the view and the
  task code runs. Each method is proved to end in exactly the response and
  state that the matching function describes. Started on a consistent
  database, it leaves the database consistent. The class `Store.FailureCache`
  is Django's local-memory cache, as far as sign-in uses it.
- **Findings.** The regular expressions in the validators are searched with
  `re.search` and anchored with `$`, so they also accept a trailing newline.
  They are modelled as written, beside the intended rule (see Findings).

Some behaviour worth noting:
- A partial update clears the changed channel's verify timestamp but leaves
  `is_active` alone.
- `change_mobile` has no change limit; only `change_email` counts distinct
  ticket addresses against `EMAIL_VERIFICATION_CHANGE_LIMIT`.
- `change_mobile` and `change_email` refuse a channel that is already
  verified rather than resetting it.
- The lockout response does not report the remaining wait.

More behaviour of the code, modelled as it is:
- `change_email` and `change_mobile` store the new value in the Contact at
  once and log no change row.
- So when an earlier update left another email pending, the verification
  mail of `change_email` goes to that pending address (`EmailViews.ChangeEmailTicket`).
- `user_can_authenticate` is handed the Contact, which has no `is_active`, so
  inactive customers authenticate. Sign-in then answers "disabled".

## Model

| member | source | states |
|---|---|---|
| Fields.ToPython | authentication/apps/customer/fields.py:7-10 | NULL and "" read back as ""; any other stored string reads back unchanged |
| Fields.GetPrepValue | authentication/apps/customer/fields.py:12-13 | "" and NULL are stored as NULL; any other string is stored unchanged; "" is never stored |
| Fields.RoundTrip | authentication/apps/customer/fields.py:4-13 | a Python string stored and read back is the same string |
| Fields.PrepRoundTrip | authentication/apps/customer/fields.py:18-26 | a stored value read back and stored again is the value first stored |
| Fields.GetPrepValueIdempotent | authentication/apps/customer/fields.py:24-25 | preparing a prepared value changes nothing |
| Fields.ToPythonIdempotent | authentication/apps/customer/fields.py:19-22 | converting a converted value changes nothing |
| NationalCode.Remainder | authentication/apps/customer/validators.py:11 | the weighted sum of the first nine digits mod 11 is at most 10 |
| NationalCode.CheckDigit | authentication/apps/customer/validators.py:10-12 | the completing digit is a decimal digit; it equals the remainder below 2, and otherwise adds up with it to 11 |
| NationalCode.ValidCharacterised | authentication/apps/customer/validators.py:7-14 | a code is valid iff it is ten digits and its last digit is the completion `CheckDigit` of its first nine |
| NationalCode.UniqueCompletion | authentication/apps/customer/validators.py:10-14 | every nine-digit prefix has exactly one valid tenth digit |
| NationalCode.CheckDigitChangeDetected | authentication/apps/customer/validators.py:10-14 | changing only the check digit of a valid code makes it invalid |
| NationalCode.WeightedSumPrefix | authentication/apps/customer/validators.py:11 | the weighted sum reads only the first nine characters |
| NationalCode.TrailingNewlineAccepted | authentication/apps/customer/validators.py:8 | as written, a valid code followed by a newline passes, although it is not ten digits |
| NationalCode.AsWrittenAgrees | authentication/apps/customer/validators.py:8-14 | on input without a final newline, the validator as written accepts exactly the valid codes |
| Patterns.MobileFullMatchIff | authentication/apps/customer/serializers.py:34 | the mobile regex matches a whole string iff it is an allowed prefix followed by 9 and nine more digits |
| Patterns.MobileLength | authentication/apps/customer/serializers.py:29-34 | every accepted mobile has 10 to 15 characters, so it fits the column |
| Patterns.MobileTrailingNewlineAccepted | authentication/apps/customer/serializers.py:34 | as written, a valid mobile followed by a newline is accepted |
| Patterns.MobileRegexAgrees | authentication/apps/customer/serializers.py:33-37 | on input without a final newline, the validator as written accepts exactly the intended mobiles |
| Serializers.SignupValidate | authentication/apps/customer/serializers.py:65-74 | accepted iff exactly one identifier is supplied and the policy is agreed; the neither, both and policy errors in that order |
| Serializers.ValidateSignup | authentication/apps/customer/serializers.py:13-74 | accepted iff each field meets its rules (free email and mobile, valid free national code, password policy) and `validate` passes |
| Serializers.ValidateUpdate | authentication/apps/customer/serializers.py:192-246 | accepted iff each supplied field meets its rules; every field is optional |
| Serializers.ValidateChangeEmail | authentication/apps/customer/serializers.py:291-305 | accepted iff the email is absent, or non-empty, at most 75 characters and held by no contact |
| Serializers.ValidateMobile | authentication/apps/customer/serializers.py:373-391 | accepted iff a mobile is given that matches the pattern and is held by no contact |
| Serializers.ValidateSignin | authentication/apps/customer/serializers.py:308-333 | accepted iff the fields are well formed, the recaptcha is present when enabled, and exactly one identifier is supplied; an accepted request has a password |
| Serializers.ValidateChangePassword | authentication/apps/customer/serializers.py:344-370 | accepted iff all four fields are present, the new password meets the policy, differs from the old one and equals the confirmation |
| Serializers.ValidateOtp | authentication/apps/customer/serializers.py:340-341 | accepted iff a code between 1000 and 9999 is given |
| Serializers.ValidateTicketId | authentication/apps/customer/serializers.py:287-288 | accepted iff a ticket id is given |
| Serializers.ValidateSignout | authentication/apps/customer/serializers.py:336-337 | accepted iff a non-blank refresh token is given |
| Models.NewestOf | authentication/apps/customer/views.py:42-47 | `latest("created_at")` finds a row of the customer iff one exists; no row of the customer is younger, and none after it is as young |
| Models.FindOwned | authentication/apps/customer/views.py:106-107 | the ticket is found iff the customer has a ticket with that key |
| Models.DeleteOwned | authentication/apps/customer/views.py:127 | deleting a customer's tickets keeps exactly the other customers' tickets |
| Models.EmptyValid | authentication/apps/customer/models.py:17-57 | the empty database is consistent |
| Authentication.Authenticate | authentication/apps/customer/authentication.py:8-36 | the email is looked up when given, else the mobile; a returned customer's password matches and its contact holds the identifier |
| Authentication.AuthenticateCharacterised | authentication/apps/customer/authentication.py:8-36 | in a consistent database, a customer is returned iff its password matches and its contact holds the identifier; activity plays no part |
| Authentication.IdentifierDeterminesCustomer | authentication/apps/customer/authentication.py:11-34 | an identifier held by a customer's contact can only authenticate that customer |
| Authentication.EmailTakesPrecedence | authentication/apps/customer/authentication.py:11-24 | when an email is given the mobile plays no part |
| Authentication.GetUser | authentication/apps/customer/authentication.py:38-44 | a customer is returned iff the key exists, inactive customers included |
| Tasks.SendEmailVerification | authentication/apps/customer/tasks.py:8-24 | the task adds tickets and mail only; it changes no record and no OTP |
| Tasks.SendMobileVerificationCode | authentication/apps/customer/tasks.py:27-35 | the task adds an OTP ticket only; it changes no record, email ticket or mail |
| Tasks.SendEmailVerificationValid | authentication/apps/customer/tasks.py:8-24 | the email task keeps the database consistent |
| Tasks.SendMobileVerificationCodeValid | authentication/apps/customer/tasks.py:27-35 | the mobile task keeps the database consistent |
| Tasks.EmailTicketAndMail | authentication/apps/customer/tasks.py:11-24 | nothing happens for a contact without email; otherwise one ticket for the contact's email, and one mail naming it, sent to the pending email while unverified, else to the contact email |
| Tasks.OtpTicket | authentication/apps/customer/tasks.py:30-35 | one ticket with code 1234 for the contact's customer, which is then the newest |
| Views.CreateAccount | authentication/apps/customer/serializers.py:86-103 | signup creates exactly the People, Contact and Customer rows and one empty EmailChange and PhoneChange, under fresh keys |
| Views.AccountAddedValid | authentication/apps/customer/serializers.py:86-103 | the rows of a validated signup keep keys, UNIQUE columns, links and change logs consistent |
| Views.Signup | authentication/apps/customer/views.py:73-84 | rejected iff validation fails, leaving the database unchanged; otherwise created with the new customer's key |
| Views.SignupAccepted | authentication/apps/customer/views.py:76-80 | an accepted signup is the account creation, then the task of the one identifier supplied |
| Views.SignupValid | authentication/apps/customer/views.py:73-84 | signup keeps the database consistent |
| Views.SignupRecords | authentication/apps/customer/views.py:73-84 | the new customer is inactive and unverified, with no credit, linked to its new contact and owner |
| Views.SignupVerification | authentication/apps/customer/views.py:77-80 | with an email: one ticket for it and one mail to it naming the ticket; with a mobile: one OTP ticket |
| Views.SignupThenAuthenticate | authentication/apps/customer/views.py:73-84 | the new customer authenticates with the identifier and password it signed up with |
| Views.UpdateProfile | authentication/apps/customer/serializers.py:258-284 | a supplied email or mobile unverifies that channel and logs the change from the current value; the owner's name, last name and national code take the supplied values; the contact is untouched |
| Views.UpdateProfileValid | authentication/apps/customer/serializers.py:258-284 | a validated profile update keeps the database consistent |
| Views.Update | authentication/apps/customer/views.py:36-56 | not-found and invalid come exactly in their cases and change nothing; the only other answers are created and a server error; an accepted update never changes `is_active` or the contacts |
| Views.UpdateCreated | authentication/apps/customer/views.py:36-56 | in a consistent database every validated update of a known customer is answered created |
| Views.UpdateAccepted | authentication/apps/customer/views.py:41-51 | an accepted update is the profile save, then a task for each channel whose latest change is pending |
| Views.UpdateValid | authentication/apps/customer/views.py:36-56 | the update keeps the database consistent |
| Views.UpdateEmailMail | authentication/apps/customer/views.py:42-49 | an email update mails the new address with a ticket recording the current address; a contact without email gets no ticket and no mail |
| Views.StartVerifications | authentication/apps/customer/views.py:77-80 | starting the tasks changes no record |
| EmailViews.ConfirmEmail | authentication/apps/customer/views.py:119-127 | the customer is verified and activated; a pending email moves into the contact unless another contact holds it (an integrity error after the first save); then the pending email is cleared and all the customer's tickets deleted |
| EmailViews.VerifyEmail | authentication/apps/customer/views.py:92-131 | invalid, not-found, already-verified, ticket-not-found and expired answers, and a server error for a missing change log, change nothing and come exactly in their cases; a live ticket leads to the confirmation and nothing else does |
| EmailViews.VerifyEmailValid | authentication/apps/customer/views.py:92-131 | email verification keeps the database consistent |
| EmailViews.LiveTicketVerifies | authentication/apps/customer/views.py:106-127 | in a consistent database a live ticket of an unverified customer leads to the confirmation, which activates and verifies the customer; unless the pending email is taken, it is applied and cleared and no ticket remains |
| EmailViews.ConfirmEmailConfirms | authentication/apps/customer/views.py:119-127 | in a consistent database the confirmation ends verified or with a taken email, never with a missing contact |
| EmailViews.VerifiedEmailIsFinal | authentication/apps/customer/views.py:101-104 | on the state right after a verification, the next verify_email with a ticket is answered already-activated and changes nothing |
| EmailViews.NewestDecidesRecent | authentication/apps/customer/views.py:152-158 | the newest ticket is younger than the limit iff some ticket is |
| EmailViews.ResendEmail | authentication/apps/customer/views.py:139-170 | already-verified, no-ticket and too-soon (with the remaining wait) come exactly in their cases and change nothing; otherwise the email task runs |
| EmailViews.ResendEmailValid | authentication/apps/customer/views.py:139-170 | resending keeps the database consistent |
| EmailViews.ChangeEmail | authentication/apps/customer/views.py:178-205 | invalid, not-found, already-verified, limit-exceeded (three distinct ticket addresses) and a server error (no email given, or no contact) come exactly in their cases and change nothing; otherwise the contact takes the email and the task runs |
| EmailViews.ChangeEmailSent | authentication/apps/customer/views.py:178-205 | in a consistent database a valid given email of an unverified customer under the limit is always accepted |
| EmailViews.ChangeEmailValid | authentication/apps/customer/views.py:178-205 | changing the email keeps the database consistent |
| EmailViews.ChangeEmailTicket | authentication/apps/customer/views.py:189-203 | an accepted change adds exactly the new address to the set the limit counts; its mail goes to the pending email if one is left, else to the new one |
| MobileViews.ConfirmMobile | authentication/apps/customer/views.py:366-376 | the customer's OTP tickets are deleted, the customer is verified and activated, a pending mobile moves into the contact unless another contact holds it, and the pending mobile is cleared |
| MobileViews.VerifyMobile | authentication/apps/customer/views.py:344-382 | invalid, not-found, already-verified, expired and wrong-code answers, and a server error for a missing change log or OTP, change nothing and come exactly in their cases; a live matching newest code leads to the confirmation and nothing else does |
| MobileViews.LiveCodeVerifies | authentication/apps/customer/views.py:359-376 | in a consistent database a validated code equal to the live newest OTP verifies and activates the customer, deletes every OTP of theirs, and applies then clears the pending mobile unless another contact holds it |
| MobileViews.ConfirmMobileConfirms | authentication/apps/customer/views.py:366-376 | in a consistent database the confirmation ends verified or with a taken mobile, never with a missing contact |
| MobileViews.VerifyMobileValid | authentication/apps/customer/views.py:344-382 | mobile verification keeps the database consistent |
| MobileViews.VerifiedMobileIsFinal | authentication/apps/customer/views.py:353-356 | on the state right after a verification, the next verify_mobile with a valid code is answered already-verified and changes nothing |
| MobileViews.CodeUsedOnce | authentication/apps/customer/views.py:366-367 | after an accepted code the customer has no OTP ticket left |
| MobileViews.ResendMobileCode | authentication/apps/customer/views.py:385-407 | already-verified, no-code (a server error) and too-soon (with the remaining wait) come exactly in their cases and change nothing; otherwise a code is sent |
| MobileViews.ResendMobileCodeValid | authentication/apps/customer/views.py:385-407 | resending a code keeps the database consistent |
| MobileViews.ResentCodeIsNewest | authentication/apps/customer/views.py:392-406 | a resent code is the newest ticket when the clock has not gone back |
| MobileViews.ChangeMobile | authentication/apps/customer/views.py:410-426 | invalid, not-found, already-verified and a server error (no contact) come exactly in their cases and change nothing; otherwise the contact takes the mobile and a code is sent, with no limit |
| MobileViews.ChangeMobileSent | authentication/apps/customer/views.py:410-426 | in a consistent database a valid mobile of an unverified customer is always accepted, however many changes came before |
| MobileViews.ChangeMobileValid | authentication/apps/customer/views.py:410-426 | changing the mobile keeps the database consistent |
| Sessions.Blacklist | authentication/apps/customer/views.py:291-292 | an intact token not yet blacklisted is added to the blacklist and nothing else changes; any other token is refused |
| Sessions.SetPassword | authentication/apps/customer/views.py:320-322 | afterwards the new password checks and every other password fails |
| Sessions.ChangePassword | authentication/apps/customer/views.py:309-341 | not-found, invalid and incorrect-password (the old password does not check) come exactly in their cases and change nothing; otherwise the new password is saved and stays saved even when the token is refused; success iff the token is blacklisted |
| Sessions.ChangePasswordValid | authentication/apps/customer/views.py:309-341 | the password change keeps the database consistent |
| Sessions.Signout | authentication/apps/customer/views.py:284-302 | signed out iff the token is given, intact and not yet blacklisted, and then only the blacklist grows |
| Sessions.TokenUsedOnce | authentication/apps/customer/views.py:289-302 | a token blacklisted by a sign-out or a password change is refused at the next sign-out |
| Sessions.RefusedTokenKeepsPassword | authentication/apps/customer/views.py:320-341 | after a refused token, the customer authenticates with the new password and not with the old |
| Signin.Signin | authentication/apps/customer/views.py:212-277 | rejected, wrong-captcha and locked-out (four or more live failures) come exactly in their cases; bad credentials count one more failure for ten minutes; a success deletes the counter and is signed-in iff the customer is active |
| Signin.FailuresCounted | authentication/apps/customer/views.py:233-255 | up to four failing attempts, each within ten minutes of the previous, leave a counter equal to their number that expires ten minutes after the last |
| Signin.FailureRecorded | authentication/apps/customer/views.py:254-255 | one failing attempt below the threshold sets the counter to one more than before, for ten minutes |
| Signin.LockedOutAfterFailures | authentication/apps/customer/views.py:236-245 | after four such failures any admitted attempt before expiry is locked out, whatever the password, and changes nothing |
| Signin.LockoutExpires | authentication/apps/customer/views.py:235-238 | once the counter has expired the attempt is not locked out |
| Integrity.ContactSaved | authentication/apps/customer/models.py:24-57 | saving a contact with a new email or mobile that no other contact holds keeps the UNIQUE columns and the database consistent |
| Integrity.PeopleSaved | authentication/apps/customer/models.py:173-184 | saving a People row with a valid national code no other row holds keeps the database consistent |
| Integrity.CustomerSaved | authentication/apps/customer/models.py:90-93 | saving a customer with unchanged key, username and owner keeps the database consistent |
| Store.Store.constructor | authentication/apps/customer/models.py:17-252 | the store starts empty and consistent |
| Store.Store.SendEmailVerification | authentication/apps/customer/tasks.py:8-24 | the fields end as the email task describes |
| Store.Store.SendMobileVerificationCode | authentication/apps/customer/tasks.py:27-35 | the fields end as the mobile task describes |
| Store.Store.CreateAccount | authentication/apps/customer/serializers.py:86-103 | the five creates, in order, end in the state of `Views.CreateAccount` |
| Store.Store.UpdateProfile | authentication/apps/customer/serializers.py:258-284 | the saves of the update serializer end in the state of `Views.UpdateProfile` |
| Store.Store.Signup | authentication/apps/customer/views.py:73-84 | response and state are those of `Views.Signup`; consistency is kept |
| Store.Store.Update | authentication/apps/customer/views.py:36-56 | response and state are those of `Views.Update`; consistency is kept |
| Store.Store.ConfirmEmail | authentication/apps/customer/views.py:119-127 | the saves, one by one, end in the outcome of `EmailViews.ConfirmEmail` |
| Store.Store.VerifyEmail | authentication/apps/customer/views.py:92-131 | response and state are those of `EmailViews.VerifyEmail`; consistency is kept |
| Store.Store.ResendEmail | authentication/apps/customer/views.py:139-170 | response and state are those of `EmailViews.ResendEmail`; consistency is kept |
| Store.Store.ChangeEmail | authentication/apps/customer/views.py:178-205 | response and state are those of `EmailViews.ChangeEmail`; consistency is kept |
| Store.Store.ConfirmMobile | authentication/apps/customer/views.py:366-376 | the deletes and saves end in the outcome of `MobileViews.ConfirmMobile` |
| Store.Store.VerifyMobile | authentication/apps/customer/views.py:344-382 | response and state are those of `MobileViews.VerifyMobile`; consistency is kept |
| Store.Store.ResendMobileCode | authentication/apps/customer/views.py:385-407 | response and state are those of `MobileViews.ResendMobileCode`; consistency is kept |
| Store.Store.ChangeMobile | authentication/apps/customer/views.py:410-426 | response and state are those of `MobileViews.ChangeMobile`; consistency is kept |
| Store.Store.Blacklist | authentication/apps/customer/views.py:291-292 | succeeds iff the token may be blacklisted, then adds it; otherwise nothing changes |
| Store.Store.ChangePassword | authentication/apps/customer/views.py:309-341 | response and state are those of `Sessions.ChangePassword`; consistency is kept |
| Store.Store.Signout | authentication/apps/customer/views.py:284-302 | response and state are those of `Sessions.Signout`; consistency is kept |
| Store.Store.Signin | authentication/apps/customer/views.py:212-277 | response and cache are those of `Signin.Signin`; the database is only read |
| Store.FailureCache.Get | authentication/apps/customer/views.py:235 | a live entry gives its count; a missing or expired entry gives 0 |
| Store.FailureCache.Set | authentication/apps/customer/views.py:255 | the key now holds the count and its expiry; other keys are unchanged |
| Store.FailureCache.Delete | authentication/apps/customer/views.py:262 | the key is gone; other keys are unchanged |

## Left out

- HTTP and DRF plumbing are not modelled: routing, permissions, `get_object`, pagination, response bodies and status codes. Each response is a datatype constructor.
- The token library is not modelled. Whether a refresh token's signature and expiry check out is an `intact` parameter, and issuing token pairs is left out. Only `TokenError` is caught, as in the code. The model reads the refresh token of `change_password` from the validated request rather than from raw `request.data`.
- Password hashing is an injective tag. `check_password` is equality of the raw strings.
- Rendering and delivering mail is not modelled. A sent mail is a `Mail(recipient, customer, ticket)` appended to an outbox. The verification URL template is not modelled.
- Celery is not modelled. Every `delay` runs the task at once, within the request.
- The recaptcha verdict comes from a remote service, and it is a parameter. The recaptcha setting is a parameter too.
- The clock is an integer parameter in seconds. Time zones and `get_local_time` are not modelled.
- The source address `REMOTE_ADDR` is a string parameter.
- Keys are drawn from a counter rather than random UUIDs. So the `id` versus `id.hex` argument of the tasks makes no difference.
- Among rows with equal `created_at`, `latest` and `order_by` are modelled as picking the one appended last. The database leaves that order unspecified.
- Digits are ASCII digits only. Python's `\d` and `int` also accept other Unicode decimal digits.
- Django's email syntax check (`EmailValidator`) is not modelled. An email is accepted when it is non-empty, at most 75 characters long and held by no contact.
- MobileViews.VerifyMobile: when the customer has no OTP ticket, `temp[0]` raises IndexError. This is modelled as a server-error response that changes nothing, not as a precondition. The same holds for `resend_mobile_code` and for a missing change log (`latest` raises).
- Tasks.SendEmailVerification: for a contact without an email, the EmailTemp insert violates NOT NULL. This is modelled as the task doing nothing.
- The views' `me`, `get_serializer_class` and `refresh_token` are not modelled. They read data or issue tokens, and change nothing the model tracks.
- The Company model and the People fields no view writes (`id_number`, `birth_date`, `sex`) only take their defaults.
- String comparison is exact equality throughout. The database in authentication/settings/base_settings.py:117-126 is MariaDB, whose default collation is case-insensitive. So the UNIQUE indexes on email, mobile and national code, the UniqueValidator queries and the backend's `get(email=...)` also match values that differ only in letter case. For example, "A@x.com" counts as taken when "a@x.com" is held. The model treats those as different values. Collations depend on the server's configuration, which is not part of this model.
- Concurrency is not modelled. Requests run one at a time, and the absence of ATOMIC_REQUESTS is modelled only through partial saves before an IntegrityError.
- Store.Store.Signin: the failure cache is a separate `FailureCache` object, passed to sign-in. The app reaches it as a process-wide global.

## Findings

| source | as written | input that shows it | evidently intended | confidence | as-written member | corrected member |
|---|---|---|---|---|---|---|
| authentication/apps/customer/validators.py:8 | `re.search(r"^\d{10}$", value)`: `$` also matches before a final newline | `"0000000000\n"` passes the digit check and the checksum | exactly ten digits | not executed; DRF's CharField trims surrounding whitespace before the validator runs, so requests cannot reach it | NationalCode.TrailingNewlineAccepted | NationalCode.ValidCharacterised |
| authentication/apps/customer/serializers.py:34 | RegexValidator searches `^(?:0\|98\|…)?(9\d{9})$`, and `$` also matches before a final newline | `"9123456789\n"` is accepted as a mobile | the prefix and the ten-digit number only | not executed; latent for the same reason | Patterns.MobileTrailingNewlineAccepted | Patterns.MobileFullMatchIff |
