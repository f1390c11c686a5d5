/**
 * Request validation of the customer API (serializers.py): the field rules
 * each serializer declares and its object-level `validate`.
 *
 * Field values arrive as DRF hands them to validators: an absent field is
 * None, a present one a string with surrounding whitespace trimmed. Every
 * CharField and EmailField here rejects the blank string. Uniqueness
 * validators consult the sets of values already stored.
 */
module Serializers {
  import opened Wrappers
  import opened Patterns
  import NationalCode

  const EmailMaxLength: nat := 75
  const MobileMaxLength: nat := 15
  const NationalCodeMaxLength: nat := 10
  const PasswordMaxLength: nat := 128
  const PasswordMinLength: nat := 8
  const OtpMin: int := 1000
  const OtpMax: int := 9999

  datatype FieldName =
    | EmailField | MobileField | NationalCodeField | PasswordField
    | NameField | LastNameField | RecaptchaField | CodeField
    | OldPasswordField | NewPasswordField | ConfirmPasswordField | RefreshField | IdField

  datatype ValidationError =
    | FieldErrors(fields: set<FieldName>)  // field-level errors, reported together
    | NeitherIdentifier                    // "Either mobile or email must be supplied"
    | BothIdentifiers                      // "Just use one of email or mobile"
    | PolicyNotAccepted                    // "User must agree with policy to register"
    | RecaptchaRequired                    // "Recaptcha required"
    | SameAsOldPassword                    // "new password same as old password."
    | ConfirmMismatch                      // "new password is not same as confirm password."

  /** `attrs.get(name, None)` is truthy. */
  predicate Supplied(v: Option<string>) {
    v.Some? && v.value != ""
  }

  // ---------------------------------------------------------------------------
  // Field rules

  /** EmailField(max_length=75) with a UniqueValidator over Contact.email. */
  predicate EmailOk(e: string, taken: set<string>) {
    e != "" && |e| <= EmailMaxLength && e !in taken
  }

  /** CharField(max_length=15) with the mobile regex and a UniqueValidator over Contact.mobile. */
  predicate MobileOk(m: string, taken: set<string>) {
    m != "" && |m| <= MobileMaxLength && IsMobile(m) && m !in taken
  }

  /** CharField(max_length=10) with validate_national_code and a UniqueValidator over People. */
  predicate NationalCodeOk(c: string, taken: set<string>) {
    c != "" && |c| <= NationalCodeMaxLength && NationalCode.IsValid(c) && c !in taken
  }

  /** The password rules: at least 8 characters, a digit and a Latin letter. */
  predicate PasswordPolicy(p: string) {
    |p| >= PasswordMinLength && HasDigit(p) && HasLatinLetter(p)
  }

  /** An optional field: absent, or present and acceptable. */
  predicate OptionalOk(v: Option<string>, ok: bool) {
    v.None? || ok
  }

  /** A required plain CharField: present and not blank. */
  predicate RequiredText(v: Option<string>) {
    v.Some? && v.value != ""
  }

  function If(b: bool, f: FieldName): set<FieldName> {
    if b then {f} else {}
  }

  // ---------------------------------------------------------------------------
  // SignupSerializer

  datatype SignupRequest = SignupRequest(
    email: Option<string>,
    mobile: Option<string>,
    nationalCode: Option<string>,
    password: Option<string>,
    agreeWithPolicy: Option<bool>)

  function SignupFieldErrors(req: SignupRequest, takenEmails: set<string>, takenMobiles: set<string>,
                             takenCodes: set<string>): set<FieldName>
  {
    If(req.email.Some? && !EmailOk(req.email.value, takenEmails), EmailField) +
    If(req.mobile.Some? && !MobileOk(req.mobile.value, takenMobiles), MobileField) +
    If(req.nationalCode.None? || !NationalCodeOk(req.nationalCode.value, takenCodes), NationalCodeField) +
    If(req.password.None? || req.password.value == "" || |req.password.value| > PasswordMaxLength ||
       !PasswordPolicy(req.password.value), PasswordField)
  }

  /** `SignupSerializer.validate`: the identifier and policy rules, checked in this order. */
  function SignupValidate(email: Option<string>, mobile: Option<string>, agree: Option<bool>): (r: Option<ValidationError>)
    ensures r.None? <==> (Supplied(email) != Supplied(mobile)) && agree == Some(true)
    ensures !Supplied(email) && !Supplied(mobile) ==> r == Some(NeitherIdentifier)
    ensures Supplied(email) && Supplied(mobile) ==> r == Some(BothIdentifiers)
    ensures Supplied(email) != Supplied(mobile) && agree != Some(true) ==> r == Some(PolicyNotAccepted)
  {
    if !Supplied(mobile) && !Supplied(email) then Some(NeitherIdentifier)
    else if Supplied(mobile) && Supplied(email) then Some(BothIdentifiers)
    else if !agree.GetOr(false) then Some(PolicyNotAccepted)
    else None
  }

  /** `is_valid` of a signup request: field rules first, then `validate`. */
  function ValidateSignup(req: SignupRequest, takenEmails: set<string>, takenMobiles: set<string>,
                          takenCodes: set<string>): (r: Option<ValidationError>)
    ensures r.None? <==>
      (req.email.None? || EmailOk(req.email.value, takenEmails)) &&
      (req.mobile.None? || MobileOk(req.mobile.value, takenMobiles)) &&
      req.nationalCode.Some? && NationalCodeOk(req.nationalCode.value, takenCodes) &&
      req.password.Some? && |req.password.value| <= PasswordMaxLength && PasswordPolicy(req.password.value) &&
      (req.email.Some? != req.mobile.Some?) && req.agreeWithPolicy == Some(true)
  {
    var errs := SignupFieldErrors(req, takenEmails, takenMobiles, takenCodes);
    if errs != {} then Some(FieldErrors(errs))
    else SignupValidate(req.email, req.mobile, req.agreeWithPolicy)
  }

  // ---------------------------------------------------------------------------
  // CustomerUpdateSerializer

  datatype UpdateRequest = UpdateRequest(
    email: Option<string>,
    mobile: Option<string>,
    nationalCode: Option<string>,
    name: Option<string>,
    lastName: Option<string>)

  /** Every field is optional; `validate` accepts whatever the fields accepted. */
  function ValidateUpdate(req: UpdateRequest, takenEmails: set<string>, takenMobiles: set<string>,
                          takenCodes: set<string>): (r: Option<ValidationError>)
    ensures r.None? <==>
      (req.email.None? || EmailOk(req.email.value, takenEmails)) &&
      (req.mobile.None? || MobileOk(req.mobile.value, takenMobiles)) &&
      (req.nationalCode.None? || NationalCodeOk(req.nationalCode.value, takenCodes)) &&
      (req.name.None? || req.name.value != "") &&
      (req.lastName.None? || req.lastName.value != "")
  {
    var errs :=
      If(req.email.Some? && !EmailOk(req.email.value, takenEmails), EmailField) +
      If(req.mobile.Some? && !MobileOk(req.mobile.value, takenMobiles), MobileField) +
      If(req.nationalCode.Some? && !NationalCodeOk(req.nationalCode.value, takenCodes), NationalCodeField) +
      If(req.name.Some? && req.name.value == "", NameField) +
      If(req.lastName.Some? && req.lastName.value == "", LastNameField);
    if errs != {} then Some(FieldErrors(errs)) else None
  }

  // ---------------------------------------------------------------------------
  // ChangeEmailSerializer and MobileSerializer

  /** ChangeEmailSerializer: the email field is optional. */
  function ValidateChangeEmail(email: Option<string>, takenEmails: set<string>): (r: Option<ValidationError>)
    ensures r.None? <==> email.None? || EmailOk(email.value, takenEmails)
  {
    if email.Some? && !EmailOk(email.value, takenEmails) then Some(FieldErrors({EmailField})) else None
  }

  /** MobileSerializer: the mobile field is required. */
  function ValidateMobile(mobile: Option<string>, takenMobiles: set<string>): (r: Option<ValidationError>)
    ensures r.None? <==> mobile.Some? && MobileOk(mobile.value, takenMobiles)
  {
    if mobile.None? || !MobileOk(mobile.value, takenMobiles) then Some(FieldErrors({MobileField})) else None
  }

  // ---------------------------------------------------------------------------
  // SigninSerializer

  datatype SigninRequest = SigninRequest(
    email: Option<string>,
    mobile: Option<string>,
    password: Option<string>,
    recaptcha: Option<string>)

  function SigninFieldErrors(req: SigninRequest): set<FieldName> {
    If(req.email.Some? && req.email.value == "", EmailField) +
    If(req.mobile.Some? && !IsMobile(req.mobile.value), MobileField) +
    If(!RequiredText(req.password), PasswordField) +
    If(req.recaptcha.Some? && req.recaptcha.value == "", RecaptchaField)
  }

  /** `is_valid` of a sign-in request: field rules, then recaptcha presence, then exactly one identifier. */
  function ValidateSignin(req: SigninRequest, recaptchaEnabled: bool): (r: Option<ValidationError>)
    ensures r.None? <==>
      SigninFieldErrors(req) == {} &&
      (recaptchaEnabled ==> Supplied(req.recaptcha)) &&
      (Supplied(req.email) != Supplied(req.mobile))
    ensures SigninFieldErrors(req) == {} && recaptchaEnabled && !Supplied(req.recaptcha) ==>
      r == Some(RecaptchaRequired)
    ensures r.None? ==> RequiredText(req.password)
  {
    var errs := SigninFieldErrors(req);
    if errs != {} then Some(FieldErrors(errs))
    else if recaptchaEnabled && !Supplied(req.recaptcha) then Some(RecaptchaRequired)
    else if !Supplied(req.mobile) && !Supplied(req.email) then Some(NeitherIdentifier)
    else if Supplied(req.mobile) && Supplied(req.email) then Some(BothIdentifiers)
    else None
  }

  // ---------------------------------------------------------------------------
  // ChangePasswordSerializer

  datatype ChangePasswordRequest = ChangePasswordRequest(
    oldPassword: Option<string>,
    newPassword: Option<string>,
    confirmPassword: Option<string>,
    refresh: Option<string>)

  function ChangePasswordFieldErrors(req: ChangePasswordRequest): set<FieldName> {
    If(!RequiredText(req.oldPassword), OldPasswordField) +
    If(!RequiredText(req.newPassword) || !PasswordPolicy(req.newPassword.value), NewPasswordField) +
    If(!RequiredText(req.confirmPassword), ConfirmPasswordField) +
    If(!RequiredText(req.refresh), RefreshField)
  }

  /** `is_valid` of a password change: field rules, then new != old, then confirm == new. */
  function ValidateChangePassword(req: ChangePasswordRequest): (r: Option<ValidationError>)
    ensures r.None? <==>
      RequiredText(req.oldPassword) && RequiredText(req.confirmPassword) && RequiredText(req.refresh) &&
      RequiredText(req.newPassword) && PasswordPolicy(req.newPassword.value) &&
      req.newPassword != req.oldPassword && req.confirmPassword == req.newPassword
    ensures ChangePasswordFieldErrors(req) == {} && req.newPassword == req.oldPassword ==>
      r == Some(SameAsOldPassword)
  {
    var errs := ChangePasswordFieldErrors(req);
    if errs != {} then Some(FieldErrors(errs))
    else if req.newPassword == req.oldPassword then Some(SameAsOldPassword)
    else if req.confirmPassword != req.newPassword then Some(ConfirmMismatch)
    else None
  }

  // ---------------------------------------------------------------------------
  // OTPSerializer

  /** IntegerField(min_value=1000, max_value=9999), required. */
  function ValidateOtp(code: Option<int>): (r: Option<ValidationError>)
    ensures r.None? <==> code.Some? && OtpMin <= code.value <= OtpMax
  {
    if code.None? || code.value < OtpMin || code.value > OtpMax then Some(FieldErrors({CodeField})) else None
  }

  // ---------------------------------------------------------------------------
  // UUIDSerializer and SignoutSerializer

  /** UUIDSerializer: the ticket key is required (a malformed UUID counts as absent). */
  function ValidateTicketId(id: Option<nat>): (r: Option<ValidationError>)
    ensures r.None? <==> id.Some?
  {
    if id.None? then Some(FieldErrors({IdField})) else None
  }

  /** SignoutSerializer: the refresh token is a required CharField. */
  function ValidateSignout(refresh: Option<string>): (r: Option<ValidationError>)
    ensures r.None? <==> RequiredText(refresh)
  {
    if !RequiredText(refresh) then Some(FieldErrors({RefreshField})) else None
  }
}
