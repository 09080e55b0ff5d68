/**
 * The account forms of dwiest/django/users/forms.py: registration, the password-reset
 * request, the password-reset confirmation (activation id and MFA token), the
 * activation-id probe, and the password-change form with its notification decision.
 *
 * The older copy in users/forms.py holds the same `register` and
 * `sendPasswordResetEmail`; the members here model both copies. Its different
 * password-change form is in module LegacyForms.
 */
module UserForms {
  import opened Wrappers
  import opened Models
  import opened MfaTokenCheck

  const ACTIVATION_ID_MISSING := "activation_id_missing"
  const ACTIVATION_ID_INVALID := "activation_id_invalid"

  /** The entries the two reset/change forms add to their error tables. */
  const ActivationIdMissingError := ValidationError("An activation id was not provided.", ACTIVATION_ID_MISSING)
  const ActivationIdInvalidError := ValidationError("The activation id is invalid.", ACTIVATION_ID_INVALID)
  const FormMfaMessages := MfaMessages(
    "The MFA token you entered is not correct.",
    "The MFA token you entered has already been used.  Please wait and enter the next value shown in your authenticator app.")

  /** How a `clean_<field>` method ends when it does not return: a form error, or an exception nothing catches. */
  datatype FieldError = Invalid(error: ValidationError) | Raised(exception: string)

  /** The outcome of `is_valid()`: valid, the fields that carry errors, or an exception that escaped cleaning. */
  datatype Validation = FormValid | FormInvalid(fields: set<string>) | FormRaised(exception: string)

  function ValidationOf(errors: set<string>): (o: Validation)
    ensures o == FormValid <==> errors == {}
  {
    if errors == {} then FormValid else FormInvalid(errors)
  }

  /* ---------------------------------------------------------------- registration */

  /**
   * `RegistrationForm.register`: a new user whose username and email are both the
   * submitted address, stored inactive, and one activation row for that user holding
   * the fresh UUID and the creation time. Nothing else changes.
   */
  function Registered(db: Db, newUser: UserId, address: string, uuid: string, now: int): (r: Db)
    requires newUser !in db.users
    ensures newUser in r.users && r.users[newUser] == User(address, address, false)
    ensures newUser in r.activationIds && r.activationIds[newUser] == ActivationId(uuid, now)
    ensures r.users - {newUser} == db.users
    ensures r.activationIds - {newUser} == db.activationIds - {newUser}
    ensures r.mfaModels == db.mfaModels
    ensures ValueUnused(db.activationIds, uuid) ==> ActivationByValue(r.activationIds, uuid) == Found(newUser)
    ensures (Valid(db) && UsernameFree(db.users, address) && ValueUnused(db.activationIds, uuid)
             && |uuid| <= ActivationValueMaxLength) ==> Valid(r)
  {
    var r := db.(users := db.users[newUser := User(address, address, false)],
                 activationIds := db.activationIds[newUser := ActivationId(uuid, now)]);
    assert ActivationValuesDistinct(db.activationIds) && ValueUnused(db.activationIds, uuid)
           ==> ActivationValuesDistinct(r.activationIds) by {
      if ActivationValuesDistinct(db.activationIds) && ValueUnused(db.activationIds, uuid) {
        forall u, w | u in r.activationIds && w in r.activationIds && r.activationIds[u].value == r.activationIds[w].value
          ensures u == w
        {
          if u != newUser && w != newUser {
            assert db.activationIds[u].value == db.activationIds[w].value;
          }
        }
      }
    }
    r
  }

  /**
   * `RegistrationForm.register`, step by step: `create_user` stores an active user,
   * which is then made inactive and saved; the activation row is created with the
   * fresh UUID. `newUser` is the id the database assigns, `uuid` the text of
   * `uuid.uuid4()`, `now` the creation time. The form has already checked that the
   * address is not taken (otherwise `create_user` raises an integrity error).
   */
  method Register(store: Store, newUser: UserId, address: string, uuid: string, now: int, sendEmail: bool)
    returns (emailSent: bool)
    requires newUser !in store.users && UsernameFree(store.users, address)
    modifies store
    ensures store.State() == Registered(old(store.State()), newUser, address, uuid, now)
    ensures emailSent == sendEmail
  {
    var user := User(address, address, true);
    store.users := store.users[newUser := user];
    user := user.(isActive := false);
    store.users := store.users[newUser := user];
    store.activationIds := store.activationIds[newUser := ActivationId(uuid, now)];
    emailSent := sendEmail;
  }

  /* ---------------------------------------------------------------- password-reset request */

  datatype ResetOutcome = Ignored | Reissued(user: UserId) | ResetRaised(exception: string)

  /**
   * `SendPasswordResetForm.sendPasswordResetEmail`: an address that names no active
   * user is ignored silently; otherwise only the value of that user's existing
   * activation row is replaced (owner and creation time kept, no row added). An
   * active user without an activation row makes the request raise.
   */
  function PasswordResetRequested(db: Db, email: string, uuid: string): (r: (ResetOutcome, Db))
    ensures (forall u | u in db.users :: db.users[u].username != email || !db.users[u].isActive) ==> r == (Ignored, db)
    ensures !r.0.Reissued? ==> r.1 == db
    ensures r.0.Reissued? ==>
      var u := r.0.user;
      && u in db.users && db.users[u].username == email && db.users[u].isActive
      && u in db.activationIds
      && r.1 == db.(activationIds := db.activationIds[u := ActivationId(uuid, db.activationIds[u].createdAt)])
    ensures r.0 == ResetRaised(DOES_NOT_EXIST) <==>
      exists u | u in db.users :: ActiveUserByUsername(db.users, email) == Found(u) && u !in db.activationIds
    ensures Valid(db) ==> r.0 != ResetRaised(MULTIPLE_OBJECTS_RETURNED)
    ensures Valid(db) ==>
      forall u | u in db.users && db.users[u].username == email && db.users[u].isActive ::
        r.0 == if u in db.activationIds then Reissued(u) else ResetRaised(DOES_NOT_EXIST)
    ensures Valid(db) && ValueUnused(db.activationIds, uuid) && |uuid| <= ActivationValueMaxLength ==> Valid(r.1)
  {
    assert Valid(db) ==> forall u | u in db.users && db.users[u].username == email && db.users[u].isActive :: ActiveUserByUsername(db.users, email) == Found(u) by {
      if Valid(db) {
        forall u | u in db.users && db.users[u].username == email && db.users[u].isActive ensures ActiveUserByUsername(db.users, email) == Found(u) {
          assert ActiveUserByUsername(db.users, email) == Found(u);
        }
      }
    }
    match ActiveUserByUsername(db.users, email)
    case NotFound => (Ignored, db)
    case Multiple => (ResetRaised(MULTIPLE_OBJECTS_RETURNED), db)
    case Found(u) =>
      if u !in db.activationIds then (ResetRaised(DOES_NOT_EXIST), db)
      else (Reissued(u), db.(activationIds := db.activationIds[u := db.activationIds[u].(value := uuid)]))
  }

  /**
   * `sendPasswordResetEmail` step by step; the email goes out only when a new
   * value was stored and `SEND_EMAIL` is set.
   */
  method SendPasswordResetEmail(store: Store, email: string, uuid: string, sendEmail: bool)
    returns (outcome: ResetOutcome, emailSent: bool)
    modifies store
    ensures (outcome, store.State()) == PasswordResetRequested(old(store.State()), email, uuid)
    ensures emailSent <==> sendEmail && outcome.Reissued?
  {
    var found := ActiveUserByUsername(store.users, email);
    if found.NotFound? {
      return Ignored, false;
    }
    if found.Multiple? {
      return ResetRaised(MULTIPLE_OBJECTS_RETURNED), false;
    }
    if found.id !in store.activationIds {
      return ResetRaised(DOES_NOT_EXIST), false;
    }
    var row := store.activationIds[found.id];
    row := row.(value := uuid);
    store.activationIds := store.activationIds[found.id := row];
    outcome := Reissued(found.id);
    emailSent := sendEmail;
  }

  /* ---------------------------------------------------------------- password-reset confirmation */

  /**
   * `PasswordResetConfirmForm.clean_activation_id`, answered with the user the form
   * takes over. An absent or empty value is missing; a value with no row, or whose
   * owner is not an active user, is invalid.
   */
  function ResolvedActivationId(db: Db, v: Option<string>): (r: Result<UserId, FieldError>)
    ensures v.None? || v == Some("") ==> r == Err(Invalid(ActivationIdMissingError))
    ensures r.Ok? ==> && v.Some? && r.value in db.activationIds && db.activationIds[r.value].value == v.value
                      && r.value in db.users && db.users[r.value].isActive
    ensures v.Some? && v.value != "" && ValueUnused(db.activationIds, v.value) ==> r == Err(Invalid(ActivationIdInvalidError))
    ensures Valid(db) && v.Some? && v.value != "" ==>
      && (r.Ok? <==> exists u | u in db.activationIds :: db.activationIds[u].value == v.value && db.users[u].isActive)
      && (r.Err? ==> r.error == Invalid(ActivationIdInvalidError))
  {
    if v.Some? && v.value != "" then
      match ActivationByValue(db.activationIds, v.value)
      case NotFound => Err(Invalid(ActivationIdInvalidError))
      case Multiple => Err(Raised(MULTIPLE_OBJECTS_RETURNED))
      case Found(owner) =>
        if owner in db.users && db.users[owner].isActive then Ok(owner) else Err(Invalid(ActivationIdInvalidError))
    else
      Err(Invalid(ActivationIdMissingError))
  }

  /**
   * What `clean_mfa_token` yields once `self.user` is set: the check of
   * MfaTokenCheck on that user's record. It returns the token it checked, `None`
   * under the bypass flag, or the form's MFA error.
   */
  function MfaFieldCleaned(user: UserId, mfa: map<UserId, MfaModel>, bypass: bool, token: Option<string>, totp: string -> string)
    : (r: (Result<Option<string>, FieldError>, map<UserId, MfaModel>))
    ensures r.1 == CheckMfa(mfa, user, bypass, token, totp).1
    ensures r.0.Ok? <==> !CheckMfa(mfa, user, bypass, token, totp).0.Rejected?
    ensures r.0.Ok? ==> r.0.value == if bypass then None else token
    ensures r.0.Err? ==> r.0.error == Invalid(MfaValidationError(CheckMfa(mfa, user, bypass, token, totp).0.error, FormMfaMessages))
  {
    var check := CheckMfa(mfa, user, bypass, token, totp);
    if check.0.Rejected? then (Err(Invalid(MfaValidationError(check.0.error, FormMfaMessages))), check.1)
    else (Ok(if bypass then None else token), check.1)
  }

  /**
   * `PasswordResetConfirmForm.clean_mfa_token` as written: it reads `self.user.id`,
   * and `self.user` is `None` when the confirmation view built the form without a
   * user and the activation id did not resolve; then a token that is checked raises.
   */
  function ResetConfirmMfaAsWritten(user: Option<UserId>, mfa: map<UserId, MfaModel>, bypass: bool, token: Option<string>,
                                    totp: string -> string)
    : (r: (Result<Option<string>, FieldError>, map<UserId, MfaModel>))
    ensures user.None? && !bypass && token.Some? ==> r == (Err(Raised(ATTRIBUTE_ERROR)), mfa)
    ensures user.None? && (bypass || token.None?) ==> r == (Ok(None), mfa)
    ensures user.Some? ==> r == MfaFieldCleaned(user.value, mfa, bypass, token, totp)
  {
    if user.None? && !bypass && token.Some? then (Err(Raised(ATTRIBUTE_ERROR)), mfa)
    else if user.None? then (Ok(None), mfa)
    else MfaFieldCleaned(user.value, mfa, bypass, token, totp)
  }

  /** An unknown activation id together with a token: the as-written form raises instead of reporting the activation error. */
  lemma AsWrittenResetConfirmRaises()
    ensures ResetConfirmMfaAsWritten(None, map[], false, Some("123456"), _ => "123456").0 == Err(Raised(ATTRIBUTE_ERROR))
  {
  }

  /**
   * `clean_mfa_token` of the reset confirmation, corrected: with no user to check
   * against (the activation id already failed) the token is left unchecked. It
   * never raises, writes nothing when there is no user, and agrees with the
   * as-written form whenever the activation id resolved.
   */
  function ResetConfirmMfa(user: Option<UserId>, mfa: map<UserId, MfaModel>, bypass: bool, token: Option<string>,
                           totp: string -> string)
    : (r: (Result<Option<string>, FieldError>, map<UserId, MfaModel>))
    ensures r.0.Err? ==> r.0.error.Invalid?
    ensures user.None? ==> r.0.Ok? && r.1 == mfa
    ensures user.Some? ==> r == ResetConfirmMfaAsWritten(user, mfa, bypass, token, totp)
  {
    if user.None? then (Ok(if bypass then None else token), mfa)
    else MfaFieldCleaned(user.value, mfa, bypass, token, totp)
  }

  /**
   * The cleaning of the reset-confirmation form, in field order: the password
   * fields (`passwordErrors` are the framework's findings on them), then
   * `activation_id`, then `mfa_token` against the user the form holds by then.
   * Yields the validation, the MFA table and the form's user.
   */
  function ResetConfirmCleaned(db: Db, user0: Option<UserId>, passwordErrors: set<string>, activationId: Option<string>,
                               mfaToken: Option<string>, bypass: bool, totp: string -> string)
    : (r: (Validation, map<UserId, MfaModel>, Option<UserId>))
  {
    var a := ResolvedActivationId(db, activationId);
    if a.Err? && a.error.Raised? then (FormRaised(a.error.exception), db.mfaModels, user0)
    else
      var user := if a.Ok? then Some(a.value) else user0;
      var m := ResetConfirmMfa(user, db.mfaModels, bypass, mfaToken, totp);
      var errors := passwordErrors + (if a.Err? then {"activation_id"} else {}) + (if m.0.Err? then {"mfa_token"} else {});
      (ValidationOf(errors), m.1, user)
  }

  /**
   * A reset confirmation built without a user whose activation id fails is reported
   * as an activation-id error, and no MFA record is read or written.
   */
  lemma FailedActivationIsReported(db: Db, passwordErrors: set<string>, activationId: Option<string>, mfaToken: Option<string>,
                                   bypass: bool, totp: string -> string)
    requires ResolvedActivationId(db, activationId).Err? && ResolvedActivationId(db, activationId).error.Invalid?
    ensures var r := ResetConfirmCleaned(db, None, passwordErrors, activationId, mfaToken, bypass, totp);
      r.0.FormInvalid? && "activation_id" in r.0.fields && r.1 == db.mfaModels && r.2 == None
  {
  }

  /**
   * A valid reset confirmation names the active owner of the submitted activation id
   * as the form's user, and in a valid store nothing escapes the cleaning. The form
   * is valid exactly when the passwords are clean, the id resolves and the shared
   * MFA check on its owner does not reject; that check's write is the one kept.
   */
  lemma ResetConfirmValidMeansOwner(db: Db, user0: Option<UserId>, passwordErrors: set<string>, activationId: Option<string>,
                                    mfaToken: Option<string>, bypass: bool, totp: string -> string)
    ensures var r := ResetConfirmCleaned(db, user0, passwordErrors, activationId, mfaToken, bypass, totp);
      && (r.0 == FormValid ==> && passwordErrors == {} && activationId.Some? && r.2.Some?
                               && r.2.value in db.activationIds && db.activationIds[r.2.value].value == activationId.value
                               && r.2.value in db.users && db.users[r.2.value].isActive)
      && (Valid(db) ==> !r.0.FormRaised?)
    ensures var r := ResetConfirmCleaned(db, user0, passwordErrors, activationId, mfaToken, bypass, totp);
      var a := ResolvedActivationId(db, activationId);
      && (r.0 == FormValid <==>
            passwordErrors == {} && a.Ok? && !CheckMfa(db.mfaModels, a.value, bypass, mfaToken, totp).0.Rejected?)
      && (a.Ok? ==> r.1 == CheckMfa(db.mfaModels, a.value, bypass, mfaToken, totp).1)
  {
    var a := ResolvedActivationId(db, activationId);
    var r := ResetConfirmCleaned(db, user0, passwordErrors, activationId, mfaToken, bypass, totp);
    if r.0 == FormValid {
      assert a.Ok?;
    }
  }

  /** The password-reset confirmation form; `user` is `self.user`. */
  class PasswordResetConfirmForm {
    var user: Option<UserId>

    constructor (user: Option<UserId>)
      ensures this.user == user
    {
      this.user := user;
    }

    /** `clean_activation_id`: on success the form takes over the owner and returns the value unchanged. */
    method CleanActivationId(store: Store, activationId: Option<string>) returns (r: Result<string, FieldError>)
      modifies this
      ensures var resolved := ResolvedActivationId(store.State(), activationId);
        && (r.Ok? <==> resolved.Ok?)
        && (r.Ok? ==> activationId == Some(r.value) && user == Some(resolved.value))
        && (r.Err? ==> r.error == resolved.error && user == old(user))
    {
      if activationId.Some? && activationId.value != "" {
        var row := ActivationByValue(store.activationIds, activationId.value);
        if row.NotFound? {
          return Err(Invalid(ActivationIdInvalidError));
        }
        if row.Multiple? {
          return Err(Raised(MULTIPLE_OBJECTS_RETURNED));
        }
        if row.id !in store.users || !store.users[row.id].isActive {
          return Err(Invalid(ActivationIdInvalidError));
        }
        user := Some(row.id);
        return Ok(activationId.value);
      } else {
        return Err(Invalid(ActivationIdMissingError));
      }
    }

    /** `clean_mfa_token`, corrected as in `ResetConfirmMfa`. */
    method CleanMfaToken(store: Store, mfaToken: Option<string>, bypass: bool, totp: string -> string)
      returns (r: Result<Option<string>, FieldError>)
      modifies store
      ensures (r, store.mfaModels) == ResetConfirmMfa(user, old(store.mfaModels), bypass, mfaToken, totp)
      ensures store.users == old(store.users) && store.activationIds == old(store.activationIds)
    {
      var token := if bypass then None else mfaToken;
      if token.Some? && user.Some? {
        var verdict := ValidateMfaToken(store, user.value, bypass, mfaToken, totp);
        if verdict.Rejected? {
          return Err(Invalid(MfaValidationError(verdict.error, FormMfaMessages)));
        }
      }
      return Ok(token);
    }

    /** `is_valid()`: the fields are cleaned in order; an exception ends the cleaning. */
    method IsValid(store: Store, passwordErrors: set<string>, activationId: Option<string>, mfaToken: Option<string>,
                   bypass: bool, totp: string -> string)
      returns (o: Validation)
      modifies this, store
      ensures (o, store.mfaModels, user)
        == ResetConfirmCleaned(old(store.State()), old(user), passwordErrors, activationId, mfaToken, bypass, totp)
      ensures store.users == old(store.users) && store.activationIds == old(store.activationIds)
    {
      var errors := passwordErrors;
      ghost var db := store.State();
      var a := CleanActivationId(store, activationId);
      assert store.State() == db;
      if a.Err? {
        if a.error.Raised? {
          return FormRaised(a.error.exception);
        }
        errors := errors + {"activation_id"};
      }
      assert user == if a.Ok? then Some(ResolvedActivationId(db, activationId).value) else old(user);
      var m := CleanMfaToken(store, mfaToken, bypass, totp);
      assert (m, store.mfaModels) == ResetConfirmMfa(user, db.mfaModels, bypass, mfaToken, totp);
      if m.Err? {
        errors := errors + {"mfa_token"};
      }
      assert errors == passwordErrors + (if a.Err? then {"activation_id"} else {}) + (if m.Err? then {"mfa_token"} else {});
      o := ValidationOf(errors);
    }
  }

  /* ---------------------------------------------------------------- activation-id probe */

  /**
   * `activation_id_is_valid`: true exactly when a value is given and some activation
   * row holds it; it raises only when several rows hold it, which a valid store
   * rules out.
   */
  function ActivationIdIsValid(db: Db, v: Option<string>): (r: Result<bool, string>)
    ensures r.Err? ==> r.error == MULTIPLE_OBJECTS_RETURNED && !ActivationValuesDistinct(db.activationIds)
    ensures ActivationValuesDistinct(db.activationIds) ==> r == Ok(v.Some? && !ValueUnused(db.activationIds, v.value))
  {
    if v.None? then Ok(false)
    else match ActivationByValue(db.activationIds, v.value)
      case Found(_) => Ok(true)
      case NotFound => Ok(false)
      case Multiple => Err(MULTIPLE_OBJECTS_RETURNED)
  }

  /* ---------------------------------------------------------------- password change */

  /** How `save` ends: the password was saved (and whether the notification went out), or it raised first. */
  datatype SaveOutcome = Saved(notified: bool) | SaveRaised(exception: string)

  /**
   * `save` with `_sendPasswordChangeEmail`: the notification is looked up before the
   * password is saved; it goes out only when `SEND_EMAIL` is set and the user's
   * email names an active user. With unique usernames the password is always saved.
   */
  function PasswordChangeSaved(users: map<UserId, User>, email: string, sendEmail: bool): (o: SaveOutcome)
    ensures !sendEmail ==> o == Saved(false)
    ensures o.Saved? && o.notified ==> sendEmail && exists u | u in users :: users[u].username == email && users[u].isActive
    ensures UsernamesUnique(users) ==>
      o == Saved(sendEmail && exists u | u in users :: users[u].username == email && users[u].isActive)
  {
    if !sendEmail then Saved(false)
    else match ActiveUserByUsername(users, email)
      case NotFound => Saved(false)
      case Found(_) => Saved(true)
      case Multiple => SaveRaised(MULTIPLE_OBJECTS_RETURNED)
  }

  /** The password-change form of a logged-in user. */
  class PasswordChangeForm {
    const user: UserId

    constructor (user: UserId)
      ensures this.user == user
    {
      this.user := user;
    }

    /** `clean_mfa_token`: the shared check on the logged-in user's record. */
    method CleanMfaToken(store: Store, mfaToken: Option<string>, bypass: bool, totp: string -> string)
      returns (r: Result<Option<string>, FieldError>)
      modifies store
      ensures (r, store.mfaModels) == MfaFieldCleaned(user, old(store.mfaModels), bypass, mfaToken, totp)
      ensures store.users == old(store.users) && store.activationIds == old(store.activationIds)
    {
      var verdict := ValidateMfaToken(store, user, bypass, mfaToken, totp);
      if verdict.Rejected? {
        return Err(Invalid(MfaValidationError(verdict.error, FormMfaMessages)));
      }
      return Ok(if bypass then None else mfaToken);
    }

    /**
     * `is_valid()`: the password fields (`passwordErrors`) and then `mfa_token`. The
     * token is checked, and consumed when accepted, even when a password field failed.
     */
    method IsValid(store: Store, passwordErrors: set<string>, mfaToken: Option<string>, bypass: bool, totp: string -> string)
      returns (o: Validation)
      requires "mfa_token" !in passwordErrors
      modifies store
      ensures store.mfaModels == CheckMfa(old(store.mfaModels), user, bypass, mfaToken, totp).1
      ensures o == FormValid <==> passwordErrors == {} && !CheckMfa(old(store.mfaModels), user, bypass, mfaToken, totp).0.Rejected?
      ensures o.FormInvalid? ==> ("mfa_token" in o.fields <==> CheckMfa(old(store.mfaModels), user, bypass, mfaToken, totp).0.Rejected?)
      ensures !o.FormRaised?
      ensures store.users == old(store.users) && store.activationIds == old(store.activationIds)
    {
      var errors := passwordErrors;
      var m := CleanMfaToken(store, mfaToken, bypass, totp);
      if m.Err? {
        errors := errors + {"mfa_token"};
      }
      o := ValidationOf(errors);
    }
  }

  /**
   * `save` of both password-change forms (this file's and the older users/forms.py's),
   * for the form's user: the decision part; the password itself is the framework's
   * to store.
   */
  method SavePasswordChange(store: Store, user: UserId, sendEmail: bool) returns (o: SaveOutcome)
    requires user in store.users
    ensures o == PasswordChangeSaved(store.users, store.users[user].email, sendEmail)
  {
    if !sendEmail {
      return Saved(false);
    }
    var found := ActiveUserByUsername(store.users, store.users[user].email);
    if found.Multiple? {
      return SaveRaised(MULTIPLE_OBJECTS_RETURNED);
    }
    o := Saved(found.Found?);
  }
}
