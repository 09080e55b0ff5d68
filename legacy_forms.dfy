/**
 * The password-change form of the older users/forms.py. Its `register` and
 * `sendPasswordResetEmail` are the same as in dwiest/django/users/forms.py and are
 * modelled once, in module UserForms. This form has no MFA field; an activation id,
 * when given, redirects the change to the id's owner.
 */
module LegacyForms {
  import opened Wrappers
  import opened Models
  import opened MfaTokenCheck
  import opened UserForms

  const UPDATE_FAILED := "update_failed"
  const UpdateFailedError := ValidationError("Your password could not be updated.", UPDATE_FAILED)

  /**
   * `clean_activation_id`: an absent or empty value is no error and names no user;
   * a value with no row, or whose owner is not an active user, fails with
   * `update_failed`; otherwise the owner is the user whose password is changed.
   */
  function LegacyResolvedActivationId(db: Db, v: Option<string>): (r: Result<Option<UserId>, FieldError>)
    ensures v.None? || v == Some("") ==> r == Ok(None)
    ensures r.Ok? && r.value.Some? ==>
      && v.Some? && r.value.value in db.activationIds && db.activationIds[r.value.value].value == v.value
      && r.value.value in db.users && db.users[r.value.value].isActive
    ensures r.Err? && r.error.Invalid? ==> r.error.error == UpdateFailedError
    ensures Valid(db) ==> !(r.Err? && r.error.Raised?)
    ensures Valid(db) && v.Some? && v.value != "" ==>
      (r.Ok? <==> exists u | u in db.activationIds :: db.activationIds[u].value == v.value && db.users[u].isActive)
  {
    if v.Some? && v.value != "" then
      match ActivationByValue(db.activationIds, v.value)
      case NotFound => Err(Invalid(UpdateFailedError))
      case Multiple => Err(Raised(MULTIPLE_OBJECTS_RETURNED))
      case Found(owner) =>
        if owner in db.users && db.users[owner].isActive then Ok(Some(owner)) else Err(Invalid(UpdateFailedError))
    else
      Ok(None)
  }

  /**
   * The cleaning of the form, in field order: the password fields (`passwordErrors`
   * are the framework's findings on them), then `activation_id`. Yields the validation
   * and the user whose password `save` then changes.
   */
  function LegacyChangeCleaned(db: Db, user0: UserId, passwordErrors: set<string>, activationId: Option<string>)
    : (r: (Validation, UserId))
    ensures r.0 == FormValid ==> passwordErrors == {} && LegacyResolvedActivationId(db, activationId).Ok?
    ensures activationId.None? || activationId == Some("") ==> r == (ValidationOf(passwordErrors), user0)
    ensures r.1 != user0 ==> && activationId.Some? && r.1 in db.activationIds
                             && db.activationIds[r.1].value == activationId.value
                             && r.1 in db.users && db.users[r.1].isActive
  {
    var a := LegacyResolvedActivationId(db, activationId);
    if a.Err? && a.error.Raised? then (FormRaised(a.error.exception), user0)
    else if a.Err? then (ValidationOf(passwordErrors + {"activation_id"}), user0)
    else (ValidationOf(passwordErrors), if a.value.Some? then a.value.value else user0)
  }

  /**
   * With a valid store, a change form whose activation id resolves is valid exactly
   * when its password fields are, and it changes the password of the id's owner,
   * whoever is logged in.
   */
  lemma ActivationIdRedirectsChange(db: Db, user0: UserId, passwordErrors: set<string>, activationId: Option<string>,
                                    owner: UserId)
    requires Valid(db) && activationId.Some? && activationId.value != ""
    requires owner in db.activationIds && db.activationIds[owner].value == activationId.value && db.users[owner].isActive
    ensures LegacyChangeCleaned(db, user0, passwordErrors, activationId) == (ValidationOf(passwordErrors), owner)
  {
    assert LegacyResolvedActivationId(db, activationId) == Ok(Some(owner));
  }

  /**
   * The older password-change form; `user` is `self.user`, the logged-in user until an
   * activation id resolves. Its `save` is `UserForms.SavePasswordChange`.
   */
  class LegacyPasswordChangeForm {
    var user: UserId

    constructor (user: UserId)
      ensures this.user == user
    {
      this.user := user;
    }

    /** `clean_activation_id`; an empty value returns nothing and keeps the user. */
    method CleanActivationId(store: Store, activationId: Option<string>) returns (r: Result<Option<string>, FieldError>)
      modifies this
      ensures var resolved := LegacyResolvedActivationId(store.State(), activationId);
        && (r.Ok? <==> resolved.Ok?)
        && (r.Ok? ==> && (resolved.value.Some? ==> r.value == activationId && user == resolved.value.value)
                      && (resolved.value.None? ==> r.value.None? && user == old(user)))
        && (r.Err? ==> r.error == resolved.error && user == old(user))
    {
      if activationId.Some? && activationId.value != "" {
        var row := ActivationByValue(store.activationIds, activationId.value);
        if row.NotFound? {
          return Err(Invalid(UpdateFailedError));
        }
        if row.Multiple? {
          return Err(Raised(MULTIPLE_OBJECTS_RETURNED));
        }
        if row.id !in store.users || !store.users[row.id].isActive {
          return Err(Invalid(UpdateFailedError));
        }
        user := row.id;
        return Ok(activationId);
      }
      return Ok(None);
    }

    /** `is_valid()`: the password fields, then `activation_id`. */
    method IsValid(store: Store, passwordErrors: set<string>, activationId: Option<string>) returns (o: Validation)
      modifies this
      ensures (o, user) == LegacyChangeCleaned(store.State(), old(user), passwordErrors, activationId)
    {
      var a := CleanActivationId(store, activationId);
      if a.Err? {
        if a.error.Raised? {
          return FormRaised(a.error.exception);
        }
        return ValidationOf(passwordErrors + {"activation_id"});
      }
      o := ValidationOf(passwordErrors);
    }
  }
}
