/**
 * The account views of dwiest/django/users/views.py and their session-flag
 * protocol: each POST that ends in a redirect sets a flag, and the outcome page it
 * redirects to renders only while that flag is present, popping it.
 *
 * The framework's own forms decide some validity on their own (`UserCreationForm`,
 * `RegistrationConfirmForm`, the e-mail field): their verdict is the parameter
 * `formValid`, and what their `save` stores is not modelled (`saved` reports the
 * call). The views' `render` context holds only boolean entries here.
 */
module AccountViews {
  import opened Wrappers
  import opened Models
  import opened MfaTokenCheck
  import opened UserForms
  import opened Sessions

  const LOGIN_PAGE := "login"
  const HOME_PAGE := "home"

  const REGISTRATION_SUCCESS := "registration_success"
  const REGISTRATION_FAILED := "registration_failed"
  const REGISTRATION_CONFIRM_SUCCESS := "registration_confirm_success"
  const REGISTRATION_CONFIRM_FAILED := "registration_confirm_failed"
  const PASSWORD_RESET := "password_reset"
  const PASSWORD_RESET_CONFIRM := "password_reset_confirm"
  const PASSWORD_RESET_FAILED := "password_reset_failed"
  const PASSWORD_CHANGED := "password_changed"

  /** The route names the POST views redirect to. */
  const PASSWORD_RESET_SUCCESS_ROUTE := "password_reset_success"
  const PASSWORD_RESET_CONFIRM_SUCCESS_ROUTE := "password_reset_confirm_success"
  const CHANGE_PASSWORD_SUCCESS_ROUTE := "change_password_success"

  const SEND_PASSWORD_RESET_TEMPLATE := "send_password_reset.html"
  const PASSWORD_RESET_CONFIRM_TEMPLATE := "password_reset_confirm.html"
  const PASSWORD_CHANGE_TEMPLATE := "password_change.html"

  const RegistrationSuccessPage := OutcomePage(REGISTRATION_SUCCESS, "registration_success.html", LOGIN_PAGE)
  const RegistrationFailedPage := OutcomePage(REGISTRATION_FAILED, "registration_failed.html", LOGIN_PAGE)
  const RegistrationConfirmSuccessPage :=
    OutcomePage(REGISTRATION_CONFIRM_SUCCESS, "registration_confirm_success.html", LOGIN_PAGE)
  const RegistrationConfirmFailedPage :=
    OutcomePage(REGISTRATION_CONFIRM_FAILED, "registration_confirm_failed.html", LOGIN_PAGE)
  const SendPasswordResetSuccessPage := OutcomePage(PASSWORD_RESET, "send_password_reset_success.html", LOGIN_PAGE)
  const PasswordResetConfirmSuccessPage :=
    OutcomePage(PASSWORD_RESET_CONFIRM, "password_reset_confirm_success.html", HOME_PAGE)
  const PasswordResetFailedPage := OutcomePage(PASSWORD_RESET_FAILED, "password_reset_failed.html", HOME_PAGE)
  const PasswordChangeSuccessPage := OutcomePage(PASSWORD_CHANGED, "password_change_success.html", HOME_PAGE)

  /* ---------------------------------------------------------------- registration */

  /** `RegistrationView.post`: the form is saved exactly when it is valid, and either outcome sets its own flag. */
  method RegistrationPost(session: Session, formValid: bool) returns (resp: Response, saved: bool)
    modifies session
    ensures saved == formValid
    ensures formValid ==> resp == Redirect(REGISTRATION_SUCCESS) && session.data == old(session.data)[REGISTRATION_SUCCESS := true]
    ensures !formValid ==> resp == Redirect(REGISTRATION_FAILED) && session.data == old(session.data)[REGISTRATION_FAILED := true]
  {
    if formValid {
      saved := true;
      session.data := session.data[REGISTRATION_SUCCESS := true];
      resp := Redirect(REGISTRATION_SUCCESS);
    } else {
      saved := false;
      session.data := session.data[REGISTRATION_FAILED := true];
      resp := Redirect(REGISTRATION_FAILED);
    }
  }

  method RegistrationSuccessGet(session: Session) returns (resp: Response)
    modifies session
    ensures (resp, session.data) == FlagPage(old(session.data), RegistrationSuccessPage)
  {
    resp := ShowOnce(session, RegistrationSuccessPage);
  }

  method RegistrationFailedGet(session: Session) returns (resp: Response)
    modifies session
    ensures (resp, session.data) == FlagPage(old(session.data), RegistrationFailedPage)
  {
    resp := ShowOnce(session, RegistrationFailedPage);
  }

  /**
   * `RegistrationConfirmView.get`: without an `activation_id` (absent or empty) the
   * form is neither validated nor saved and the failure flag is set; otherwise the
   * form's verdict decides.
   */
  method RegistrationConfirmGet(session: Session, activationId: Option<string>, formValid: bool)
    returns (resp: Response, saved: bool)
    modifies session
    ensures saved <==> activationId.Some? && activationId.value != "" && formValid
    ensures saved ==>
      resp == Redirect(REGISTRATION_CONFIRM_SUCCESS) && session.data == old(session.data)[REGISTRATION_CONFIRM_SUCCESS := true]
    ensures !saved ==>
      resp == Redirect(REGISTRATION_CONFIRM_FAILED) && session.data == old(session.data)[REGISTRATION_CONFIRM_FAILED := true]
  {
    if activationId.None? || activationId.value == "" {
      session.data := session.data[REGISTRATION_CONFIRM_FAILED := true];
      return Redirect(REGISTRATION_CONFIRM_FAILED), false;
    }
    if formValid {
      saved := true;
      session.data := session.data[REGISTRATION_CONFIRM_SUCCESS := true];
      resp := Redirect(REGISTRATION_CONFIRM_SUCCESS);
    } else {
      saved := false;
      session.data := session.data[REGISTRATION_CONFIRM_FAILED := true];
      resp := Redirect(REGISTRATION_CONFIRM_FAILED);
    }
  }

  method RegistrationConfirmSuccessGet(session: Session) returns (resp: Response)
    modifies session
    ensures (resp, session.data) == FlagPage(old(session.data), RegistrationConfirmSuccessPage)
  {
    resp := ShowOnce(session, RegistrationConfirmSuccessPage);
  }

  method RegistrationConfirmFailedGet(session: Session) returns (resp: Response)
    modifies session
    ensures (resp, session.data) == FlagPage(old(session.data), RegistrationConfirmFailedPage)
  {
    resp := ShowOnce(session, RegistrationConfirmFailedPage);
  }

  /* ---------------------------------------------------------------- password reset */

  /**
   * `SendPasswordResetView.post`: a valid form always runs the reset request and
   * sets `password_reset`, whether the address exists or not, unless the request
   * raises; an invalid form changes nothing.
   */
  method SendPasswordResetPost(store: Store, session: Session, formValid: bool, email: string, uuid: string,
                               sendEmail: bool)
    returns (resp: Response, emailSent: bool)
    modifies store, session
    ensures !formValid ==>
      && resp == Render(SEND_PASSWORD_RESET_TEMPLATE, map[]) && !emailSent
      && store.State() == old(store.State()) && session.data == old(session.data)
    ensures formValid ==>
      var request := PasswordResetRequested(old(store.State()), email, uuid);
      && store.State() == request.1
      && (emailSent <==> sendEmail && request.0.Reissued?)
      && (request.0.ResetRaised? ==> resp == ServerError(request.0.exception) && session.data == old(session.data))
      && (!request.0.ResetRaised? ==>
            resp == Redirect(PASSWORD_RESET_SUCCESS_ROUTE) && session.data == old(session.data)[PASSWORD_RESET := true])
  {
    if !formValid {
      return Render(SEND_PASSWORD_RESET_TEMPLATE, map[]), false;
    }
    var outcome;
    outcome, emailSent := SendPasswordResetEmail(store, email, uuid, sendEmail);
    if outcome.ResetRaised? {
      return ServerError(outcome.exception), emailSent;
    }
    session.data := session.data[PASSWORD_RESET := true];
    resp := Redirect(PASSWORD_RESET_SUCCESS_ROUTE);
  }

  method SendPasswordResetSuccessGet(session: Session) returns (resp: Response)
    modifies session
    ensures (resp, session.data) == FlagPage(old(session.data), SendPasswordResetSuccessPage)
  {
    resp := ShowOnce(session, SendPasswordResetSuccessPage);
  }

  /**
   * `PasswordResetConfirmView.get`: only an absent `activation_id` is turned away, to
   * the failure page without its flag; an empty one still gets the form.
   */
  method PasswordResetConfirmGet(activationId: Option<string>) returns (resp: Response)
    ensures activationId.None? ==> resp == Redirect(PASSWORD_RESET_FAILED)
    ensures activationId.Some? ==> resp == Render(PASSWORD_RESET_CONFIRM_TEMPLATE, map[])
  {
    if activationId.None? {
      return Redirect(PASSWORD_RESET_FAILED);
    }
    resp := Render(PASSWORD_RESET_CONFIRM_TEMPLATE, map[]);
  }

  /** The failure page reached without its flag sends the visitor on to the home page. */
  lemma UnflaggedFailurePageRedirectsHome(data: map<string, bool>)
    requires PASSWORD_RESET_FAILED !in data
    ensures FlagPage(data, PasswordResetFailedPage) == (Redirect(HOME_PAGE), data)
  {
  }

  /**
   * `PasswordResetConfirmView.post`: the form is built without a user. A valid form
   * sets `password_reset_confirm` and saves the new password of the user the
   * activation id named (`passwordSetFor`); an activation-id error sets
   * `password_reset_failed` and redirects, so the form cannot be resubmitted; any
   * other error re-renders the form. The MFA check's write happens in all cases.
   */
  method PasswordResetConfirmPost(store: Store, session: Session, passwordErrors: set<string>,
                                  activationId: Option<string>, mfaToken: Option<string>, bypass: bool,
                                  totp: string -> string)
    returns (resp: Response, passwordSetFor: Option<UserId>)
    modifies store, session
    ensures var c := ResetConfirmCleaned(old(store.State()), None, passwordErrors, activationId, mfaToken, bypass, totp);
      && store.mfaModels == c.1
      && (c.0 == FormValid ==>
            && resp == Redirect(PASSWORD_RESET_CONFIRM_SUCCESS_ROUTE) && passwordSetFor == c.2
            && session.data == old(session.data)[PASSWORD_RESET_CONFIRM := true])
      && (c.0.FormInvalid? && "activation_id" in c.0.fields ==>
            && resp == Redirect(PASSWORD_RESET_FAILED) && passwordSetFor.None?
            && session.data == old(session.data)[PASSWORD_RESET_FAILED := true])
      && (c.0.FormInvalid? && "activation_id" !in c.0.fields ==>
            resp == Render(PASSWORD_RESET_CONFIRM_TEMPLATE, map[]) && passwordSetFor.None? && session.data == old(session.data))
      && (c.0.FormRaised? ==>
            resp == ServerError(c.0.exception) && passwordSetFor.None? && session.data == old(session.data))
    ensures passwordSetFor.Some? ==>
      var u := passwordSetFor.value;
      && activationId.Some? && u in old(store.activationIds) && old(store.activationIds)[u].value == activationId.value
      && u in old(store.users) && old(store.users)[u].isActive
    ensures store.users == old(store.users) && store.activationIds == old(store.activationIds)
  {
    ResetConfirmValidMeansOwner(store.State(), None, passwordErrors, activationId, mfaToken, bypass, totp);
    var form := new PasswordResetConfirmForm(None);
    var v := form.IsValid(store, passwordErrors, activationId, mfaToken, bypass, totp);
    if v.FormRaised? {
      return ServerError(v.exception), None;
    }
    if v == FormValid {
      session.data := session.data[PASSWORD_RESET_CONFIRM := true];
      return Redirect(PASSWORD_RESET_CONFIRM_SUCCESS_ROUTE), form.user;
    }
    if "activation_id" in v.fields {
      session.data := session.data[PASSWORD_RESET_FAILED := true];
      return Redirect(PASSWORD_RESET_FAILED), None;
    }
    resp, passwordSetFor := Render(PASSWORD_RESET_CONFIRM_TEMPLATE, map[]), None;
  }

  method PasswordResetConfirmSuccessGet(session: Session) returns (resp: Response)
    modifies session
    ensures (resp, session.data) == FlagPage(old(session.data), PasswordResetConfirmSuccessPage)
  {
    resp := ShowOnce(session, PasswordResetConfirmSuccessPage);
  }

  method PasswordResetFailedGet(session: Session) returns (resp: Response)
    modifies session
    ensures (resp, session.data) == FlagPage(old(session.data), PasswordResetFailedPage)
  {
    resp := ShowOnce(session, PasswordResetFailedPage);
  }

  /* ---------------------------------------------------------------- password change */

  /**
   * `PasswordChangeView.post` for the logged-in `user`: a valid form is saved and
   * sets `password_changed`; an invalid one saves nothing (`saved` is `None`) but the
   * MFA check has still run.
   */
  method PasswordChangePost(store: Store, session: Session, user: UserId, passwordErrors: set<string>,
                            mfaToken: Option<string>, bypass: bool, totp: string -> string, sendEmail: bool)
    returns (resp: Response, saved: Option<SaveOutcome>)
    requires user in store.users && "mfa_token" !in passwordErrors
    modifies store, session
    ensures var check := CheckMfa(old(store.mfaModels), user, bypass, mfaToken, totp);
      && store.mfaModels == check.1
      && (saved.Some? <==> passwordErrors == {} && !check.0.Rejected?)
    ensures saved.None? ==> resp == Render(PASSWORD_CHANGE_TEMPLATE, map[]) && session.data == old(session.data)
    ensures saved.Some? ==> saved.value == PasswordChangeSaved(old(store.users), old(store.users)[user].email, sendEmail)
    ensures saved.Some? && saved.value.Saved? ==>
      resp == Redirect(CHANGE_PASSWORD_SUCCESS_ROUTE) && session.data == old(session.data)[PASSWORD_CHANGED := true]
    ensures saved.Some? && saved.value.SaveRaised? ==>
      resp == ServerError(saved.value.exception) && session.data == old(session.data)
    ensures store.users == old(store.users) && store.activationIds == old(store.activationIds)
  {
    var form := new PasswordChangeForm(user);
    var v := form.IsValid(store, passwordErrors, mfaToken, bypass, totp);
    if v != FormValid {
      return Render(PASSWORD_CHANGE_TEMPLATE, map[]), None;
    }
    var outcome := SavePasswordChange(store, form.user, sendEmail);
    saved := Some(outcome);
    if outcome.SaveRaised? {
      return ServerError(outcome.exception), saved;
    }
    session.data := session.data[PASSWORD_CHANGED := true];
    resp := Redirect(CHANGE_PASSWORD_SUCCESS_ROUTE);
  }

  method PasswordChangeSuccessGet(session: Session) returns (resp: Response)
    modifies session
    ensures (resp, session.data) == FlagPage(old(session.data), PasswordChangeSuccessPage)
  {
    resp := ShowOnce(session, PasswordChangeSuccessPage);
  }
}
