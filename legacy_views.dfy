/**
 * The older views of views.py: registration, activation of a registered account by
 * the id mailed to it, the password-reset request and the password change. They
 * render their outcome directly (`completed`, `successful`, `already_active`)
 * instead of redirecting through session flags.
 */
module LegacyViews {
  import opened Wrappers
  import opened Models
  import opened UserForms
  import opened LegacyForms
  import opened Sessions

  const REGISTRATION_TEMPLATE := "user_registration.html"
  const ACTIVATE_REGISTRATION_TEMPLATE := "activate_registration.html"
  const LEGACY_SEND_PASSWORD_RESET_TEMPLATE := "send_password_reset.html"
  const LEGACY_PASSWORD_CHANGE_TEMPLATE := "password_change.html"

  /** `request.GET['id']` on a request without `id`. */
  const MISSING_PARAMETER := "MultiValueDictKeyError"

  /** The `completed` context of the form views. */
  function Completed(done: bool): (c: map<string, bool>)
    ensures c.Keys == {"completed"} && c["completed"] == done
  {
    map["completed" := done]
  }

  /* ---------------------------------------------------------------- activation */

  /** How an activation ends: an unknown id, an account already active, an activation, or an escaped lookup error. */
  datatype ActivationOutcome = UnknownActivationId | AlreadyActive | Activated(user: UserId) | ActivationRaised(exception: string)

  /**
   * `ActivateRegistrationView.get` on the store: the id's owner, if it is an existing
   * inactive user, becomes active and nothing else changes. The activation row
   * stays, so the same link keeps resolving.
   */
  function Activation(db: Db, value: string): (r: (ActivationOutcome, Db))
    ensures ValueUnused(db.activationIds, value) ==> r == (UnknownActivationId, db)
    ensures !r.0.Activated? ==> r.1 == db
    ensures r.0.Activated? ==>
      var u := r.0.user;
      && u in db.activationIds && db.activationIds[u].value == value
      && u in db.users && !db.users[u].isActive
      && r.1 == db.(users := db.users[u := db.users[u].(isActive := true)])
    ensures r.0 == AlreadyActive ==>
      exists u | u in db.activationIds && u in db.users :: db.activationIds[u].value == value && db.users[u].isActive
    ensures r.0.ActivationRaised? ==> r.0.exception == MULTIPLE_OBJECTS_RETURNED && !ActivationValuesDistinct(db.activationIds)
    ensures Valid(db) ==> !r.0.ActivationRaised? && Valid(r.1)
    ensures Valid(db) ==>
      forall u | u in db.activationIds && db.activationIds[u].value == value ::
        r.0 == if db.users[u].isActive then AlreadyActive else Activated(u)
  {
    assert Valid(db) ==> forall u | u in db.activationIds && db.activationIds[u].value == value :: ActivationByValue(db.activationIds, value) == Found(u) by {
      if Valid(db) {
        forall u | u in db.activationIds && db.activationIds[u].value == value ensures ActivationByValue(db.activationIds, value) == Found(u) {
          assert ActivationByValue(db.activationIds, value) == Found(u);
        }
      }
    }
    match ActivationByValue(db.activationIds, value)
    case NotFound => (UnknownActivationId, db)
    case Multiple => (ActivationRaised(MULTIPLE_OBJECTS_RETURNED), db)
    case Found(u) =>
      if u !in db.users then (UnknownActivationId, db)
      else if db.users[u].isActive then (AlreadyActive, db)
      else (Activated(u), db.(users := db.users[u := db.users[u].(isActive := true)]))
  }

  /** Activation is not consumed: opening the same link again reports the account as already active. */
  lemma SecondActivationIsAlreadyActive(db: Db, value: string)
    requires Activation(db, value).0.Activated?
    ensures Activation(Activation(db, value).1, value) == (AlreadyActive, Activation(db, value).1)
  {
    var u := Activation(db, value).0.user;
    var db' := Activation(db, value).1;
    assert db'.activationIds == db.activationIds;
    assert ActivationByValue(db'.activationIds, value) == ActivationByValue(db.activationIds, value);
  }

  /** The link mailed at registration activates the account it was made for. */
  lemma RegistrationLinkActivates(db: Db, newUser: UserId, address: string, uuid: string, now: int)
    requires newUser !in db.users && ValueUnused(db.activationIds, uuid)
    ensures Activation(Registered(db, newUser, address, uuid, now), uuid).0 == Activated(newUser)
  {
    var r := Registered(db, newUser, address, uuid, now);
    assert ActivationByValue(r.activationIds, uuid) == Found(newUser);
  }

  /** The context `ActivateRegistrationView.get` renders for each outcome. */
  function ActivationContext(o: ActivationOutcome): (c: map<string, bool>)
    requires !o.ActivationRaised?
    ensures "successful" in c && (c["successful"] <==> o.Activated?)
    ensures "already_active" in c <==> o == AlreadyActive
    ensures "already_active" in c ==> c["already_active"]
  {
    match o
    case UnknownActivationId => map["successful" := false]
    case AlreadyActive => map["successful" := false, "already_active" := true]
    case Activated(_) => map["successful" := true]
  }

  /** `ActivateRegistrationView.get`, step by step; the notification goes out only for an activation under `SEND_EMAIL`. */
  method ActivateRegistrationGet(store: Store, id: Option<string>, sendEmail: bool) returns (resp: Response, emailSent: bool)
    modifies store
    ensures id.None? ==> resp == ServerError(MISSING_PARAMETER) && !emailSent && store.State() == old(store.State())
    ensures id.Some? ==>
      var a := Activation(old(store.State()), id.value);
      && store.State() == a.1
      && (emailSent <==> sendEmail && a.0.Activated?)
      && resp == if a.0.ActivationRaised? then ServerError(a.0.exception)
                 else Render(ACTIVATE_REGISTRATION_TEMPLATE, ActivationContext(a.0))
  {
    if id.None? {
      return ServerError(MISSING_PARAMETER), false;
    }
    var record := ActivationByValue(store.activationIds, id.value);
    if record.Multiple? {
      return ServerError(MULTIPLE_OBJECTS_RETURNED), false;
    }
    if record.NotFound? || record.id !in store.users {
      return Render(ACTIVATE_REGISTRATION_TEMPLATE, map["successful" := false]), false;
    }
    var user := store.users[record.id];
    if user.isActive {
      return Render(ACTIVATE_REGISTRATION_TEMPLATE, map["successful" := false, "already_active" := true]), false;
    }
    user := user.(isActive := true);
    store.users := store.users[record.id := user];
    emailSent := sendEmail;
    resp := Render(ACTIVATE_REGISTRATION_TEMPLATE, map["successful" := true]);
  }

  /* ---------------------------------------------------------------- the form views */

  /**
   * `RegistrationView.post`: a valid form registers the address and the page reports
   * `completed` exactly when the form was valid. A valid form has already checked
   * that the address is free.
   */
  method RegistrationPost(store: Store, formValid: bool, newUser: UserId, address: string, uuid: string, now: int,
                          sendEmail: bool)
    returns (resp: Response, emailSent: bool)
    requires formValid ==> newUser !in store.users && UsernameFree(store.users, address)
    modifies store
    ensures resp == Render(REGISTRATION_TEMPLATE, Completed(formValid))
    ensures formValid ==> store.State() == Registered(old(store.State()), newUser, address, uuid, now) && emailSent == sendEmail
    ensures !formValid ==> store.State() == old(store.State()) && !emailSent
  {
    if formValid {
      emailSent := Register(store, newUser, address, uuid, now, sendEmail);
      resp := Render(REGISTRATION_TEMPLATE, Completed(true));
    } else {
      emailSent := false;
      resp := Render(REGISTRATION_TEMPLATE, Completed(false));
    }
  }

  /** `SendPasswordResetView.post` of views.py: a valid form runs the request and reports `completed`. */
  method SendPasswordResetPost(store: Store, formValid: bool, email: string, uuid: string, sendEmail: bool)
    returns (resp: Response, emailSent: bool)
    modifies store
    ensures !formValid ==>
      resp == Render(LEGACY_SEND_PASSWORD_RESET_TEMPLATE, Completed(false)) && !emailSent && store.State() == old(store.State())
    ensures formValid ==>
      var request := PasswordResetRequested(old(store.State()), email, uuid);
      && store.State() == request.1
      && (emailSent <==> sendEmail && request.0.Reissued?)
      && resp == if request.0.ResetRaised? then ServerError(request.0.exception)
                 else Render(LEGACY_SEND_PASSWORD_RESET_TEMPLATE, Completed(true))
  {
    if !formValid {
      return Render(LEGACY_SEND_PASSWORD_RESET_TEMPLATE, Completed(false)), false;
    }
    var outcome;
    outcome, emailSent := SendPasswordResetEmail(store, email, uuid, sendEmail);
    if outcome.ResetRaised? {
      return ServerError(outcome.exception), emailSent;
    }
    resp := Render(LEGACY_SEND_PASSWORD_RESET_TEMPLATE, Completed(true));
  }

  /**
   * `PasswordChangeView.post` of views.py for the logged-in `user`: a valid form is
   * saved for the form's user, who is the activation id's owner when one was given.
   */
  method PasswordChangePost(store: Store, user: UserId, passwordErrors: set<string>, activationId: Option<string>,
                            sendEmail: bool)
    returns (resp: Response, passwordSetFor: Option<UserId>, saved: Option<SaveOutcome>)
    requires user in store.users
    ensures var c := LegacyChangeCleaned(store.State(), user, passwordErrors, activationId);
      && (c.0.FormRaised? ==> resp == ServerError(c.0.exception) && saved.None?)
      && (c.0.FormInvalid? ==> resp == Render(LEGACY_PASSWORD_CHANGE_TEMPLATE, Completed(false)) && saved.None?)
      && (c.0 == FormValid ==>
            && passwordSetFor == Some(c.1)
            && saved == Some(PasswordChangeSaved(store.users, store.users[c.1].email, sendEmail))
            && resp == if saved.value.SaveRaised? then ServerError(saved.value.exception)
                       else Render(LEGACY_PASSWORD_CHANGE_TEMPLATE, Completed(true)))
      && (c.0 != FormValid ==> passwordSetFor.None?)
  {
    var form := new LegacyPasswordChangeForm(user);
    var v := form.IsValid(store, passwordErrors, activationId);
    if v.FormRaised? {
      return ServerError(v.exception), None, None;
    }
    if v != FormValid {
      return Render(LEGACY_PASSWORD_CHANGE_TEMPLATE, Completed(false)), None, None;
    }
    var outcome := SavePasswordChange(store, form.user, sendEmail);
    if outcome.SaveRaised? {
      return ServerError(outcome.exception), Some(form.user), Some(outcome);
    }
    resp, passwordSetFor, saved := Render(LEGACY_PASSWORD_CHANGE_TEMPLATE, Completed(true)), Some(form.user), Some(outcome);
  }
}
