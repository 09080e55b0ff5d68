/**
 * The MFA views (dwiest/django/users/mfa/views.py): the login hook that records
 * whether the user has MFA, the status page, enabling and disabling, and their
 * success pages. A user has MFA enabled exactly when an MFA row exists for them.
 *
 * Requests come from a logged-in user, `user`. The `mfa_enabled` and
 * `mfa_disabled` signals are reported as a boolean "signal sent".
 */
module MfaViews {
  import opened Wrappers
  import opened Models
  import opened MfaTokenCheck
  import opened UserForms
  import opened MfaForms
  import opened Sessions

  const STATUS_PAGE := "mfa_status"
  const ENABLE_SUCCESS_PAGE := "mfa_enable_success"
  const DISABLE_SUCCESS_PAGE := "mfa_disable_success"
  const STATUS_TEMPLATE := "dwiest-django-users/mfa/index.html"
  const ENABLE_TEMPLATE := "dwiest-django-users/mfa/enable.html"
  const ENABLE_SUCCESS_TEMPLATE := "dwiest-django-users/mfa/enable_success.html"
  const DISABLE_TEMPLATE := "dwiest-django-users/mfa/disable.html"
  const DISABLE_SUCCESS_TEMPLATE := "dwiest-django-users/mfa/disable_success.html"

  const USER_HAS_MFA := "user_has_mfa"
  const MFA_ENABLED := "mfa_enabled"
  const MFA_DISABLED := "mfa_disabled"

  const EnableSuccessPage := OutcomePage(MFA_ENABLED, ENABLE_SUCCESS_TEMPLATE, STATUS_PAGE)
  const DisableSuccessPage := OutcomePage(MFA_DISABLED, DISABLE_SUCCESS_TEMPLATE, STATUS_PAGE)

  /** `request.session.get('user_has_mfa')` is true. */
  predicate HasMfaFlag(data: map<string, bool>) {
    USER_HAS_MFA in data && data[USER_HAS_MFA]
  }

  /** A submitted field: absent and empty are alike. */
  function FieldValue(data: Option<map<string, string>>, name: string): (r: Option<string>)
    ensures r.Some? <==> data.Some? && name in data.value && data.value[name] != ""
    ensures r.Some? ==> r.value == data.value[name]
  {
    if data.Some? && name in data.value && data.value[name] != "" then Some(data.value[name]) else None
  }

  /* ---------------------------------------------------------------- the record transitions */

  /** Enabling stores a fresh row with the submitted secret and no consumed code; no other row changes. */
  function EnableMfa(mfa: map<UserId, MfaModel>, user: UserId, secret: string): (r: map<UserId, MfaModel>)
    requires user !in mfa
    ensures r.Keys == mfa.Keys + {user}
    ensures r[user] == MfaModel(secret, None)
    ensures forall u | u in mfa :: r[u] == mfa[u]
  {
    mfa[user := MfaModel(secret, None)]
  }

  /** Disabling deletes the user's row; no other row changes. */
  function DisableMfa(mfa: map<UserId, MfaModel>, user: UserId): (r: map<UserId, MfaModel>)
    ensures r.Keys == mfa.Keys - {user}
    ensures forall u | u in r :: r[u] == mfa[u]
  {
    mfa - {user}
  }

  /** Disabling right after enabling restores the table. */
  lemma DisableUndoesEnable(mfa: map<UserId, MfaModel>, user: UserId, secret: string)
    requires user !in mfa
    ensures DisableMfa(EnableMfa(mfa, user, secret), user) == mfa
  {
    assert DisableMfa(EnableMfa(mfa, user, secret), user).Keys == mfa.Keys;
  }

  /** An enabled row fits its columns when the secret does, so a valid store stays valid. */
  lemma EnableMfaPreservesValid(db: Db, user: UserId, secret: string)
    requires Valid(db) && user in db.users && user !in db.mfaModels && |secret| <= SecretKeyMaxLength
    ensures Valid(db.(mfaModels := EnableMfa(db.mfaModels, user, secret)))
  {
    assert MfaRowFits(MfaModel(secret, None));
  }

  /**
   * The enrolment does not consume its token: the code just used to enable MFA is
   * accepted by the next check of the same user in the same time step.
   */
  lemma EnrolmentTokenAcceptedAgain(mfa: map<UserId, MfaModel>, user: UserId, data: map<string, string>,
                                    randomSecret: string, token: Option<string>, totp: string -> string)
    requires user !in mfa && |data| > 0 && SECRET_KEY_FIELD in data
    requires EnableFormValidation(false, token, Some(data[SECRET_KEY_FIELD]),
                                  ChooseSecret(None, Some(data), randomSecret).value, totp) == FormValid
    ensures CheckMfa(EnableMfa(mfa, user, data[SECRET_KEY_FIELD]), user, false, token, totp).0 == Accepted(token.value)
  {
    EnableChecksStoredSecret(data, randomSecret, token, totp);
  }

  /** Once disabled, any token a user submits is rejected as invalid, unless the bypass flag is set. */
  lemma DisabledUserTokenInvalid(mfa: map<UserId, MfaModel>, user: UserId, token: string, totp: string -> string)
    ensures CheckMfa(DisableMfa(mfa, user), user, false, Some(token), totp).0 == Rejected(InvalidMfaToken)
  {
  }

  /* ---------------------------------------------------------------- the session flags */

  /** The login hook: `user_has_mfa` is set when a row exists, and never cleared. */
  function LoginFlags(mfa: map<UserId, MfaModel>, data: map<string, bool>, user: UserId): (r: map<string, bool>)
    ensures HasMfaFlag(r) <==> user in mfa || HasMfaFlag(data)
    ensures forall k | k != USER_HAS_MFA :: (k in r <==> k in data) && (k in r ==> r[k] == data[k])
  {
    if user in mfa then data[USER_HAS_MFA := true] else data
  }

  /** The flags a successful enable sets. */
  function EnabledFlags(data: map<string, bool>): (r: map<string, bool>)
    ensures HasMfaFlag(r) && MFA_ENABLED in r && r[MFA_ENABLED]
    ensures forall k | k != USER_HAS_MFA && k != MFA_ENABLED :: (k in r <==> k in data) && (k in r ==> r[k] == data[k])
  {
    data[MFA_ENABLED := true][USER_HAS_MFA := true]
  }

  /** The flags a successful disable sets. */
  function DisabledFlags(data: map<string, bool>): (r: map<string, bool>)
    ensures !HasMfaFlag(r) && USER_HAS_MFA in r && MFA_DISABLED in r && r[MFA_DISABLED]
    ensures forall k | k != USER_HAS_MFA && k != MFA_DISABLED :: (k in r <==> k in data) && (k in r ==> r[k] == data[k])
  {
    data[MFA_DISABLED := true][USER_HAS_MFA := false]
  }

  /* ---------------------------------------------------------------- the views */

  /** `check_user_mfa`, connected to `user_logged_in`. */
  method CheckUserMfa(store: Store, session: Session, user: UserId)
    modifies session
    ensures session.data == LoginFlags(store.mfaModels, old(session.data), user)
  {
    if user in store.mfaModels {
      session.data := session.data[USER_HAS_MFA := true];
    }
  }

  /** `MfaStatusView.get`: the page says MFA is on exactly when the session flag says so. */
  method MfaStatusGet(session: Session) returns (resp: Response)
    ensures resp.Render? && resp.template == STATUS_TEMPLATE
    ensures (USER_HAS_MFA in resp.context) <==> HasMfaFlag(session.data)
    ensures USER_HAS_MFA in resp.context ==> resp.context[USER_HAS_MFA]
  {
    var context: map<string, bool> := map[];
    if USER_HAS_MFA in session.data && session.data[USER_HAS_MFA] {
      context := context[USER_HAS_MFA := true];
    }
    resp := Render(STATUS_TEMPLATE, context);
  }

  /** `MfaEnableView.get`: a user who has MFA is sent to the status page, anyone else gets the form. */
  method MfaEnableGet(store: Store, user: UserId) returns (resp: Response)
    ensures user in store.mfaModels ==> resp == Redirect(STATUS_PAGE)
    ensures user !in store.mfaModels ==> resp == Render(ENABLE_TEMPLATE, map[])
  {
    if user in store.mfaModels {
      return Redirect(STATUS_PAGE);
    }
    resp := Render(ENABLE_TEMPLATE, map[]);
  }

  /**
   * `MfaEnableView.post`. `configured` is `MFA_SECRET_KEY`, `data` the submission,
   * `randomSecret` what `random_base32` would return, `acceptAny` is
   * `MFA_ACCEPT_ANY_VALUE`.
   */
  method MfaEnablePost(store: Store, session: Session, user: UserId, configured: Option<string>,
                       data: Option<map<string, string>>, randomSecret: string, acceptAny: bool, totp: string -> string)
    returns (resp: Response, signalled: bool)
    modifies store, session
    ensures old(user in store.mfaModels) ==>
      resp == Redirect(STATUS_PAGE) && !signalled
    ensures signalled <==>
      && old(user !in store.mfaModels)
      && ChooseSecret(configured, data, randomSecret).Ok?
      && EnableFormValidation(acceptAny, FieldValue(data, TOKEN_FIELD), FieldValue(data, SECRET_KEY_FIELD),
                              ChooseSecret(configured, data, randomSecret).value, totp) == FormValid
    ensures signalled ==>
      && resp == Redirect(ENABLE_SUCCESS_PAGE)
      && store.mfaModels == EnableMfa(old(store.mfaModels), user, FieldValue(data, SECRET_KEY_FIELD).value)
      && session.data == EnabledFlags(old(session.data))
    ensures !signalled ==> store.mfaModels == old(store.mfaModels) && session.data == old(session.data)
    ensures !signalled && old(user !in store.mfaModels) ==>
      resp == if ChooseSecret(configured, data, randomSecret).Err? then ServerError(KEY_ERROR)
              else Render(ENABLE_TEMPLATE, map[])
    ensures store.users == old(store.users) && store.activationIds == old(store.activationIds)
  {
    if user in store.mfaModels {
      return Redirect(STATUS_PAGE), false;
    }
    var built := NewMfaEnableForm(configured, data, randomSecret);
    if built.Err? {
      return ServerError(built.error), false;
    }
    var form := built.value;
    var secretKey := FieldValue(data, SECRET_KEY_FIELD);
    var valid := form.IsValid(acceptAny, FieldValue(data, TOKEN_FIELD), secretKey, totp);
    if valid != FormValid {
      return Render(ENABLE_TEMPLATE, map[]), false;
    }
    session.data := session.data[MFA_ENABLED := true];
    session.data := session.data[USER_HAS_MFA := true];
    store.mfaModels := store.mfaModels[user := MfaModel(secretKey.value, None)];
    resp, signalled := Redirect(ENABLE_SUCCESS_PAGE), true;
  }

  /** `MfaEnableSuccessView.get`. */
  method MfaEnableSuccessGet(session: Session) returns (resp: Response)
    modifies session
    ensures (resp, session.data) == FlagPage(old(session.data), EnableSuccessPage)
  {
    resp := ShowOnce(session, EnableSuccessPage);
  }

  /** `MfaDisableView.get`: a user without MFA is sent to the status page, anyone else gets the form. */
  method MfaDisableGet(store: Store, user: UserId) returns (resp: Response)
    ensures user !in store.mfaModels ==> resp == Redirect(STATUS_PAGE)
    ensures user in store.mfaModels ==> resp == Render(DISABLE_TEMPLATE, map[])
  {
    if user !in store.mfaModels {
      return Redirect(STATUS_PAGE);
    }
    resp := Render(DISABLE_TEMPLATE, map[]);
  }

  /** `MfaDisableView.post`: the empty form always validates, so a user with MFA always loses it. */
  method MfaDisablePost(store: Store, session: Session, user: UserId) returns (resp: Response, signalled: bool)
    modifies store, session
    ensures signalled <==> old(user in store.mfaModels)
    ensures !signalled ==>
      resp == Redirect(STATUS_PAGE) && store.mfaModels == old(store.mfaModels) && session.data == old(session.data)
    ensures signalled ==>
      && resp == Redirect(DISABLE_SUCCESS_PAGE)
      && store.mfaModels == DisableMfa(old(store.mfaModels), user)
      && session.data == DisabledFlags(old(session.data))
    ensures store.users == old(store.users) && store.activationIds == old(store.activationIds)
  {
    if user !in store.mfaModels {
      return Redirect(STATUS_PAGE), false;
    }
    // `MfaDisableForm` has no fields (`DisableFormValidation`), so the re-render branch is never taken.
    store.mfaModels := store.mfaModels - {user};
    session.data := session.data[MFA_DISABLED := true];
    session.data := session.data[USER_HAS_MFA := false];
    resp, signalled := Redirect(DISABLE_SUCCESS_PAGE), true;
  }

  /** `MfaDisableSuccessView.get`. */
  method MfaDisableSuccessGet(session: Session) returns (resp: Response)
    modifies session
    ensures (resp, session.data) == FlagPage(old(session.data), DisableSuccessPage)
  {
    resp := ShowOnce(session, DisableSuccessPage);
  }

  /* ---------------------------------------------------------------- a user's MFA session */

  /**
   * What one logged-in user can do to their MFA state: log in again, enable with a
   * secret (a valid form), disable, pass an MFA check, or open a success page.
   */
  datatype MfaRequest =
    | LogIn
    | Enable(secret: string)
    | Disable
    | Check(bypass: bool, token: Option<string>, totp: string -> string)
    | EnableSuccess
    | DisableSuccess

  /**
   * The MFA table and the session after one request, as the views above change them:
   * each case restates the ensures of `CheckUserMfa`, `MfaEnablePost` with a valid
   * form, `MfaDisablePost`, the success pages and the login check, so that a series
   * of requests can be reasoned about as a function.
   */
  function Serve(mfa: map<UserId, MfaModel>, data: map<string, bool>, user: UserId, req: MfaRequest)
    : (map<UserId, MfaModel>, map<string, bool>)
  {
    match req
    case LogIn => (mfa, LoginFlags(mfa, data, user))
    case Enable(secret) => if user in mfa then (mfa, data) else (EnableMfa(mfa, user, secret), EnabledFlags(data))
    case Disable => if user in mfa then (DisableMfa(mfa, user), DisabledFlags(data)) else (mfa, data)
    case Check(bypass, token, totp) => (CheckMfa(mfa, user, bypass, token, totp).1, data)
    case EnableSuccess => (mfa, FlagPage(data, EnableSuccessPage).1)
    case DisableSuccess => (mfa, FlagPage(data, DisableSuccessPage).1)
  }

  function ServeAll(mfa: map<UserId, MfaModel>, data: map<string, bool>, user: UserId, reqs: seq<MfaRequest>)
    : (map<UserId, MfaModel>, map<string, bool>)
    decreases |reqs|
  {
    if |reqs| == 0 then (mfa, data)
    else
      var next := Serve(mfa, data, user, reqs[0]);
      ServeAll(next.0, next.1, user, reqs[1..])
  }

  /**
   * The status page tells the truth: once the session agrees with the table (as it
   * does right after logging in to a fresh session), it keeps agreeing, whatever
   * the user does next.
   */
  lemma {:induction false} StatusFlagTracksRecord(mfa: map<UserId, MfaModel>, data: map<string, bool>, user: UserId,
                                                  reqs: seq<MfaRequest>)
    requires HasMfaFlag(data) <==> user in mfa
    ensures var r := ServeAll(mfa, data, user, reqs); HasMfaFlag(r.1) <==> user in r.0
    decreases |reqs|
  {
    if |reqs| > 0 {
      var next := Serve(mfa, data, user, reqs[0]);
      assert HasMfaFlag(next.1) <==> user in next.0 by {
        match reqs[0]
        case LogIn =>
        case Enable(_) =>
        case Disable =>
        case Check(bypass, token, totp) =>
        case EnableSuccess =>
          assert next.1 == data - {MFA_ENABLED};
        case DisableSuccess =>
          assert next.1 == data - {MFA_DISABLED};
      }
      StatusFlagTracksRecord(next.0, next.1, user, reqs[1..]);
    }
  }

  /** Logging in to a fresh session makes the session agree with the table. */
  lemma FreshLoginAgrees(mfa: map<UserId, MfaModel>, user: UserId)
    ensures HasMfaFlag(LoginFlags(mfa, map[], user)) <==> user in mfa
  {
  }
}
