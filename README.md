# django-users account core, modelled in Dafny

This project models the account logic of dwiest/django-users, a user-account module for Django:

- registration of inactive accounts with an activation id;
- activation of an account;
- password-reset requests and their confirmation;
- password change;
- the TOTP second factor: the login check with anti-replay, and enrolling and removing MFA;
- the one-shot session flags that drive the outcome pages.

The three stored entities are modelled as one store:

- the framework's `User`;
- `ActivationId`: one per user, holding a `value` and `created_at`;
- `MfaModel`: one per user, holding a `secret_key` and a nullable `last_value`.

The store is `Models.Store`, a class with one map per table. Each map is keyed by the owning user's id, so the one-to-one relations hold by construction. Every request is a method that changes the store or the session. Each method is proved against a pure function on the value `Models.Db`, and the properties are proved about those functions:

- `Valid`: the store invariant. It requires unique usernames, distinct activation values, rows owned by existing users, and column widths that fit.
- The MFA check (`MfaTokenCheck.CheckMfa`) is written out three times in the source, with the same rules. The copies differ in the setting that bypasses them, in the user they read, in their message tables, in what they return (the login form returns its cleaned data, the two field cleaners the token) and in where the error goes (a form error at login, an `mfa_token` field error otherwise). The shared decision is modelled once and called by the login form, the reset-confirmation form and the password-change form. Over any series of checks, no code is accepted twice in a row for the same user.
- Lifecycle traces show two things. Every request keeps `Valid`. An activation link keeps resolving to its owner until a new reset request or the owner's deletion.

The older files `users/forms.py` and `views.py` are modelled as well. Their `register` and `sendPasswordResetEmail` are the same as in `dwiest/django/users/forms.py`. `UserForms.Registered`, `UserForms.Register`, `UserForms.PasswordResetRequested` and `UserForms.SendPasswordResetEmail` therefore also model `users/forms.py:16-31` and `users/forms.py:37-54`.

Values the code gets from outside become parameters:

| source value | model parameter |
|---|---|
| the current TOTP code of a secret (section 4 of RFC 6238) | `totp: string -> string` |
| `uuid.uuid4()` | `uuid`, a fresh value that no row holds |
| `pyotp.random_base32()` | `randomSecret` |
| the id the database assigns | `newUser` |
| the creation time | `now` |
| the setting `SEND_EMAIL` | `sendEmail` |
| `USERS_MFA_ACCEPT_ANY_VALUE`, read by the login form | `acceptAnyValue` of `AuthForms.Clean` |
| `MFA_ACCEPT_ANY_VALUE`, read by the reset-confirmation and password-change forms | `bypass` of their cleaning members and views |
| `MFA_ACCEPT_ANY_VALUE`, read by the MFA enrolment form | `acceptAny` of `MfaForms` |
| the verdict of the inherited credential check of the login form | `credentials` |
| `MFA_SECRET_KEY` | `configured` |

Two more kinds of outcome are reported as values:

- Sending an email and sending a signal are reported as booleans.
- An exception that escapes a request is the response `ServerError`.

Where the settings' own comments and the code disagree, the model follows the code:

- The comments on `ACTIVATION_ID_IGNORE_EXPIRED` and `ACTIVATION_ID_DO_NOT_DELETE` (dwiest/django/users/conf.py:30-41) speak of activation ids that expire and are deleted after use. No modelled code reads these settings: it never deletes an `ActivationId` and never compares `created_at`. A password-reset link therefore stays usable until the next reset request (`Lifecycle.ActivationLinkPersists`), and the registration link keeps answering "already active" (`LegacyViews.SecondActivationIsAlreadyActive`).

Two more behaviours of the code as written:

- Enabling MFA asks for no password, and `MfaDisableForm` is empty, so disabling asks for nothing.
- An active user without an activation row makes the reset request raise `DoesNotExist` (`UserForms.PasswordResetRequested`). Such a user is what the newer `RegistrationView.post` creates (below).
- When the username or the password of the login form is missing, the inherited credential check returns without authenticating. A submitted MFA token without the bypass then makes the login form read `.id` of no user, and `AttributeError` escapes (`AuthForms.Clean`).

## Model

| member | source | states |
|---|---|---|
| Models.ActivationByValue | dwiest/django/users/forms.py:99-101 | `ActivationId.objects.get(value=v)`: not found exactly when no row holds `v`; found names the one row holding `v`; several rows are possible only when values are not distinct |
| Models.ActiveUserByUsername | dwiest/django/users/forms.py:40-44 | `User.objects.get(username=…, is_active=True)`: not found exactly when no active user has that username; found is such a user; several are possible only without unique usernames |
| Models.ValidLookupsAreUnique | dwiest/django/users/models.py:5-6 | in a valid store, neither lookup can raise `MultipleObjectsReturned` |
| Models.DeleteUser | dwiest/django/users/models.py:5 | cascading delete: the user, their activation row and their MFA row disappear; every other row is unchanged; validity is preserved |
| MfaTokenCheck.MfaValidationError | dwiest/django/auth/forms.py:70-82 | the two error objects carry exactly the codes `invalid_mfa_token` and `replayed_mfa_token`, each with its message from the form's table |
| MfaTokenCheck.DecideMfa | dwiest/django/auth/forms.py:44-66 | the check's verdict, with each outcome stated as an iff. Bypass or a `None` token skips. A missing record, or a token other than the current code, is invalid whatever `last_value` holds. The current code equal to `last_value` is replayed. Anything else is accepted |
| MfaTokenCheck.CheckMfa | dwiest/django/auth/forms.py:48-66 | the only write is the checked user's `last_value`, and only on acceptance, when it becomes the token; no row is added or removed |
| MfaTokenCheck.CheckMfaPreservesValid | dwiest/django/users/mfa/models.py:6-7 | a consumed six-digit code fits the six-character `last_value` column, so the store stays valid |
| MfaTokenCheck.AcceptedCodeIsReplayedNext | dwiest/django/auth/forms.py:56-62 | a code just accepted is rejected as replayed when it is submitted again in the same time step |
| MfaTokenCheck.ValidateMfaToken | dwiest/django/auth/forms.py:42-66 | the step-by-step check has exactly the verdict and the MFA table of `CheckMfa`; users and activation rows are untouched |
| MfaTokenCheck.RunChecks | dwiest/django/auth/forms.py:48-66 | a series of checks, each seeing the earlier writes: no record is added or removed, no secret changes, and a user who submitted nothing keeps their record |
| MfaTokenCheck.ReplayNeedsInterveningAcceptance | dwiest/django/auth/forms.py:56-62 | while a user's `last_value` is `t`, `t` can be accepted for them again only after some other code of theirs was accepted |
| MfaTokenCheck.NoCodeAcceptedTwiceInARow | dwiest/django/auth/forms.py:53-62 | across any series of logins, resets and changes, between two acceptances of the same code for the same user, another code of theirs was accepted |
| AuthForms.Clean | dwiest/django/auth/forms.py:40-68 | rejected credentials end the cleaning. With an authenticated user, the shared MFA check runs on that user and a rejection yields that form error. Without an authenticated user, a token left after the bypass raises `AttributeError`, and otherwise the data is returned with no user. Only `last_value` can change |
| UserForms.Registered | dwiest/django/users/forms.py:17-27 | the new user has username and email both equal to the address and is inactive. Exactly one activation row, with the fresh UUID and the creation time, belongs to them. The UUID resolves to the new user. Validity is kept |
| UserForms.Register | dwiest/django/users/forms.py:17-32 | creates the user active, makes it inactive, and then adds the activation row; the result is the store `Registered` describes; the email is sent exactly under `SEND_EMAIL` |
| UserForms.PasswordResetRequested | dwiest/django/users/forms.py:38-50 | an address with no active user is ignored and nothing changes. Otherwise only the value of that user's existing row is replaced; the owner and `created_at` are kept. An active user without a row makes it raise `DoesNotExist`. In a valid store, the active user with that username gets their row's value replaced whenever they hold a row, and the request raises `DoesNotExist` otherwise. Validity is kept |
| UserForms.SendPasswordResetEmail | dwiest/django/users/forms.py:38-55 | the step-by-step request ends in the outcome and store of `PasswordResetRequested`; the email is sent exactly for a reissued link under `SEND_EMAIL` |
| UserForms.ResolvedActivationId | dwiest/django/users/forms.py:96-110 | an absent or empty id fails with `activation_id_missing`. An unknown id fails with `activation_id_invalid`. Success names the active owner of the row holding the id. In a valid store, success holds exactly when an active owner holds the id |
| UserForms.MfaFieldCleaned | dwiest/django/users/forms.py:184-206 | `clean_mfa_token` with a user: the shared check, failing exactly on a rejection with the form's MFA message. Otherwise it returns the token, or `None` under the bypass flag |
| UserForms.ResetConfirmMfaAsWritten | dwiest/django/users/forms.py:112-134 | as written: with no user and a token to check, it raises `AttributeError`; with no user and the bypass on or no token, it returns `None` and writes nothing; with a user, it is the shared check |
| UserForms.AsWrittenResetConfirmRaises | dwiest/django/users/forms.py:119-121 | concrete input: no user, token `"123456"`, no bypass, and the as-written cleaning raises `AttributeError` |
| UserForms.ResetConfirmMfa | dwiest/django/users/forms.py:112-134 | corrected: it never raises, and with no user it reads and writes nothing. It agrees with the as-written code whenever the activation id resolved |
| UserForms.FailedActivationIsReported | dwiest/django/users/forms.py:96-134 | a reset confirmation built without a user, whose activation id fails, is invalid with an `activation_id` error, and no MFA record changes |
| UserForms.ResetConfirmValidMeansOwner | dwiest/django/users/forms.py:96-106 | a valid reset confirmation has clean password fields, and its user is the active owner of the submitted id; in a valid store the cleaning never raises. The form is valid exactly when the passwords are clean, the id resolves and the shared MFA check on its owner does not reject, and then the MFA table is the one that check leaves |
| UserForms.PasswordResetConfirmForm.CleanActivationId | dwiest/django/users/forms.py:96-110 | the outcome of `ResolvedActivationId`; on success, `self.user` becomes the owner and the value is returned unchanged; on failure, `self.user` is kept |
| UserForms.PasswordResetConfirmForm.CleanMfaToken | dwiest/django/users/forms.py:112-134 | the corrected field cleaning, `ResetConfirmMfa`, on the form's user |
| UserForms.PasswordResetConfirmForm.IsValid | dwiest/django/users/forms.py:96-134 | fields are cleaned in order: passwords, then the activation id, then the MFA token against the user set by then, using the corrected token cleaning `ResetConfirmMfa` of the Findings row (as written, an unresolved id with a token to check raises `AttributeError`); an exception ends the cleaning |
| UserForms.ActivationIdIsValid | dwiest/django/users/forms.py:148-155 | with distinct values: true exactly when a value is given and some row holds it. It raises only when values collide |
| UserForms.PasswordChangeSaved | dwiest/django/users/forms.py:220-235 | the notification goes out only under `SEND_EMAIL`, and only when the user's email names an active user; with unique usernames the password is always saved |
| UserForms.PasswordChangeForm.CleanMfaToken | dwiest/django/users/forms.py:184-206 | the shared check on the logged-in user, as in `MfaFieldCleaned` |
| UserForms.PasswordChangeForm.IsValid | dwiest/django/users/forms.py:184-206 | valid exactly when the password fields are clean and the check did not reject. The token is checked, and consumed on acceptance, even when a password field failed |
| UserForms.SavePasswordChange | dwiest/django/users/forms.py:220-235 | `save` of both password-change forms (also users/forms.py:83-98): the outcome of `PasswordChangeSaved` for the form's user |
| LegacyForms.LegacyResolvedActivationId | users/forms.py:71-81 | an empty id is no error and names no user. An unknown id, or one with an inactive owner, fails with `update_failed`. Success names the active owner; in a valid store nothing raises |
| LegacyForms.LegacyChangeCleaned | users/forms.py:65-81 | a valid form had clean passwords and a resolvable id. Without an id, the logged-in user is kept. A changed user is the active owner of the submitted id |
| LegacyForms.ActivationIdRedirectsChange | users/forms.py:73-81 | a resolvable activation id makes the change apply to the id's owner, whoever is logged in |
| LegacyForms.LegacyPasswordChangeForm.CleanActivationId | users/forms.py:71-81 | the outcome of `LegacyResolvedActivationId`: `self.user` becomes the owner on success, and is kept for an empty id or an error |
| LegacyForms.LegacyPasswordChangeForm.IsValid | users/forms.py:65-81 | validation and final user as `LegacyChangeCleaned` states |
| MfaForms.ChooseSecret | dwiest/django/users/mfa/forms.py:27-32 | the priority: a configured secret, else the submitted `secret_key` when data was submitted (`KeyError` without it), else the fresh random secret |
| MfaForms.EnableFieldErrors | dwiest/django/users/mfa/forms.py:10-23 | the token must be exactly 6 characters and the secret exactly 32; both are required |
| MfaForms.EnableTokenCheck | dwiest/django/users/mfa/forms.py:44-52 | it accepts exactly under the bypass flag or when the token equals the current code of the form's secret; otherwise it fails with "Invalid token, please try again" |
| MfaForms.EnableFormValidation | dwiest/django/users/mfa/forms.py:9-52 | the form is valid exactly when both fields have their lengths and the token passes `clean`; since `totp` is total, no case raises (see Left out for secrets pyotp cannot decode) |
| MfaForms.EnableChecksStoredSecret | dwiest/django/users/mfa/forms.py:29-33 | with no configured secret and no bypass, a valid form checked the token against the very secret it submits |
| MfaForms.MfaEnableForm.constructor | dwiest/django/users/mfa/forms.py:28-33 | the TOTP is built from the chosen initial secret |
| MfaForms.MfaEnableForm.Clean | dwiest/django/users/mfa/forms.py:44-52 | the outcome of `EnableTokenCheck` with the form's TOTP secret |
| MfaForms.MfaEnableForm.IsValid | dwiest/django/users/mfa/forms.py:9-52 | the outcome of `EnableFormValidation` for the form's secret |
| MfaForms.NewMfaEnableForm | dwiest/django/users/mfa/forms.py:25-33 | the form is built with the secret of `ChooseSecret`; a submission without `secret_key` raises `KeyError` |
| MfaForms.DisableFormValidation | dwiest/django/users/mfa/forms.py:70-71 | the field-less form is always valid |
| Sessions.FlagPage | dwiest/django/users/views.py:56-61 | an outcome page renders exactly when its flag is present and removes it; otherwise it redirects to its fallback |
| Sessions.ShowOnce | dwiest/django/users/mfa/views.py:93-98 | the step-by-step outcome page gives the response and session of `FlagPage` |
| Sessions.RendersAtMostOncePerSet | dwiest/django/users/views.py:126-131 | over any series of requests, an outcome page renders at most once per setting of its flag, plus one if the flag was already present |
| Sessions.SecondVisitRedirects | dwiest/django/users/views.py:143-148 | right after rendering, the same outcome page redirects |
| MfaViews.EnableMfa | dwiest/django/users/mfa/views.py:80-83 | enabling adds exactly one row for the user, with the submitted secret and no consumed code; other rows are unchanged |
| MfaViews.DisableMfa | dwiest/django/users/mfa/views.py:135 | disabling removes exactly the user's row |
| MfaViews.DisableUndoesEnable | dwiest/django/users/mfa/views.py:133-135 | disabling right after enabling restores the MFA table |
| MfaViews.EnableMfaPreservesValid | dwiest/django/users/mfa/models.py:5-6 | enabling for an existing user without MFA, with a secret that fits, keeps the store valid |
| MfaViews.EnrolmentTokenAcceptedAgain | dwiest/django/users/mfa/views.py:76-83 | enrolment does not record the token, so the code used to enable MFA is accepted once more by a login check in the same time step |
| MfaViews.DisabledUserTokenInvalid | dwiest/django/auth/forms.py:64-66 | after disabling, any submitted token is rejected as `invalid_mfa_token` |
| MfaViews.LoginFlags | dwiest/django/users/mfa/views.py:12-20 | on login, `user_has_mfa` becomes true when a record exists and is never cleared; no other key changes |
| MfaViews.EnabledFlags | dwiest/django/users/mfa/views.py:77-78 | a successful enable sets `mfa_enabled` and `user_has_mfa` true; no other key changes |
| MfaViews.DisabledFlags | dwiest/django/users/mfa/views.py:136-137 | a successful disable sets `mfa_disabled` true and `user_has_mfa` false; no other key changes |
| MfaViews.CheckUserMfa | dwiest/django/users/mfa/views.py:12-20 | the login hook changes the session as `LoginFlags` states |
| MfaViews.MfaStatusGet | dwiest/django/users/mfa/views.py:35-39 | the status page shows `user_has_mfa` exactly when the session flag is true |
| MfaViews.MfaEnableGet | dwiest/django/users/mfa/views.py:52-63 | a user with a record is redirected to the status page; any other user gets the form |
| MfaViews.MfaEnablePost | dwiest/django/users/mfa/views.py:65-87 | with a record: redirect and no change. Otherwise enabling happens exactly when the form is valid: one row with the submitted secret, both flags set, the signal sent, and a redirect to the success page. An invalid form changes nothing |
| MfaViews.MfaEnableSuccessGet | dwiest/django/users/mfa/views.py:93-98 | the `mfa_enabled` page renders once per flag, otherwise redirects to the status page |
| MfaViews.MfaDisableGet | dwiest/django/users/mfa/views.py:113-122 | a user without a record is redirected to the status page; any other user gets the form |
| MfaViews.MfaDisablePost | dwiest/django/users/mfa/views.py:124-141 | without a record: redirect and no change. With one: the row is deleted, `mfa_disabled` is set true and `user_has_mfa` false, the signal is sent, and it redirects to the success page |
| MfaViews.MfaDisableSuccessGet | dwiest/django/users/mfa/views.py:147-152 | the `mfa_disabled` page renders once per flag, otherwise redirects to the status page |
| MfaViews.StatusFlagTracksRecord | dwiest/django/users/mfa/views.py:76-139 | once `user_has_mfa` agrees with record presence, it keeps agreeing through any logins, enables, disables, MFA checks and success pages |
| MfaViews.FreshLoginAgrees | dwiest/django/users/mfa/views.py:12-20 | logging in to a fresh session makes `user_has_mfa` agree with record presence |
| AccountViews.RegistrationPost | dwiest/django/users/views.py:35-44 | the form is saved exactly when it is valid; valid sets `registration_success`, invalid sets `registration_failed`, and each redirects to its page |
| AccountViews.RegistrationSuccessGet | dwiest/django/users/views.py:56-61 | renders once per `registration_success` flag, otherwise redirects to login |
| AccountViews.RegistrationFailedGet | dwiest/django/users/views.py:73-78 | renders once per `registration_failed` flag, otherwise redirects to login |
| AccountViews.RegistrationConfirmGet | dwiest/django/users/views.py:93-114 | without an activation id it neither validates nor saves and sets the failure flag. Otherwise it saves exactly when the form is valid. Each outcome sets its flag and redirects |
| AccountViews.RegistrationConfirmSuccessGet | dwiest/django/users/views.py:126-131 | renders once per `registration_confirm_success` flag, otherwise redirects to login |
| AccountViews.RegistrationConfirmFailedGet | dwiest/django/users/views.py:143-148 | renders once per `registration_confirm_failed` flag, otherwise redirects to login |
| AccountViews.SendPasswordResetPost | dwiest/django/users/views.py:167-176 | a valid form runs the reset request. It sets `password_reset` and redirects whether or not the address exists, unless the request raised. An invalid form changes nothing |
| AccountViews.SendPasswordResetSuccessGet | dwiest/django/users/views.py:188-193 | renders once per `password_reset` flag, otherwise redirects to login |
| AccountViews.PasswordResetConfirmGet | dwiest/django/users/views.py:208-218 | only an absent activation id is turned away, to the failure page and without its flag; otherwise it renders the form |
| AccountViews.UnflaggedFailurePageRedirectsHome | dwiest/django/users/views.py:267-272 | the failure page reached without its flag redirects home and leaves the session unchanged |
| AccountViews.PasswordResetConfirmPost | dwiest/django/users/views.py:220-238 | a valid form sets `password_reset_confirm` and saves the password of the active owner of the submitted id. An activation-id error sets `password_reset_failed` and redirects. Other errors re-render. The MFA write happens in every case. The form is cleaned with the corrected token cleaning `ResetConfirmMfa` of the Findings row; as written, an unresolved id sent with a token and no bypass raises `AttributeError` and the view answers with a server error instead of the redirect |
| AccountViews.PasswordResetConfirmSuccessGet | dwiest/django/users/views.py:250-255 | renders once per `password_reset_confirm` flag, otherwise redirects home |
| AccountViews.PasswordResetFailedGet | dwiest/django/users/views.py:267-272 | renders once per `password_reset_failed` flag, otherwise redirects home |
| AccountViews.PasswordChangePost | dwiest/django/users/views.py:289-300 | saves exactly when the passwords are clean and the check did not reject; a save sets `password_changed` and redirects; an invalid form re-renders, but the token was still checked |
| AccountViews.PasswordChangeSuccessGet | dwiest/django/users/views.py:312-317 | renders once per `password_changed` flag, otherwise redirects home |
| LegacyViews.Activation | views.py:29-50 | an unknown id or a missing owner changes nothing. An already active owner reports `already_active` and changes nothing. An inactive owner becomes active and nothing else changes. In a valid store, the owner of the row holding the id is activated exactly when inactive, and gives `already_active` otherwise. Validity is kept |
| LegacyViews.SecondActivationIsAlreadyActive | views.py:33-43 | the activation row is not consumed: opening the same link again reports `already_active` and changes nothing |
| LegacyViews.RegistrationLinkActivates | views.py:33-43 | the UUID stored at registration activates exactly the account registered with it |
| LegacyViews.ActivationContext | views.py:36-50 | `successful` is true exactly for an activation; `already_active` appears exactly for an already-active account |
| LegacyViews.ActivateRegistrationGet | views.py:29-50 | a request without `id` raises. Otherwise the store and the rendered context are those of `Activation`, and the email goes out only for an activation under `SEND_EMAIL` |
| LegacyViews.RegistrationPost | views.py:16-23 | `completed` equals form validity, and the store is registered exactly when the form is valid |
| LegacyViews.SendPasswordResetPost | views.py:56-63 | `completed` equals form validity; a valid form runs the reset request |
| LegacyViews.PasswordChangePost | views.py:69-78 | a valid form is saved for the form's user, who is the activation id's owner when one resolved; `completed` equals validity |
| Lifecycle.StepPreservesValid | dwiest/django/users/models.py:4-7 | each request that writes to the store keeps it valid |
| Lifecycle.RunPreservesValid | dwiest/django/users/mfa/models.py:4-7 | the store stays valid over any series of requests: one row of each kind per user, owners exist, usernames unique, activation values distinct, columns within their widths |
| Lifecycle.ActivationLinkPersists | views.py:32-43 | activation ids neither expire nor get consumed. A user's row keeps its value, and keeps resolving to them, through any requests other than a reset request or the user's deletion |

## Left out

- Email composition and transport (MIME, SMTP, proxies, Celery): each send is a boolean `emailSent`, and the address it goes to is not modelled.
- The `mfa_enabled` and `mfa_disabled` signals and their receivers: they are reported as a boolean `signalled`.
- The TOTP algorithm and random secret generation are foreign library calls. They are the parameters `totp` and `randomSecret`.
- MfaForms.EnableFormValidation: `totp` is a total function, so computing a code never fails. In the source, `self.totp.now()` (dwiest/django/users/mfa/forms.py:49) base32-decodes the submitted `secret_key`, a hidden field the client can edit. When the bypass is off, a 32-character secret that is not base32 (`"1"*32`, say) raises `binascii.Error` and the page answers with a server error. The model instead reports "Invalid token" or, if the code matches, accepts. `MfaForms.EnableTokenCheck` and `MfaForms.MfaEnableForm.Clean` share this gap.
- MfaTokenCheck.DecideMfa: the same holds for a stored secret. A record whose secret pyotp cannot decode makes the checks at dwiest/django/auth/forms.py:51-53 and dwiest/django/users/forms.py:122-124, 194-196 raise whenever a token is checked. Such a secret can be enrolled under `MFA_ACCEPT_ANY_VALUE` or a configured `MFA_SECRET_KEY`. The model reads the code through `totp` and gives a verdict instead.
- The QR image, the provisioning URI and `MFA_ISSUER_NAME` (mfa/forms.py:34-42, 54-67) are rendering only.
- Framework forms are reduced to their verdict:
  - the inherited credential check of the login form is the parameter `credentials` (rejected, not authenticated, or authenticated);
  - the validation of `UserCreationForm`, of the e-mail field and of `RegistrationConfirmForm` is `formValid` (`RegistrationConfirmForm` is not part of this model);
  - the password validators are `passwordErrors`.
  - `UserCreationForm.save` and `SetPasswordForm.save` (password hashing) are reduced to `saved` and `passwordSetFor`.
- The newer `RegistrationView.post` calls `form.save()` (dwiest/django/users/views.py:39), the inherited `UserCreationForm.save`, and never `register`. The user it creates is active and has no activation row, so a later reset request for that address raises `DoesNotExist`. Since what that `save` stores is not modelled, this registration is not a `Lifecycle.Op`; the `Lifecycle.RegisterOp` request is `register`, which the older `views.py` calls.
- Field cleaning by the framework is left out. An empty field is `None`; whitespace stripping and `''`-versus-`None` conversions are not modelled.
- Framework reactions to the code as written are not modelled:
  - `MfaEnableView.post` and `MfaDisableView.post` pass `user=` to form constructors that do not accept it;
  - `MfaEnableForm.clean` returns `True` instead of the cleaned data.
  The views are modelled as they are evidently meant to run.
- Requests by anonymous visitors are not modelled. The MFA views and the password-change views take the logged-in user's id (`requires user in store.users`). This hides one path: the older `PasswordChangeView` (views.py:66-78) has no login requirement and is routed publicly as `changePassword` (users/urls.py:28), so an anonymous visitor holding an activation id is how the older reset link is completed. `LegacyForms.ActivationIdRedirectsChange` states for any starting user that a resolvable id makes the change apply to the id's owner; `LegacyViews.PasswordChangePost` itself is not stated for an anonymous visitor.
- Settings are parameters. An `MFA_SECRET_KEY` attribute that is present but holds `None` is not distinguished from an absent one.
- The expiry, deletion and resend settings (conf.py:40-54) are read by no shown code and are not modelled.
- `update_session_auth_hash`, `messages`, `render` and `reverse` are left out. A rendered context keeps only its boolean entries. Redirect targets are route names.
- Debug `print` output is left out.
- Concurrency is left out: requests are modelled one at a time.
- The broken imports of users/forms.py are ignored.
- Lifecycle.ActivationLinkPersists: excludes every reset request, not only the owner's, to keep the proof per request simple.

## Findings

| source | as written | input that shows it | evidently intended | confidence | as-written member | corrected member |
|---|---|---|---|---|---|---|
| dwiest/django/users/forms.py:119-121 | `PasswordResetConfirmForm.clean_mfa_token` reads `self.user.id`. The confirmation view builds the form with `user=None` (dwiest/django/users/views.py:221), and `self.user` is set only when the activation id resolves | a POST whose activation id is unknown or missing, with any six-character MFA token and no bypass: `AttributeError` escapes instead of the `activation_id` error and the redirect to the failure page | with no user to check against, skip the token check, so that the activation-id error is reported | not executed | UserForms.ResetConfirmMfaAsWritten, UserForms.AsWrittenResetConfirmRaises | UserForms.ResetConfirmMfa |
