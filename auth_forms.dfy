/** The login form (dwiest/django/auth/forms.py): credential check, then the MFA check. */
module AuthForms {
  import opened Wrappers
  import opened Models
  import opened MfaTokenCheck

  /**
   * What the inherited `AuthenticationForm.clean` leaves behind: it raises on bad
   * credentials, returns without authenticating when the username or the password
   * is missing (so `user_cache` stays `None`), or caches the authenticated user.
   */
  datatype Credentials = Rejected | NotAuthenticated | Authenticated(user: UserId)

  /** How `AuthenticationForm.clean` ends. */
  datatype LoginClean =
    | CredentialsRejected                  // the inherited check raised; nothing below ran
    | MfaRejected(error: ValidationError)  // one of the two MFA errors was raised
    | CleanRaised(exception: string)       // an exception escaped the form
    | Cleaned(user: Option<UserId>)        // the form's data is returned; `user` is `user_cache`

  /**
   * `AuthenticationForm.clean`. `credentials` is what the inherited check yields and
   * `acceptAnyValue` is `USERS_MFA_ACCEPT_ANY_VALUE`. The MFA check runs only when a
   * token is left after the bypass, and on `user_cache`: with an authenticated user it
   * is the shared check, writing nothing but that user's `last_value`, and only when
   * it accepts; without one, reading `user_cache.id` raises.
   */
  method Clean(store: Store, credentials: Credentials, mfaToken: Option<string>, acceptAnyValue: bool,
               totp: string -> string, messages: MfaMessages)
    returns (r: LoginClean)
    modifies store
    ensures credentials.Rejected? ==> r == CredentialsRejected && store.mfaModels == old(store.mfaModels)
    ensures credentials.NotAuthenticated? ==>
      && store.mfaModels == old(store.mfaModels)
      && r == if !acceptAnyValue && mfaToken.Some? then CleanRaised(ATTRIBUTE_ERROR) else Cleaned(None)
    ensures credentials.Authenticated? ==>
      var check := CheckMfa(old(store.mfaModels), credentials.user, acceptAnyValue, mfaToken, totp);
      && store.mfaModels == check.1
      && r == if check.0.Rejected? then MfaRejected(MfaValidationError(check.0.error, messages))
              else Cleaned(Some(credentials.user))
    ensures store.users == old(store.users) && store.activationIds == old(store.activationIds)
  {
    match credentials
    case Rejected =>
      return CredentialsRejected;
    case NotAuthenticated =>
      if !acceptAnyValue && mfaToken.Some? {
        return CleanRaised(ATTRIBUTE_ERROR);
      }
      return Cleaned(None);
    case Authenticated(user) =>
      var verdict := ValidateMfaToken(store, user, acceptAnyValue, mfaToken, totp);
      if verdict.Rejected? {
        r := MfaRejected(MfaValidationError(verdict.error, messages));
      } else {
        r := Cleaned(Some(user));
      }
  }
}
