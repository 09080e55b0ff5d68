/**
 * The MFA enrolment forms (dwiest/django/users/mfa/forms.py): the choice of the
 * secret shown to the user, the field constraints, and the token check of
 * `MfaEnableForm.clean`. `MfaDisableForm` declares nothing.
 *
 * The QR code and provisioning URI built in `__init__` are not modelled; `totp`
 * stands for the current code of a secret, as in MfaTokenCheck.
 */
module MfaForms {
  import opened Wrappers
  import opened Models
  import opened MfaTokenCheck
  import opened UserForms

  const INVALID_TOKEN_MESSAGE := "Invalid token, please try again"
  const KEY_ERROR := "KeyError"
  const TOKEN_FIELD := "token"
  const SECRET_KEY_FIELD := "secret_key"
  /** The form-wide error key of Django, under which `clean` errors are filed. */
  const NON_FIELD_ERRORS := "__all__"

  /** Both fields fix their length: `min_length` equals `max_length`. */
  const TokenLength: nat := 6
  const SecretKeyLength: nat := 32

  /**
   * The secret `__init__` puts in `initial['secret_key']`, by priority: a configured
   * `MFA_SECRET_KEY`, else the submitted `secret_key` when data was submitted at all
   * (raising `KeyError` when that data lacks the key), else a fresh random secret.
   * `data` is `None` without submitted data; an empty submission counts as none.
   */
  function ChooseSecret(configured: Option<string>, data: Option<map<string, string>>, randomSecret: string)
    : (r: Result<string, string>)
    ensures configured.Some? ==> r == Ok(configured.value)
    ensures configured.None? && data.Some? && |data.value| > 0 ==>
      if SECRET_KEY_FIELD in data.value then r == Ok(data.value[SECRET_KEY_FIELD]) else r == Err(KEY_ERROR)
    ensures configured.None? && (data.None? || |data.value| == 0) ==> r == Ok(randomSecret)
    ensures r.Ok? ==> r.value == randomSecret || (configured.Some? && r.value == configured.value)
                      || (data.Some? && SECRET_KEY_FIELD in data.value && r.value == data.value[SECRET_KEY_FIELD])
  {
    if configured.Some? then Ok(configured.value)
    else if data.Some? && |data.value| > 0 then
      if SECRET_KEY_FIELD in data.value then Ok(data.value[SECRET_KEY_FIELD]) else Err(KEY_ERROR)
    else Ok(randomSecret)
  }

  /**
   * The field errors of the enable form: both fields are required and must have
   * exactly their length. An absent or empty value is `None`.
   */
  function EnableFieldErrors(token: Option<string>, secretKey: Option<string>): (errors: set<string>)
    ensures TOKEN_FIELD !in errors <==> token.Some? && |token.value| == TokenLength
    ensures SECRET_KEY_FIELD !in errors <==> secretKey.Some? && |secretKey.value| == SecretKeyLength
    ensures errors <= {TOKEN_FIELD, SECRET_KEY_FIELD}
  {
    (if token.Some? && |token.value| == TokenLength then {} else {TOKEN_FIELD})
    + (if secretKey.Some? && |secretKey.value| == SecretKeyLength then {} else {SECRET_KEY_FIELD})
  }

  /**
   * `MfaEnableForm.clean`: with `MFA_ACCEPT_ANY_VALUE` every token passes; otherwise
   * the cleaned token must equal the current code of the form's secret. `token` is
   * the cleaned value, `None` when the field itself failed.
   */
  function EnableTokenCheck(acceptAny: bool, token: Option<string>, formSecret: string, totp: string -> string)
    : (r: Result<bool, string>)
    ensures r.Ok? <==> acceptAny || token == Some(totp(formSecret))
    ensures r.Ok? ==> r.value
    ensures r.Err? ==> r.error == INVALID_TOKEN_MESSAGE
  {
    if acceptAny then Ok(true)
    else if token == Some(totp(formSecret)) then Ok(true)
    else Err(INVALID_TOKEN_MESSAGE)
  }

  /** `is_valid()` of the enable form: the fields, then `clean` on what they yielded. */
  function EnableFormValidation(acceptAny: bool, token: Option<string>, secretKey: Option<string>, formSecret: string,
                                totp: string -> string)
    : (o: Validation)
    ensures o == FormValid <==>
      && token.Some? && |token.value| == TokenLength
      && secretKey.Some? && |secretKey.value| == SecretKeyLength
      && (acceptAny || token.value == totp(formSecret))
    ensures !o.FormRaised?
  {
    var fieldErrors := EnableFieldErrors(token, secretKey);
    var cleaned := if TOKEN_FIELD in fieldErrors then None else token;
    var check := EnableTokenCheck(acceptAny, cleaned, formSecret, totp);
    ValidationOf(fieldErrors + (if check.Err? then {NON_FIELD_ERRORS} else {}))
  }

  /**
   * Without a configured secret, a valid enable form built from its own submission
   * without the bypass flag has checked the token against the very secret it
   * submits, which is the secret the enable view stores.
   */
  lemma EnableChecksStoredSecret(data: map<string, string>, randomSecret: string, token: Option<string>,
                                 totp: string -> string)
    requires |data| > 0 && SECRET_KEY_FIELD in data
    requires EnableFormValidation(false, token, Some(data[SECRET_KEY_FIELD]),
                                  ChooseSecret(None, Some(data), randomSecret).value, totp) == FormValid
    ensures token == Some(totp(data[SECRET_KEY_FIELD]))
    ensures |data[SECRET_KEY_FIELD]| == SecretKeyLength
  {
  }

  /** The enrolment form; `initialSecretKey` is `initial['secret_key']`, `totpSecret` the secret of `self.totp`. */
  class MfaEnableForm {
    var initialSecretKey: string
    var totpSecret: string

    /** `__init__` once the secret is chosen: the initial value is set, then the TOTP is built from it. */
    constructor (secret: string)
      ensures initialSecretKey == secret && totpSecret == secret
    {
      initialSecretKey := secret;
      totpSecret := initialSecretKey;
    }

    /** `clean`. */
    method Clean(acceptAny: bool, token: Option<string>, totp: string -> string) returns (r: Result<bool, string>)
      ensures r == EnableTokenCheck(acceptAny, token, totpSecret, totp)
    {
      if acceptAny {
        return Ok(true);
      }
      if token == Some(totp(totpSecret)) {
        return Ok(true);
      }
      return Err(INVALID_TOKEN_MESSAGE);
    }

    /** `is_valid()`. */
    method IsValid(acceptAny: bool, token: Option<string>, secretKey: Option<string>, totp: string -> string)
      returns (o: Validation)
      ensures o == EnableFormValidation(acceptAny, token, secretKey, totpSecret, totp)
    {
      var errors := EnableFieldErrors(token, secretKey);
      var cleaned := if TOKEN_FIELD in errors then None else token;
      var check := Clean(acceptAny, cleaned, totp);
      if check.Err? {
        errors := errors + {NON_FIELD_ERRORS};
      }
      o := ValidationOf(errors);
    }
  }

  /** `MfaEnableForm(...)`: the secret is chosen step by step; a submission without `secret_key` raises. */
  method NewMfaEnableForm(configured: Option<string>, data: Option<map<string, string>>, randomSecret: string)
    returns (r: Result<MfaEnableForm, string>)
    ensures r.Err? <==> ChooseSecret(configured, data, randomSecret).Err?
    ensures r.Err? ==> r.error == KEY_ERROR
    ensures r.Ok? ==> && fresh(r.value)
                      && r.value.initialSecretKey == ChooseSecret(configured, data, randomSecret).value
                      && r.value.totpSecret == r.value.initialSecretKey
  {
    var secret: string;
    if configured.Some? {
      secret := configured.value;
    } else if data.Some? && |data.value| > 0 {
      if SECRET_KEY_FIELD !in data.value {
        return Err(KEY_ERROR);
      }
      secret := data.value[SECRET_KEY_FIELD];
    } else {
      secret := randomSecret;
    }
    var form := new MfaEnableForm(secret);
    return Ok(form);
  }

  /** `MfaDisableForm` has no fields and no `clean`: every submission is valid. */
  function DisableFormValidation(): (o: Validation)
    ensures o == FormValid
  {
    ValidationOf({})
  }
}
