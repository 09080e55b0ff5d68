/**
 * The second-factor check with anti-replay. The source writes it out three times
 * with the same rules: in the login form (dwiest/django/auth/forms.py) and in the
 * `clean_mfa_token` of the password-reset and password-change forms
 * (dwiest/django/users/forms.py). The decision is defined once here; each form
 * calls it and adds what its copy does differently (the bypass setting, the user
 * it reads, its messages, what it returns and where its error goes).
 *
 * The current TOTP code is not computed: `totp` maps a secret to the code the
 * authenticator shows for it at the time of the request (section 4 of RFC 6238).
 */
module MfaTokenCheck {
  import opened Wrappers
  import opened Models

  const INVALID_MFA_TOKEN := "invalid_mfa_token"
  const REPLAYED_MFA_TOKEN := "replayed_mfa_token"

  datatype MfaError = InvalidMfaToken | ReplayedMfaToken

  /** A form error: the user-facing message and its code. */
  datatype ValidationError = ValidationError(message: string, code: string)

  /** The messages a form's error table holds for the two codes. */
  datatype MfaMessages = MfaMessages(invalid: string, replayed: string)

  /** The error objects built by `get_invalid_mfa_token_error` and `get_replayed_mfa_token_error`. */
  function MfaValidationError(e: MfaError, messages: MfaMessages): (r: ValidationError)
    ensures r.code == INVALID_MFA_TOKEN || r.code == REPLAYED_MFA_TOKEN
    ensures r.code == INVALID_MFA_TOKEN <==> e == InvalidMfaToken
    ensures r.message == if e == InvalidMfaToken then messages.invalid else messages.replayed
  {
    match e
    case InvalidMfaToken => ValidationError(messages.invalid, INVALID_MFA_TOKEN)
    case ReplayedMfaToken => ValidationError(messages.replayed, REPLAYED_MFA_TOKEN)
  }

  /** What the check decided: no check, the token was consumed, or a form error. */
  datatype MfaVerdict = Skipped | Accepted(token: string) | Rejected(error: MfaError)

  function RecordOf(mfa: map<UserId, MfaModel>, user: UserId): Option<MfaModel> {
    if user in mfa then Some(mfa[user]) else None
  }

  /**
   * The decision, with the record the check reads. The bypass flag discards the
   * token; a `None` token skips the check; a missing record is invalid; a token
   * other than the current code is invalid whatever `lastValue` holds; the current
   * code equal to `lastValue` is a replay; anything else is accepted.
   */
  function DecideMfa(bypass: bool, token: Option<string>, record: Option<MfaModel>, totp: string -> string): (v: MfaVerdict)
    ensures v.Skipped? <==> bypass || token.None?
    ensures v == Rejected(InvalidMfaToken) <==>
      !bypass && token.Some? && (record.None? || token.value != totp(record.value.secretKey))
    ensures v == Rejected(ReplayedMfaToken) <==>
      !bypass && token.Some? && record.Some? && token.value == totp(record.value.secretKey)
      && record.value.lastValue == token
    ensures v.Accepted? <==>
      !bypass && token.Some? && record.Some? && token.value == totp(record.value.secretKey)
      && record.value.lastValue != token
    ensures v.Accepted? ==> Some(v.token) == token
  {
    var t := if bypass then None else token;
    if t.None? then Skipped
    else if record.None? then Rejected(InvalidMfaToken)
    else if t.value != totp(record.value.secretKey) then Rejected(InvalidMfaToken)
    else if record.value.lastValue == t then Rejected(ReplayedMfaToken)
    else Accepted(t.value)
  }

  /**
   * The check as a transition of the MFA table: the only write is `lastValue`
   * of the checked user's record, and only on acceptance.
   */
  function CheckMfa(mfa: map<UserId, MfaModel>, user: UserId, bypass: bool, token: Option<string>, totp: string -> string)
    : (r: (MfaVerdict, map<UserId, MfaModel>))
    ensures r.0 == DecideMfa(bypass, token, RecordOf(mfa, user), totp)
    ensures r.1.Keys == mfa.Keys
    ensures forall u | u in mfa && u != user :: r.1[u] == mfa[u]
    ensures !r.0.Accepted? ==> r.1 == mfa
    ensures r.0.Accepted? ==> user in mfa && r.1[user] == mfa[user].(lastValue := Some(r.0.token))
  {
    var v := DecideMfa(bypass, token, RecordOf(mfa, user), totp);
    if v.Accepted? then (v, mfa[user := mfa[user].(lastValue := Some(v.token))]) else (v, mfa)
  }

  /** The codes pyotp produces by default are six digits long. */
  ghost predicate SixDigitCodes(totp: string -> string) {
    forall s :: |totp(s)| == 6
  }

  /** A consumed code fits the six-character `last_value` column, so the store stays valid. */
  lemma CheckMfaPreservesValid(db: Db, user: UserId, bypass: bool, token: Option<string>, totp: string -> string)
    requires Valid(db) && SixDigitCodes(totp)
    ensures Valid(db.(mfaModels := CheckMfa(db.mfaModels, user, bypass, token, totp).1))
  {
    var r := CheckMfa(db.mfaModels, user, bypass, token, totp);
    if r.0.Accepted? {
      assert |r.0.token| == |totp(db.mfaModels[user].secretKey)| == 6;
      assert MfaRowFits(r.1[user]);
    }
  }

  /** Within one time step, the code just accepted is rejected as a replay when submitted again. */
  lemma AcceptedCodeIsReplayedNext(mfa: map<UserId, MfaModel>, user: UserId, token: string, totp: string -> string)
    requires CheckMfa(mfa, user, false, Some(token), totp).0.Accepted?
    ensures CheckMfa(CheckMfa(mfa, user, false, Some(token), totp).1, user, false, Some(token), totp).0
      == Rejected(ReplayedMfaToken)
  {
  }

  /**
   * The check, step by step as the forms write it: the bypass flag overwrites the
   * token, the record is looked up, compared, and `last_value` is saved.
   */
  method ValidateMfaToken(store: Store, user: UserId, bypass: bool, submitted: Option<string>, totp: string -> string)
    returns (v: MfaVerdict)
    modifies store
    ensures (v, store.mfaModels) == CheckMfa(old(store.mfaModels), user, bypass, submitted, totp)
    ensures store.users == old(store.users) && store.activationIds == old(store.activationIds)
  {
    var token := submitted;
    if bypass {
      token := None;
    }
    if token == None {
      return Skipped;
    }
    if user !in store.mfaModels {
      return Rejected(InvalidMfaToken);
    }
    var userMfa := store.mfaModels[user];
    if token.value != totp(userMfa.secretKey) {
      v := Rejected(InvalidMfaToken);
    } else if token == userMfa.lastValue {
      v := Rejected(ReplayedMfaToken);
    } else {
      userMfa := userMfa.(lastValue := token);
      store.mfaModels := store.mfaModels[user := userMfa];
      v := Accepted(token.value);
    }
  }

  /** One submission of a token to any of the three forms, at the time `totp` stands for. */
  datatype Attempt = Attempt(user: UserId, bypass: bool, token: Option<string>, totp: string -> string)

  /**
   * The verdicts of a series of submissions, each seeing the writes of the ones
   * before it. The series adds and removes no record and never changes a secret, and
   * a user who submitted nothing keeps their record as it was.
   */
  function RunChecks(mfa: map<UserId, MfaModel>, attempts: seq<Attempt>): (r: (seq<MfaVerdict>, map<UserId, MfaModel>))
    ensures |r.0| == |attempts|
    ensures r.1.Keys == mfa.Keys
    ensures forall u | u in mfa :: r.1[u].secretKey == mfa[u].secretKey
    ensures forall u | u in mfa && (forall i | 0 <= i < |attempts| :: attempts[i].user != u) :: r.1[u] == mfa[u]
    decreases |attempts|
  {
    if |attempts| == 0 then ([], mfa)
    else
      var a := attempts[0];
      var step := CheckMfa(mfa, a.user, a.bypass, a.token, a.totp);
      var rest := RunChecks(step.1, attempts[1..]);
      ([step.0] + rest.0, rest.1)
  }

  /** Some attempt by `user` strictly between `lo` and `hi` had a code other than `t` accepted. */
  ghost predicate OtherAcceptedBetween(verdicts: seq<MfaVerdict>, attempts: seq<Attempt>, lo: int, hi: int, user: UserId,
                                       t: string)
  {
    exists k :: lo < k < hi && 0 <= k < |verdicts| && k < |attempts|
      && attempts[k].user == user && verdicts[k].Accepted? && verdicts[k].token != t
  }

  /** A witness among the later attempts of a series is one for the whole series, one position on. */
  lemma OtherAcceptedShifts(v: MfaVerdict, rest: seq<MfaVerdict>, a: Attempt, tail: seq<Attempt>,
                            lo: int, lo': int, hi: int, user: UserId, t: string)
    requires lo - 1 <= lo' && OtherAcceptedBetween(rest, tail, lo', hi - 1, user, t)
    ensures OtherAcceptedBetween([v] + rest, [a] + tail, lo, hi, user, t)
  {
    var k :| lo' < k < hi - 1 && 0 <= k < |rest| && k < |tail|
      && tail[k].user == user && rest[k].Accepted? && rest[k].token != t;
    assert ([v] + rest)[k + 1] == rest[k] && ([a] + tail)[k + 1] == tail[k];
  }

  /**
   * While a user's `lastValue` holds `t`, an acceptance of `t` for that user must be
   * preceded by the acceptance of some other code for them.
   */
  lemma {:induction false} ReplayNeedsInterveningAcceptance(
    mfa: map<UserId, MfaModel>, attempts: seq<Attempt>, user: UserId, t: string, j: nat)
    requires user in mfa && mfa[user].lastValue == Some(t)
    requires j < |attempts| && attempts[j].user == user
    requires RunChecks(mfa, attempts).0[j] == Accepted(t)
    ensures OtherAcceptedBetween(RunChecks(mfa, attempts).0, attempts, -1, j, user, t)
    decreases |attempts|
  {
    var a := attempts[0];
    var step := CheckMfa(mfa, a.user, a.bypass, a.token, a.totp);
    var rest := RunChecks(step.1, attempts[1..]);
    var vs := RunChecks(mfa, attempts).0;
    assert vs == [step.0] + rest.0;
    assert attempts == [a] + attempts[1..];
    if a.user == user && step.0.Accepted? {
      assert step.0.token != t;
      assert j != 0;
      assert vs[0].Accepted? && vs[0].token != t;
    } else {
      assert step.1[user] == mfa[user];
      assert rest.0[j - 1] == vs[j] && attempts[1..][j - 1] == attempts[j];
      ReplayNeedsInterveningAcceptance(step.1, attempts[1..], user, t, j - 1);
      OtherAcceptedShifts(step.0, rest.0, a, attempts[1..], -1, -1, j, user, t);
    }
  }

  /**
   * Anti-replay across any series of logins, password resets and password changes:
   * between two acceptances of the same code for the same user, some other code of
   * theirs was accepted. So no code is ever accepted twice in a row.
   */
  lemma {:induction false} NoCodeAcceptedTwiceInARow(
    mfa: map<UserId, MfaModel>, attempts: seq<Attempt>, i: nat, j: nat, t: string)
    requires i < j < |attempts| && attempts[i].user == attempts[j].user
    requires RunChecks(mfa, attempts).0[i] == Accepted(t)
    requires RunChecks(mfa, attempts).0[j] == Accepted(t)
    ensures OtherAcceptedBetween(RunChecks(mfa, attempts).0, attempts, i, j, attempts[i].user, t)
    decreases |attempts|
  {
    var a := attempts[0];
    var step := CheckMfa(mfa, a.user, a.bypass, a.token, a.totp);
    var rest := RunChecks(step.1, attempts[1..]);
    var vs := RunChecks(mfa, attempts).0;
    assert vs == [step.0] + rest.0;
    assert attempts == [a] + attempts[1..];
    assert rest.0[j - 1] == vs[j] && attempts[1..][j - 1] == attempts[j];
    if i == 0 {
      assert step.1[a.user].lastValue == Some(t);
      ReplayNeedsInterveningAcceptance(step.1, attempts[1..], a.user, t, j - 1);
      OtherAcceptedShifts(step.0, rest.0, a, attempts[1..], 0, -1, j, a.user, t);
    } else {
      assert rest.0[i - 1] == vs[i] && attempts[1..][i - 1] == attempts[i];
      NoCodeAcceptedTwiceInARow(step.1, attempts[1..], i - 1, j - 1, t);
      OtherAcceptedShifts(step.0, rest.0, a, attempts[1..], i, i - 1, j, attempts[i].user, t);
    }
  }
}
