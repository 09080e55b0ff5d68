/**
 * Every change the core makes to the store, as one series of requests, and the
 * invariants that hold across any such series: the store stays `Valid`, and an
 * activation link stays usable until its owner requests a new one or is deleted.
 */
module Lifecycle {
  import opened Wrappers
  import opened Models
  import opened MfaTokenCheck
  import opened UserForms
  import opened MfaViews
  import opened LegacyViews

  /** A request that writes to the store, with the fresh values it draws. */
  datatype Op =
    | RegisterOp(newUser: UserId, address: string, uuid: string, now: int)
    | ResetRequestOp(email: string, uuid: string)
    | ActivateOp(value: string)
    | MfaCheckOp(user: UserId, bypass: bool, token: Option<string>, totp: string -> string)
    | EnableMfaOp(user: UserId, secret: string)
    | DisableMfaOp(user: UserId)
    | DeleteUserOp(user: UserId)

  /**
   * What each request may assume: a new user id and a free address (checked by the
   * registration form), a UUID no row holds, a secret of the field's 32 characters,
   * an existing user without MFA for enabling, and six-digit codes.
   */
  ghost predicate Admissible(db: Db, op: Op) {
    match op
    case RegisterOp(newUser, address, uuid, _) =>
      newUser !in db.users && UsernameFree(db.users, address)
      && ValueUnused(db.activationIds, uuid) && |uuid| <= ActivationValueMaxLength
    case ResetRequestOp(_, uuid) => ValueUnused(db.activationIds, uuid) && |uuid| <= ActivationValueMaxLength
    case ActivateOp(_) => true
    case MfaCheckOp(_, _, _, totp) => SixDigitCodes(totp)
    case EnableMfaOp(user, secret) => user in db.users && user !in db.mfaModels && |secret| <= SecretKeyMaxLength
    case DisableMfaOp(_) => true
    case DeleteUserOp(_) => true
  }

  /** The store after one request. */
  function Step(db: Db, op: Op): Db
    requires Admissible(db, op)
  {
    match op
    case RegisterOp(newUser, address, uuid, now) => Registered(db, newUser, address, uuid, now)
    case ResetRequestOp(email, uuid) => PasswordResetRequested(db, email, uuid).1
    case ActivateOp(value) => Activation(db, value).1
    case MfaCheckOp(user, bypass, token, totp) => db.(mfaModels := CheckMfa(db.mfaModels, user, bypass, token, totp).1)
    case EnableMfaOp(user, secret) => db.(mfaModels := EnableMfa(db.mfaModels, user, secret))
    case DisableMfaOp(user) => db.(mfaModels := DisableMfa(db.mfaModels, user))
    case DeleteUserOp(user) => DeleteUser(db, user)
  }

  /** Each request of the series may assume what it needs in the store the ones before it left. */
  ghost predicate AllAdmissible(db: Db, ops: seq<Op>)
    decreases |ops|
  {
    |ops| == 0 || (Admissible(db, ops[0]) && AllAdmissible(Step(db, ops[0]), ops[1..]))
  }

  function Run(db: Db, ops: seq<Op>): Db
    requires AllAdmissible(db, ops)
    decreases |ops|
  {
    if |ops| == 0 then db else Run(Step(db, ops[0]), ops[1..])
  }

  /** Every request keeps the store valid. */
  lemma StepPreservesValid(db: Db, op: Op)
    requires Valid(db) && Admissible(db, op)
    ensures Valid(Step(db, op))
  {
    match op
    case RegisterOp(_, _, _, _) =>
    case ResetRequestOp(_, _) =>
    case ActivateOp(_) =>
    case MfaCheckOp(user, bypass, token, totp) => CheckMfaPreservesValid(db, user, bypass, token, totp);
    case EnableMfaOp(user, secret) => EnableMfaPreservesValid(db, user, secret);
    case DisableMfaOp(user) =>
    case DeleteUserOp(_) =>
  }

  /**
   * One row of each kind per user, rows owned by existing users, unique usernames,
   * distinct activation values and columns within their widths hold after any
   * series of requests.
   */
  lemma {:induction false} RunPreservesValid(db: Db, ops: seq<Op>)
    requires Valid(db) && AllAdmissible(db, ops)
    ensures Valid(Run(db, ops))
    decreases |ops|
  {
    if |ops| > 0 {
      StepPreservesValid(db, ops[0]);
      RunPreservesValid(Step(db, ops[0]), ops[1..]);
    }
  }

  /** The request does not touch `user`'s activation row. */
  predicate LeavesActivationOf(op: Op, user: UserId) {
    !op.ResetRequestOp? && op != DeleteUserOp(user)
  }

  /**
   * Activation ids neither expire nor are consumed: a user's activation row keeps
   * its value through any requests other than a new reset request or the user's
   * deletion, so the link last mailed to them keeps resolving to them.
   */
  lemma {:induction false} ActivationLinkPersists(db: Db, ops: seq<Op>, user: UserId)
    requires Valid(db) && AllAdmissible(db, ops) && user in db.activationIds
    requires forall i | 0 <= i < |ops| :: LeavesActivationOf(ops[i], user)
    ensures user in Run(db, ops).activationIds
    ensures Run(db, ops).activationIds[user] == db.activationIds[user]
    ensures ActivationByValue(Run(db, ops).activationIds, db.activationIds[user].value) == Found(user)
    decreases |ops|
  {
    if |ops| == 0 {
      assert ActivationByValue(db.activationIds, db.activationIds[user].value) == Found(user);
    } else {
      var next := Step(db, ops[0]);
      StepPreservesValid(db, ops[0]);
      assert user in next.activationIds && next.activationIds[user] == db.activationIds[user] by {
        match ops[0]
        case RegisterOp(newUser, _, _, _) =>
          assert newUser != user;
        case ResetRequestOp(_, _) =>
        case ActivateOp(value) =>
        case MfaCheckOp(_, _, _, _) =>
        case EnableMfaOp(_, _) =>
        case DisableMfaOp(_) =>
        case DeleteUserOp(u) =>
          assert u != user;
      }
      assert forall i | 0 <= i < |ops[1..]| :: LeavesActivationOf(ops[1..][i], user) by {
        forall i | 0 <= i < |ops[1..]| ensures LeavesActivationOf(ops[1..][i], user) {
          assert ops[1..][i] == ops[i + 1];
        }
      }
      ActivationLinkPersists(next, ops[1..], user);
    }
  }
}
