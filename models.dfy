/**
 * The three stored entities: the framework's `User`, `ActivationId`
 * (dwiest/django/users/models.py) and `MfaModel` (dwiest/django/users/mfa/models.py),
 * together with the object-relational lookups the forms and views perform on them.
 *
 * Both `ActivationId` and `MfaModel` hang off their user through a one-to-one field,
 * so each table is a map keyed by the owning user's id: a user owns at most one row
 * of each by construction, and the foreign key is `Valid`'s key inclusion.
 */
module Models {
  import opened Wrappers

  type UserId = nat

  /** Column widths declared on the two models. */
  const ActivationValueMaxLength: nat := 36
  const SecretKeyMaxLength: nat := 32
  const LastValueMaxLength: nat := 6

  /** The framework user; only the columns the core reads are kept. */
  datatype User = User(username: string, email: string, isActive: bool)

  /** An activation id row; its owner is the key it is stored under. */
  datatype ActivationId = ActivationId(value: string, createdAt: int)

  /** An MFA row; `lastValue` is `None` until a code has been consumed. */
  datatype MfaModel = MfaModel(secretKey: string, lastValue: Option<string>)

  /** A snapshot of the three tables. */
  datatype Db = Db(
    users: map<UserId, User>,
    activationIds: map<UserId, ActivationId>,
    mfaModels: map<UserId, MfaModel>)

  /** Names of the exceptions that can escape a request uncaught. */
  const DOES_NOT_EXIST := "DoesNotExist"
  const MULTIPLE_OBJECTS_RETURNED := "MultipleObjectsReturned"
  /** Reading `.id` of a user that is `None`. */
  const ATTRIBUTE_ERROR := "AttributeError"

  /** What `objects.get(...)` yields: no row (`DoesNotExist`), one row, or several (`MultipleObjectsReturned`). */
  datatype Lookup = NotFound | Found(id: UserId) | Multiple

  predicate MfaRowFits(r: MfaModel) {
    && |r.secretKey| <= SecretKeyMaxLength
    && (r.lastValue.Some? ==> |r.lastValue.value| <= LastValueMaxLength)
  }

  ghost predicate UsernamesUnique(users: map<UserId, User>) {
    forall u, w | u in users && w in users && users[u].username == users[w].username :: u == w
  }

  ghost predicate ActivationValuesDistinct(ids: map<UserId, ActivationId>) {
    forall u, w | u in ids && w in ids && ids[u].value == ids[w].value :: u == w
  }

  /** No row of `ids` carries `v` (a freshly generated UUID). */
  ghost predicate ValueUnused(ids: map<UserId, ActivationId>, v: string) {
    forall u | u in ids :: ids[u].value != v
  }

  ghost predicate UsernameFree(users: map<UserId, User>, name: string) {
    forall u | u in users :: users[u].username != name
  }

  /**
   * The state every request starts from: rows belong to existing users, usernames
   * are unique (the framework's constraint), the columns hold what fits them, and
   * no two activation rows share a value (each was a fresh UUID).
   */
  ghost predicate Valid(db: Db) {
    && db.activationIds.Keys <= db.users.Keys
    && db.mfaModels.Keys <= db.users.Keys
    && UsernamesUnique(db.users)
    && ActivationValuesDistinct(db.activationIds)
    && (forall u | u in db.activationIds :: |db.activationIds[u].value| <= ActivationValueMaxLength)
    && (forall u | u in db.mfaModels :: MfaRowFits(db.mfaModels[u]))
  }

  /** `ActivationId.objects.get(value=v)`, answered with the owner of the row. */
  function ActivationByValue(ids: map<UserId, ActivationId>, v: string): (r: Lookup)
    ensures r.NotFound? <==> ValueUnused(ids, v)
    ensures r.Found? ==> r.id in ids && ids[r.id].value == v
    ensures r.Found? ==> forall u | u in ids && ids[u].value == v :: u == r.id
    ensures r.Multiple? ==> !ActivationValuesDistinct(ids)
  {
    if !exists u | u in ids :: ids[u].value == v then NotFound
    else if exists u, w | u in ids && w in ids :: u != w && ids[u].value == v && ids[w].value == v then Multiple
    else var u :| u in ids && ids[u].value == v; Found(u)
  }

  /** `User.objects.get(username=name, is_active=True)`. */
  function ActiveUserByUsername(users: map<UserId, User>, name: string): (r: Lookup)
    ensures r.NotFound? <==> forall u | u in users :: users[u].username != name || !users[u].isActive
    ensures r.Found? ==> r.id in users && users[r.id].username == name && users[r.id].isActive
    ensures r.Multiple? ==> !UsernamesUnique(users)
  {
    if !exists u | u in users :: users[u].username == name && users[u].isActive then NotFound
    else if exists u, w | u in users && w in users ::
        u != w && users[u].username == name && users[u].isActive && users[w].username == name && users[w].isActive
    then Multiple
    else var u :| u in users && users[u].username == name && users[u].isActive; Found(u)
  }

  /** In a valid store no lookup the core performs can raise `MultipleObjectsReturned`. */
  lemma ValidLookupsAreUnique(db: Db, v: string, name: string)
    requires Valid(db)
    ensures !ActivationByValue(db.activationIds, v).Multiple?
    ensures !ActiveUserByUsername(db.users, name).Multiple?
  {
  }

  /**
   * Deleting a user: both one-to-one fields are declared with cascading delete,
   * so the user's activation row and MFA row go with it and no other row changes.
   */
  function DeleteUser(db: Db, u: UserId): (r: Db)
    ensures u !in r.users && u !in r.activationIds && u !in r.mfaModels
    ensures forall w | w != u :: (w in r.users <==> w in db.users) && (w in r.users ==> r.users[w] == db.users[w])
    ensures forall w | w != u :: (w in r.activationIds <==> w in db.activationIds)
                              && (w in r.activationIds ==> r.activationIds[w] == db.activationIds[w])
    ensures forall w | w != u :: (w in r.mfaModels <==> w in db.mfaModels)
                              && (w in r.mfaModels ==> r.mfaModels[w] == db.mfaModels[w])
    ensures Valid(db) ==> Valid(r)
  {
    Db(db.users - {u}, db.activationIds - {u}, db.mfaModels - {u})
  }

  /** The database the forms and views read and write, one request at a time. */
  class Store {
    var users: map<UserId, User>
    var activationIds: map<UserId, ActivationId>
    var mfaModels: map<UserId, MfaModel>

    /** The tables as a value. */
    function State(): Db
      reads this
    {
      Db(users, activationIds, mfaModels)
    }

    constructor (db: Db)
      ensures State() == db
    {
      users := db.users;
      activationIds := db.activationIds;
      mfaModels := db.mfaModels;
    }
  }
}
