/**
 * Per-user settings: the `UserSettings` record with its defaults, and the table that holds at
 * most one record per user (a one-to-one link that cascades when the user is deleted).
 */
module UserModels {
  import opened Common
  import opened Conf

  /** A settings row. `user` is the owning user's primary key. */
  datatype UserSettings = UserSettings(
    id: nat,
    user: nat,
    language: string,
    currency: string,
    notifications: bool)

  /** Raised when a second settings row is inserted for the same user. */
  datatype IntegrityError = DuplicateUser(user: nat)

  /** Every choice field of the record holds one of its declared choices. */
  predicate ChoicesOk(s: UserSettings, cfg: Config)
  {
    s.language in cfg.languages && s.currency in cfg.currencies
  }

  /** The row `objects.create(user=user)` inserts: every field at its default. */
  function DefaultSettings(id: nat, user: nat, cfg: Config): (s: UserSettings)
    ensures s.id == id && s.user == user
    ensures s.language == cfg.languageCode && s.currency == DefaultCurrency && s.notifications
    ensures WellFormed(cfg) ==> ChoicesOk(s, cfg)
  {
    UserSettings(id, user, cfg.languageCode, DefaultCurrency, true)
  }

  /** `__str__`: "Settings for " followed by the user's string form. */
  function SettingsLabel(userName: string): (r: string)
    ensures |r| == 13 + |userName|
    ensures r[..13] == "Settings for " && r[13..] == userName
  {
    "Settings for " + userName
  }

  /** The `UserSettings` table, keyed by the one-to-one user column. */
  class SettingsTable {
    var records: map<nat, UserSettings>
    var nextId: nat

    /** Each row sits under its own user, and primary keys are distinct and already issued. */
    ghost predicate Valid()
      reads this
    {
      && (forall u :: u in records ==> records[u].user == u && records[u].id < nextId)
      && (forall u, v :: u in records && v in records && u != v ==> records[u].id != records[v].id)
    }

    constructor ()
      ensures Valid() && records == map[] && nextId == 0
    {
      records := map[];
      nextId := 0;
    }

    /** The lookup half of `get_or_create(user=user)`: the user's row, if any. */
    function Find(user: nat): (r: Option<UserSettings>)
      reads this
      requires Valid()
      ensures r.Some? <==> user in records
      ensures r.Some? ==> r.value == records[user] && r.value.user == user
    {
      Lookup(records, user)
    }

    /** `objects.create(user=user)`: inserts a default row, or fails on the one-to-one constraint. */
    method Insert(user: nat, cfg: Config) returns (r: Result<UserSettings, IntegrityError>)
      requires Valid()
      modifies this
      ensures Valid()
      ensures user in old(records) ==> r == Err(DuplicateUser(user)) && records == old(records) && nextId == old(nextId)
      ensures user !in old(records) ==>
                && r == Ok(DefaultSettings(old(nextId), user, cfg))
                && records == old(records)[user := r.value]
                && nextId == old(nextId) + 1
    {
      if user in records {
        r := Err(DuplicateUser(user));
      } else {
        var s := DefaultSettings(nextId, user, cfg);
        records := records[user := s];
        nextId := nextId + 1;
        r := Ok(s);
      }
    }

    /** The cascade when a user is deleted: that user's row goes, every other row stays. */
    method DeleteUser(user: nat)
      requires Valid()
      modifies this
      ensures Valid()
      ensures records == old(records) - {user} && nextId == old(nextId)
    {
      records := records - {user};
    }
  }
}
