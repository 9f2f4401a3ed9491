/** `get_user_settings`: get-or-create on the settings table. */
module UserViews {
  import opened Common
  import opened Conf
  import opened UserModels

  /**
   * The effect of `get_or_create(user=user)` on a table `(records, nextId)`: the new table and
   * the row returned.
   */
  function GetOrCreate(records: map<nat, UserSettings>, nextId: nat, user: nat, cfg: Config)
    : (r: (map<nat, UserSettings>, nat, UserSettings))
    requires forall u :: u in records ==> records[u].user == u
    ensures user in r.0 && r.0[user] == r.2 && r.2.user == user
    ensures user in records ==> r == (records, nextId, records[user])
    ensures user !in records ==> r == (records[user := DefaultSettings(nextId, user, cfg)], nextId + 1, DefaultSettings(nextId, user, cfg))
    ensures forall u :: u != user ==> Lookup(r.0, u) == Lookup(records, u)
  {
    if user in records then (records, nextId, records[user])
    else
      var s := DefaultSettings(nextId, user, cfg);
      (records[user := s], nextId + 1, s)
  }

  /** Get or create the settings row of `user`. */
  method GetUserSettings(table: SettingsTable, user: nat, cfg: Config) returns (s: UserSettings)
    requires table.Valid()
    modifies table
    ensures table.Valid()
    ensures (table.records, table.nextId, s) == GetOrCreate(old(table.records), old(table.nextId), user, cfg)
  {
    var found := table.Find(user);
    if found.Some? {
      s := found.value;
    } else {
      var created := table.Insert(user, cfg);
      s := created.value;
    }
  }

  /** A second call returns the same row and changes nothing. */
  lemma GetOrCreateIdempotent(records: map<nat, UserSettings>, nextId: nat, user: nat, cfg: Config)
    requires forall u :: u in records ==> records[u].user == u
    ensures var r1 := GetOrCreate(records, nextId, user, cfg);
            GetOrCreate(r1.0, r1.1, user, cfg) == (r1.0, r1.1, r1.2)
  {
  }

  /** Afterwards the user has exactly one row, and the table grew by at most that one row. */
  lemma GetOrCreateLeavesOneRow(records: map<nat, UserSettings>, nextId: nat, user: nat, cfg: Config)
    requires forall u :: u in records ==> records[u].user == u
    ensures var r := GetOrCreate(records, nextId, user, cfg);
            r.0.Keys == records.Keys + {user} && |r.0| <= |records| + 1
  {
    var r := GetOrCreate(records, nextId, user, cfg);
    if user !in records {
      assert r.0.Keys == records.Keys + {user};
      assert |records.Keys + {user}| == |records.Keys| + 1;
    }
  }

  /** A row created by `get_user_settings` has valid choices when the configuration is well formed. */
  lemma CreatedSettingsHaveValidChoices(records: map<nat, UserSettings>, nextId: nat, user: nat, cfg: Config)
    requires forall u :: u in records ==> records[u].user == u
    requires WellFormed(cfg)
    requires user !in records
    ensures ChoicesOk(GetOrCreate(records, nextId, user, cfg).2, cfg)
    ensures GetOrCreate(records, nextId, user, cfg).2.notifications
  {
  }
}
