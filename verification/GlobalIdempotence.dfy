/** Applying a global sidecar a second time. */
module GlobalIdempotence {
  import opened Prelude
  import opened ConfigStore
  import opened Upserts
  import opened GlobalSidecars
  import opened GlobalRoundTrips

  // ---- webhooks and users

  lemma {:induction false} HooksSettled(db: DB, secrets: Option<Secrets>, es: seq<HookEntry>)
    requires UpsertAll(HookSchema(secrets), db.webhooks, es) == db.webhooks && Unnamed(HookSchema(secrets), db.webhooks, es) == {}
    ensures ApplyHooks(db, secrets, es) == db
  {
    var gone := Unnamed(HookSchema(secrets), db.webhooks, es);
    NothingDeleted(db.webhooks, gone);
    NothingDeleted(db.rules, set id | id in db.rules.rows && db.rules.rows[id].key.webhook in gone);
  }

  lemma {:induction false} UsersSettled(db: DB, secrets: Option<Secrets>, es: seq<UserEntry>)
    requires UpsertAll(UserSchema(secrets), db.users, es) == db.users && Unnamed(UserSchema(secrets), db.users, es) == {}
    ensures ApplyUsers(db, secrets, es) == db
  {
    NobodyGone(db, Unnamed(UserSchema(secrets), db.users, es));
  }

  // ---- API keys

  /** The keys after an apply. */
  ghost predicate AreKeysAfter(users: Table<User>, keys: Table<ApiKey>, keys': Table<ApiKey>, s: Secrets, es: seq<KeyEntry>, rows: seq<ApiKey>) {
    && Wf(keys) && UniqueKeys(keys, HashOf) && AreResolved(users, s, es, rows)
    && keys' == Delete(UpsertAll(KeySchema(), keys, rows), UnlistedKeys(users, UpsertAll(KeySchema(), keys, rows), es))
  }

  lemma {:induction false} KeysAfterOk(users: Table<User>, keys: Table<ApiKey>, keys': Table<ApiKey>, s: Secrets, es: seq<KeyEntry>, rows: seq<ApiKey>)
    requires AreKeysAfter(users, keys, keys', s, es, rows)
    ensures Wf(keys') && UniqueKeys(keys', HashOf)
  {
    var t := UpsertAll(KeySchema(), keys, rows);
    AllShape(KeySchema(), keys, rows);
    AllUnique(KeySchema(), keys, rows);
    assert UniqueKeys(t, HashOf);
  }

  /** Under a listed hash the second apply finds the row the first one left. */
  lemma {:induction false} ListedKeyThere(users: Table<User>, keys: Table<ApiKey>, keys': Table<ApiKey>, s: Secrets, es: seq<KeyEntry>, rows: seq<ApiKey>, h: string)
    returns (id: Id, i: nat)
    requires AreKeysAfter(users, keys, keys', s, es, rows) && Named(KeySchema(), rows, h)
    ensures i < |rows| && rows[i].hash == h && forall l :: i < l < |rows| ==> rows[l].hash != h
    ensures id in keys'.rows && keys'.rows[id] == rows[i] && Find(KeySchema(), keys', h) == Some(id)
  {
    id, i := LastKeyStored(users, keys, s, es, rows, h);
    KeysAfterOk(users, keys, keys', s, es, rows);
    UniqueFind(KeySchema(), keys', id);
  }

  lemma {:induction false} KeyRowSettles(users: Table<User>, keys: Table<ApiKey>, keys': Table<ApiKey>, s: Secrets, es: seq<KeyEntry>, rows: seq<ApiKey>, id: Id)
    requires AreKeysAfter(users, keys, keys', s, es, rows) && id in keys'.rows
    ensures var t := UpsertAll(KeySchema(), keys', rows); id in t.rows && t.rows[id] == keys'.rows[id]
  {
    var h := keys'.rows[id].hash;
    KeysAfterOk(users, keys, keys', s, es, rows);
    if Named(KeySchema(), rows, h) {
      var f, i := ListedKeyThere(users, keys, keys', s, es, rows, h);
      UniqueFind(KeySchema(), keys', id);
      LastDecides(KeySchema(), keys', rows, i);
      AllKeepsIds(KeySchema(), keys', rows, h);
    } else {
      Untouched(KeySchema(), keys', rows, id);
    }
  }

  lemma {:induction false} KeysSettle(users: Table<User>, keys: Table<ApiKey>, keys': Table<ApiKey>, s: Secrets, es: seq<KeyEntry>, rows: seq<ApiKey>)
    requires AreKeysAfter(users, keys, keys', s, es, rows)
    ensures UpsertAll(KeySchema(), keys', rows) == keys' && UnlistedKeys(users, keys', es) == {}
  {
    KeysAfterOk(users, keys, keys', s, es, rows);
    forall i | 0 <= i < |rows| ensures Find(KeySchema(), keys', KeySchema().entryKey(rows[i])).Some? {
      var id, j := ListedKeyThere(users, keys, keys', s, es, rows, rows[i].hash);
    }
    NothingNew(KeySchema(), keys', rows);
    forall id | id in keys'.rows ensures UpsertAll(KeySchema(), keys', rows).rows[id] == keys'.rows[id] {
      KeyRowSettles(users, keys, keys', s, es, rows, id);
    }
    SameTable(UpsertAll(KeySchema(), keys', rows), keys');
  }

  // ---- registries and settings

  lemma {:induction false} PutKeepsNames(secrets: Option<Secrets>, rows: map<string, Registry>, es: seq<RegistryEntry>)
    requires UniqueRegistryNames(rows)
    ensures UniqueRegistryNames(PutRegistries(secrets, rows, es).rows)
  {
    if es != [] { PutKeepsNames(secrets, rows, es[..|es| - 1]); }
  }

  lemma {:induction false} RegistriesSettle(db: DB, secrets: Option<Secrets>, es: seq<RegistryEntry>)
    requires UniqueRegistryNames(db.registries) && DistinctIds(es) && ApplyRegistries(db, secrets, es).ok
    ensures var rows := ApplyRegistries(db, secrets, es).db.registries;
      PutRegistries(secrets, rows, es) == Registries(rows, true) && rows.Keys == RegistryIds(es)
  {
    var rows := ApplyRegistries(db, secrets, es).db.registries;
    RegistriesMade(db, secrets, es);
    PutKeepsNames(secrets, db.registries, es);
    assert UniqueRegistryNames(rows);
    forall i | 0 <= i < |es| ensures IsStored(secrets, rows, es[i]) { StoredAgain(db, secrets, es, rows, i); }
    PutSame(secrets, rows, es);
  }

  lemma {:induction false} StoredAgain(db: DB, secrets: Option<Secrets>, es: seq<RegistryEntry>, rows: map<string, Registry>, i: nat)
    requires UniqueRegistryNames(rows) && i < |es| && es[i].id in rows && rows[es[i].id] == MadeRegistry(secrets, db.registries, es[i])
    ensures IsStored(secrets, rows, es[i])
  {
    assert rows[es[i].id].name == es[i].name && rows[es[i].id].url == es[i].url;
  }

  lemma {:induction false} SettingsSettle(db: DB, secrets: Option<Secrets>, settings: map<string, string>)
    ensures var db' := ApplySettings(db, secrets, settings); ApplySettings(db', secrets, settings) == db'
  {
    var db' := ApplySettings(db, secrets, settings);
    assert ApplySettings(db', secrets, settings).dbBackup == db'.dbBackup;
  }

  // ---- all of it

  ghost predicate DistinctNames(data: Sidecar, secrets: Option<Secrets>) {
    DistinctKeys(HookSchema(secrets), data.webhooks) && DistinctKeys(UserSchema(secrets), data.users) && DistinctIds(data.registries)
  }

  /** What the phases before the keys leave. */
  function Listed(db: DB, data: Sidecar, secrets: Option<Secrets>): DB {
    ApplyUsers(ApplyHooks(db, secrets, data.webhooks), secrets, data.users)
  }

  lemma {:induction false} ListedSettles(db: DB, data: Sidecar, secrets: Option<Secrets>, now: DB)
    requires Wf(db.webhooks) && Wf(db.users) && DistinctNames(data, secrets)
    requires var l := Listed(db, data, secrets); now.webhooks == l.webhooks && now.users == l.users
    ensures Listed(now, data, secrets) == now
  {
    ReplaceSettles(HookSchema(secrets), db.webhooks, data.webhooks);
    ReplaceSettles(UserSchema(secrets), db.users, data.users);
    HooksSettled(now, secrets, data.webhooks);
    UsersSettled(now, secrets, data.users);
  }

  lemma {:induction false} KeysApplySettles(db: DB, s: Secrets, es: seq<KeyEntry>, now: DB)
    requires Wf(db.keys) && UniqueKeys(db.keys, HashOf) && ApplyKeys(db, s, es).ok
    requires now.users == db.users && now.keys == ApplyKeys(db, s, es).db.keys
    ensures ApplyKeys(now, s, es) == Outcome(now, true)
  {
    AllResolved(db.users, s, es);
    KeysSettle(db.users, db.keys, now.keys, s, es, ResolveKeys(db.users, s, es).rows);
    NothingDeleted(now.keys, UnlistedKeys(now.users, now.keys, es));
  }

  lemma {:induction false} RegistriesApplySettles(db: DB, secrets: Option<Secrets>, es: seq<RegistryEntry>, now: DB)
    requires UniqueRegistryNames(db.registries) && DistinctIds(es) && ApplyRegistries(db, secrets, es).ok
    requires now.registries == ApplyRegistries(db, secrets, es).db.registries
    ensures ApplyRegistries(now, secrets, es) == Outcome(now, true)
  {
    RegistriesSettle(db, secrets, es);
    AllKept(now.registries, RegistryIds(es));
  }

  /** Deleting users leaves hashes unique. */
  lemma {:induction false} ListedKeysOk(db: DB, data: Sidecar, secrets: Option<Secrets>)
    requires DbOk(db)
    ensures Wf(Listed(db, data, secrets).keys) && UniqueKeys(Listed(db, data, secrets).keys, HashOf)
  {
  }

  /**
   * A successful apply of a sidecar with distinct webhook names, usernames and registry
   * ids, repeated, changes nothing, with or without secrets; API key entries may repeat.
   */
  lemma {:induction false} GlobalIsIdempotent(db: DB, data: Sidecar, secrets: Option<Secrets>)
    requires DbOk(db) && DistinctNames(data, secrets) && ApplyGlobal(db, data, secrets).ok
    ensures var r := ApplyGlobal(db, data, secrets); ApplyGlobal(r.db, data, secrets) == r
  {
    var now, l := ApplyGlobal(db, data, secrets).db, Listed(db, data, secrets);
    ListedSettles(db, data, secrets, now);
    if secrets.Some? {
      ListedKeysOk(db, data, secrets);
      KeysApplySettles(l, secrets.value, data.keys, now);
    }
    RegistriesApplySettles(l, secrets, data.registries, now);
    SettingsAgain(db, data, secrets);
  }

  lemma {:induction false} SettingsAgain(db: DB, data: Sidecar, secrets: Option<Secrets>)
    requires ApplyGlobal(db, data, secrets).ok
    ensures var now := ApplyGlobal(db, data, secrets).db; ApplySettings(now, secrets, data.dbBackup) == now
  {
    var l := Listed(db, data, secrets);
    var keyed := if secrets.Some? then ApplyKeys(l, secrets.value, data.keys) else Outcome(l, true);
    SettingsSettle(ApplyRegistries(keyed.db, secrets, data.registries).db, secrets, data.dbBackup);
  }
}
