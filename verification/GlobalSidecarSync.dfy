/** The code that applies a global sidecar row by row, and the one that writes it. */
module GlobalSidecarSync {
  import opened Prelude
  import opened ConfigStore
  import opened Upserts
  import opened GlobalSidecars

  // ---- indexes over the secrets

  ghost predicate IsIndex<E, K(!new)>(m: map<K, E>, es: seq<E>, key: E -> K) {
    forall k :: LastBy(es, key, k) == if k in m then Some(m[k]) else None
  }

  /** Secrets by name; a later entry replaces an earlier one. */
  method IndexLast<E, K(==,!new)>(es: seq<E>, key: E -> K) returns (m: map<K, E>)
    ensures IsIndex(m, es, key)
  {
    m := map[];
    for i := 0 to |es|
      invariant IsIndex(m, es[..i], key)
    {
      assert es[..i + 1][..i] == es[..i];
      m := m[key(es[i]) := es[i]];
    }
    assert es[..|es|] == es;
  }

  // ---- steps of the folds

  lemma {:induction false} UpsertStep<T, K, E>(s: Schema<T, K, E>, t: Table<T>, es: seq<E>, i: nat)
    requires i < |es|
    ensures UpsertAll(s, t, es[..i + 1]) == Upsert(s, UpsertAll(s, t, es[..i]), es[i])
  {
    assert es[..i + 1][..i] == es[..i];
  }

  lemma {:induction false} ResolveStep(users: Table<User>, s: Secrets, es: seq<KeyEntry>, i: nat)
    requires i < |es| && ResolveKeys(users, s, es[..i]).ok
    ensures var before, user := ResolveKeys(users, s, es[..i]), FindUser(users, es[i].username);
      ResolveKeys(users, s, es[..i + 1]) == if user.None? then before.(ok := false) else Resolved(before.rows + [KeyRow(s, es[i], user.value)], true)
  {
    assert es[..i + 1][..i] == es[..i];
  }

  function KeyRow(s: Secrets, e: KeyEntry, user: Id): ApiKey {
    ApiKey(user, KeyHashFor(s, Label(e.username, e.name)), e.name, e.expires)
  }

  lemma {:induction false} ResolveStops(users: Table<User>, s: Secrets, es: seq<KeyEntry>, n: nat)
    requires n <= |es| && !ResolveKeys(users, s, es[..n]).ok
    ensures ResolveKeys(users, s, es) == ResolveKeys(users, s, es[..n])
  {
    if n == |es| {
      assert es[..n] == es;
    } else {
      assert es[..|es| - 1][..n] == es[..n];
      ResolveStops(users, s, es[..|es| - 1], n);
    }
  }

  lemma {:induction false} PutStep(secrets: Option<Secrets>, rows: map<string, Registry>, es: seq<RegistryEntry>, i: nat)
    requires i < |es| && PutRegistries(secrets, rows, es[..i]).ok
    ensures var before := PutRegistries(secrets, rows, es[..i]);
      PutRegistries(secrets, rows, es[..i + 1]) ==
        if NameTaken(before.rows, es[i].id, es[i].name) then before.(ok := false)
        else Registries(before.rows[es[i].id := MadeRegistry(secrets, before.rows, es[i])], true)
  {
    assert es[..i + 1][..i] == es[..i];
  }

  lemma {:induction false} PutStops(secrets: Option<Secrets>, rows: map<string, Registry>, es: seq<RegistryEntry>, n: nat)
    requires n <= |es| && !PutRegistries(secrets, rows, es[..n]).ok
    ensures PutRegistries(secrets, rows, es) == PutRegistries(secrets, rows, es[..n])
  {
    if n == |es| {
      assert es[..n] == es;
    } else {
      assert es[..|es| - 1][..n] == es[..n];
      PutStops(secrets, rows, es[..|es| - 1], n);
    }
  }

  class GlobalSyncer {
    var db: DB

    constructor (db: DB)
      ensures this.db == db
    {
      this.db := db;
    }

    // ---- webhooks

    /** Deleting a webhook takes its rules with it. */
    method DeleteWebhook(id: Id)
      modifies this
      ensures db == WithoutHooks(old(db), {id})
    {
      db := db.(webhooks := Delete(db.webhooks, {id}), rules := Delete(db.rules, RulesUsing(db.rules, {id})));
    }

    method DropWebhooks(ids: seq<Id>, names: map<Id, string>, want: set<string>)
      requires forall i :: 0 <= i < |ids| ==> ids[i] in names
      modifies this
      ensures db == WithoutHooks(old(db), GoneOf(ids, names, want))
    {
      ghost var before := db;
      NoHookGone(before);
      for i := 0 to |ids|
        invariant db == WithoutHooks(before, GoneOf(ids[..i], names, want))
      {
        GoneStep(ids, names, want, i);
        if names[ids[i]] !in want {
          OneMoreHookGone(before, GoneOf(ids[..i], names, want), ids[i]);
          DeleteWebhook(ids[i]);
        }
      }
      assert ids[..|ids|] == ids;
    }

    method UpsertWebhook(secrets: Option<Secrets>, e: HookEntry)
      modifies this
      ensures db == old(db).(webhooks := Upsert(HookSchema(secrets), old(db.webhooks), e))
    {
      var stored := Lookup(db.webhooks, HookName, e.name);
      if stored.Some? {
        db := db.(webhooks := Put(db.webhooks, stored.value, MadeHook(secrets, e, Some(db.webhooks.rows[stored.value]))));
      } else {
        db := db.(webhooks := Insert(db.webhooks, MadeHook(secrets, e, None)));
      }
    }

    method UpsertWebhooks(secrets: Option<Secrets>, es: seq<HookEntry>) returns (want: set<string>)
      modifies this
      ensures db == old(db).(webhooks := UpsertAll(HookSchema(secrets), old(db.webhooks), es))
      ensures want == HookNames(es)
    {
      ghost var before := db;
      want := {};
      for i := 0 to |es|
        invariant db == before.(webhooks := UpsertAll(HookSchema(secrets), before.webhooks, es[..i]))
        invariant want == HookNames(es[..i])
      {
        UpsertStep(HookSchema(secrets), before.webhooks, es, i);
        HookNamesStep(es, i);
        want := want + {es[i].name};
        UpsertWebhook(secrets, es[i]);
      }
      assert es[..|es|] == es;
    }

    method ApplyWebhooks(secrets: Option<Secrets>, es: seq<HookEntry>)
      modifies this
      ensures db == ApplyHooks(old(db), secrets, es)
    {
      var want := UpsertWebhooks(secrets, es);
      var ids := IdsWhere(db.webhooks, AnyHook);
      var names := map id | id in db.webhooks.rows :: db.webhooks.rows[id].name;
      HooksGone(db.webhooks, secrets, es, ids, names);
      DropWebhooks(ids, names, want);
    }

    // ---- users

    /** Deleting a user takes its keys and grants with it. */
    method DeleteUser(id: Id)
      modifies this
      ensures db == WithoutUsers(old(db), {id})
    {
      db := db.(users := Delete(db.users, {id}), keys := Delete(db.keys, KeysOwned(db.keys, {id})), access := GrantsLeft(db.access, {id}));
    }

    method UpsertUser(secrets: Option<Secrets>, e: UserEntry)
      modifies this
      ensures db == old(db).(users := Upsert(UserSchema(secrets), old(db.users), e))
    {
      var stored := Lookup(db.users, UsernameOf, e.username);
      if stored.Some? {
        db := db.(users := Put(db.users, stored.value, MadeUser(secrets, e, Some(db.users.rows[stored.value]))));
      } else {
        db := db.(users := Insert(db.users, MadeUser(secrets, e, None)));
      }
    }

    method UpsertUsers(secrets: Option<Secrets>, es: seq<UserEntry>) returns (want: set<string>)
      modifies this
      ensures db == old(db).(users := UpsertAll(UserSchema(secrets), old(db.users), es))
      ensures want == UserNames(es)
    {
      ghost var before := db;
      want := {};
      for i := 0 to |es|
        invariant db == before.(users := UpsertAll(UserSchema(secrets), before.users, es[..i]))
        invariant want == UserNames(es[..i])
      {
        UpsertStep(UserSchema(secrets), before.users, es, i);
        UserNamesStep(es, i);
        want := want + {es[i].username};
        UpsertUser(secrets, es[i]);
      }
      assert es[..|es|] == es;
    }

    method ApplyUserList(secrets: Option<Secrets>, es: seq<UserEntry>)
      modifies this
      ensures db == ApplyUsers(old(db), secrets, es)
    {
      var want := UpsertUsers(secrets, es);
      var ids := IdsWhere(db.users, AnyUser);
      var names := map id | id in db.users.rows :: db.users.rows[id].username;
      UsersGone(db.users, secrets, es, ids, names);
      DropUsers(ids, names, want);
    }

    method DropUsers(ids: seq<Id>, names: map<Id, string>, want: set<string>)
      requires forall i :: 0 <= i < |ids| ==> ids[i] in names
      modifies this
      ensures db == WithoutUsers(old(db), GoneOf(ids, names, want))
    {
      ghost var before := db;
      WithoutNobody(before);
      for i := 0 to |ids|
        invariant db == WithoutUsers(before, GoneOf(ids[..i], names, want))
      {
        GoneStep(ids, names, want, i);
        if names[ids[i]] !in want {
          WithoutOneMore(before, GoneOf(ids[..i], names, want), ids[i]);
          DeleteUser(ids[i]);
        }
      }
      assert ids[..|ids|] == ids;
    }

    // ---- API keys

    method ApplyApiKeys(secrets: Secrets, es: seq<KeyEntry>) returns (ok: bool)
      modifies this
      ensures Outcome(db, ok) == ApplyKeys(old(db), secrets, es)
    {
      ghost var before := db;
      var hashes := IndexLast(secrets.keys, KeySecretLabel);
      var s := KeySchema();
      var want: set<string> := {};
      for i := 0 to |es|
        invariant ResolveKeys(before.users, secrets, es[..i]).ok
        invariant db == before.(keys := UpsertAll(s, before.keys, ResolveKeys(before.users, secrets, es[..i]).rows))
        invariant want == Labels(es[..i])
      {
        ResolveStep(before.users, secrets, es, i);
        LabelsStep(es, i);
        want := want + {Label(es[i].username, es[i].name)};
        var user := FindUser(db.users, es[i].username);
        if user.None? {
          ResolveStops(before.users, secrets, es, i + 1);
          return false;
        }
        var tag := Label(es[i].username, es[i].name);
        var hash := if tag in hashes then hashes[tag].hash else "";
        UpsertKey(ApiKey(user.value, hash, es[i].name, es[i].expires), ResolveKeys(before.users, secrets, es[..i]).rows, before.keys);
      }
      assert es[..|es|] == es;
      DropKeys(want);
      ok := true;
    }

    method UpsertKey(k: ApiKey, ghost rows: seq<ApiKey>, ghost keys: Table<ApiKey>)
      requires db.keys == UpsertAll(KeySchema(), keys, rows)
      modifies this
      ensures db == old(db).(keys := UpsertAll(KeySchema(), keys, rows + [k]))
    {
      assert (rows + [k])[..|rows|] == rows;
      var stored := Lookup(db.keys, HashOf, k.hash);
      db := db.(keys := if stored.Some? then Put(db.keys, stored.value, k) else Insert(db.keys, k));
    }

    /** User by user, delete the keys that are not listed. */
    method DropKeys(want: set<string>)
      modifies this
      ensures db == old(db).(keys := Delete(old(db.keys), set id | id in old(db.keys.rows) && Unlisted(old(db.users), old(db.keys.rows)[id], want)))
    {
      ghost var before := db;
      var users := IdsWhere(db.users, AnyUser);
      for i := 0 to |users|
        invariant db == before.(keys := Delete(before.keys, UnlistedOf(before, users[..i], want)))
      {
        var gone := set id | id in db.keys.rows && db.keys.rows[id].user == users[i] && Label(db.users.rows[users[i]].username, db.keys.rows[id].name) !in want;
        UnlistedStep(before, users, want, i, gone);
        DeleteAgain(before.keys, UnlistedOf(before, users[..i], want), gone);
        db := db.(keys := Delete(db.keys, gone));
      }
      assert users[..|users|] == users;
      assert UnlistedOf(before, users, want) == set id | id in before.keys.rows && Unlisted(before.users, before.keys.rows[id], want);
    }

    // ---- registries and settings

    method ApplyRegistryList(secrets: Option<Secrets>, es: seq<RegistryEntry>) returns (ok: bool)
      modifies this
      ensures Outcome(db, ok) == ApplyRegistries(old(db), secrets, es)
    {
      ghost var before := db;
      var want: set<string> := {};
      for i := 0 to |es|
        invariant PutRegistries(secrets, before.registries, es[..i]) == Registries(db.registries, true)
        invariant db == before.(registries := db.registries) && want == RegistryIds(es[..i])
      {
        PutStep(secrets, before.registries, es, i);
        RegistryIdsStep(es, i);
        want := want + {es[i].id};
        if NameTaken(db.registries, es[i].id, es[i].name) {
          PutStops(secrets, before.registries, es, i + 1);
          return false;
        }
        db := db.(registries := db.registries[es[i].id := MadeRegistry(secrets, db.registries, es[i])]);
      }
      assert es[..|es|] == es;
      db := db.(registries := map id | id in db.registries && id in want :: db.registries[id]);
      ok := true;
    }

    method ApplySettingList(secrets: Option<Secrets>, settings: map<string, string>)
      modifies this
      ensures db == ApplySettings(old(db), secrets, settings)
    {
      ghost var before := db;
      var todo := settings.Keys;
      while todo != {}
        invariant todo <= settings.Keys
        invariant db == before.(dbBackup := before.dbBackup + map k | k in settings && k !in todo :: settings[k])
        decreases |todo|
      {
        var k :| k in todo;
        db := db.(dbBackup := db.dbBackup[k := settings[k]]);
        todo := todo - {k};
        assert db.dbBackup == before.dbBackup + map k | k in settings && k !in todo :: settings[k];
      }
      assert (map k | k in settings && k !in todo :: settings[k]) == settings;
      if secrets.Some? && secrets.value.dbBackup != "" {
        db := db.(dbBackup := db.dbBackup[SecretSetting := secrets.value.dbBackup]);
      }
    }

    /** Webhooks, users, keys (only with secrets), registries, settings; the first failure ends it. */
    method ApplyGlobalSidecar(data: Sidecar, secrets: Option<Secrets>) returns (ok: bool)
      modifies this
      ensures Outcome(db, ok) == ApplyGlobal(old(db), data, secrets)
    {
      ApplyWebhooks(secrets, data.webhooks);
      ApplyUserList(secrets, data.users);
      if secrets.Some? {
        ok := ApplyApiKeys(secrets.value, data.keys);
        if !ok { return; }
      }
      ok := ApplyRegistryList(secrets, data.registries);
      if ok {
        ApplySettingList(secrets, data.dbBackup);
      }
    }
  }

  // ---- writing

  lemma {:induction false} SelectStep<T, E>(rows: seq<T>, f: T -> Option<E>, i: nat)
    requires i < |rows|
    ensures Select(rows[..i + 1], f) == Select(rows[..i], f) + if f(rows[i]).Some? then [f(rows[i]).value] else []
  {
    assert rows[..i + 1][..i] == rows[..i];
  }

  function KeysOfUser(db: DB, user: Id): seq<ApiKey> { RowsWhere(db.keys, (k: ApiKey) => k.user == user) }

  /** The keys of one more user follow those listed so far. */
  lemma {:induction false} ListedStep(db: DB, order: seq<Id>, i: nat)
    requires i < |order| && order[i] in db.users.rows
    ensures ListedKeys(db, order[..i + 1]) == ListedKeys(db, order[..i]) + KeysOfUser(db, order[i])
    ensures forall k :: k in KeysOfUser(db, order[i]) ==> Owner(db, k) == db.users.rows[order[i]].username
  {
    var ids := IdsWhere(db.keys, (k: ApiKey) => k.user == order[i]);
    assert order[..i + 1][..i] == order[..i];
    KeyIdsStored(db, order[..i]);
    KeyIdsStored(db, order[..i + 1]);
    assert KeyIds(db, order[..i + 1]) == KeyIds(db, order[..i]) + ids;
    forall k | k in KeysOfUser(db, order[i]) ensures Owner(db, k) == db.users.rows[order[i]].username {
      var j :| 0 <= j < |ids| && db.keys.rows[ids[j]] == k;
    }
  }

  lemma {:induction false} EntriesStep(db: DB, order: seq<Id>, i: nat)
    requires i < |order| && order[i] in db.users.rows
    ensures KeyEntries(db, ListedKeys(db, order[..i + 1])) == KeyEntries(db, ListedKeys(db, order[..i])) + KeyEntries(db, KeysOfUser(db, order[i]))
    ensures KeySecrets(db, ListedKeys(db, order[..i + 1])) == KeySecrets(db, ListedKeys(db, order[..i])) + KeySecrets(db, KeysOfUser(db, order[i]))
    ensures forall k :: k in KeysOfUser(db, order[i]) ==> Owner(db, k) == db.users.rows[order[i]].username
  {
    ListedStep(db, order, i);
    KeysConcat(db, ListedKeys(db, order[..i]), KeysOfUser(db, order[i]));
  }

  lemma {:induction false} KeysConcat(db: DB, a: seq<ApiKey>, b: seq<ApiKey>)
    ensures KeyEntries(db, a + b) == KeyEntries(db, a) + KeyEntries(db, b) && KeySecrets(db, a + b) == KeySecrets(db, a) + KeySecrets(db, b)
  {
  }

  /** The public and the secret entry of one user. */
  method WriteUser(u: User) returns (e: UserEntry, secret: seq<UserSecret>)
    ensures e == UserEntryOf(u) && secret == if UserSecretOf(u).Some? then [UserSecretOf(u).value] else []
  {
    e, secret := UserEntry(u.username, u.role, u.display, u.email), [];
    if u.hash != "" {
      secret := [UserSecret(u.username, u.hash)];
    }
  }

  /** Users, each followed by its API keys, into the public and the secret lists. */
  method WriteUsers(db: DB, order: seq<Id>) returns (users: seq<UserEntry>, hashes: seq<UserSecret>, keys: seq<KeyEntry>, keyHashes: seq<KeySecret>)
    requires forall i :: 0 <= i < |order| ==> order[i] in db.users.rows
    ensures users == Map(UserRows(db, order), UserEntryOf) && hashes == Select(UserRows(db, order), UserSecretOf)
    ensures keys == KeyEntries(db, ListedKeys(db, order)) && keyHashes == KeySecrets(db, ListedKeys(db, order))
  {
    users, hashes, keys, keyHashes := [], [], [], [];
    ghost var rows := UserRows(db, order);
    for i := 0 to |order|
      invariant users == Map(rows, UserEntryOf)[..i] && hashes == Select(rows[..i], UserSecretOf)
      invariant keys == KeyEntries(db, ListedKeys(db, order[..i])) && keyHashes == KeySecrets(db, ListedKeys(db, order[..i]))
    {
      var u := db.users.rows[order[i]];
      SelectStep(rows, UserSecretOf, i);
      var e, secret := WriteUser(u);
      users, hashes := users + [e], hashes + secret;
      EntriesStep(db, order, i);
      var more, moreHashes := WriteKeys(u.username, KeysOfUser(db, order[i]), db);
      keys, keyHashes := keys + more, keyHashes + moreHashes;
    }
    assert order[..|order|] == order && rows[..|order|] == rows;
  }

  method WriteKeys(username: string, rows: seq<ApiKey>, ghost db: DB) returns (keys: seq<KeyEntry>, hashes: seq<KeySecret>)
    requires forall k :: k in rows ==> Owner(db, k) == username
    ensures keys == KeyEntries(db, rows) && hashes == KeySecrets(db, rows)
  {
    keys, hashes := [], [];
    for i := 0 to |rows|
      invariant keys == KeyEntries(db, rows)[..i] && hashes == KeySecrets(db, rows)[..i]
    {
      assert rows[i] in rows;
      keys := keys + [KeyEntry(username, rows[i].name, rows[i].expires)];
      hashes := hashes + [KeySecret(username, rows[i].name, rows[i].hash)];
    }
  }

  method WriteRegistries(db: DB, ids: seq<string>) returns (es: seq<RegistryEntry>, secrets: seq<RegistrySecret>)
    requires forall i :: 0 <= i < |ids| ==> ids[i] in db.registries
    ensures es == RegistryEntries(db, ids) && secrets == Select(ids, RegistrySecretsOf(db))
  {
    es, secrets := [], [];
    for i := 0 to |ids|
      invariant es == RegistryEntries(db, ids)[..i] && secrets == Select(ids[..i], RegistrySecretsOf(db))
    {
      var r := db.registries[ids[i]];
      SelectStep(ids, RegistrySecretsOf(db), i);
      es := es + [RegistryEntry(ids[i], r.name, r.url)];
      if r.usernameEnc != "" || r.passwordEnc != "" {
        secrets := secrets + [RegistrySecret(ids[i], r.usernameEnc, r.passwordEnc)];
      }
    }
    assert ids[..|ids|] == ids;
  }

  method WriteWebhooks(rows: seq<Webhook>) returns (es: seq<HookEntry>, secrets: seq<HookSecret>)
    ensures es == Map(rows, HookEntryOf) && secrets == Select(rows, HookSecretOf)
  {
    es, secrets := [], [];
    for i := 0 to |rows|
      invariant es == Map(rows, HookEntryOf)[..i] && secrets == Select(rows[..i], HookSecretOf)
    {
      var w := rows[i];
      SelectStep(rows, HookSecretOf, i);
      es := es + [HookEntry(w.name, w.kind)];
      if w.url != "" || w.headers != "" || w.template != "" {
        secrets := secrets + [HookSecret(w.name, w.url, w.headers, w.template)];
      }
    }
    assert rows[..|rows|] == rows;
  }

  /** The pair of files written for a database, users and registries in the order they are listed. */
  method WriteGlobal(db: DB, order: seq<Id>, regs: seq<string>) returns (data: Sidecar, secrets: Secrets)
    requires (forall i :: 0 <= i < |order| ==> order[i] in db.users.rows) && forall i :: 0 <= i < |regs| ==> regs[i] in db.registries
    ensures data == WrittenSidecar(db, order, regs) && secrets == WrittenSecrets(db, order, regs)
  {
    var users, hashes, keys, keyHashes := WriteUsers(db, order);
    var registries, registrySecrets := WriteRegistries(db, regs);
    var webhooks, webhookSecrets := WriteWebhooks(HookRows(db));
    var setting := if SecretSetting in db.dbBackup then db.dbBackup[SecretSetting] else "";
    data := Sidecar(users, keys, registries, webhooks, map k | k in db.dbBackup && k != SecretSetting :: db.dbBackup[k]);
    secrets := Secrets(hashes, keyHashes, registrySecrets, webhookSecrets, setting);
  }

  // ---- what deletions add up to

  function AnyUser(u: User): bool { true }

  function GoneOf(ids: seq<Id>, names: map<Id, string>, want: set<string>): set<Id> { set id | id in ids && id in names && names[id] !in want }

  function HookNames(es: seq<HookEntry>): set<string> { set e | e in es :: e.name }

  function UserNames(es: seq<UserEntry>): set<string> { set e | e in es :: e.username }

  function WithoutHooks(db: DB, gone: set<Id>): DB {
    db.(webhooks := Delete(db.webhooks, gone), rules := Delete(db.rules, RulesUsing(db.rules, gone)))
  }

  function RulesUsing(t: Table<Rule>, hooks: set<Id>): set<Id> { set id | id in t.rows && t.rows[id].key.webhook in hooks }

  function KeysOwned(t: Table<ApiKey>, users: set<Id>): set<Id> { set id | id in t.rows && t.rows[id].user in users }

  function GrantsLeft(access: set<(Id, Id)>, users: set<Id>): set<(Id, Id)> { set g | g in access && g.0 !in users }

  function WithoutUsers(db: DB, gone: set<Id>): DB {
    db.(users := Delete(db.users, gone), keys := Delete(db.keys, KeysOwned(db.keys, gone)), access := GrantsLeft(db.access, gone))
  }

  function UnlistedOf(db: DB, users: seq<Id>, want: set<string>): set<Id> {
    set id | id in db.keys.rows && db.keys.rows[id].user in users && Unlisted(db.users, db.keys.rows[id], want)
  }

  lemma {:induction false} GoneStep(ids: seq<Id>, names: map<Id, string>, want: set<string>, i: nat)
    requires i < |ids| && ids[i] in names
    ensures GoneOf(ids[..i + 1], names, want) == GoneOf(ids[..i], names, want) + if names[ids[i]] !in want then {ids[i]} else {}
  {
    assert ids[..i + 1] == ids[..i] + [ids[i]];
  }

  lemma {:induction false} DeleteAgain<T>(t: Table<T>, a: set<Id>, b: set<Id>)
    ensures Delete(Delete(t, a), b) == Delete(t, a + b)
  {
    assert (t.rows - a) - b == t.rows - (a + b);
  }

  lemma {:induction false} NoHookGone(db: DB)
    ensures WithoutHooks(db, {}) == db
  {
    assert RulesUsing(db.rules, {}) == {};
    assert db.rules.rows - {} == db.rules.rows && db.webhooks.rows - {} == db.webhooks.rows;
  }

  lemma {:induction false} OneMoreHookGone(db: DB, gone: set<Id>, id: Id)
    ensures WithoutHooks(WithoutHooks(db, gone), {id}) == WithoutHooks(db, gone + {id})
  {
    DeleteAgain(db.webhooks, gone, {id});
    var rules := Delete(db.rules, RulesUsing(db.rules, gone));
    assert Delete(rules, RulesUsing(rules, {id})).rows == Delete(db.rules, RulesUsing(db.rules, gone + {id})).rows;
  }

  /** Webhooks whose name is not wanted are those no entry names. */
  lemma {:induction false} HooksGone(t: Table<Webhook>, secrets: Option<Secrets>, es: seq<HookEntry>, ids: seq<Id>, names: map<Id, string>)
    requires ids == IdsWhere(t, AnyHook) && names == map id | id in t.rows :: t.rows[id].name
    ensures GoneOf(ids, names, HookNames(es)) == Unnamed(HookSchema(secrets), t, es)
    ensures forall i :: 0 <= i < |ids| ==> ids[i] in names
  {
    forall id | id in t.rows ensures t.rows[id].name in HookNames(es) <==> Named(HookSchema(secrets), es, t.rows[id].name) {
      HookNamed(secrets, es, t.rows[id].name);
    }
  }

  lemma {:induction false} HookNamed(secrets: Option<Secrets>, es: seq<HookEntry>, name: string)
    ensures name in HookNames(es) <==> Named(HookSchema(secrets), es, name)
  {
    if Named(HookSchema(secrets), es, name) {
      var i :| 0 <= i < |es| && HookSchema(secrets).entryKey(es[i]) == name;
      assert es[i] in es;
    }
    if name in HookNames(es) {
      var i :| 0 <= i < |es| && es[i].name == name;
      assert HookSchema(secrets).entryKey(es[i]) == name;
    }
  }

  lemma {:induction false} UsersGone(t: Table<User>, secrets: Option<Secrets>, es: seq<UserEntry>, ids: seq<Id>, names: map<Id, string>)
    requires ids == IdsWhere(t, AnyUser) && names == map id | id in t.rows :: t.rows[id].username
    ensures GoneOf(ids, names, UserNames(es)) == Unnamed(UserSchema(secrets), t, es)
    ensures forall i :: 0 <= i < |ids| ==> ids[i] in names
  {
    forall id | id in t.rows ensures t.rows[id].username in UserNames(es) <==> Named(UserSchema(secrets), es, t.rows[id].username) {
      UserNamed(secrets, es, t.rows[id].username);
    }
  }

  lemma {:induction false} UserNamed(secrets: Option<Secrets>, es: seq<UserEntry>, name: string)
    ensures name in UserNames(es) <==> Named(UserSchema(secrets), es, name)
  {
    if Named(UserSchema(secrets), es, name) {
      var i :| 0 <= i < |es| && UserSchema(secrets).entryKey(es[i]) == name;
      assert es[i] in es;
    }
    if name in UserNames(es) {
      var i :| 0 <= i < |es| && es[i].username == name;
      assert UserSchema(secrets).entryKey(es[i]) == name;
    }
  }

  lemma {:induction false} WithoutNobody(db: DB)
    ensures WithoutUsers(db, {}) == db
  {
    assert KeysOwned(db.keys, {}) == {} && GrantsLeft(db.access, {}) == db.access;
    assert db.keys.rows - {} == db.keys.rows && db.users.rows - {} == db.users.rows;
  }

  lemma {:induction false} WithoutOneMore(db: DB, gone: set<Id>, id: Id)
    ensures WithoutUsers(WithoutUsers(db, gone), {id}) == WithoutUsers(db, gone + {id})
  {
    DeleteAgain(db.users, gone, {id});
    var keys := Delete(db.keys, KeysOwned(db.keys, gone));
    assert Delete(keys, KeysOwned(keys, {id})).rows == Delete(db.keys, KeysOwned(db.keys, gone + {id})).rows;
    assert GrantsLeft(GrantsLeft(db.access, gone), {id}) == GrantsLeft(db.access, gone + {id});
  }

  lemma {:induction false} HookNamesStep(es: seq<HookEntry>, i: nat)
    requires i < |es|
    ensures HookNames(es[..i + 1]) == HookNames(es[..i]) + {es[i].name}
  {
    assert es[..i + 1] == es[..i] + [es[i]];
  }

  lemma {:induction false} UserNamesStep(es: seq<UserEntry>, i: nat)
    requires i < |es|
    ensures UserNames(es[..i + 1]) == UserNames(es[..i]) + {es[i].username}
  {
    assert es[..i + 1] == es[..i] + [es[i]];
  }

  lemma {:induction false} LabelsStep(es: seq<KeyEntry>, i: nat)
    requires i < |es|
    ensures Labels(es[..i + 1]) == Labels(es[..i]) + {Label(es[i].username, es[i].name)}
  {
    assert es[..i + 1] == es[..i] + [es[i]];
  }

  lemma {:induction false} RegistryIdsStep(es: seq<RegistryEntry>, i: nat)
    requires i < |es|
    ensures RegistryIds(es[..i + 1]) == RegistryIds(es[..i]) + {es[i].id}
  {
    assert es[..i + 1] == es[..i] + [es[i]];
  }

  lemma {:induction false} UnlistedStep(db: DB, users: seq<Id>, want: set<string>, i: nat, gone: set<Id>)
    requires i < |users| && users[i] in db.users.rows
    requires var keys := Delete(db.keys, UnlistedOf(db, users[..i], want));
      gone == set id | id in keys.rows && keys.rows[id].user == users[i] && Label(db.users.rows[users[i]].username, keys.rows[id].name) !in want
    ensures UnlistedOf(db, users[..i + 1], want) == UnlistedOf(db, users[..i], want) + gone
  {
    assert users[..i + 1] == users[..i] + [users[i]];
  }
}
