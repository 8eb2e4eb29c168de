/**
 * The global sidecar pair: users, API keys, registries, webhooks and database backup
 * settings, written to a public file and a secrets file and applied back.
 */
module GlobalSidecars {
  import opened Prelude
  import opened ConfigStore
  import opened Upserts

  datatype HookEntry = HookEntry(name: string, kind: string)
  datatype UserEntry = UserEntry(username: string, role: string, display: string, email: string)
  datatype KeyEntry = KeyEntry(username: string, name: string, expires: Option<int>)
  datatype RegistryEntry = RegistryEntry(id: string, name: string, url: string)

  datatype Sidecar = Sidecar(users: seq<UserEntry>, keys: seq<KeyEntry>, registries: seq<RegistryEntry>,
                             webhooks: seq<HookEntry>, dbBackup: map<string, string>)

  datatype HookSecret = HookSecret(name: string, url: string, headers: string, template: string)
  datatype UserSecret = UserSecret(username: string, hash: string)
  datatype KeySecret = KeySecret(username: string, name: string, hash: string)
  datatype RegistrySecret = RegistrySecret(id: string, usernameEnc: string, passwordEnc: string)

  datatype Secrets = Secrets(users: seq<UserSecret>, keys: seq<KeySecret>, registries: seq<RegistrySecret>,
                             webhooks: seq<HookSecret>, dbBackup: string)

  const SecretSetting := "target_config_enc"

  datatype Outcome = Outcome(db: DB, ok: bool)

  // ---- secrets by name

  /** The last entry with key `k`. */
  function LastBy<E, K(==)>(es: seq<E>, key: E -> K, k: K): Option<E> {
    if es == [] then None
    else if key(es[|es| - 1]) == k then Some(es[|es| - 1])
    else LastBy(es[..|es| - 1], key, k)
  }

  function HookName(w: Webhook): string { w.name }

  function UsernameOf(u: User): string { u.username }

  function HashOf(k: ApiKey): string { k.hash }

  function AnyHook(w: Webhook): bool { true }

  function HookSecretName(w: HookSecret): string { w.name }

  function UserSecretName(u: UserSecret): string { u.username }

  function RegistrySecretId(r: RegistrySecret): string { r.id }

  /** What API keys are compared by. */
  function Label(username: string, name: string): string { username + "|" + name }

  /** A label with its username cut off at the first bar. */
  lemma {:induction false} LabelSplits(u: string, name: string)
    requires '|' !in u
    ensures FirstBar(Label(u, name)) == |u|
    decreases u
  {
    if u != "" {
      assert Label(u, name)[1..] == Label(u[1..], name);
      LabelSplits(u[1..], name);
    }
  }

  ghost function FirstBar(l: string): nat {
    if l == "" || l[0] == '|' then 0 else 1 + FirstBar(l[1..])
  }

  /** Labels of users whose names have no bar tell both parts apart. */
  lemma {:induction false} LabelsTellApart(u: string, name: string, u': string, name': string)
    requires '|' !in u && '|' !in u' && Label(u, name) == Label(u', name')
    ensures u == u' && name == name'
  {
    LabelSplits(u, name);
    LabelSplits(u', name');
    var l := Label(u, name);
    assert u == l[..|u|] && u' == l[..|u|];
    assert name == l[|u| + 1..] && name' == l[|u| + 1..];
  }

  function KeySecretLabel(k: KeySecret): string { Label(k.username, k.name) }

  function HookSecretFor(s: Secrets, name: string): HookSecret {
    var f := LastBy(s.webhooks, HookSecretName, name);
    if f.Some? then f.value else HookSecret(name, "", "", "")
  }

  function HashFor(s: Secrets, username: string): string {
    var f := LastBy(s.users, UserSecretName, username);
    if f.Some? then f.value.hash else ""
  }

  function RegistrySecretFor(s: Secrets, id: string): RegistrySecret {
    var f := LastBy(s.registries, RegistrySecretId, id);
    if f.Some? then f.value else RegistrySecret(id, "", "")
  }

  function KeyHashFor(s: Secrets, tag: string): string {
    var f := LastBy(s.keys, KeySecretLabel, tag);
    if f.Some? then f.value.hash else ""
  }

  // ---- applying

  /** A webhook upsert; without secrets only the type of a stored row changes. */
  function HookSchema(secrets: Option<Secrets>): Schema<Webhook, string, HookEntry> {
    Schema(HookName, (e: HookEntry) => e.name, (e: HookEntry, r: Option<Webhook>) => MadeHook(secrets, e, r))
  }

  function MadeHook(secrets: Option<Secrets>, e: HookEntry, r: Option<Webhook>): Webhook {
    if secrets.Some? then
      var sec := HookSecretFor(secrets.value, e.name);
      Webhook(e.name, e.kind, sec.url, sec.headers, sec.template)
    else if r.Some? then r.value.(name := e.name, kind := e.kind)
    else Webhook(e.name, e.kind, "", "", "")
  }

  function UserSchema(secrets: Option<Secrets>): Schema<User, string, UserEntry> {
    Schema(UsernameOf, (e: UserEntry) => e.username, (e: UserEntry, r: Option<User>) => MadeUser(secrets, e, r))
  }

  function MadeUser(secrets: Option<Secrets>, e: UserEntry, r: Option<User>): User {
    var hash := if secrets.Some? then HashFor(secrets.value, e.username) else if r.Some? then r.value.hash else "";
    User(e.username, hash, e.role, e.display, e.email)
  }

  /** An API key is stored under its hash; the entry replaces all of the row. */
  function KeySchema(): Schema<ApiKey, string, ApiKey> {
    Schema(HashOf, (k: ApiKey) => k.hash, (k: ApiKey, r: Option<ApiKey>) => k)
  }

  function FindUser(users: Table<User>, username: string): (r: Option<Id>)
    ensures r.Some? ==> r.value in users.rows && users.rows[r.value].username == username
  {
    Lookup(users, UsernameOf, username)
  }

  /** Rows for the API key entries, up to the first whose user is unknown. */
  datatype Resolved = Resolved(rows: seq<ApiKey>, ok: bool)

  function ResolveKeys(users: Table<User>, secrets: Secrets, es: seq<KeyEntry>): Resolved {
    if es == [] then Resolved([], true)
    else
      var before, e := ResolveKeys(users, secrets, es[..|es| - 1]), es[|es| - 1];
      var user := FindUser(users, e.username);
      if !before.ok then before
      else if user.None? then before.(ok := false)
      else Resolved(before.rows + [ApiKey(user.value, KeyHashFor(secrets, Label(e.username, e.name)), e.name, e.expires)], true)
  }

  function Labels(es: seq<KeyEntry>): set<string> { set e | e in es :: Label(e.username, e.name) }

  predicate Unlisted(users: Table<User>, k: ApiKey, labels: set<string>) {
    k.user in users.rows && Label(users.rows[k.user].username, k.name) !in labels
  }

  function UnlistedKeys(users: Table<User>, keys: Table<ApiKey>, es: seq<KeyEntry>): set<Id> {
    set id | id in keys.rows && Unlisted(users, keys.rows[id], Labels(es))
  }

  datatype Registries = Registries(rows: map<string, Registry>, ok: bool)

  predicate NameTaken(rows: map<string, Registry>, id: string, name: string) {
    exists i :: i in rows && i != id && rows[i].name == name
  }

  function MadeRegistry(secrets: Option<Secrets>, rows: map<string, Registry>, e: RegistryEntry): Registry {
    if secrets.Some? then
      var sec := RegistrySecretFor(secrets.value, e.id);
      Registry(e.name, e.url, sec.usernameEnc, sec.passwordEnc)
    else if e.id in rows then rows[e.id].(name := e.name, url := e.url)
    else Registry(e.name, e.url, "", "")
  }

  /** Registries in order, up to the first whose name another one has. */
  function PutRegistries(secrets: Option<Secrets>, rows: map<string, Registry>, es: seq<RegistryEntry>): Registries {
    if es == [] then Registries(rows, true)
    else
      var before, e := PutRegistries(secrets, rows, es[..|es| - 1]), es[|es| - 1];
      if !before.ok then before
      else if NameTaken(before.rows, e.id, e.name) then before.(ok := false)
      else Registries(before.rows[e.id := MadeRegistry(secrets, before.rows, e)], true)
  }

  function RegistryIds(es: seq<RegistryEntry>): set<string> { set e | e in es :: e.id }

  /** Deleting a webhook deletes the rules that use it. */
  function ApplyHooks(db: DB, secrets: Option<Secrets>, es: seq<HookEntry>): DB {
    var s := HookSchema(secrets);
    var t := UpsertAll(s, db.webhooks, es);
    var gone := Unnamed(s, t, es);
    db.(webhooks := Delete(t, gone), rules := Delete(db.rules, set id | id in db.rules.rows && db.rules.rows[id].key.webhook in gone))
  }

  /** Deleting a user deletes its keys and grants. */
  function ApplyUsers(db: DB, secrets: Option<Secrets>, es: seq<UserEntry>): DB {
    var s := UserSchema(secrets);
    var t := UpsertAll(s, db.users, es);
    var gone := Unnamed(s, t, es);
    db.(users := Delete(t, gone),
        keys := Delete(db.keys, set id | id in db.keys.rows && db.keys.rows[id].user in gone),
        access := set g | g in db.access && g.0 !in gone)
  }

  function ApplyKeys(db: DB, secrets: Secrets, es: seq<KeyEntry>): Outcome {
    var resolved := ResolveKeys(db.users, secrets, es);
    var keys := UpsertAll(KeySchema(), db.keys, resolved.rows);
    if resolved.ok then Outcome(db.(keys := Delete(keys, UnlistedKeys(db.users, keys, es))), true)
    else Outcome(db.(keys := keys), false)
  }

  function ApplyRegistries(db: DB, secrets: Option<Secrets>, es: seq<RegistryEntry>): Outcome {
    var r := PutRegistries(secrets, db.registries, es);
    if r.ok then Outcome(db.(registries := map id | id in r.rows && id in RegistryIds(es) :: r.rows[id]), true)
    else Outcome(db.(registries := r.rows), false)
  }

  function ApplySettings(db: DB, secrets: Option<Secrets>, settings: map<string, string>): DB {
    var merged := db.dbBackup + settings;
    db.(dbBackup := if secrets.Some? && secrets.value.dbBackup != "" then merged[SecretSetting := secrets.value.dbBackup] else merged)
  }

  function ApplyGlobal(db: DB, data: Sidecar, secrets: Option<Secrets>): Outcome {
    var db1 := ApplyUsers(ApplyHooks(db, secrets, data.webhooks), secrets, data.users);
    var keyed := if secrets.Some? then ApplyKeys(db1, secrets.value, data.keys) else Outcome(db1, true);
    if !keyed.ok then keyed
    else
      var regs := ApplyRegistries(keyed.db, secrets, data.registries);
      if !regs.ok then regs else Outcome(ApplySettings(regs.db, secrets, data.dbBackup), true)
  }

  // ---- writing

  /** What a function gives for each row, without the rows it gives nothing for. */
  function Select<T, E>(rows: seq<T>, f: T -> Option<E>): seq<E> {
    if rows == [] then []
    else
      var e := f(rows[|rows| - 1]);
      Select(rows[..|rows| - 1], f) + if e.Some? then [e.value] else []
  }

  function Map<T, E>(rows: seq<T>, f: T -> E): (r: seq<E>)
    ensures |r| == |rows| && forall i :: 0 <= i < |rows| ==> r[i] == f(rows[i])
  {
    seq(|rows|, i requires 0 <= i < |rows| => f(rows[i]))
  }

  function HookRows(db: DB): seq<Webhook> { RowsWhere(db.webhooks, AnyHook) }

  function HookEntryOf(w: Webhook): HookEntry { HookEntry(w.name, w.kind) }

  function HookSecretOf(w: Webhook): Option<HookSecret> {
    if w.url != "" || w.headers != "" || w.template != "" then Some(HookSecret(w.name, w.url, w.headers, w.template)) else None
  }

  /** All users, in the order they were listed. */
  ghost predicate IsListing(db: DB, order: seq<Id>) {
    (forall i :: 0 <= i < |order| ==> order[i] in db.users.rows) && (forall id :: id in db.users.rows ==> id in order) && Distinct(order)
  }

  function UserRows(db: DB, order: seq<Id>): (r: seq<User>)
    requires forall i :: 0 <= i < |order| ==> order[i] in db.users.rows
    ensures |r| == |order| && forall i :: 0 <= i < |r| ==> r[i] == db.users.rows[order[i]]
  {
    seq(|order|, i requires 0 <= i < |order| => db.users.rows[order[i]])
  }

  function UserEntryOf(u: User): UserEntry { UserEntry(u.username, u.role, u.display, u.email) }

  function UserSecretOf(u: User): Option<UserSecret> { if u.hash != "" then Some(UserSecret(u.username, u.hash)) else None }

  /** Ids of API keys, user by user. */
  function KeyIds(db: DB, order: seq<Id>): seq<Id> {
    if order == [] then []
    else KeyIds(db, order[..|order| - 1]) + IdsWhere(db.keys, (k: ApiKey) => k.user == order[|order| - 1])
  }

  function Owner(db: DB, k: ApiKey): string { if k.user in db.users.rows then db.users.rows[k.user].username else "" }

  function KeyRows(db: DB, ids: seq<Id>): (r: seq<ApiKey>)
    requires forall i :: 0 <= i < |ids| ==> ids[i] in db.keys.rows
    ensures |r| == |ids| && forall i :: 0 <= i < |r| ==> r[i] == db.keys.rows[ids[i]]
  {
    seq(|ids|, i requires 0 <= i < |ids| => db.keys.rows[ids[i]])
  }

  function KeyEntries(db: DB, rows: seq<ApiKey>): (r: seq<KeyEntry>)
    ensures |r| == |rows| && forall i :: 0 <= i < |r| ==> r[i] == KeyEntry(Owner(db, rows[i]), rows[i].name, rows[i].expires)
  {
    seq(|rows|, i requires 0 <= i < |rows| => KeyEntry(Owner(db, rows[i]), rows[i].name, rows[i].expires))
  }

  function KeySecrets(db: DB, rows: seq<ApiKey>): (r: seq<KeySecret>)
    ensures |r| == |rows| && forall i :: 0 <= i < |r| ==> r[i] == KeySecret(Owner(db, rows[i]), rows[i].name, rows[i].hash)
  {
    seq(|rows|, i requires 0 <= i < |rows| => KeySecret(Owner(db, rows[i]), rows[i].name, rows[i].hash))
  }

  lemma {:induction false} KeyIdsAre(db: DB, order: seq<Id>, id: Id)
    ensures id in KeyIds(db, order) <==> id in db.keys.rows && db.keys.rows[id].user in order
  {
    if order != [] {
      var n := |order| - 1;
      KeyIdsAre(db, order[..n], id);
      assert order == order[..n] + [order[n]];
    }
  }

  lemma {:induction false} KeyIdsStored(db: DB, order: seq<Id>)
    ensures forall i :: 0 <= i < |KeyIds(db, order)| ==> KeyIds(db, order)[i] in db.keys.rows
  {
    forall i | 0 <= i < |KeyIds(db, order)| ensures KeyIds(db, order)[i] in db.keys.rows {
      KeyIdsAre(db, order, KeyIds(db, order)[i]);
    }
  }

  function ListedKeys(db: DB, order: seq<Id>): seq<ApiKey> {
    KeyIdsStored(db, order);
    KeyRows(db, KeyIds(db, order))
  }

  function RegistryEntryOf(id: string, r: Registry): RegistryEntry { RegistryEntry(id, r.name, r.url) }

  function RegistryEntries(db: DB, ids: seq<string>): (r: seq<RegistryEntry>)
    requires forall i :: 0 <= i < |ids| ==> ids[i] in db.registries
    ensures |r| == |ids| && forall i :: 0 <= i < |r| ==> r[i] == RegistryEntryOf(ids[i], db.registries[ids[i]])
  {
    seq(|ids|, i requires 0 <= i < |ids| => RegistryEntryOf(ids[i], db.registries[ids[i]]))
  }

  function RegistrySecretOf(db: DB, id: string): Option<RegistrySecret> {
    if id in db.registries && (db.registries[id].usernameEnc != "" || db.registries[id].passwordEnc != "")
    then Some(RegistrySecret(id, db.registries[id].usernameEnc, db.registries[id].passwordEnc)) else None
  }

  function RegistrySecretsOf(db: DB): string -> Option<RegistrySecret> { (id: string) => RegistrySecretOf(db, id) }

  ghost predicate IsRegistryListing(db: DB, ids: seq<string>) {
    (forall i :: 0 <= i < |ids| ==> ids[i] in db.registries) && (forall id :: id in db.registries ==> id in ids) && Distinct(ids)
  }

  function PublicSettings(m: map<string, string>): map<string, string> { map k | k in m && k != SecretSetting :: m[k] }

  function WrittenSidecar(db: DB, order: seq<Id>, regs: seq<string>): Sidecar
    requires (forall i :: 0 <= i < |order| ==> order[i] in db.users.rows) && forall i :: 0 <= i < |regs| ==> regs[i] in db.registries
  {
    Sidecar(Map(UserRows(db, order), UserEntryOf), KeyEntries(db, ListedKeys(db, order)), RegistryEntries(db, regs),
            Map(HookRows(db), HookEntryOf), PublicSettings(db.dbBackup))
  }

  function WrittenSecrets(db: DB, order: seq<Id>, regs: seq<string>): Secrets
    requires forall i :: 0 <= i < |order| ==> order[i] in db.users.rows
  {
    Secrets(Select(UserRows(db, order), UserSecretOf), KeySecrets(db, ListedKeys(db, order)), Select(regs, RegistrySecretsOf(db)),
            Select(HookRows(db), HookSecretOf), if SecretSetting in db.dbBackup then db.dbBackup[SecretSetting] else "")
  }

  lemma {:induction false} SelectedFrom<T, E>(rows: seq<T>, f: T -> Option<E>, e: E)
    ensures e in Select(rows, f) <==> exists i :: 0 <= i < |rows| && f(rows[i]) == Some(e)
  {
    if rows != [] {
      var n := |rows| - 1;
      SelectedFrom(rows[..n], f, e);
      if i :| 0 <= i < n && f(rows[..n][i]) == Some(e) { assert f(rows[i]) == Some(e); }
      if i :| 0 <= i < |rows| && f(rows[i]) == Some(e) { assert i == n || f(rows[..n][i]) == Some(e); }
    }
  }

  /** The secrets file names exactly the users, webhooks and registries that have a secret. */
  lemma {:induction false} SecretsAreThose(db: DB, order: seq<Id>, regs: seq<string>)
    requires IsListing(db, order) && IsRegistryListing(db, regs)
    ensures var s := WrittenSecrets(db, order, regs);
      && (forall e :: e in s.users <==> e.hash != "" && exists i :: 0 <= i < |order| && IsSecretOf(db.users.rows[order[i]], e))
      && (forall e :: e in s.webhooks ==> e.url != "" || e.headers != "" || e.template != "")
      && (forall e :: e in s.registries ==> e.usernameEnc != "" || e.passwordEnc != "")
  {
    var s, users, hooks, of := WrittenSecrets(db, order, regs), UserRows(db, order), HookRows(db), RegistrySecretsOf(db);
    forall e: UserSecret ensures e in s.users <==> e.hash != "" && exists i :: 0 <= i < |order| && IsSecretOf(db.users.rows[order[i]], e) {
      SelectedFrom(users, UserSecretOf, e);
      if e.hash != "" && exists i :: 0 <= i < |order| && IsSecretOf(db.users.rows[order[i]], e) {
        var i :| 0 <= i < |order| && IsSecretOf(db.users.rows[order[i]], e);
        assert UserSecretOf(users[i]) == Some(e);
      }
    }
    forall e | e in s.webhooks ensures e.url != "" || e.headers != "" || e.template != "" { SelectedFrom(hooks, HookSecretOf, e); }
    forall e | e in s.registries ensures e.usernameEnc != "" || e.passwordEnc != "" { SelectedFrom(regs, of, e); }
  }

  ghost predicate IsSecretOf(u: User, e: UserSecret) { e.username == u.username && e.hash == u.hash }

  // ---- looking secrets up again

  lemma {:induction false} LastByIs<E, K>(es: seq<E>, key: E -> K, i: nat)
    requires i < |es| && forall j :: i < j < |es| ==> key(es[j]) != key(es[i])
    ensures LastBy(es, key, key(es[i])) == Some(es[i])
  {
    var n := |es| - 1;
    if i < n { LastByIs(es[..n], key, i); }
  }

  lemma {:induction false} SelectedLast<T, E, K>(rows: seq<T>, f: T -> Option<E>, rowKey: T -> K, key: E -> K, k: K)
    requires forall i :: 0 <= i < |rows| && f(rows[i]).Some? ==> key(f(rows[i]).value) == rowKey(rows[i])
    requires forall i :: 0 <= i < |rows| ==> rowKey(rows[i]) != k
    ensures LastBy(Select(rows, f), key, k) == None
  {
    if rows != [] {
      var n := |rows| - 1;
      SelectedLast(rows[..n], f, rowKey, key, k);
      LastOfSelect(rows, f, key, k);
    }
  }

  lemma {:induction false} LastOfSelect<T, E, K>(rows: seq<T>, f: T -> Option<E>, key: E -> K, k: K)
    requires rows != []
    ensures var e := f(rows[|rows| - 1]);
      LastBy(Select(rows, f), key, k) == if e.Some? && key(e.value) == k then e else LastBy(Select(rows[..|rows| - 1], f), key, k)
  {
    var e, before := f(rows[|rows| - 1]), Select(rows[..|rows| - 1], f);
    if e.Some? {
      assert Select(rows, f) == before + [e.value];
      assert Select(rows, f)[..|before|] == before;
    } else {
      assert Select(rows, f) == before;
    }
  }

  /** Among rows with distinct keys, a key leads back to what its own row gave. */
  lemma {:induction false} SelectedOwn<T, E, K>(rows: seq<T>, f: T -> Option<E>, rowKey: T -> K, key: E -> K, i: nat)
    requires forall j :: 0 <= j < |rows| && f(rows[j]).Some? ==> key(f(rows[j]).value) == rowKey(rows[j])
    requires i < |rows| && forall j :: 0 <= j < |rows| && rowKey(rows[j]) == rowKey(rows[i]) ==> j == i
    ensures LastBy(Select(rows, f), key, rowKey(rows[i])) == f(rows[i])
  {
    var n := |rows| - 1;
    LastOfSelect(rows, f, key, rowKey(rows[i]));
    assert forall j :: 0 <= j < n ==> rows[..n][j] == rows[j];
    if i < n {
      SelectedOwn(rows[..n], f, rowKey, key, i);
    } else {
      SelectedLast(rows[..n], f, rowKey, key, rowKey(rows[i]));
    }
  }
}
