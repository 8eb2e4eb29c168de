/** Writing the global sidecar pair and applying it back; applying it without its secrets. */
module GlobalRoundTrips {
  import opened Prelude
  import opened ConfigStore
  import opened Upserts
  import opened GlobalSidecars

  /** What the database's constraints and counters guarantee. */
  ghost predicate DbOk(db: DB) {
    && Wf(db.webhooks) && Wf(db.users) && Wf(db.keys)
    && UniqueKeys(db.users, UsernameOf) && UniqueKeys(db.keys, HashOf)
    && (forall id :: id in db.keys.rows ==> db.keys.rows[id].user in db.users.rows)
    && UniqueRegistryNames(db.registries)
  }

  ghost predicate UniqueRegistryNames(rows: map<string, Registry>) {
    forall i, j :: i in rows && j in rows && rows[i].name == rows[j].name ==> i == j
  }

  // ---- webhooks

  ghost predicate OldestHook(t: Table<Webhook>, id: Id) {
    id in t.rows && forall j :: j in t.rows && t.rows[j].name == t.rows[id].name ==> id <= j
  }

  ghost predicate NewestHook(t: Table<Webhook>, id: Id) {
    id in t.rows && forall j :: j in t.rows && t.rows[j].name == t.rows[id].name ==> j <= id
  }

  /** The newest webhook of its name that has a URL, headers or a template. */
  ghost predicate NewestSecret(t: Table<Webhook>, id: Id) {
    && id in t.rows && HookSecretOf(t.rows[id]).Some?
    && forall j :: j in t.rows && t.rows[j].name == t.rows[id].name && HookSecretOf(t.rows[j]).Some? ==> j <= id
  }

  function HookSecrets(w: Webhook): (string, string, string) { (w.url, w.headers, w.template) }

  /** Among webhooks of one name, the oldest has the type of the newest and the secrets of the newest that has any. */
  ghost predicate HooksPortable(t: Table<Webhook>) {
    forall o, n :: OldestHook(t, o) && NewestHook(t, n) && t.rows[o].name == t.rows[n].name ==> PortableHook(t, o, n)
  }

  ghost predicate PortableHook(t: Table<Webhook>, o: Id, n: Id)
    requires o in t.rows && n in t.rows
  {
    && t.rows[o].kind == t.rows[n].kind
    && forall z :: NewestSecret(t, z) && t.rows[z].name == t.rows[o].name ==> HookSecrets(t.rows[o]) == HookSecrets(t.rows[z])
  }

  /** Unique names are enough. */
  lemma {:induction false} UniqueNamesPortable(t: Table<Webhook>)
    requires UniqueKeys(t, HookName)
    ensures HooksPortable(t)
  {
    forall o, n | o in t.rows && n in t.rows && t.rows[o].name == t.rows[n].name ensures o == n {
      assert HookName(t.rows[o]) == HookName(t.rows[n]);
    }
  }

  lemma {:induction false} SecretOfLast(rows: seq<Webhook>, i: nat)
    requires i < |rows| && HookSecretOf(rows[i]).Some?
    requires forall j :: i < j < |rows| && rows[j].name == rows[i].name ==> HookSecretOf(rows[j]).None?
    ensures LastBy(Select(rows, HookSecretOf), HookSecretName, rows[i].name) == HookSecretOf(rows[i])
  {
    var n := |rows| - 1;
    LastOfSelect(rows, HookSecretOf, HookSecretName, rows[i].name);
    if i < n { SecretOfLast(rows[..n], i); }
  }

  lemma {:induction false} SecretOfNone(rows: seq<Webhook>, name: string)
    requires forall j :: 0 <= j < |rows| && rows[j].name == name ==> HookSecretOf(rows[j]).None?
    ensures LastBy(Select(rows, HookSecretOf), HookSecretName, name) == None
  {
    if rows != [] {
      LastOfSelect(rows, HookSecretOf, HookSecretName, name);
      SecretOfNone(rows[..|rows| - 1], name);
    }
  }

  /** Where a webhook stands in the list. */
  lemma {:induction false} HookIndex(db: DB, id: Id) returns (i: nat)
    requires id in db.webhooks.rows
    ensures i < |HookRows(db)| && IdsWhere(db.webhooks, AnyHook)[i] == id && HookRows(db)[i] == db.webhooks.rows[id]
  {
    var ids := IdsWhere(db.webhooks, AnyHook);
    assert id in ids;
    i :| 0 <= i < |ids| && ids[i] == id;
  }

  /** The secrets file has, under a name, the secrets of the newest webhook of that name with any. */
  lemma {:induction false} SecretsUnderName(db: DB, s: Secrets, z: Id)
    requires s.webhooks == Select(HookRows(db), HookSecretOf) && NewestSecret(db.webhooks, z)
    ensures var w := db.webhooks.rows[z]; HookSecretFor(s, w.name) == HookSecret(w.name, w.url, w.headers, w.template)
  {
    var i := HookIndex(db, z);
    SecretOfLast(HookRows(db), i);
  }

  /** The newest webhook of a name, if one satisfies `p`. */
  lemma {:induction false} NewestWith(t: Table<Webhook>, name: string, p: Webhook -> bool, id: Id) returns (n: Id)
    requires Wf(t) && id in t.rows && t.rows[id].name == name && p(t.rows[id])
    ensures n in t.rows && t.rows[n].name == name && p(t.rows[n])
    ensures forall j :: j in t.rows && t.rows[j].name == name && p(t.rows[j]) ==> j <= n
    decreases t.next - id
  {
    if j :| j in t.rows && t.rows[j].name == name && p(t.rows[j]) && j > id {
      n := NewestWith(t, name, p, j);
    } else {
      n := id;
    }
  }

  lemma {:induction false} NewestOfName(t: Table<Webhook>, id: Id) returns (n: Id)
    requires Wf(t) && id in t.rows
    ensures NewestHook(t, n) && t.rows[n].name == t.rows[id].name
  {
    n := NewestWith(t, t.rows[id].name, AnyHook, id);
  }

  function HasSecret(w: Webhook): bool { HookSecretOf(w).Some? }

  lemma {:induction false} NewestIsLast(db: DB, n: Id) returns (i: nat)
    requires NewestHook(db.webhooks, n)
    ensures i < |HookRows(db)| && HookRows(db)[i] == db.webhooks.rows[n]
    ensures forall j :: i < j < |HookRows(db)| ==> HookRows(db)[j].name != db.webhooks.rows[n].name
  {
    i := HookIndex(db, n);
    var ids: seq<Id> := IdsWhere(db.webhooks, AnyHook);
    forall j | i < j < |HookRows(db)| ensures HookRows(db)[j].name != db.webhooks.rows[n].name {
      assert ids[j] > n && HookRows(db)[j] == db.webhooks.rows[ids[j]];
    }
  }

  lemma {:induction false} NewestDecides(db: DB, s: Secrets, n: Id)
    requires Wf(db.webhooks) && NewestHook(db.webhooks, n)
    ensures var schema, w := HookSchema(Some(s)), db.webhooks.rows[n];
      RowOf(schema, UpsertAll(schema, db.webhooks, Map(HookRows(db), HookEntryOf)), w.name) == Some(MadeHook(Some(s), HookEntryOf(w), None))
  {
    var i := NewestIsLast(db, n);
    LastDecides(HookSchema(Some(s)), db.webhooks, Map(HookRows(db), HookEntryOf), i);
  }

  /** What applying the written webhooks leaves on the oldest one of a name. */
  lemma {:induction false} OldestBecomes(db: DB, s: Secrets, o: Id, n: Id)
    requires Wf(db.webhooks) && OldestHook(db.webhooks, o) && NewestHook(db.webhooks, n)
    requires db.webhooks.rows[o].name == db.webhooks.rows[n].name
    ensures var t', w := UpsertAll(HookSchema(Some(s)), db.webhooks, Map(HookRows(db), HookEntryOf)), db.webhooks.rows[n];
      o in t'.rows && t'.rows[o] == MadeHook(Some(s), HookEntryOf(w), None)
  {
    var schema, t := HookSchema(Some(s)), db.webhooks;
    NewestDecides(db, s, n);
    FindIs(schema, t, t.rows[o].name, o);
    AllKeepsIds(schema, t, Map(HookRows(db), HookEntryOf), t.rows[o].name);
  }

  /** The oldest webhook of a name is rewritten to itself exactly when it is portable. */
  lemma {:induction false} OldestSameIff(db: DB, s: Secrets, o: Id, n: Id)
    requires Wf(db.webhooks) && s.webhooks == Select(HookRows(db), HookSecretOf)
    requires OldestHook(db.webhooks, o) && NewestHook(db.webhooks, n) && db.webhooks.rows[o].name == db.webhooks.rows[n].name
    ensures MadeHook(Some(s), HookEntryOf(db.webhooks.rows[n]), None) == db.webhooks.rows[o] <==> PortableHook(db.webhooks, o, n)
  {
    var t, w := db.webhooks, db.webhooks.rows[o];
    if x :| x in t.rows && t.rows[x].name == w.name && HasSecret(t.rows[x]) {
      var z := NewestWith(t, w.name, HasSecret, x);
      assert forall y :: NewestSecret(t, y) && t.rows[y].name == w.name ==> y == z;
      SecretsUnderName(db, s, z);
    } else {
      NoSecretUnder(db, s, w.name);
    }
  }

  lemma {:induction false} NoSecretUnder(db: DB, s: Secrets, name: string)
    requires s.webhooks == Select(HookRows(db), HookSecretOf)
    requires forall x :: x in db.webhooks.rows && db.webhooks.rows[x].name == name ==> !HasSecret(db.webhooks.rows[x])
    ensures HookSecretFor(s, name) == HookSecret(name, "", "", "")
  {
    SecretOfNone(HookRows(db), name);
  }

  /** The upserts leave the table as it was exactly when it is portable. */
  lemma {:induction false} HooksSameIff(db: DB, s: Secrets)
    requires Wf(db.webhooks) && s.webhooks == Select(HookRows(db), HookSecretOf)
    ensures UpsertAll(HookSchema(Some(s)), db.webhooks, Map(HookRows(db), HookEntryOf)) == db.webhooks <==> HooksPortable(db.webhooks)
  {
    var t' := UpsertAll(HookSchema(Some(s)), db.webhooks, Map(HookRows(db), HookEntryOf));
    if HooksPortable(db.webhooks) { PortableIsSame(db, s); }
    if t' == db.webhooks { SameIsPortable(db, s); }
  }

  lemma {:induction false} SameIsPortable(db: DB, s: Secrets)
    requires Wf(db.webhooks) && s.webhooks == Select(HookRows(db), HookSecretOf)
    requires UpsertAll(HookSchema(Some(s)), db.webhooks, Map(HookRows(db), HookEntryOf)) == db.webhooks
    ensures HooksPortable(db.webhooks)
  {
    var t := db.webhooks;
    forall o, n | OldestHook(t, o) && NewestHook(t, n) && t.rows[o].name == t.rows[n].name ensures PortableHook(t, o, n) {
      OldestBecomes(db, s, o, n);
      OldestSameIff(db, s, o, n);
    }
  }

  lemma {:induction false} PortableIsSame(db: DB, s: Secrets)
    requires Wf(db.webhooks) && s.webhooks == Select(HookRows(db), HookSecretOf) && HooksPortable(db.webhooks)
    ensures UpsertAll(HookSchema(Some(s)), db.webhooks, Map(HookRows(db), HookEntryOf)) == db.webhooks
  {
    var t, t' := db.webhooks, UpsertAll(HookSchema(Some(s)), db.webhooks, Map(HookRows(db), HookEntryOf));
    assert t'.next == t.next && forall id :: id in t'.rows <==> id in t.rows by { NoNewHooks(db, Some(s)); }
    forall id | id in t.rows ensures t'.rows[id] == t.rows[id] { PortableStays(db, s, id); }
    SameTable(t', t);
  }

  lemma {:induction false} PortableStays(db: DB, s: Secrets, id: Id)
    requires Wf(db.webhooks) && s.webhooks == Select(HookRows(db), HookSecretOf) && HooksPortable(db.webhooks) && id in db.webhooks.rows
    ensures var t' := UpsertAll(HookSchema(Some(s)), db.webhooks, Map(HookRows(db), HookEntryOf)); id in t'.rows && t'.rows[id] == db.webhooks.rows[id]
  {
    var schema, t := HookSchema(Some(s)), db.webhooks;
    if OldestHook(t, id) {
      var n := NewestOfName(t, id);
      OldestBecomes(db, s, id, n);
      OldestSameIff(db, s, id, n);
    } else {
      Untouched(schema, t, Map(HookRows(db), HookEntryOf), id);
    }
  }

  lemma {:induction false} HooksNamed(db: DB, secrets: Option<Secrets>, id: Id)
    requires id in db.webhooks.rows
    ensures Named(HookSchema(secrets), Map(HookRows(db), HookEntryOf), db.webhooks.rows[id].name)
  {
    var i := HookIndex(db, id);
    assert HookSchema(secrets).entryKey(Map(HookRows(db), HookEntryOf)[i]) == db.webhooks.rows[id].name;
  }

  /** Written webhooks add no row and drop none. */
  lemma {:induction false} NoNewHooks(db: DB, secrets: Option<Secrets>)
    requires Wf(db.webhooks)
    ensures var schema, es := HookSchema(secrets), Map(HookRows(db), HookEntryOf);
      var t' := UpsertAll(schema, db.webhooks, es);
      && t'.next == db.webhooks.next && (forall id :: id in t'.rows <==> id in db.webhooks.rows)
      && Unnamed(schema, t', es) == {}
  {
    var schema, t, es := HookSchema(secrets), db.webhooks, Map(HookRows(db), HookEntryOf);
    NothingNew(schema, t, es);
    AllShape(schema, t, es);
    forall id | id in t.rows ensures Named(schema, es, schema.key(t.rows[id])) { HooksNamed(db, secrets, id); }
  }

  /** Applying the written webhooks deletes no rule, and changes no webhook exactly when they are portable. */
  lemma {:induction false} HooksRoundTripIff(db: DB, s: Secrets)
    requires Wf(db.webhooks) && s.webhooks == Select(HookRows(db), HookSecretOf)
    ensures var db' := ApplyHooks(db, Some(s), Map(HookRows(db), HookEntryOf));
      db' == db.(webhooks := db'.webhooks) && (db'.webhooks == db.webhooks <==> HooksPortable(db.webhooks))
  {
    var schema, es := HookSchema(Some(s)), Map(HookRows(db), HookEntryOf);
    var t' := UpsertAll(schema, db.webhooks, es);
    NoNewHooks(db, Some(s));
    HooksSameIff(db, s);
    NothingDeleted(t', Unnamed(schema, t', es));
    NothingDeleted(db.rules, set id | id in db.rules.rows && db.rules.rows[id].key.webhook in Unnamed(schema, t', es));
  }

  const TWO_OF_ONE_NAME := Table(map[0 := Webhook("ops", "slack", "a", "", ""), 1 := Webhook("ops", "slack", "b", "", "")], 2)

  lemma {:induction false} TwoAreNotPortable()
    ensures Wf(TWO_OF_ONE_NAME) && !HooksPortable(TWO_OF_ONE_NAME)
  {
    var t := TWO_OF_ONE_NAME;
    assert OldestHook(t, 0) && NewestHook(t, 1) && NewestSecret(t, 1);
    assert !PortableHook(t, 0, 1);
  }

  /** Two webhooks of one name with different URLs: the round trip changes the database. */
  lemma {:induction false} RepeatedNameChanges(db: DB, s: Secrets)
    requires db.webhooks == TWO_OF_ONE_NAME && s.webhooks == Select(HookRows(db), HookSecretOf)
    ensures ApplyHooks(db, Some(s), Map(HookRows(db), HookEntryOf)).webhooks != db.webhooks
  {
    TwoAreNotPortable();
    HooksRoundTripIff(db, s);
  }

  lemma {:induction false} NothingDeleted<T>(t: Table<T>, ids: set<Id>)
    requires ids == {}
    ensures Delete(t, ids) == t
  {
  }

  // ---- users

  lemma {:induction false} UserFound(db: DB, s: Secrets, order: seq<Id>, i: nat)
    requires UniqueKeys(db.users, UsernameOf) && IsListing(db, order) && i < |order|
    requires s.users == Select(UserRows(db, order), UserSecretOf)
    ensures var u := UserRows(db, order)[i];
      RowOf(UserSchema(Some(s)), db.users, u.username) == Some(u) && MadeUser(Some(s), UserEntryOf(u), Some(u)) == u
  {
    var rows := UserRows(db, order);
    UniqueFind(UserSchema(Some(s)), db.users, order[i]);
    forall j | 0 <= j < |rows| && UsernameOf(rows[j]) == UsernameOf(rows[i]) ensures j == i {
      assert UsernameOf(db.users.rows[order[j]]) == UsernameOf(db.users.rows[order[i]]);
    }
    SelectedOwn(rows, UserSecretOf, UsernameOf, UserSecretName, i);
  }

  lemma {:induction false} UsersConfirm(db: DB, s: Secrets, order: seq<Id>)
    requires UniqueKeys(db.users, UsernameOf) && IsListing(db, order)
    requires s.users == Select(UserRows(db, order), UserSecretOf)
    ensures UpsertAll(UserSchema(Some(s)), db.users, Map(UserRows(db, order), UserEntryOf)) == db.users
  {
    var schema, es := UserSchema(Some(s)), Map(UserRows(db, order), UserEntryOf);
    forall i | 0 <= i < |es| ensures var r := RowOf(schema, db.users, schema.entryKey(es[i])); r.Some? && schema.make(es[i], r) == r.value {
      UserFound(db, s, order, i);
    }
    AllConfirms(schema, db.users, es);
  }

  lemma {:induction false} UsersNamed(db: DB, secrets: Option<Secrets>, order: seq<Id>)
    requires IsListing(db, order)
    ensures Unnamed(UserSchema(secrets), db.users, Map(UserRows(db, order), UserEntryOf)) == {}
  {
    var schema, es := UserSchema(secrets), Map(UserRows(db, order), UserEntryOf);
    forall id | id in db.users.rows ensures Named(schema, es, schema.key(db.users.rows[id])) {
      var i :| 0 <= i < |order| && order[i] == id;
      assert schema.entryKey(es[i]) == schema.key(db.users.rows[id]);
    }
  }

  lemma {:induction false} UsersRoundTrip(db: DB, s: Secrets, order: seq<Id>)
    requires UniqueKeys(db.users, UsernameOf) && IsListing(db, order)
    requires s.users == Select(UserRows(db, order), UserSecretOf)
    ensures ApplyUsers(db, Some(s), Map(UserRows(db, order), UserEntryOf)) == db
  {
    UsersConfirm(db, s, order);
    UsersNamed(db, Some(s), order);
    var gone := Unnamed(UserSchema(Some(s)), db.users, Map(UserRows(db, order), UserEntryOf));
    NobodyGone(db, gone);
  }

  lemma {:induction false} NobodyGone(db: DB, gone: set<Id>)
    requires gone == {}
    ensures Delete(db.users, gone) == db.users
    ensures Delete(db.keys, set id | id in db.keys.rows && db.keys.rows[id].user in gone) == db.keys
    ensures (set g | g in db.access && g.0 !in gone) == db.access
  {
    NothingDeleted(db.users, gone);
    NothingDeleted(db.keys, set id | id in db.keys.rows && db.keys.rows[id].user in gone);
  }

  // ---- API keys

  /** Of the listed keys with one label, the last. */
  ghost predicate LastWithLabel(db: DB, rows: seq<ApiKey>, i: nat, j: nat) {
    && i <= j < |rows| && i < |rows| && SameLabel(db, rows[i], rows[j])
    && forall l :: j < l < |rows| ==> !SameLabel(db, rows[i], rows[l])
  }

  predicate SameLabel(db: DB, a: ApiKey, b: ApiKey) { Label(Owner(db, a), a.name) == Label(Owner(db, b), b.name) }

  lemma {:induction false} LastLabelExists(db: DB, rows: seq<ApiKey>, i: nat, n: nat) returns (j: nat)
    requires i < n <= |rows| && forall l :: n <= l < |rows| ==> !SameLabel(db, rows[i], rows[l])
    ensures LastWithLabel(db, rows, i, j)
    decreases n
  {
    if SameLabel(db, rows[i], rows[n - 1]) {
      j := n - 1;
    } else {
      j := LastLabelExists(db, rows, i, n - 1);
    }
  }

  /** A label leads to the hash of the last key that carries it. */
  lemma {:induction false} LabelHash(db: DB, s: Secrets, rows: seq<ApiKey>, i: nat, j: nat)
    requires s.keys == KeySecrets(db, rows) && LastWithLabel(db, rows, i, j)
    ensures KeyHashFor(s, Label(Owner(db, rows[i]), rows[i].name)) == rows[j].hash
  {
    LastByIs(s.keys, KeySecretLabel, j);
  }

  ghost predicate OwnersKnown(db: DB, rows: seq<ApiKey>) {
    UniqueKeys(db.users, UsernameOf) && forall i :: 0 <= i < |rows| ==> rows[i].user in db.users.rows
  }

  /** A listed key, written back under the hash its label leads to. */
  function Rewritten(db: DB, s: Secrets, k: ApiKey): ApiKey { k.(hash := KeyHashFor(s, Label(Owner(db, k), k.name))) }

  lemma {:induction false} KeysResolve(db: DB, s: Secrets, rows: seq<ApiKey>)
    requires OwnersKnown(db, rows)
    ensures ResolveKeys(db.users, s, KeyEntries(db, rows)) == Resolved(Map(rows, k => Rewritten(db, s, k)), true)
  {
    if rows != [] {
      var n := |rows| - 1;
      assert forall i :: 0 <= i < n ==> rows[..n][i] == rows[i];
      KeysResolve(db, s, rows[..n]);
      assert KeyEntries(db, rows)[..n] == KeyEntries(db, rows[..n]);
      OwnerFound(db, rows[n].user);
      assert Map(rows, k => Rewritten(db, s, k)) == Map(rows[..n], k => Rewritten(db, s, k)) + [Rewritten(db, s, rows[n])];
    }
  }

  lemma {:induction false} OwnerFound(db: DB, user: Id)
    requires UniqueKeys(db.users, UsernameOf) && user in db.users.rows
    ensures FindUser(db.users, db.users.rows[user].username) == Some(user)
  {
    assert UsernameOf(db.users.rows[user]) == db.users.rows[user].username;
  }

  ghost predicate DistinctHashes(rows: seq<ApiKey>) {
    forall i, j :: 0 <= i < |rows| && 0 <= j < |rows| && rows[i].hash == rows[j].hash ==> i == j
  }

  /** A row written back under its own hash by the last of its label is the row itself. */
  lemma {:induction false} LastWriterIsOwner(db: DB, s: Secrets, rows: seq<ApiKey>, i: nat)
    requires s.keys == KeySecrets(db, rows) && DistinctHashes(rows) && i < |rows|
    requires forall l :: i < l < |rows| ==> Rewritten(db, s, rows[l]).hash != Rewritten(db, s, rows[i]).hash
    ensures Rewritten(db, s, rows[i]) == rows[i]
  {
    var j := LastLabelExists(db, rows, i, |rows|);
    LabelHash(db, s, rows, i, j);
    assert SameLabel(db, rows[i], rows[j]);
    assert Rewritten(db, s, rows[j]).hash == Rewritten(db, s, rows[i]).hash;
  }

  lemma {:induction false} LastNamed(rows: seq<ApiKey>, h: string) returns (i: nat)
    requires Named(KeySchema(), rows, h)
    ensures i < |rows| && rows[i].hash == h && forall l :: i < l < |rows| ==> rows[l].hash != h
  {
    var n := |rows| - 1;
    NamedStep(KeySchema(), rows, h);
    if rows[n].hash == h {
      i := n;
    } else {
      i := LastNamed(rows[..n], h);
      assert rows[i] == rows[..n][i];
      assert forall l :: i < l < n ==> rows[l] == rows[..n][l];
    }
  }

  /** The listing of a table's keys. */
  ghost predicate ListsKeys(t: Table<ApiKey>, rows: seq<ApiKey>) {
    && Wf(t) && UniqueKeys(t, HashOf) && DistinctHashes(rows)
    && (forall i :: 0 <= i < |rows| ==> Find(KeySchema(), t, rows[i].hash).Some? && RowOf(KeySchema(), t, rows[i].hash) == Some(rows[i]))
  }

  /** Rewriting the listed keys leads every hash where it led before. */
  lemma {:induction false} RewriteView(db: DB, s: Secrets, t: Table<ApiKey>, rows: seq<ApiKey>, h: string)
    requires s.keys == KeySecrets(db, rows) && ListsKeys(t, rows)
    ensures var t' := UpsertAll(KeySchema(), t, Map(rows, k => Rewritten(db, s, k)));
      RowOf(KeySchema(), t', h) == RowOf(KeySchema(), t, h)
  {
    var made := Map(rows, k => Rewritten(db, s, k));
    if Named(KeySchema(), made, h) {
      var i := LastNamed(made, h);
      assert forall l :: i < l < |rows| ==> made[l].hash != made[i].hash;
      LastWriterIsOwner(db, s, rows, i);
      LastDecides(KeySchema(), t, made, i);
    } else {
      AllMisses(KeySchema(), t, made, h);
    }
  }

  lemma {:induction false} RewrittenStored(db: DB, s: Secrets, t: Table<ApiKey>, rows: seq<ApiKey>, i: nat)
    requires s.keys == KeySecrets(db, rows) && ListsKeys(t, rows) && i < |rows|
    ensures Find(KeySchema(), t, Rewritten(db, s, rows[i]).hash).Some?
  {
    var j := LastLabelExists(db, rows, i, |rows|);
    LabelHash(db, s, rows, i, j);
  }

  lemma {:induction false} RewriteIsIdentity(db: DB, s: Secrets, t: Table<ApiKey>, rows: seq<ApiKey>)
    requires s.keys == KeySecrets(db, rows) && ListsKeys(t, rows)
    ensures UpsertAll(KeySchema(), t, Map(rows, k => Rewritten(db, s, k))) == t
  {
    var made := Map(rows, k => Rewritten(db, s, k));
    var t' := UpsertAll(KeySchema(), t, made);
    forall i | 0 <= i < |made| ensures Find(KeySchema(), t, KeySchema().entryKey(made[i])).Some? { RewrittenStored(db, s, t, rows, i); }
    NothingNew(KeySchema(), t, made);
    AllShape(KeySchema(), t, made);
    forall id | id in t.rows ensures t'.rows[id] == t.rows[id] {
      var h := t.rows[id].hash;
      RewriteView(db, s, t, rows, h);
      UniqueFind(KeySchema(), t, id);
      AllKeepsIds(KeySchema(), t, made, h);
    }
    assert t'.rows == t.rows;
  }

  lemma {:induction false} ListedAre(db: DB, order: seq<Id>)
    requires DbOk(db) && IsListing(db, order)
    ensures var rows := ListedKeys(db, order);
      ListsKeys(db.keys, rows) && OwnersKnown(db, rows) && forall id :: id in db.keys.rows ==> db.keys.rows[id] in rows
  {
    var ids := KeyIds(db, order);
    var rows := ListedKeys(db, order);
    KeyIdsStored(db, order);
    KeyIdsDistinct(db, order);
    forall i, j | 0 <= i < |rows| && 0 <= j < |rows| && rows[i].hash == rows[j].hash ensures i == j {
      assert HashOf(db.keys.rows[ids[i]]) == HashOf(db.keys.rows[ids[j]]);
    }
    forall i | 0 <= i < |rows| ensures Find(KeySchema(), db.keys, rows[i].hash).Some? && RowOf(KeySchema(), db.keys, rows[i].hash) == Some(rows[i]) {
      UniqueFind(KeySchema(), db.keys, ids[i]);
    }
    forall id | id in db.keys.rows ensures db.keys.rows[id] in rows {
      KeyIdsAre(db, order, id);
      var i :| 0 <= i < |ids| && ids[i] == id;
      assert rows[i] in rows;
    }
  }

  lemma {:induction false} KeyIdsDistinct(db: DB, order: seq<Id>)
    requires Distinct(order)
    ensures Distinct(KeyIds(db, order))
  {
    if order != [] {
      var n := |order| - 1;
      var init, last := KeyIds(db, order[..n]), IdsWhere(db.keys, (k: ApiKey) => k.user == order[n]);
      KeyIdsDistinct(db, order[..n]);
      forall i, j | 0 <= i < |init| && 0 <= j < |last| ensures init[i] != last[j] {
        KeyIdsAre(db, order[..n], init[i]);
        assert last[j] in last;
        assert db.keys.rows[last[j]].user == order[n] && order[n] !in order[..n];
      }
      DistinctConcat(init, last);
    }
  }

  lemma {:induction false} DistinctConcat(a: seq<Id>, b: seq<Id>)
    requires Distinct(a) && StrictlyAscending(b) && forall i, j :: 0 <= i < |a| && 0 <= j < |b| ==> a[i] != b[j]
    ensures Distinct(a + b)
  {
  }

  lemma {:induction false} KeysRoundTrip(db: DB, s: Secrets, order: seq<Id>)
    requires DbOk(db) && IsListing(db, order) && s.keys == KeySecrets(db, ListedKeys(db, order))
    ensures ApplyKeys(db, s, KeyEntries(db, ListedKeys(db, order))) == Outcome(db, true)
  {
    var rows := ListedKeys(db, order);
    var es := KeyEntries(db, rows);
    ListedAre(db, order);
    KeysResolve(db, s, rows);
    RewriteIsIdentity(db, s, db.keys, rows);
    forall id | id in db.keys.rows ensures !Unlisted(db.users, db.keys.rows[id], Labels(es)) {
      var i :| 0 <= i < |rows| && rows[i] == db.keys.rows[id];
      assert es[i] in es;
    }
    NothingDeleted(db.keys, UnlistedKeys(db.users, db.keys, es));
  }

  // ---- registries and settings

  /** Putting registries that are there already changes nothing. */
  lemma {:induction false} PutSame(secrets: Option<Secrets>, rows: map<string, Registry>, es: seq<RegistryEntry>)
    requires forall i :: 0 <= i < |es| ==> IsStored(secrets, rows, es[i])
    ensures PutRegistries(secrets, rows, es) == Registries(rows, true)
  {
    if es != [] {
      PutSame(secrets, rows, es[..|es| - 1]);
      assert IsStored(secrets, rows, es[|es| - 1]);
      assert rows[es[|es| - 1].id := rows[es[|es| - 1].id]] == rows;
    }
  }

  ghost predicate IsStored(secrets: Option<Secrets>, rows: map<string, Registry>, e: RegistryEntry) {
    e.id in rows && !NameTaken(rows, e.id, e.name) && MadeRegistry(secrets, rows, e) == rows[e.id]
  }

  lemma {:induction false} RegistryFound(db: DB, s: Secrets, regs: seq<string>, i: nat)
    requires UniqueRegistryNames(db.registries)
    requires IsRegistryListing(db, regs) && i < |regs| && s.registries == Select(regs, RegistrySecretsOf(db))
    ensures IsStored(Some(s), db.registries, RegistryEntries(db, regs)[i])
  {
    SelectedOwn(regs, RegistrySecretsOf(db), id => id, RegistrySecretId, i);
  }

  lemma {:induction false} RegistriesRoundTrip(db: DB, s: Secrets, regs: seq<string>)
    requires UniqueRegistryNames(db.registries) && IsRegistryListing(db, regs) && s.registries == Select(regs, RegistrySecretsOf(db))
    ensures ApplyRegistries(db, Some(s), RegistryEntries(db, regs)) == Outcome(db, true)
  {
    var es := RegistryEntries(db, regs);
    forall i | 0 <= i < |es| ensures IsStored(Some(s), db.registries, es[i]) { RegistryFound(db, s, regs, i); }
    PutSame(Some(s), db.registries, es);
    RegistriesListed(db, regs);
    AllKept(db.registries, RegistryIds(es));
  }

  lemma {:induction false} AllKept(rows: map<string, Registry>, ids: set<string>)
    requires forall id :: id in rows ==> id in ids
    ensures (map id | id in rows && id in ids :: rows[id]) == rows
  {
  }

  lemma {:induction false} RegistriesListed(db: DB, regs: seq<string>)
    requires IsRegistryListing(db, regs)
    ensures forall id :: id in db.registries ==> id in RegistryIds(RegistryEntries(db, regs))
  {
    var es := RegistryEntries(db, regs);
    forall id | id in db.registries ensures id in RegistryIds(es) {
      var i :| 0 <= i < |regs| && regs[i] == id;
      assert es[i] in es && es[i].id == id;
    }
  }

  lemma {:induction false} SettingsRoundTrip(db: DB, s: Secrets)
    requires s.dbBackup == if SecretSetting in db.dbBackup then db.dbBackup[SecretSetting] else ""
    ensures ApplySettings(db, Some(s), PublicSettings(db.dbBackup)) == db
  {
    assert db.dbBackup + PublicSettings(db.dbBackup) == db.dbBackup;
  }

  /** Nothing after the webhook phase touches webhooks. */
  lemma {:induction false} OnlyHooksTouchHooks(db: DB, data: Sidecar, secrets: Option<Secrets>)
    ensures ApplyGlobal(db, data, secrets).db.webhooks == ApplyHooks(db, secrets, data.webhooks).webhooks
  {
  }

  /**
   * Writing the global pair and applying it back leaves the whole database as it was,
   * row ids included, in whatever order users and registries are listed, if and only if
   * among webhooks of one name the oldest has the type of the newest and the secrets of
   * the newest that has any. Neither API key names nor the `|` in their labels matter.
   */
  lemma {:induction false} GlobalRoundTripIff(db: DB, order: seq<Id>, regs: seq<string>)
    requires DbOk(db) && IsListing(db, order) && IsRegistryListing(db, regs)
    ensures ApplyGlobal(db, WrittenSidecar(db, order, regs), Some(WrittenSecrets(db, order, regs))) == Outcome(db, true)
            <==> HooksPortable(db.webhooks)
  {
    var data, s := WrittenSidecar(db, order, regs), WrittenSecrets(db, order, regs);
    HooksRoundTripIff(db, s);
    OnlyHooksTouchHooks(db, data, Some(s));
    if HooksPortable(db.webhooks) {
      UsersRoundTrip(db, s, order);
      KeysRoundTrip(db, s, order);
      RegistriesRoundTrip(db, s, regs);
      SettingsRoundTrip(db, s);
    }
  }

  // ---- reconciling

  /** `v` is the last entry listed under `k`, if there is one. */
  ghost predicate LastListed<E, K(!new)>(es: seq<E>, key: E -> K, k: K, v: Option<E>) {
    match v
    case None => forall i :: 0 <= i < |es| ==> key(es[i]) != k
    case Some(e) => exists i :: 0 <= i < |es| && es[i] == e && key(e) == k && forall j :: i < j < |es| ==> key(es[j]) != k
  }

  lemma {:induction false} LastByIsLast<E, K(!new)>(es: seq<E>, key: E -> K, k: K)
    ensures LastListed(es, key, k, LastBy(es, key, k))
  {
    if es != [] && key(es[|es| - 1]) != k {
      var n := |es| - 1;
      LastByIsLast(es[..n], key, k);
      var v := LastBy(es[..n], key, k);
      if v.Some? {
        var i :| 0 <= i < |es[..n]| && es[..n][i] == v.value && forall j :: i < j < |es[..n]| ==> key(es[..n][j]) != k;
        assert es[i] == v.value && forall j :: i < j < |es| ==> j == n || es[j] == es[..n][j];
      } else {
        assert forall i :: 0 <= i < n ==> es[i] == es[..n][i];
      }
    }
  }

  /** The password hash of a user: the one listed last with secrets, the stored one without, "" if there is none. */
  ghost predicate HashAfter(before: Table<User>, secrets: Option<Secrets>, id: Id, u: User) {
    match secrets
    case Some(s) =>
      exists v: Option<UserSecret> :: LastListed(s.users, UserSecretName, u.username, v) && u.hash == if v.Some? then v.value.hash else ""
    case None => u.hash == if id in before.rows then before.rows[id].hash else ""
  }

  /** A row that is what the entry says. */
  ghost predicate IsUser(before: Table<User>, after: Table<User>, secrets: Option<Secrets>, e: UserEntry, id: Id) {
    && id in after.rows
    && var u := after.rows[id];
       u.username == e.username && u.role == e.role && u.display == e.display && u.email == e.email && HashAfter(before, secrets, id, u)
  }

  ghost predicate HasUser(before: Table<User>, after: Table<User>, secrets: Option<Secrets>, e: UserEntry) {
    exists id :: IsUser(before, after, secrets, e, id)
  }

  lemma {:induction false} UserRowIs(db: DB, secrets: Option<Secrets>, es: seq<UserEntry>, i: nat)
    requires Wf(db.users) && DistinctKeys(UserSchema(secrets), es) && i < |es|
    ensures HasUser(db.users, ApplyUsers(db, secrets, es).users, secrets, es[i])
  {
    var id := MadeFrom(UserSchema(secrets), db.users, es, i);
    if secrets.Some? { LastByIsLast(secrets.value.users, UserSecretName, es[i].username); }
    assert IsUser(db.users, ApplyUsers(db, secrets, es).users, secrets, es[i], id);
  }

  ghost predicate ListsUser(es: seq<UserEntry>, username: string) { exists i :: 0 <= i < |es| && es[i].username == username }

  lemma {:induction false} NamedIsListed(secrets: Option<Secrets>, es: seq<UserEntry>, username: string)
    ensures Named(UserSchema(secrets), es, username) <==> ListsUser(es, username)
  {
    if i :| 0 <= i < |es| && UserSchema(secrets).entryKey(es[i]) == username { assert es[i].username == username; }
    if i :| 0 <= i < |es| && es[i].username == username { assert UserSchema(secrets).entryKey(es[i]) == username; }
  }

  /**
   * Users after an apply: each entry has its row with exactly its role, names and email;
   * the hash is the listed one with secrets and the stored one without; stored users keep
   * their id and stay exactly when they are listed; no two rows share a username; keys and
   * grants go with the users that go, and no others.
   */
  lemma {:induction false} UsersReconciled(db: DB, secrets: Option<Secrets>, es: seq<UserEntry>)
    requires DbOk(db) && DistinctKeys(UserSchema(secrets), es)
    ensures var db' := ApplyUsers(db, secrets, es);
      && (forall i :: 0 <= i < |es| ==> HasUser(db.users, db'.users, secrets, es[i]))
      && (forall id :: id in db'.users.rows ==> ListsUser(es, db'.users.rows[id].username))
      && (forall id :: id in db.users.rows ==> UserKept(db.users, db'.users, es, id))
      && UniqueKeys(db'.users, UsernameOf)
  {
    var db' := ApplyUsers(db, secrets, es);
    forall i | 0 <= i < |es| ensures HasUser(db.users, db'.users, secrets, es[i]) { UserRowIs(db, secrets, es, i); }
    forall id | id in db'.users.rows ensures ListsUser(es, db'.users.rows[id].username) {
      NamedIsListed(secrets, es, db'.users.rows[id].username);
    }
    forall id | id in db.users.rows ensures UserKept(db.users, db'.users, es, id) { UserStays(db, secrets, es, id); }
    UsersUnique(db, secrets, es);
  }

  /** A stored user stays, under its id and name, exactly when it is listed. */
  ghost predicate UserKept(before: Table<User>, after: Table<User>, es: seq<UserEntry>, id: Id)
    requires id in before.rows
  {
    && (id in after.rows <==> ListsUser(es, before.rows[id].username))
    && (id in after.rows ==> after.rows[id].username == before.rows[id].username)
  }

  lemma {:induction false} UserStays(db: DB, secrets: Option<Secrets>, es: seq<UserEntry>, id: Id)
    requires Wf(db.users) && id in db.users.rows
    ensures UserKept(db.users, ApplyUsers(db, secrets, es).users, es, id)
  {
    AllShape(UserSchema(secrets), db.users, es);
    NamedIsListed(secrets, es, db.users.rows[id].username);
  }

  lemma {:induction false} UsersUnique(db: DB, secrets: Option<Secrets>, es: seq<UserEntry>)
    requires Wf(db.users) && UniqueKeys(db.users, UsernameOf)
    ensures UniqueKeys(ApplyUsers(db, secrets, es).users, UsernameOf)
  {
    AllUnique(UserSchema(secrets), db.users, es);
    var t := UpsertAll(UserSchema(secrets), db.users, es);
    assert UniqueKeys(t, UsernameOf);
  }

  /** Keys and grants go with the users that go, and no others. */
  lemma {:induction false} UsersCascade(db: DB, secrets: Option<Secrets>, es: seq<UserEntry>)
    requires DbOk(db) && forall g :: g in db.access ==> g.0 in db.users.rows
    ensures var db' := ApplyUsers(db, secrets, es);
      && (forall id :: id in db'.keys.rows <==> id in db.keys.rows && db.keys.rows[id].user in db'.users.rows)
      && (forall id :: id in db'.keys.rows ==> db'.keys.rows[id] == db.keys.rows[id])
      && (forall g :: g in db'.access <==> g in db.access && g.0 in db'.users.rows)
  {
    AllShape(UserSchema(secrets), db.users, es);
  }

  /** The secrets of a webhook: those listed last with secrets, the stored ones without, empty if there are none. */
  ghost predicate SecretsAfter(before: Table<Webhook>, secrets: Option<Secrets>, id: Id, w: Webhook) {
    match secrets
    case Some(s) =>
      exists v: Option<HookSecret> :: LastListed(s.webhooks, HookSecretName, w.name, v)
        && HookSecrets(w) == if v.Some? then (v.value.url, v.value.headers, v.value.template) else ("", "", "")
    case None => HookSecrets(w) == if id in before.rows then HookSecrets(before.rows[id]) else ("", "", "")
  }

  ghost predicate IsHook(before: Table<Webhook>, after: Table<Webhook>, secrets: Option<Secrets>, e: HookEntry, id: Id) {
    && id in after.rows
    && var w := after.rows[id]; w.name == e.name && w.kind == e.kind && SecretsAfter(before, secrets, id, w)
  }

  ghost predicate HasHook(before: Table<Webhook>, after: Table<Webhook>, secrets: Option<Secrets>, e: HookEntry) {
    exists id :: IsHook(before, after, secrets, e, id)
  }

  lemma {:induction false} HookRowIs(db: DB, secrets: Option<Secrets>, es: seq<HookEntry>, i: nat)
    requires Wf(db.webhooks) && DistinctKeys(HookSchema(secrets), es) && i < |es|
    ensures HasHook(db.webhooks, ApplyHooks(db, secrets, es).webhooks, secrets, es[i])
  {
    var id := MadeFrom(HookSchema(secrets), db.webhooks, es, i);
    if secrets.Some? { LastByIsLast(secrets.value.webhooks, HookSecretName, es[i].name); }
    assert IsHook(db.webhooks, ApplyHooks(db, secrets, es).webhooks, secrets, es[i], id);
  }

  ghost predicate ListsHook(es: seq<HookEntry>, name: string) { exists i :: 0 <= i < |es| && es[i].name == name }

  lemma {:induction false} HookIsListed(secrets: Option<Secrets>, es: seq<HookEntry>, name: string)
    ensures Named(HookSchema(secrets), es, name) <==> ListsHook(es, name)
  {
    if i :| 0 <= i < |es| && HookSchema(secrets).entryKey(es[i]) == name { assert es[i].name == name; }
    if i :| 0 <= i < |es| && es[i].name == name { assert HookSchema(secrets).entryKey(es[i]) == name; }
  }

  /**
   * Webhooks after an apply: each entry has a row with exactly its type; URL, headers and
   * template are the listed ones with secrets and the stored ones without; stored webhooks
   * stay exactly when their name is listed, under their id; rules go with the webhooks that
   * go, and no others.
   */
  lemma {:induction false} HooksReconciled(db: DB, secrets: Option<Secrets>, es: seq<HookEntry>)
    requires Wf(db.webhooks) && DistinctKeys(HookSchema(secrets), es)
    ensures var db' := ApplyHooks(db, secrets, es);
      && (forall i :: 0 <= i < |es| ==> HasHook(db.webhooks, db'.webhooks, secrets, es[i]))
      && (forall id :: id in db'.webhooks.rows ==> ListsHook(es, db'.webhooks.rows[id].name))
      && (forall id :: id in db.webhooks.rows ==> HookKept(db.webhooks, db'.webhooks, es, id))
  {
    var db' := ApplyHooks(db, secrets, es);
    forall i | 0 <= i < |es| ensures HasHook(db.webhooks, db'.webhooks, secrets, es[i]) { HookRowIs(db, secrets, es, i); }
    forall id | id in db'.webhooks.rows ensures ListsHook(es, db'.webhooks.rows[id].name) {
      HookIsListed(secrets, es, db'.webhooks.rows[id].name);
    }
    forall id | id in db.webhooks.rows ensures HookKept(db.webhooks, db'.webhooks, es, id) { HookStays(db, secrets, es, id); }
  }

  /** A stored webhook stays, under its id and name, exactly when its name is listed. */
  ghost predicate HookKept(before: Table<Webhook>, after: Table<Webhook>, es: seq<HookEntry>, id: Id)
    requires id in before.rows
  {
    && (id in after.rows <==> ListsHook(es, before.rows[id].name))
    && (id in after.rows ==> after.rows[id].name == before.rows[id].name)
  }

  lemma {:induction false} HookStays(db: DB, secrets: Option<Secrets>, es: seq<HookEntry>, id: Id)
    requires Wf(db.webhooks) && id in db.webhooks.rows
    ensures HookKept(db.webhooks, ApplyHooks(db, secrets, es).webhooks, es, id)
  {
    AllShape(HookSchema(secrets), db.webhooks, es);
    HookIsListed(secrets, es, db.webhooks.rows[id].name);
  }

  /** Rules go with the webhooks that go, and no others. */
  lemma {:induction false} HooksCascade(db: DB, secrets: Option<Secrets>, es: seq<HookEntry>)
    requires Wf(db.webhooks) && forall id :: id in db.rules.rows ==> db.rules.rows[id].key.webhook in db.webhooks.rows
    ensures var db' := ApplyHooks(db, secrets, es);
      && (forall id :: id in db'.rules.rows <==> id in db.rules.rows && db.rules.rows[id].key.webhook in db'.webhooks.rows)
      && (forall id :: id in db'.rules.rows ==> db'.rules.rows[id] == db.rules.rows[id])
  {
    AllShape(HookSchema(secrets), db.webhooks, es);
  }

  /** Keys are resolved to the end exactly when every entry's user is known. */
  lemma {:induction false} ResolveSucceeds(users: Table<User>, s: Secrets, es: seq<KeyEntry>)
    ensures ResolveKeys(users, s, es).ok <==> forall i :: 0 <= i < |es| ==> FindUser(users, es[i].username).Some?
  {
    if es != [] {
      var n := |es| - 1;
      ResolveSucceeds(users, s, es[..n]);
      assert forall i :: 0 <= i < n ==> es[..n][i] == es[i];
    }
  }

  lemma {:induction false} ResolvedRow(users: Table<User>, s: Secrets, es: seq<KeyEntry>, i: nat)
    requires ResolveKeys(users, s, es).ok && i < |es|
    ensures var rows := ResolveKeys(users, s, es).rows; |rows| == |es| && IsResolved(users, s, es[i], rows[i])
  {
    var n := |es| - 1;
    if n > 0 { ResolvedRow(users, s, es[..n], if i < n then i else 0); }
  }

  /** `k` is the row an API key entry stands for. */
  predicate IsResolved(users: Table<User>, s: Secrets, e: KeyEntry, k: ApiKey) {
    && k.user in users.rows && users.rows[k.user].username == e.username
    && k.name == e.name && k.expires == e.expires && k.hash == KeyHashFor(s, Label(e.username, e.name))
  }

  /** Some entry is stored under this hash. */
  ghost predicate HashListed(s: Secrets, es: seq<KeyEntry>, h: string) {
    exists i :: 0 <= i < |es| && KeyHashFor(s, Label(es[i].username, es[i].name)) == h
  }

  /** The last entry for its hash. */
  ghost predicate IsLastHash(s: Secrets, es: seq<KeyEntry>, i: nat)
    requires i < |es|
  {
    forall j :: i < j < |es| ==> KeyHashFor(s, Label(es[j].username, es[j].name)) != KeyHashFor(s, Label(es[i].username, es[i].name))
  }

  /** The rows of the entries, as far as they are resolved. */
  ghost predicate AreResolved(users: Table<User>, s: Secrets, es: seq<KeyEntry>, rows: seq<ApiKey>) {
    |rows| == |es| && forall i :: 0 <= i < |es| ==> IsResolved(users, s, es[i], rows[i])
  }

  lemma {:induction false} AllResolved(users: Table<User>, s: Secrets, es: seq<KeyEntry>)
    requires ResolveKeys(users, s, es).ok
    ensures AreResolved(users, s, es, ResolveKeys(users, s, es).rows)
  {
    forall i | 0 <= i < |es| ensures |ResolveKeys(users, s, es).rows| == |es| && IsResolved(users, s, es[i], ResolveKeys(users, s, es).rows[i]) {
      ResolvedRow(users, s, es, i);
    }
    if es == [] { assert ResolveKeys(users, s, es).rows == []; }
  }

  lemma {:induction false} ListedIsNamed(users: Table<User>, s: Secrets, es: seq<KeyEntry>, rows: seq<ApiKey>, h: string)
    requires AreResolved(users, s, es, rows)
    ensures HashListed(s, es, h) <==> Named(KeySchema(), rows, h)
  {
    if HashListed(s, es, h) {
      var i :| 0 <= i < |es| && KeyHashFor(s, Label(es[i].username, es[i].name)) == h;
      assert KeySchema().entryKey(rows[i]) == h;
    }
    if Named(KeySchema(), rows, h) {
      var i :| 0 <= i < |rows| && KeySchema().entryKey(rows[i]) == h;
      assert IsResolved(users, s, es[i], rows[i]);
    }
  }

  /** Under a listed hash stands the row of its last entry, which is not among those to delete. */
  lemma {:induction false} LastKeyStored(users: Table<User>, keys: Table<ApiKey>, s: Secrets, es: seq<KeyEntry>, rows: seq<ApiKey>, h: string)
    returns (id: Id, i: nat)
    requires Wf(keys) && AreResolved(users, s, es, rows) && Named(KeySchema(), rows, h)
    ensures i < |rows| && rows[i].hash == h && forall l :: i < l < |rows| ==> rows[l].hash != h
    ensures var t := UpsertAll(KeySchema(), keys, rows);
      Find(KeySchema(), t, h) == Some(id) && id in t.rows && t.rows[id] == rows[i] && !Unlisted(users, t.rows[id], Labels(es))
  {
    i := LastNamed(rows, h);
    LastDecides(KeySchema(), keys, rows, i);
    id := Find(KeySchema(), UpsertAll(KeySchema(), keys, rows), h).value;
    assert IsResolved(users, s, es[i], rows[i]) && es[i] in es;
  }

  /** An API key that was stored: under a listed hash it stays in place, else it stays as it is if its label is listed. */
  ghost predicate KeyKept(db: DB, keys: Table<ApiKey>, s: Secrets, es: seq<KeyEntry>, id: Id)
    requires id in db.keys.rows
  {
    var k := db.keys.rows[id];
    if HashListed(s, es, k.hash) then id in keys.rows && keys.rows[id].hash == k.hash
    else (id in keys.rows <==> !Unlisted(db.users, k, Labels(es))) && (id in keys.rows ==> keys.rows[id] == k)
  }

  lemma {:induction false} StoredKeyKept(db: DB, s: Secrets, es: seq<KeyEntry>, id: Id)
    requires Wf(db.keys) && UniqueKeys(db.keys, HashOf) && ApplyKeys(db, s, es).ok && id in db.keys.rows
    ensures KeyKept(db, ApplyKeys(db, s, es).db.keys, s, es, id)
  {
    var rows, h := ResolveKeys(db.users, s, es).rows, db.keys.rows[id].hash;
    AllResolved(db.users, s, es);
    ListedIsNamed(db.users, s, es, rows, h);
    if HashListed(s, es, h) {
      var f, i := LastKeyStored(db.users, db.keys, s, es, rows, h);
      UniqueFind(KeySchema(), db.keys, id);
      AllKeepsIds(KeySchema(), db.keys, rows, h);
    } else {
      Untouched(KeySchema(), db.keys, rows, id);
    }
  }

  /**
   * API keys after a successful apply: each entry that is the last for its hash is stored;
   * stored keys under a listed hash keep their id, others survive unchanged exactly when
   * their label is listed; new ids are handed out only for listed hashes.
   */
  lemma {:induction false} KeysReconciled(db: DB, s: Secrets, es: seq<KeyEntry>)
    requires Wf(db.keys) && UniqueKeys(db.keys, HashOf) && ApplyKeys(db, s, es).ok
    ensures var keys := ApplyKeys(db, s, es).db.keys;
      && (forall i :: 0 <= i < |es| && IsLastHash(s, es, i) ==> StoresKey(db.users, keys, s, es[i]))
      && (forall id :: id in db.keys.rows ==> KeyKept(db, keys, s, es, id))
      && (forall id :: id in keys.rows && id !in db.keys.rows ==> id >= db.keys.next && HashListed(s, es, keys.rows[id].hash))
  {
    var rows, keys := ResolveKeys(db.users, s, es).rows, ApplyKeys(db, s, es).db.keys;
    AllResolved(db.users, s, es);
    forall i | 0 <= i < |es| && IsLastHash(s, es, i) ensures StoresKey(db.users, keys, s, es[i]) { KeyStored(db, s, es, rows, i); }
    forall id | id in db.keys.rows ensures KeyKept(db, keys, s, es, id) { StoredKeyKept(db, s, es, id); }
    forall id | id in keys.rows && id !in db.keys.rows ensures id >= db.keys.next && HashListed(s, es, keys.rows[id].hash) {
      NewIsNamed(KeySchema(), db.keys, rows, id);
      ListedIsNamed(db.users, s, es, rows, keys.rows[id].hash);
    }
  }

  ghost predicate StoresKey(users: Table<User>, keys: Table<ApiKey>, s: Secrets, e: KeyEntry) {
    exists id :: id in keys.rows && IsResolved(users, s, e, keys.rows[id])
  }

  lemma {:induction false} KeyStored(db: DB, s: Secrets, es: seq<KeyEntry>, rows: seq<ApiKey>, i: nat)
    requires Wf(db.keys) && ResolveKeys(db.users, s, es) == Resolved(rows, true) && AreResolved(db.users, s, es, rows)
    requires i < |es| && IsLastHash(s, es, i)
    ensures StoresKey(db.users, ApplyKeys(db, s, es).db.keys, s, es[i])
  {
    assert KeySchema().entryKey(rows[i]) == rows[i].hash;
    var id, j := LastKeyStored(db.users, db.keys, s, es, rows, rows[i].hash);
    LastHashIs(db.users, s, es, rows, i, j);
    ListedStays(db.users, UpsertAll(KeySchema(), db.keys, rows), s, es, i, id);
  }

  lemma {:induction false} LastHashIs(users: Table<User>, s: Secrets, es: seq<KeyEntry>, rows: seq<ApiKey>, i: nat, j: nat)
    requires AreResolved(users, s, es, rows) && i < |es| && IsLastHash(s, es, i)
    requires j < |rows| && rows[j].hash == rows[i].hash && forall l :: j < l < |rows| ==> rows[l].hash != rows[i].hash
    ensures i == j
  {
    assert IsResolved(users, s, es[i], rows[i]) && IsResolved(users, s, es[j], rows[j]);
  }

  lemma {:induction false} ListedStays(users: Table<User>, keys: Table<ApiKey>, s: Secrets, es: seq<KeyEntry>, i: nat, id: Id)
    requires i < |es| && id in keys.rows && IsResolved(users, s, es[i], keys.rows[id]) && !Unlisted(users, keys.rows[id], Labels(es))
    ensures StoresKey(users, Delete(keys, UnlistedKeys(users, keys, es)), s, es[i])
  {
    var left := Delete(keys, UnlistedKeys(users, keys, es));
    assert id in left.rows && IsResolved(users, s, es[i], left.rows[id]);
  }

  ghost predicate DistinctIds(es: seq<RegistryEntry>) {
    forall i, j :: 0 <= i < |es| && 0 <= j < |es| && es[i].id == es[j].id ==> i == j
  }

  lemma {:induction false} RegistryUntouched(secrets: Option<Secrets>, rows: map<string, Registry>, es: seq<RegistryEntry>, id: string)
    requires forall i :: 0 <= i < |es| ==> es[i].id != id
    ensures var r := PutRegistries(secrets, rows, es); (id in r.rows <==> id in rows) && (id in rows ==> r.rows[id] == rows[id])
  {
    if es != [] { RegistryUntouched(secrets, rows, es[..|es| - 1], id); }
  }

  lemma {:induction false} RegistryPut(secrets: Option<Secrets>, rows: map<string, Registry>, es: seq<RegistryEntry>, i: nat)
    requires DistinctIds(es) && i < |es| && PutRegistries(secrets, rows, es).ok
    ensures var r := PutRegistries(secrets, rows, es).rows; es[i].id in r && r[es[i].id] == MadeRegistry(secrets, rows, es[i])
  {
    var n := |es| - 1;
    assert forall j :: 0 <= j < n ==> es[..n][j] == es[j];
    if i < n {
      RegistryPut(secrets, rows, es[..n], i);
    } else {
      RegistryUntouched(secrets, rows, es[..n], es[n].id);
    }
  }

  /** A registry row that is what the entry says; credentials as listed with secrets, as stored without. */
  ghost predicate IsRegistry(before: map<string, Registry>, secrets: Option<Secrets>, e: RegistryEntry, r: Registry) {
    && r.name == e.name && r.url == e.url
    && match secrets
       case Some(s) =>
         exists v: Option<RegistrySecret> :: LastListed(s.registries, RegistrySecretId, e.id, v)
           && RegistrySecrets(r) == if v.Some? then (v.value.usernameEnc, v.value.passwordEnc) else ("", "")
       case None => RegistrySecrets(r) == if e.id in before then RegistrySecrets(before[e.id]) else ("", "")
  }

  lemma {:induction false} MadeRegistryIs(secrets: Option<Secrets>, rows: map<string, Registry>, e: RegistryEntry)
    ensures IsRegistry(rows, secrets, e, MadeRegistry(secrets, rows, e))
  {
    if secrets.Some? { LastByIsLast(secrets.value.registries, RegistrySecretId, e.id); }
  }

  /** Registries after a successful apply are exactly the listed ones, as listed. */
  lemma {:induction false} RegistriesReconciled(db: DB, secrets: Option<Secrets>, es: seq<RegistryEntry>)
    requires DistinctIds(es) && ApplyRegistries(db, secrets, es).ok
    ensures var regs := ApplyRegistries(db, secrets, es).db.registries;
      && (forall id :: id in regs <==> exists i :: 0 <= i < |es| && es[i].id == id)
      && forall i :: 0 <= i < |es| ==> es[i].id in regs && IsRegistry(db.registries, secrets, es[i], regs[es[i].id])
  {
    RegistriesMade(db, secrets, es);
    forall i | 0 <= i < |es| ensures IsRegistry(db.registries, secrets, es[i], MadeRegistry(secrets, db.registries, es[i])) {
      MadeRegistryIs(secrets, db.registries, es[i]);
    }
    forall id | id in RegistryIds(es) ensures exists i :: 0 <= i < |es| && es[i].id == id {
      var e :| e in es && e.id == id;
      var i :| 0 <= i < |es| && es[i] == e;
    }
    forall i | 0 <= i < |es| ensures es[i].id in RegistryIds(es) { assert es[i] in es; }
  }

  lemma {:induction false} RegistriesMade(db: DB, secrets: Option<Secrets>, es: seq<RegistryEntry>)
    requires DistinctIds(es) && ApplyRegistries(db, secrets, es).ok
    ensures var regs := ApplyRegistries(db, secrets, es).db.registries;
      && regs.Keys == RegistryIds(es)
      && forall i :: 0 <= i < |es| ==> es[i].id in regs && regs[es[i].id] == MadeRegistry(secrets, db.registries, es[i])
  {
    forall i | 0 <= i < |es| ensures var r := PutRegistries(secrets, db.registries, es).rows;
      es[i].id in r && es[i].id in RegistryIds(es) && r[es[i].id] == MadeRegistry(secrets, db.registries, es[i])
    {
      RegistryPut(secrets, db.registries, es, i);
      assert es[i] in es;
    }
    forall id | id in RegistryIds(es) ensures id in PutRegistries(secrets, db.registries, es).rows {
      var e :| e in es && e.id == id;
      var i :| 0 <= i < |es| && es[i] == e;
    }
  }

  /** Another registry has the name of entry `i` when its turn comes: an earlier entry's, or a stored one not yet rewritten. */
  ghost predicate NameClashes(rows: map<string, Registry>, es: seq<RegistryEntry>, i: nat)
    requires i < |es|
  {
    || (exists j :: 0 <= j < i && es[j].name == es[i].name)
    || (exists id :: id in rows && id != es[i].id && rows[id].name == es[i].name && forall j :: 0 <= j < i ==> es[j].id != id)
  }

  /** Registries are all accepted exactly when no name is taken in its turn. */
  lemma {:induction false} RegistriesSucceed(secrets: Option<Secrets>, rows: map<string, Registry>, es: seq<RegistryEntry>)
    requires DistinctIds(es)
    ensures PutRegistries(secrets, rows, es).ok <==> forall i :: 0 <= i < |es| ==> !NameClashes(rows, es, i)
  {
    if es != [] {
      var n := |es| - 1;
      assert forall j :: 0 <= j < n ==> es[..n][j] == es[j];
      RegistriesSucceed(secrets, rows, es[..n]);
      forall i | 0 <= i < n ensures NameClashes(rows, es[..n], i) <==> NameClashes(rows, es, i) { ClashPrefix(rows, es, i); }
      if PutRegistries(secrets, rows, es[..n]).ok { LastClash(secrets, rows, es); }
    }
  }

  lemma {:induction false} ClashPrefix(rows: map<string, Registry>, es: seq<RegistryEntry>, i: nat)
    requires i < |es| - 1
    ensures NameClashes(rows, es[..|es| - 1], i) <==> NameClashes(rows, es, i)
  {
    var init := es[..|es| - 1];
    assert forall j :: 0 <= j <= i ==> init[j] == es[j];
  }

  lemma {:induction false} LastClash(secrets: Option<Secrets>, rows: map<string, Registry>, es: seq<RegistryEntry>)
    requires DistinctIds(es) && es != [] && PutRegistries(secrets, rows, es[..|es| - 1]).ok
    ensures var n := |es| - 1; NameTaken(PutRegistries(secrets, rows, es[..n]).rows, es[n].id, es[n].name) <==> NameClashes(rows, es, n)
  {
    var n := |es| - 1;
    var init := es[..n];
    var put := PutRegistries(secrets, rows, init).rows;
    assert forall j :: 0 <= j < n ==> init[j] == es[j];
    forall j | 0 <= j < n ensures init[j].id in put && put[init[j].id].name == init[j].name { RegistryPut(secrets, rows, init, j); }
    forall id | forall j :: 0 <= j < n ==> init[j].id != id ensures (id in put <==> id in rows) && (id in rows ==> put[id] == rows[id]) {
      RegistryUntouched(secrets, rows, init, id);
    }
    if id :| id in put && id != es[n].id && put[id].name == es[n].name {
      if j :| 0 <= j < n && init[j].id == id { assert es[j].name == es[n].name; }
    }
    if j :| 0 <= j < n && es[j].name == es[n].name { assert init[j].id in put && init[j].id != es[n].id; }
  }

  /** Settings after an apply: the secret one as listed, others as the public file says, else as stored. */
  lemma {:induction false} SettingsReconciled(db: DB, secrets: Option<Secrets>, settings: map<string, string>, k: string)
    ensures var m := ApplySettings(db, secrets, settings).dbBackup;
      if k == "target_config_enc" && secrets.Some? && secrets.value.dbBackup != "" then k in m && m[k] == secrets.value.dbBackup
      else if k in settings then k in m && m[k] == settings[k]
      else (k in m <==> k in db.dbBackup) && (k in m ==> m[k] == db.dbBackup[k])
  {
  }

  /** API keys are resolved up to the first entry whose user is unknown. */
  lemma {:induction false} ResolvedUpTo(users: Table<User>, s: Secrets, es: seq<KeyEntry>) returns (m: nat)
    ensures m <= |es| && ResolveKeys(users, s, es[..m]) == Resolved(ResolveKeys(users, s, es).rows, true)
    ensures ResolveKeys(users, s, es).ok <==> m == |es|
    ensures m < |es| ==> FindUser(users, es[m].username).None?
  {
    if es == [] {
      m := 0;
    } else {
      var n := |es| - 1;
      m := ResolvedUpTo(users, s, es[..n]);
      assert es[..n][..m] == es[..m];
      if ResolveKeys(users, s, es).ok {
        m := |es|;
        assert es[..m] == es;
      } else if m == n {
        assert es[..n][..n] == es[..n];
      }
    }
  }

  /** Registries are put up to the first whose name is taken. */
  lemma {:induction false} PutUpTo(secrets: Option<Secrets>, rows: map<string, Registry>, es: seq<RegistryEntry>) returns (m: nat)
    ensures m <= |es| && PutRegistries(secrets, rows, es[..m]) == Registries(PutRegistries(secrets, rows, es).rows, true)
    ensures PutRegistries(secrets, rows, es).ok <==> m == |es|
    ensures m < |es| ==> NameTaken(PutRegistries(secrets, rows, es).rows, es[m].id, es[m].name)
  {
    if es == [] {
      m := 0;
    } else {
      var n := |es| - 1;
      m := PutUpTo(secrets, rows, es[..n]);
      assert es[..n][..m] == es[..m];
      if PutRegistries(secrets, rows, es).ok {
        m := |es|;
        assert es[..m] == es;
      } else if m == n {
        assert es[..n][..n] == es[..n];
      }
    }
  }

  /** The first failing phase ends an apply: nothing later is touched, and nothing is deleted in the phase that fails. */
  lemma {:induction false} FailureEndsApply(db: DB, data: Sidecar, secrets: Option<Secrets>)
    requires DbOk(db) && !ApplyGlobal(db, data, secrets).ok
    ensures var l := ApplyUsers(ApplyHooks(db, secrets, data.webhooks), secrets, data.users);
      var db' := ApplyGlobal(db, data, secrets).db;
      && db'.webhooks == l.webhooks && db'.users == l.users && db'.rules == l.rules && db'.access == l.access
      && db'.dbBackup == db.dbBackup
      && (forall id :: id in db.registries ==> id in db'.registries)
      && (secrets.Some? && !ApplyKeys(l, secrets.value, data.keys).ok ==>
            db'.registries == db.registries && forall id :: id in l.keys.rows ==> id in db'.keys.rows)
  {
    var l := ApplyUsers(ApplyHooks(db, secrets, data.webhooks), secrets, data.users);
    if secrets.Some? { AllShape(KeySchema(), l.keys, ResolveKeys(l.users, secrets.value, data.keys).rows); }
    forall id | id in db.registries ensures id in PutRegistries(secrets, db.registries, data.registries).rows {
      RegistriesOnlyGrow(secrets, db.registries, data.registries, id);
    }
  }

  /** An apply succeeds exactly when every listed key has a known user and no registry name is taken in its turn. */
  lemma {:induction false} GlobalSucceeds(db: DB, data: Sidecar, secrets: Option<Secrets>)
    requires DistinctIds(data.registries)
    ensures var users := ApplyUsers(ApplyHooks(db, secrets, data.webhooks), secrets, data.users).users;
      ApplyGlobal(db, data, secrets).ok <==>
        && (secrets.Some? ==> forall i :: 0 <= i < |data.keys| ==> FindUser(users, data.keys[i].username).Some?)
        && forall i :: 0 <= i < |data.registries| ==> !NameClashes(db.registries, data.registries, i)
  {
    var l := ApplyUsers(ApplyHooks(db, secrets, data.webhooks), secrets, data.users);
    if secrets.Some? { ResolveSucceeds(l.users, secrets.value, data.keys); }
    RegistriesSucceed(secrets, db.registries, data.registries);
  }

  /** A failed key phase has stored the entries before the first unknown user and done nothing else. */
  lemma {:induction false} KeysUpTo(db: DB, s: Secrets, es: seq<KeyEntry>) returns (m: nat)
    requires !ApplyKeys(db, s, es).ok
    ensures m < |es| && FindUser(db.users, es[m].username).None? && ResolveKeys(db.users, s, es[..m]).ok
    ensures ApplyKeys(db, s, es).db == db.(keys := UpsertAll(KeySchema(), db.keys, ResolveKeys(db.users, s, es[..m]).rows))
  {
    m := ResolvedUpTo(db.users, s, es);
  }

  /** A failed registry phase has stored the entries before the first clash and done nothing else. */
  lemma {:induction false} RegistriesUpTo(db: DB, secrets: Option<Secrets>, es: seq<RegistryEntry>) returns (m: nat)
    requires !ApplyRegistries(db, secrets, es).ok
    ensures m < |es| && PutRegistries(secrets, db.registries, es[..m]).ok
    ensures var regs := PutRegistries(secrets, db.registries, es[..m]).rows;
      NameTaken(regs, es[m].id, es[m].name) && ApplyRegistries(db, secrets, es).db == db.(registries := regs)
  {
    m := PutUpTo(secrets, db.registries, es);
  }

  lemma {:induction false} RegistriesOnlyGrow(secrets: Option<Secrets>, rows: map<string, Registry>, es: seq<RegistryEntry>, id: string)
    requires id in rows
    ensures id in PutRegistries(secrets, rows, es).rows
  {
    if es != [] { RegistriesOnlyGrow(secrets, rows, es[..|es| - 1], id); }
  }

  // ---- without the secrets file

  function RegistrySecrets(r: Registry): (string, string) { (r.usernameEnc, r.passwordEnc) }

  /** No row that is left lost or changed a secret. */
  ghost predicate SecretsKept(before: DB, after: DB) {
    && (forall id :: id in before.webhooks.rows && id in after.webhooks.rows ==> HookSecrets(after.webhooks.rows[id]) == HookSecrets(before.webhooks.rows[id]))
    && (forall id :: id in before.users.rows && id in after.users.rows ==> after.users.rows[id].hash == before.users.rows[id].hash)
    && (forall id :: id in before.registries && id in after.registries ==> RegistrySecrets(after.registries[id]) == RegistrySecrets(before.registries[id]))
  }

  /** A user that stays keeps exactly its API keys; no key appears. */
  ghost predicate KeysKept(before: DB, after: DB) {
    && (forall id :: id in before.keys.rows && before.keys.rows[id].user in after.users.rows ==> id in after.keys.rows)
    && (forall id :: id in after.keys.rows ==> id in before.keys.rows && after.keys.rows[id] == before.keys.rows[id])
  }

  lemma {:induction false} RegistriesKeepSecrets(rows: map<string, Registry>, es: seq<RegistryEntry>, id: string)
    requires id in rows
    ensures var r := PutRegistries(None, rows, es); id in r.rows && RegistrySecrets(r.rows[id]) == RegistrySecrets(rows[id])
  {
    if es != [] { RegistriesKeepSecrets(rows, es[..|es| - 1], id); }
  }

  lemma {:induction false} HooksKeepSecrets(db: DB, es: seq<HookEntry>, id: Id)
    requires Wf(db.webhooks) && id in db.webhooks.rows && id in ApplyHooks(db, None, es).webhooks.rows
    ensures HookSecrets(ApplyHooks(db, None, es).webhooks.rows[id]) == HookSecrets(db.webhooks.rows[id])
  {
    PartKept(HookSchema(None), db.webhooks, es, HookSecrets, id);
  }

  lemma {:induction false} UsersKeepSecrets(db: DB, es: seq<UserEntry>, id: Id)
    requires Wf(db.users) && id in db.users.rows && id in ApplyUsers(db, None, es).users.rows
    ensures ApplyUsers(db, None, es).users.rows[id].hash == db.users.rows[id].hash
  {
    PartKept(UserSchema(None), db.users, es, (u: User) => u.hash, id);
  }

  lemma {:induction false} UsersKeepKeys(db: DB, es: seq<UserEntry>)
    requires Wf(db.users) && forall id :: id in db.keys.rows ==> db.keys.rows[id].user in db.users.rows
    ensures KeysKept(db, ApplyUsers(db, None, es))
  {
    AllShape(UserSchema(None), db.users, es);
  }

  /**
   * Without the secrets file, whatever the public file says and even if the apply fails
   * half-way, no surviving row changes a secret and every surviving user keeps its keys.
   */
  lemma {:induction false} RedactedKeepsSecrets(db: DB, data: Sidecar)
    requires DbOk(db)
    ensures var db' := ApplyGlobal(db, data, None).db; SecretsKept(db, db') && KeysKept(db, db')
  {
    var hooked := ApplyHooks(db, None, data.webhooks);
    forall id | id in db.webhooks.rows && id in hooked.webhooks.rows ensures HookSecrets(hooked.webhooks.rows[id]) == HookSecrets(db.webhooks.rows[id]) {
      HooksKeepSecrets(db, data.webhooks, id);
    }
    var used := ApplyUsers(hooked, None, data.users);
    forall id | id in db.users.rows && id in used.users.rows ensures used.users.rows[id].hash == db.users.rows[id].hash {
      UsersKeepSecrets(hooked, data.users, id);
    }
    UsersKeepKeys(hooked, data.users);
    forall id | id in db.registries ensures var r := PutRegistries(None, db.registries, data.registries); id in r.rows && RegistrySecrets(r.rows[id]) == RegistrySecrets(db.registries[id]) {
      RegistriesKeepSecrets(db.registries, data.registries, id);
    }
  }

  /**
   * The secret setting is the exception: a public file that names it overwrites it. A
   * successful apply without secrets keeps it exactly when the public file does not
   * name it or repeats the stored value.
   */
  lemma {:induction false} RedactedSetting(db: DB, data: Sidecar)
    requires SecretSetting in db.dbBackup && ApplyGlobal(db, data, None).ok
    ensures var db' := ApplyGlobal(db, data, None).db;
      SecretSetting in db'.dbBackup
      && (db'.dbBackup[SecretSetting] == db.dbBackup[SecretSetting]
          <==> SecretSetting !in data.dbBackup || data.dbBackup[SecretSetting] == db.dbBackup[SecretSetting])
  {
  }

  /** The files this program writes never name it. */
  lemma {:induction false} WrittenHidesSetting(db: DB, order: seq<Id>, regs: seq<string>)
    requires (forall i :: 0 <= i < |order| ==> order[i] in db.users.rows) && forall i :: 0 <= i < |regs| ==> regs[i] in db.registries
    ensures SecretSetting !in WrittenSidecar(db, order, regs).dbBackup
  {
  }
}
