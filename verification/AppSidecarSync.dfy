/** The code that works on the database row by row: applying, rendering and importing a sidecar. */
module AppSidecarSync {
  import opened Prelude
  import opened ConfigStore
  import opened AppSidecars
  import R = AlertRuleSync
  import B = BackupConfigSync

  method IndexNames(hooks: Table<Webhook>) returns (names: map<string, Id>)
    ensures names == R.Names(hooks)
  {
    var ids := R.HookIds(hooks);
    names := map[];
    for i := 0 to |ids|
      invariant names == R.NameIndex(hooks.rows, ids[..i])
    {
      NameIndexStep(hooks.rows, ids, i);
      names := names[hooks.rows[ids[i]].name := ids[i]];
    }
    assert ids[..|ids|] == ids;
  }

  lemma {:induction false} NameIndexStep(hooks: map<Id, Webhook>, ids: seq<Id>, i: nat)
    requires i < |ids| && forall j :: 0 <= j < |ids| ==> ids[j] in hooks
    ensures R.NameIndex(hooks, ids[..i + 1]) == R.NameIndex(hooks, ids[..i])[hooks[ids[i]].name := ids[i]]
  {
    assert ids[..i + 1][..i] == ids[..i];
  }

  method IndexRules(t: Table<Rule>, app: Id) returns (index: map<RuleKey, Id>)
    ensures index == R.AppIndex(t, app)
  {
    var ids := R.RuleIds(t, app);
    index := map[];
    for i := 0 to |ids|
      invariant index == R.KeyIndex(t.rows, ids[..i])
    {
      KeyIndexStep(t.rows, ids, i);
      index := index[t.rows[ids[i]].key := ids[i]];
    }
    assert ids[..|ids|] == ids;
  }

  lemma {:induction false} KeyIndexStep(rows: map<Id, Rule>, ids: seq<Id>, i: nat)
    requires i < |ids| && forall j :: 0 <= j < |ids| ==> ids[j] in rows
    ensures R.KeyIndex(rows, ids[..i + 1]) == R.KeyIndex(rows, ids[..i])[rows[ids[i]].key := ids[i]]
  {
    assert ids[..i + 1][..i] == ids[..i];
  }

  method IndexBackups(t: Table<Backup>, app: Id) returns (index: map<string, Id>)
    ensures index == B.AppIndex(t, app)
  {
    var ids := B.BackupIds(t, app);
    index := map[];
    for i := 0 to |ids|
      invariant index == B.UuidIndex(t.rows, ids[..i])
    {
      UuidIndexStep(t.rows, ids, i);
      index := index[t.rows[ids[i]].uuid := ids[i]];
    }
    assert ids[..|ids|] == ids;
  }

  lemma {:induction false} UuidIndexStep(rows: map<Id, Backup>, ids: seq<Id>, i: nat)
    requires i < |ids| && forall j :: 0 <= j < |ids| ==> ids[j] in rows
    ensures B.UuidIndex(rows, ids[..i + 1]) == B.UuidIndex(rows, ids[..i])[rows[ids[i]].uuid := ids[i]]
  {
    assert ids[..i + 1][..i] == ids[..i];
  }

  method CheckHooks(names: map<string, Id>, es: seq<R.RuleEntry>) returns (ok: bool)
    ensures ok <==> HooksKnown(names, es)
  {
    for i := 0 to |es|
      invariant forall j :: 0 <= j < i ==> es[j].webhook == "" || es[j].webhook in names
    {
      if es[i].webhook != "" && es[i].webhook !in names { return false; }
    }
    ok := true;
  }

  function Read(enc: map<string, string>, id: string): string { if id in enc then enc[id] else "" }

  ghost predicate IsSecretIndex(enc: map<string, string>, secrets: seq<B.SecretEntry>) {
    forall id :: Read(enc, id) == B.Enc(secrets, id)
  }

  /** Index of the secrets file: the last entry for an id wins, a missing one reads as "". */
  method IndexSecrets(secrets: seq<B.SecretEntry>) returns (enc: map<string, string>)
    ensures IsSecretIndex(enc, secrets)
  {
    enc := map[];
    for i := 0 to |secrets|
      invariant IsSecretIndex(enc, secrets[..i])
    {
      assert secrets[..i + 1][..i] == secrets[..i];
      enc := enc[secrets[i].id := secrets[i].secret];
    }
    assert secrets[..|secrets|] == secrets;
  }

  method BuildRules(t: Table<Rule>, hooks: Table<Webhook>, app: Id) returns (es: seq<R.RuleEntry>)
    ensures es == R.RenderRules(t, hooks, app)
  {
    var ids, i := R.RuleIds(t, app), 0;
    es := [];
    while i < |ids|
      invariant 0 <= i <= |ids| && es == R.RenderRules(t, hooks, app)[..i]
    {
      es := es + [R.RenderRule(hooks, t.rows[ids[i]])];
      i := i + 1;
    }
  }

  method BuildBackups(rows: seq<Backup>) returns (es: seq<B.BackupEntry>, secrets: seq<B.SecretEntry>)
    ensures es == B.RenderBackups(rows) && secrets == B.RenderSecrets(rows)
  {
    var i := 0;
    es, secrets := [], [];
    while i < |rows|
      invariant 0 <= i <= |rows| && es == B.RenderBackups(rows)[..i]
      invariant secrets == B.RenderSecrets(rows[..i])
    {
      assert rows[..i + 1][..i] == rows[..i];
      es := es + [B.BackupEntry(rows[i].uuid, rows[i].settings)];
      secrets := if rows[i].secret == "" then secrets else secrets + [B.SecretEntry(rows[i].uuid, rows[i].secret)];
      i := i + 1;
    }
    assert rows[..|rows|] == rows;
  }

  method BuildSidecar(db: DB, slug: string) returns (r: Option<Loaded>)
    ensures r == BuildApp(db, slug)
  {
    var found := FindApp(db, slug);
    if found.None? { return None; }
    var app := found.value;
    var rules := BuildRules(db.rules, db.webhooks, app);
    var backups, secrets := BuildBackups(RowsWhere(db.backups, B.OfApp(app)));
    r := Some(Loaded(Some(Sidecar(slug, db.apps.rows[app].name, rules, backups, AccessNames(db, app))), Some(secrets)));
  }

  class Syncer {
    var db: DB

    constructor (db: DB)
      ensures this.db == db
    {
      this.db := db;
    }

    /** One incoming rule, compared with the rules as listed before the loop. */
    method ApplyRule(t: Table<Rule>, app: Id, index: map<RuleKey, Id>, names: map<string, Id>, e: R.RuleEntry) returns (kept: set<Id>)
      requires index == R.AppIndex(t, app)
      modifies this
      ensures var edit := R.RuleEdit(t, app, names, e);
        db == old(db).(rules := Edited(old(db.rules), edit)) && kept == KeptBy(old(db.rules.next), edit)
    {
      kept := {};
      if e.webhook != "" && e.webhook in names {
        var k := RuleKey(e.metric, e.operator, e.threshold, e.duration, names[e.webhook]);
        if k in index {
          R.AppIndexFacts(t, app, k);
          var prev := t.rows[index[k]];
          kept := {index[k]};
          if prev.enabled != e.enabled {
            db := db.(rules := Put(db.rules, index[k], prev.(enabled := e.enabled)));
          }
        } else {
          kept := {db.rules.next};
          db := db.(rules := Insert(db.rules, Rule(Some(app), k, e.enabled)));
        }
      }
    }

    method ApplyRules(app: Id, names: map<string, Id>, es: seq<R.RuleEntry>)
      modifies this
      ensures db == old(db).(rules := R.ReconcileRules(old(db.rules), app, names, es))
    {
      ghost var before := db;
      var t, ids := db.rules, R.RuleIds(db.rules, app);
      var index := IndexRules(t, app);
      ghost var edits := R.RuleEdits(t, app, names, es);
      var keep: set<Id> := {};
      for i := 0 to |es|
        invariant db == before.(rules := EditAll(t, edits[..i])) && keep == KeptIds(t.next, edits[..i])
      {
        EditStep(t, edits, i);
        var kept := ApplyRule(t, app, index, names, es[i]);
        keep := keep + kept;
      }
      assert edits[..|es|] == edits;
      DeleteRules(ids, keep);
      assert (set id | id in ids && id !in keep) == Elements(ids) - keep;
    }

    method DeleteRules(ids: seq<Id>, keep: set<Id>)
      modifies this
      ensures db == old(db).(rules := Delete(old(db.rules), set id | id in ids && id !in keep))
    {
      ghost var before := db;
      for i := 0 to |ids|
        invariant db == before.(rules := Delete(before.rules, set id | id in ids[..i] && id !in keep))
      {
        assert ids[..i + 1] == ids[..i] + [ids[i]];
        if ids[i] !in keep {
          db := db.(rules := Delete(db.rules, {ids[i]}));
        }
        assert db.rules.rows == before.rules.rows - set id | id in ids[..i + 1] && id !in keep;
      }
      assert ids[..|ids|] == ids;
    }

    /** One incoming configuration; it fails when its UUID is new to the app but taken. */
    method ApplyBackup(t: Table<Backup>, app: Id, index: map<string, Id>, ghost secrets: seq<B.SecretEntry>, secret: string, minted: string,
                       e: B.BackupEntry) returns (ok: bool)
      requires index == B.AppIndex(t, app) && secret == B.Enc(secrets, e.id)
      modifies this
      ensures var edit := B.BackupEdit(t, app, secrets, minted, e);
        && ok == !(edit.Add? && B.UuidTaken(old(db.backups), edit.row.uuid))
        && db == if ok then old(db).(backups := Edited(old(db.backups), edit)) else old(db)
    {
      if e.id in index {
        B.AppIndexFacts(t, app, e.id);
        var prev := t.rows[index[e.id]];
        db := db.(backups := Put(db.backups, index[e.id], prev.(settings := e.settings, secret := if secret == "" then prev.secret else secret)));
        return true;
      }
      var uuid := if e.id == "" then minted else e.id;
      if B.UuidTaken(db.backups, uuid) { return false; }
      db := db.(backups := Insert(db.backups, Backup(app, uuid, e.settings, secret)));
      ok := true;
    }

    method RunBackups(t: Table<Backup>, app: Id, index: map<string, Id>, secrets: seq<B.SecretEntry>, mint: nat -> string, es: seq<B.BackupEntry>)
      returns (ok: bool, incoming: set<string>)
      requires t == db.backups && index == B.AppIndex(t, app)
      modifies this
      ensures var r := B.RunEdits(t, B.BackupEdits(t, app, secrets, mint, es)); db == old(db).(backups := r.table) && ok == r.ok
      ensures ok ==> incoming == B.Ids(es)
    {
      ghost var before := db;
      var enc := IndexSecrets(secrets);
      ghost var edits := B.BackupEdits(t, app, secrets, mint, es);
      ok, incoming := true, {};
      for i := 0 to |es|
        invariant ok && B.RunEdits(t, edits[..i]) == B.Outcome(db.backups, true)
        invariant db == before.(backups := db.backups) && incoming == B.Ids(es[..i])
      {
        RunStep(t, edits, i);
        IdsStep(es, i);
        incoming := incoming + {es[i].id};
        ok := ApplyBackup(t, app, index, secrets, Read(enc, es[i].id), mint(i), es[i]);
        if !ok {
          StopsShort(t, edits, i + 1);
          return;
        }
      }
      assert edits[..|es|] == edits && es[..|es|] == es;
    }

    method ApplyBackups(app: Id, secrets: seq<B.SecretEntry>, mint: nat -> string, es: seq<B.BackupEntry>) returns (ok: bool)
      modifies this
      ensures var r := B.ReconcileBackups(old(db.backups), app, secrets, mint, es); db == old(db).(backups := r.table) && ok == r.ok
    {
      var t := db.backups;
      var index := IndexBackups(t, app);
      var incoming;
      ok, incoming := RunBackups(t, app, index, secrets, mint, es);
      if ok {
        db := db.(backups := Delete(db.backups, set u | u in index && u !in incoming :: index[u]));
      }
    }

    method ReplaceGrants(app: Id, names: seq<string>)
      modifies this
      ensures db == old(db).(access := ReplaceAccess(old(db.access), old(db.users), app, names))
    {
      ghost var before := db;
      db := db.(access := OtherGrants(db.access, app));
      for i := 0 to |names|
        invariant db == before.(access := OtherGrants(before.access, app) + Granted(before.users, app, names[..i]))
      {
        assert names[..i + 1][..i] == names[..i];
        var user := Lookup(db.users, Username(), names[i]);
        if user.Some? {
          db := db.(access := db.access + {(user.value, app)});
        }
      }
      assert names[..|names|] == names;
    }

    method ApplyAppSidecar(slug: string, loaded: Loaded, dashboardOnly: bool, mint: nat -> string) returns (ok: bool)
      modifies this
      ensures Outcome(db, ok) == ApplyApp(old(db), slug, loaded, dashboardOnly, mint)
    {
      if loaded.sidecar.None? { return true; }
      var s, found := loaded.sidecar.value, FindApp(db, slug);
      if found.None? { return false; }
      var app := found.value;
      if s.displayName != "" && s.displayName != db.apps.rows[app].name {
        db := db.(apps := Put(db.apps, app, db.apps.rows[app].(name := s.displayName)));
      }
      var names := IndexNames(db.webhooks);
      ApplyRules(app, names, s.rules);
      ok := ApplyBackups(app, SecretsOf(loaded), mint, s.backups);
      if ok && !dashboardOnly {
        ReplaceGrants(app, s.access);
      }
    }

    method ImportRules(app: Id, names: map<string, Id>, es: seq<R.RuleEntry>)
      modifies this
      ensures db == old(db).(rules := R.ImportRules(old(db.rules), app, names, es))
    {
      ghost var before := db;
      ghost var edits := R.ImportEdits(app, names, es);
      db := db.(rules := Delete(db.rules, Elements(R.RuleIds(db.rules, app))));
      ghost var bare := db.rules;
      for i := 0 to |es|
        invariant db == before.(rules := EditAll(bare, edits[..i]))
      {
        EditStep(bare, edits, i);
        var e := es[i];
        if e.webhook != "" && e.webhook in names {
          db := db.(rules := Insert(db.rules, Rule(Some(app), RuleKey(e.metric, e.operator, e.threshold, e.duration, names[e.webhook]), e.enabled)));
        }
      }
      assert edits[..|es|] == edits;
    }

    method ImportBackups(app: Id, secrets: seq<B.SecretEntry>, mint: nat -> string, es: seq<B.BackupEntry>) returns (ok: bool)
      modifies this
      ensures var r := B.ImportBackups(old(db.backups), app, secrets, mint, es); db == old(db).(backups := r.table) && ok == r.ok
    {
      ghost var before := db;
      ghost var edits := B.ImportEdits(app, secrets, mint, es);
      db := db.(backups := Delete(db.backups, Elements(B.BackupIds(db.backups, app))));
      ghost var bare := db.backups;
      var enc := IndexSecrets(secrets);
      for i := 0 to |es|
        invariant B.RunEdits(bare, edits[..i]) == B.Outcome(db.backups, true)
        invariant db == before.(backups := db.backups)
      {
        RunStep(bare, edits, i);
        var uuid := if es[i].id == "" then mint(i) else es[i].id;
        if B.UuidTaken(db.backups, uuid) {
          StopsShort(bare, edits, i + 1);
          return false;
        }
        db := db.(backups := Insert(db.backups, Backup(app, uuid, es[i].settings, Read(enc, es[i].id))));
      }
      assert edits[..|es|] == edits;
      ok := true;
    }

    method ImportAppSidecar(s: Sidecar, secrets: seq<B.SecretEntry>, skipAccess: bool, mint: nat -> string) returns (ok: bool)
      modifies this
      ensures Outcome(db, ok) == ImportApp(old(db), s, secrets, skipAccess, mint)
    {
      var found := FindApp(db, s.slug);
      if found.None? { return false; }
      var names := IndexNames(db.webhooks);
      var known := CheckHooks(names, s.rules);
      if !known { return false; }
      ImportRules(found.value, names, s.rules);
      ok := ImportBackups(found.value, secrets, mint, s.backups);
      if ok && !skipAccess {
        ReplaceGrants(found.value, s.access);
      }
    }
  }

  lemma {:induction false} RunStep(t: Table<Backup>, edits: seq<Edit<Backup>>, i: nat)
    requires i < |edits| && B.RunEdits(t, edits[..i]).ok
    ensures var table, e := B.RunEdits(t, edits[..i]).table, edits[i];
      B.RunEdits(t, edits[..i + 1]) ==
        if e.Add? && B.UuidTaken(table, e.row.uuid) then B.Outcome(table, false) else B.Outcome(Edited(table, e), true)
  {
    assert edits[..i + 1][..i] == edits[..i];
  }

  lemma {:induction false} IdsStep(es: seq<B.BackupEntry>, i: nat)
    requires i < |es|
    ensures B.Ids(es[..i + 1]) == B.Ids(es[..i]) + {es[i].id}
  {
    assert es[..i + 1] == es[..i] + [es[i]];
  }

  /** Once an edit fails, the later ones are not tried. */
  lemma {:induction false} StopsShort(t: Table<Backup>, edits: seq<Edit<Backup>>, n: nat)
    requires n <= |edits| && !B.RunEdits(t, edits[..n]).ok
    ensures B.RunEdits(t, edits) == B.RunEdits(t, edits[..n])
    decreases |edits|
  {
    if n == |edits| {
      assert edits[..n] == edits;
    } else {
      assert edits[..|edits| - 1][..n] == edits[..n];
      StopsShort(t, edits[..|edits| - 1], n);
    }
  }
}
