/**
 * Per-app sidecars: rendering an app's configuration into a sidecar and a secrets
 * file, reconciling the database to a sidecar, and importing one wholesale.
 */
module AppSidecars {
  import opened Prelude
  import opened ConfigStore
  import R = AlertRuleSync
  import B = BackupConfigSync

  datatype Sidecar = Sidecar(slug: string, displayName: string, rules: seq<R.RuleEntry>, backups: seq<B.BackupEntry>, access: seq<string>)

  /** What was found on disk; either file may be missing. */
  datatype Loaded = Loaded(sidecar: Option<Sidecar>, secrets: Option<seq<B.SecretEntry>>)

  datatype Outcome = Outcome(db: DB, ok: bool)

  function Slug(): App -> string { (a: App) => a.slug }

  function Username(): User -> string { (u: User) => u.username }

  function FindApp(db: DB, slug: string): (r: Option<Id>)
    ensures r.Some? ==> r.value in db.apps.rows && db.apps.rows[r.value].slug == slug
  {
    Lookup(db.apps, Slug(), slug)
  }

  /** What the database's own constraints and counters guarantee. */
  ghost predicate DbOk(db: DB) {
    && Wf(db.rules) && Wf(db.backups)
    && UniqueKeys(db.apps, Slug()) && UniqueKeys(db.users, Username())
    && (forall g :: g in db.access ==> g.0 in db.users.rows)
  }

  // ---- access grants

  /** Grants on `app` for the users named; unknown names are passed over. */
  function Granted(users: Table<User>, app: Id, names: seq<string>): set<(Id, Id)> {
    if names == [] then {}
    else
      var u := Lookup(users, Username(), names[|names| - 1]);
      Granted(users, app, names[..|names| - 1]) + if u.Some? then {(u.value, app)} else {}
  }

  function OtherGrants(access: set<(Id, Id)>, app: Id): set<(Id, Id)> { set g | g in access && g.1 != app }

  function ReplaceAccess(access: set<(Id, Id)>, users: Table<User>, app: Id, names: seq<string>): set<(Id, Id)> {
    OtherGrants(access, app) + Granted(users, app, names)
  }

  lemma {:induction false} GrantedMember(users: Table<User>, app: Id, names: seq<string>, g: (Id, Id))
    requires UniqueKeys(users, Username())
    ensures g in Granted(users, app, names) <==> g.1 == app && g.0 in users.rows && users.rows[g.0].username in names
  {
    if names != [] {
      var n := |names| - 1;
      GrantedMember(users, app, names[..n], g);
      assert names == names[..n] + [names[n]];
      assert Username()(User(names[n], "", "", "", "")) == names[n];
    }
  }

  /** After replacing, the users with access are exactly the known users named; other apps' grants stay. */
  lemma {:induction false} AccessReplaced(access: set<(Id, Id)>, users: Table<User>, app: Id, names: seq<string>)
    requires UniqueKeys(users, Username())
    ensures forall g :: g in ReplaceAccess(access, users, app, names) <==>
      if g.1 == app then g.0 in users.rows && users.rows[g.0].username in names else g in access
  {
    forall g ensures g in ReplaceAccess(access, users, app, names) <==>
      if g.1 == app then g.0 in users.rows && users.rows[g.0].username in names else g in access
    {
      GrantedMember(users, app, names, g);
    }
  }

  /** Users with access to `app`. */
  function Holders(db: DB, app: Id): (ids: seq<Id>)
    ensures forall i :: 0 <= i < |ids| ==> ids[i] in db.users.rows
    ensures forall id :: id in ids <==> id in db.users.rows && (id, app) in db.access
  {
    var ids := Ascending(set id | id in db.users.rows && (id, app) in db.access);
    assert forall i :: 0 <= i < |ids| ==> ids[i] in ids;
    ids
  }

  function AccessNames(db: DB, app: Id): (names: seq<string>)
    ensures |names| == |Holders(db, app)| && forall i :: 0 <= i < |names| ==> names[i] == db.users.rows[Holders(db, app)[i]].username
  {
    var ids := Holders(db, app);
    seq(|ids|, i requires 0 <= i < |ids| => db.users.rows[ids[i]].username)
  }

  lemma {:induction false} AccessRoundTrip(db: DB, app: Id)
    requires DbOk(db)
    ensures ReplaceAccess(db.access, db.users, app, AccessNames(db, app)) == db.access
  {
    var names, ids := AccessNames(db, app), Holders(db, app);
    AccessReplaced(db.access, db.users, app, names);
    forall g | g in db.access && g.1 == app ensures db.users.rows[g.0].username in names {
      assert g == (g.0, app) && g.0 in ids;
      var i :| 0 <= i < |ids| && ids[i] == g.0;
      assert names[i] in names;
    }
    forall u | u in db.users.rows && db.users.rows[u].username in names ensures (u, app) in db.access {
      var i :| 0 <= i < |names| && names[i] == db.users.rows[u].username;
      assert Username()(db.users.rows[ids[i]]) == Username()(db.users.rows[u]);
      assert ids[i] in ids;
    }
  }

  // ---- reconciling

  function Renamed(apps: Table<App>, app: Id, name: string): Table<App>
    requires app in apps.rows
  {
    if name != "" && name != apps.rows[app].name then Put(apps, app, apps.rows[app].(name := name)) else apps
  }

  function SecretsOf(loaded: Loaded): seq<B.SecretEntry> { if loaded.secrets.Some? then loaded.secrets.value else [] }

  function ApplyApp(db: DB, slug: string, loaded: Loaded, dashboardOnly: bool, mint: nat -> string): Outcome {
    if loaded.sidecar.None? then Outcome(db, true)
    else if FindApp(db, slug).None? then Outcome(db, false)
    else ApplyFound(db, FindApp(db, slug).value, loaded.sidecar.value, SecretsOf(loaded), dashboardOnly, mint)
  }

  function ApplyFound(db: DB, app: Id, s: Sidecar, secrets: seq<B.SecretEntry>, dashboardOnly: bool, mint: nat -> string): Outcome
    requires app in db.apps.rows
  {
    var b := B.ReconcileBackups(db.backups, app, secrets, mint, s.backups);
    var db' := db.(apps := Renamed(db.apps, app, s.displayName),
                   rules := R.ReconcileRules(db.rules, app, R.Names(db.webhooks), s.rules),
                   backups := b.table);
    if !b.ok || dashboardOnly then Outcome(db', b.ok)
    else Outcome(db'.(access := ReplaceAccess(db.access, db.users, app, s.access)), true)
  }

  /** The database agrees with a sidecar about `app`, its backup configurations being stored under these UUIDs. */
  ghost predicate Agrees(db: DB, app: Id, s: Sidecar, secrets: seq<B.SecretEntry>, dashboardOnly: bool, uuids: seq<string>)
    requires |uuids| == |s.backups|
  {
    && R.RulesMatch(db.rules, app, R.Names(db.webhooks), s.rules)
    && B.BackupsAre(db.backups, app, secrets, s.backups, uuids)
    && (!dashboardOnly ==> forall u :: (u, app) in db.access <==> u in db.users.rows && db.users.rows[u].username in s.access)
    && app in db.apps.rows && (s.displayName != "" ==> db.apps.rows[app].name == s.displayName)
  }

  /** A successful apply makes the database agree with the sidecar, on the rows it already had. */
  lemma {:induction false} AppReconciled(db: DB, app: Id, s: Sidecar, secrets: seq<B.SecretEntry>, dashboardOnly: bool, mint: nat -> string)
    requires DbOk(db) && app in db.apps.rows && B.UniqueUuids(db.backups, app)
    requires R.Agreeing(db.rules, app, R.Names(db.webhooks), s.rules)
    requires ApplyFound(db, app, s, secrets, dashboardOnly, mint).ok
    ensures var db' := ApplyFound(db, app, s, secrets, dashboardOnly, mint).db;
      && Agrees(db', app, s, secrets, dashboardOnly, B.Uuids(db.backups, app, mint, s.backups))
      && R.RuleIdsKept(db.rules, db'.rules, app, R.Names(db.webhooks), s.rules)
      && B.BackupsKept(db.backups, db'.backups, app, secrets, s.backups)
      && (dashboardOnly ==> db'.access == db.access)
  {
    R.RulesReconciled(db.rules, app, R.Names(db.webhooks), s.rules);
    B.BackupsReconciled(db.backups, app, secrets, mint, s.backups);
    AccessReplaced(db.access, db.users, app, s.access);
  }

  /** A database that agrees is left exactly as it is. */
  lemma {:induction false} AgreeingIsFixed(db: DB, app: Id, s: Sidecar, secrets: seq<B.SecretEntry>, dashboardOnly: bool, mint: nat -> string)
    requires DbOk(db) && Agrees(db, app, s, secrets, dashboardOnly, B.OwnIds(s.backups))
    ensures ApplyFound(db, app, s, secrets, dashboardOnly, mint) == Outcome(db, true)
  {
    R.MatchingIsFixed(db.rules, app, R.Names(db.webhooks), s.rules);
    B.MatchingIsFixed(db.backups, app, secrets, mint, s.backups);
    AccessReplaced(db.access, db.users, app, s.access);
    if !dashboardOnly {
      assert forall g :: g in db.access <==> (g.0, g.1) in db.access;
      assert ReplaceAccess(db.access, db.users, app, s.access) == db.access;
    }
  }

  ghost predicate OtherAppsSame(before: Table<App>, after: Table<App>, app: Id) {
    && (forall id :: id != app ==> (id in before.rows <==> id in after.rows))
    && (forall id :: id != app && id in before.rows ==> after.rows[id] == before.rows[id])
  }

  lemma {:induction false} RenameSparesOthers(apps: Table<App>, app: Id, name: string)
    requires app in apps.rows
    ensures OtherAppsSame(apps, Renamed(apps, app, name), app) && OtherAppsSame(apps, apps, app)
  {
  }

  /** Another app, and everything global. */
  ghost predicate RestSame(before: DB, after: DB, app: Id) {
    && SameOutside(before.rules, after.rules, R.OfApp(app))
    && SameOutside(before.backups, after.backups, B.OfApp(app))
    && OtherGrants(before.access, app) == OtherGrants(after.access, app)
    && OtherAppsSame(before.apps, after.apps, app)
    && after.webhooks == before.webhooks && after.users == before.users && after.keys == before.keys
    && after.registries == before.registries && after.dbBackup == before.dbBackup
  }

  /** Applying a sidecar touches no other app and nothing global, also when it fails half-way. */
  lemma {:induction false} RestUntouched(db: DB, app: Id, s: Sidecar, secrets: seq<B.SecretEntry>, dashboardOnly: bool, mint: nat -> string)
    requires DbOk(db) && app in db.apps.rows
    ensures RestSame(db, ApplyFound(db, app, s, secrets, dashboardOnly, mint).db, app)
  {
    R.OtherRulesUntouched(db.rules, app, R.Names(db.webhooks), s.rules);
    B.OtherBackupsUntouched(db.backups, app, secrets, mint, s.backups);
    RenameSparesOthers(db.apps, app, s.displayName);
    assert OtherGrants(ReplaceAccess(db.access, db.users, app, s.access), app) == OtherGrants(db.access, app) by {
      OtherGrantsStay(db, app, s.access);
    }
  }

  lemma {:induction false} StaysOk(db: DB, app: Id, s: Sidecar, secrets: seq<B.SecretEntry>, dashboardOnly: bool, mint: nat -> string)
    requires DbOk(db) && app in db.apps.rows
    ensures var db' := ApplyFound(db, app, s, secrets, dashboardOnly, mint).db;
      DbOk(db') && app in db'.apps.rows && db'.apps.rows[app].slug == db.apps.rows[app].slug
  {
    R.OtherRulesUntouched(db.rules, app, R.Names(db.webhooks), s.rules);
    B.OtherBackupsUntouched(db.backups, app, secrets, mint, s.backups);
    OtherGrantsStay(db, app, s.access);
    SlugsStay(db, app, s.displayName);
  }

  lemma {:induction false} OtherGrantsStay(db: DB, app: Id, names: seq<string>)
    requires DbOk(db)
    ensures var access := ReplaceAccess(db.access, db.users, app, names);
      OtherGrants(access, app) == OtherGrants(db.access, app) && forall g :: g in access ==> g.0 in db.users.rows
  {
    AccessReplaced(db.access, db.users, app, names);
  }

  lemma {:induction false} SlugsStay(db: DB, app: Id, name: string)
    requires app in db.apps.rows && UniqueKeys(db.apps, Slug())
    ensures var apps := Renamed(db.apps, app, name);
      && UniqueKeys(apps, Slug())
      && forall id :: (id in apps.rows <==> id in db.apps.rows) && (id in apps.rows ==> apps.rows[id].slug == db.apps.rows[id].slug)
  {
    var apps := Renamed(db.apps, app, name);
    forall i, j | i in apps.rows && j in apps.rows && Slug()(apps.rows[i]) == Slug()(apps.rows[j]) ensures i == j {
      assert Slug()(db.apps.rows[i]) == Slug()(db.apps.rows[j]);
    }
  }

  /** What makes a second apply of a sidecar invisible. */
  ghost predicate Repeatable(db: DB, app: Id, s: Sidecar) {
    R.Agreeing(db.rules, app, R.Names(db.webhooks), s.rules) && B.Keyed(db.backups, app, s.backups)
  }

  /**
   * Applying a sidecar a second time changes nothing if and only if entries for the same
   * rule agree on its switch and that rule is stored already, and every backup entry has
   * an id or matches a stored row without one.
   */
  lemma {:induction false} ApplyIdempotentIff(db: DB, slug: string, loaded: Loaded, dashboardOnly: bool, mint: nat -> string, mint': nat -> string)
    requires DbOk(db) && ApplyApp(db, slug, loaded, dashboardOnly, mint).ok && forall n :: mint(n) != ""
    requires FindApp(db, slug).Some? ==> B.UniqueUuids(db.backups, FindApp(db, slug).value)
    ensures var r := ApplyApp(db, slug, loaded, dashboardOnly, mint);
      ApplyApp(r.db, slug, loaded, dashboardOnly, mint') == r
      <==> loaded.sidecar.None? || Repeatable(db, FindApp(db, slug).value, loaded.sidecar.value)
  {
    if loaded.sidecar.Some? {
      var app, s, secrets := FindApp(db, slug).value, loaded.sidecar.value, SecretsOf(loaded);
      StaysOk(db, app, s, secrets, dashboardOnly, mint);
      FoundAgain(ApplyFound(db, app, s, secrets, dashboardOnly, mint).db, slug, app);
      FoundIdempotentIff(db, app, s, secrets, dashboardOnly, mint, mint');
    }
  }

  lemma {:induction false} FoundIdempotentIff(db: DB, app: Id, s: Sidecar, secrets: seq<B.SecretEntry>, dashboardOnly: bool, mint: nat -> string, mint': nat -> string)
    requires DbOk(db) && app in db.apps.rows && B.UniqueUuids(db.backups, app) && forall n :: mint(n) != ""
    requires ApplyFound(db, app, s, secrets, dashboardOnly, mint).ok
    ensures var r := ApplyFound(db, app, s, secrets, dashboardOnly, mint);
      app in r.db.apps.rows && (ApplyFound(r.db, app, s, secrets, dashboardOnly, mint') == r <==> Repeatable(db, app, s))
  {
    R.ReconcileIdempotentIff(db.rules, app, R.Names(db.webhooks), s.rules);
    B.ReconcileIdempotentIff(db.backups, app, secrets, mint, mint', s.backups);
    AccessTwice(db.access, db.users, app, s.access);
  }

  lemma {:induction false} AccessTwice(access: set<(Id, Id)>, users: Table<User>, app: Id, names: seq<string>)
    ensures var once := ReplaceAccess(access, users, app, names); ReplaceAccess(once, users, app, names) == once
  {
    forall g | g in Granted(users, app, names) ensures g.1 == app { GrantedApp(users, app, names, g); }
    assert OtherGrants(ReplaceAccess(access, users, app, names), app) == OtherGrants(access, app);
  }

  lemma {:induction false} GrantedApp(users: Table<User>, app: Id, names: seq<string>, g: (Id, Id))
    requires g in Granted(users, app, names)
    ensures g.1 == app
  {
    if g in Granted(users, app, names[..|names| - 1]) { GrantedApp(users, app, names[..|names| - 1], g); }
  }

  lemma {:induction false} FoundAgain(db: DB, slug: string, app: Id)
    requires UniqueKeys(db.apps, Slug()) && app in db.apps.rows && db.apps.rows[app].slug == slug
    ensures FindApp(db, slug) == Some(app)
  {
    assert Slug()(db.apps.rows[app]) == slug;
  }

  // ---- rendering

  function BuildApp(db: DB, slug: string): Option<Loaded> {
    if FindApp(db, slug).None? then None
    else
      var app := FindApp(db, slug).value;
      var backups := RowsWhere(db.backups, B.OfApp(app));
      Some(Loaded(Some(Sidecar(slug, db.apps.rows[app].name, R.RenderRules(db.rules, db.webhooks, app),
                               B.RenderBackups(backups), AccessNames(db, app))),
                  Some(B.RenderSecrets(backups))))
  }

  /**
   * Rendering an app and applying the result back leaves the database exactly as it
   * was, row ids included, if and only if every rule's webhook is found by its name
   * and no rule is stored twice.
   */
  lemma {:induction false} AppRoundTrip(db: DB, slug: string, dashboardOnly: bool, mint: nat -> string)
    requires DbOk(db) && FindApp(db, slug).Some? && B.UniqueUuids(db.backups, FindApp(db, slug).value)
    ensures ApplyApp(db, slug, BuildApp(db, slug).value, dashboardOnly, mint) == Outcome(db, true)
            <==> R.RulesPortable(db.rules, db.webhooks, FindApp(db, slug).value)
  {
    var app := FindApp(db, slug).value;
    R.RulesRoundTrip(db.rules, db.webhooks, app);
    B.BackupsRoundTrip(db.backups, app, mint);
    AccessRoundTrip(db, app);
  }

  /** Unique non-empty webhook names are enough for every rule to be found again. */
  lemma {:induction false} UniqueNamesPort(db: DB, app: Id)
    requires UniqueKeys(db.webhooks, (w: Webhook) => w.name)
    requires forall id :: id in db.webhooks.rows ==> db.webhooks.rows[id].name != ""
    requires forall id :: id in db.rules.rows && db.rules.rows[id].app == Some(app) ==> db.rules.rows[id].key.webhook in db.webhooks.rows
    requires R.UniqueRules(db.rules, app)
    ensures R.RulesPortable(db.rules, db.webhooks, app)
  {
    var name := (w: Webhook) => w.name;
    forall id | id in db.rules.rows && db.rules.rows[id].app == Some(app) ensures R.Portable(db.webhooks, db.rules.rows[id]) {
      var h := db.rules.rows[id].key.webhook;
      R.NamesLead(db.webhooks, db.webhooks.rows[h].name);
      var h' := R.Names(db.webhooks)[db.webhooks.rows[h].name];
      assert name(db.webhooks.rows[h']) == name(db.webhooks.rows[h]);
    }
  }

  // ---- importing

  /** Every entry that names a webhook names a known one. */
  predicate HooksKnown(names: map<string, Id>, es: seq<R.RuleEntry>) {
    forall i :: 0 <= i < |es| ==> es[i].webhook == "" || es[i].webhook in names
  }

  function ImportApp(db: DB, s: Sidecar, secrets: seq<B.SecretEntry>, skipAccess: bool, mint: nat -> string): Outcome {
    if FindApp(db, s.slug).None? || !HooksKnown(R.Names(db.webhooks), s.rules) then Outcome(db, false)
    else ImportFound(db, FindApp(db, s.slug).value, s, secrets, skipAccess, mint)
  }

  function ImportFound(db: DB, app: Id, s: Sidecar, secrets: seq<B.SecretEntry>, skipAccess: bool, mint: nat -> string): Outcome {
    var b := B.ImportBackups(db.backups, app, secrets, mint, s.backups);
    var db' := db.(rules := R.ImportRules(db.rules, app, R.Names(db.webhooks), s.rules), backups := b.table);
    if !b.ok || skipAccess then Outcome(db', b.ok)
    else Outcome(db'.(access := ReplaceAccess(db.access, db.users, app, s.access)), true)
  }

  /** The same apps, webhooks and users; anything else may have changed since. */
  ghost predicate SameNames(db: DB, now: DB) {
    now.apps == db.apps && now.webhooks == db.webhooks && now.users == db.users
  }

  ghost predicate SameAppContents(db: DB, now: DB, app: Id) {
    && RowsWhere(now.rules, R.OfApp(app)) == RowsWhere(db.rules, R.OfApp(app))
    && RowsWhere(now.backups, B.OfApp(app)) == RowsWhere(db.backups, B.OfApp(app))
    && (forall u :: (u, app) in now.access <==> (u, app) in db.access)
  }

  /**
   * Importing a rendered app into a database whose rows for that app were lost or
   * changed succeeds unless another app took one of its UUIDs, and then restores the
   * same rules, configurations, secrets and grants, up to row ids.
   */
  lemma {:induction false} ImportRestoresApp(db: DB, now: DB, slug: string, mint: nat -> string)
    requires DbOk(db) && DbOk(now) && SameNames(db, now) && FindApp(db, slug).Some?
    requires var app := FindApp(db, slug).value;
      && B.UniqueUuids(db.backups, app)
      && (forall id :: id in db.backups.rows && db.backups.rows[id].app == app ==> db.backups.rows[id].uuid != "")
      && (forall id :: id in db.rules.rows && db.rules.rows[id].app == Some(app) ==> R.Portable(db.webhooks, db.rules.rows[id]))
    ensures var app, loaded := FindApp(db, slug).value, BuildApp(db, slug).value;
      var r := ImportApp(now, loaded.sidecar.value, SecretsOf(loaded), false, mint);
      && (r.ok <==> !B.HeldElsewhere(now.backups, app, RowsWhere(db.backups, B.OfApp(app))))
      && (r.ok ==> SameAppContents(db, r.db, app) && RestSame(now, r.db, app))
  {
    var app, s := FindApp(db, slug).value, BuildApp(db, slug).value.sidecar.value;
    RenderedHooksKnown(db, app);
    R.ImportRestores(db.rules, now.rules, db.webhooks, app);
    B.ImportRestores(db.backups, now.backups, app, mint);
    ImportedAccess(db, now, app);
    RenameSparesOthers(now.apps, app, "");
  }

  lemma {:induction false} RenderedHooksKnown(db: DB, app: Id)
    requires forall id :: id in db.rules.rows && db.rules.rows[id].app == Some(app) ==> R.Portable(db.webhooks, db.rules.rows[id])
    ensures HooksKnown(R.Names(db.webhooks), R.RenderRules(db.rules, db.webhooks, app))
  {
    var es := R.RenderRules(db.rules, db.webhooks, app);
    forall i | 0 <= i < |es| ensures es[i].webhook in R.Names(db.webhooks) {
      R.RenderedKey(db.webhooks, db.rules.rows[R.RuleIds(db.rules, app)[i]]);
    }
  }

  lemma {:induction false} ImportedAccess(db: DB, now: DB, app: Id)
    requires DbOk(db) && DbOk(now) && SameNames(db, now)
    ensures var access := ReplaceAccess(now.access, now.users, app, AccessNames(db, app));
      (forall u :: (u, app) in access <==> (u, app) in db.access) && OtherGrants(access, app) == OtherGrants(now.access, app)
  {
    AccessReplaced(now.access, now.users, app, AccessNames(db, app));
    AccessReplaced(db.access, db.users, app, AccessNames(db, app));
    AccessRoundTrip(db, app);
  }

  lemma {:induction false} ImportFoundRest(db: DB, app: Id, s: Sidecar, secrets: seq<B.SecretEntry>, skipAccess: bool, mint: nat -> string)
    requires DbOk(db)
    ensures RestSame(db, ImportFound(db, app, s, secrets, skipAccess, mint).db, app)
  {
    R.RulesImported(db.rules, app, R.Names(db.webhooks), s.rules);
    B.ImportSparesOthers(db.backups, app, secrets, mint, s.backups);
    AppsSameAsThemselves(db.apps, app);
    assert OtherGrants(ReplaceAccess(db.access, db.users, app, s.access), app) == OtherGrants(db.access, app) by {
      OtherGrantsStay(db, app, s.access);
    }
  }

  lemma {:induction false} AppsSameAsThemselves(apps: Table<App>, app: Id)
    ensures OtherAppsSame(apps, apps, app)
  {
  }

  /** What an import of any sidecar does to grants. */
  ghost predicate GrantsImported(before: DB, after: DB, app: Id, s: Sidecar, skipAccess: bool, ok: bool) {
    if skipAccess || !ok then after.access == before.access
    else
      forall g :: g in after.access <==>
        if g.1 == app then g.0 in before.users.rows && before.users.rows[g.0].username in s.access else g in before.access
  }

  /** What an import of any sidecar does to the app's rules and configurations. */
  ghost predicate RowsImported(before: DB, after: DB, app: Id, s: Sidecar, secrets: seq<B.SecretEntry>, mint: nat -> string, ok: bool) {
    && RowsWhere(after.rules, R.OfApp(app)) == R.RulesAsked(app, R.Names(before.webhooks), s.rules)
    && (ok ==> RowsWhere(after.backups, B.OfApp(app)) == B.BackupsAsked(app, secrets, mint, s.backups))
    && after.apps == before.apps
  }

  /**
   * Any import: for an unknown app or an unknown webhook it fails and changes nothing;
   * else the app's rules are those asked for, on success its configurations too and,
   * unless they are skipped, its grants; nothing else changes, also when it fails half-way.
   */
  lemma {:induction false} AppImported(db: DB, s: Sidecar, secrets: seq<B.SecretEntry>, skipAccess: bool, mint: nat -> string)
    requires DbOk(db)
    ensures var r := ImportApp(db, s, secrets, skipAccess, mint);
      if FindApp(db, s.slug).None? || (exists i :: 0 <= i < |s.rules| && s.rules[i].webhook != "" && s.rules[i].webhook !in R.Names(db.webhooks))
      then r == Outcome(db, false)
      else
        var app := FindApp(db, s.slug).value;
        && (var asked := B.BackupsAsked(app, secrets, mint, s.backups); r.ok <==> B.DistinctRows(asked) && !B.HeldElsewhere(db.backups, app, asked))
        && GrantsImported(db, r.db, app, s, skipAccess, r.ok)
        && RowsImported(db, r.db, app, s, secrets, mint, r.ok)
        && RestSame(db, r.db, app)
  {
    if FindApp(db, s.slug).Some? {
      var app := FindApp(db, s.slug).value;
      R.RulesImported(db.rules, app, R.Names(db.webhooks), s.rules);
      B.BackupsImported(db.backups, app, secrets, mint, s.backups);
      AccessReplaced(db.access, db.users, app, s.access);
      ImportFoundRest(db, app, s, secrets, skipAccess, mint);
    }
  }

  /** Any apply: which way it ends, and what a failed or a nameless one leaves alone. */
  lemma {:induction false} ApplyEnds(db: DB, slug: string, loaded: Loaded, dashboardOnly: bool, mint: nat -> string)
    ensures var r := ApplyApp(db, slug, loaded, dashboardOnly, mint);
      && (loaded.sidecar.None? ==> r == Outcome(db, true))
      && (loaded.sidecar.Some? && FindApp(db, slug).None? ==> r == Outcome(db, false))
      && (loaded.sidecar.Some? && FindApp(db, slug).Some? ==>
            var app := FindApp(db, slug).value;
            && (r.ok <==> B.ReconcileBackups(db.backups, app, SecretsOf(loaded), mint, loaded.sidecar.value.backups).ok)
            && (!r.ok || dashboardOnly ==> r.db.access == db.access)
            && (loaded.sidecar.value.displayName == "" ==> r.db.apps == db.apps)
            && app in r.db.apps.rows && r.db.apps.rows[app].slug == db.apps.rows[app].slug)
  {
  }
}
