/** Backup configurations of one app: reconciled by UUID, rendered, imported. */
module BackupConfigSync {
  import opened Prelude
  import opened ConfigStore

  datatype BackupEntry = BackupEntry(id: string, settings: Settings)

  datatype SecretEntry = SecretEntry(id: string, secret: string)

  /** The secret listed for `id`, the last one if there are several, "" if there is none. */
  function Enc(secrets: seq<SecretEntry>, id: string): string {
    if secrets == [] then ""
    else if secrets[|secrets| - 1].id == id then secrets[|secrets| - 1].secret
    else Enc(secrets[..|secrets| - 1], id)
  }

  /** The secret read for an id is that of its last entry, and empty without one. */
  lemma {:induction false} EncIsLast(secrets: seq<SecretEntry>, id: string)
    ensures forall i :: 0 <= i < |secrets| && secrets[i].id == id && (forall j :: i < j < |secrets| ==> secrets[j].id != id) ==>
      Enc(secrets, id) == secrets[i].secret
    ensures (forall i :: 0 <= i < |secrets| ==> secrets[i].id != id) ==> Enc(secrets, id) == ""
  {
    if secrets != [] && secrets[|secrets| - 1].id != id {
      var n := |secrets| - 1;
      EncIsLast(secrets[..n], id);
      assert forall i :: 0 <= i < n ==> secrets[..n][i] == secrets[i];
    }
  }

  function OfApp(app: Id): Backup -> bool { (b: Backup) => b.app == app }

  function BackupIds(t: Table<Backup>, app: Id): (ids: seq<Id>)
    ensures StrictlyAscending(ids)
    ensures forall id :: id in ids <==> id in t.rows && t.rows[id].app == app
    ensures forall i :: 0 <= i < |ids| ==> ids[i] in t.rows && t.rows[ids[i]].app == app
  {
    IdsWhere(t, OfApp(app))
  }

  function UuidIndex(rows: map<Id, Backup>, ids: seq<Id>): map<string, Id>
    requires forall i :: 0 <= i < |ids| ==> ids[i] in rows
  {
    if ids == [] then map[]
    else UuidIndex(rows, ids[..|ids| - 1])[rows[ids[|ids| - 1]].uuid := ids[|ids| - 1]]
  }

  lemma {:induction false} UuidIndexFacts(rows: map<Id, Backup>, ids: seq<Id>, u: string)
    requires StrictlyAscending(ids) && forall i :: 0 <= i < |ids| ==> ids[i] in rows
    ensures u in UuidIndex(rows, ids) ==> UuidIndex(rows, ids)[u] in ids && UuidIndex(rows, ids)[u] in rows && rows[UuidIndex(rows, ids)[u]].uuid == u
    ensures forall i :: 0 <= i < |ids| && rows[ids[i]].uuid == u ==> u in UuidIndex(rows, ids) && ids[i] <= UuidIndex(rows, ids)[u]
  {
    if ids != [] {
      UuidIndexFacts(rows, ids[..|ids| - 1], u);
      assert ids == ids[..|ids| - 1] + [ids[|ids| - 1]];
    }
  }

  function AppIndex(t: Table<Backup>, app: Id): map<string, Id> { UuidIndex(t.rows, BackupIds(t, app)) }

  lemma {:induction false} AppIndexFacts(t: Table<Backup>, app: Id, u: string)
    ensures u in AppIndex(t, app) ==>
              var id := AppIndex(t, app)[u]; id in t.rows && t.rows[id].app == app && t.rows[id].uuid == u
    ensures forall id :: id in t.rows && t.rows[id].app == app && t.rows[id].uuid == u ==> u in AppIndex(t, app) && id <= AppIndex(t, app)[u]
  {
    var ids := BackupIds(t, app);
    UuidIndexFacts(t.rows, ids, u);
    forall id | id in t.rows && t.rows[id].app == app && t.rows[id].uuid == u ensures u in AppIndex(t, app) && id <= AppIndex(t, app)[u] {
      assert id in ids;
      var i :| 0 <= i < |ids| && ids[i] == id;
    }
  }

  ghost predicate UniqueUuids(t: Table<Backup>, app: Id) {
    forall i, j :: i in t.rows && j in t.rows && t.rows[i].app == t.rows[j].app == app && t.rows[i].uuid == t.rows[j].uuid ==> i == j
  }

  // ---- creating rows under the unique UUID index

  predicate UuidTaken(t: Table<Backup>, uuid: string) { Lookup(t, (b: Backup) => b.uuid, uuid).Some? }

  /** A table after some edits, and whether all of them went through. */
  datatype Outcome = Outcome(table: Table<Backup>, ok: bool)

  /** Edits in order, up to the first insert whose UUID is taken. */
  function RunEdits(t: Table<Backup>, es: seq<Edit<Backup>>): Outcome {
    if es == [] then Outcome(t, true)
    else
      var before, e := RunEdits(t, es[..|es| - 1]), es[|es| - 1];
      if !before.ok then before
      else if e.Add? && UuidTaken(before.table, e.row.uuid) then before.(ok := false)
      else Outcome(Edited(before.table, e), true)
  }

  /** Inserting edit `i` would repeat a UUID. */
  ghost predicate ClashesAt(t: Table<Backup>, es: seq<Edit<Backup>>, i: nat)
    requires i < |es|
  {
    es[i].Add? && UuidTaken(EditAll(t, es[..i]), es[i].row.uuid)
  }

  /** Edits go through up to the first that clashes. */
  lemma {:induction false} RunIsPrefix(t: Table<Backup>, es: seq<Edit<Backup>>) returns (m: nat)
    ensures m <= |es| && RunEdits(t, es).table == EditAll(t, es[..m])
    ensures RunEdits(t, es).ok <==> m == |es|
    ensures (forall i :: 0 <= i < m ==> !ClashesAt(t, es, i)) && (m < |es| ==> ClashesAt(t, es, m))
  {
    if es == [] {
      m := 0;
    } else {
      var n := |es| - 1;
      m := RunIsPrefix(t, es[..n]);
      forall i | 0 <= i < n ensures ClashesAt(t, es[..n], i) <==> ClashesAt(t, es, i) { assert es[..n][..i] == es[..i]; }
      assert es[..n][..m] == es[..m];
      assert m == n ==> es[..n][..n] == es[..n];
      if RunEdits(t, es).ok {
        m := |es|;
        assert es[..m] == es;
      }
    }
  }

  ghost predicate WritesKeepUuid(t: Table<Backup>, es: seq<Edit<Backup>>) {
    && EditsOk(t, es)
    && forall i :: 0 <= i < |es| && es[i].Write? ==> es[i].row.uuid == t.rows[es[i].id].uuid
  }

  ghost predicate AddsUuid(es: seq<Edit<Backup>>, u: string) { exists i :: 0 <= i < |es| && es[i].Add? && es[i].row.uuid == u }

  lemma {:induction false} TakenAfter(t: Table<Backup>, es: seq<Edit<Backup>>, u: string)
    requires WritesKeepUuid(t, es)
    ensures UuidTaken(EditAll(t, es), u) <==> UuidTaken(t, u) || AddsUuid(es, u)
  {
    if es != [] {
      var n := |es| - 1;
      TakenAfter(t, es[..n], u);
      assert AddsUuid(es, u) <==> AddsUuid(es[..n], u) || (es[n].Add? && es[n].row.uuid == u) by { AddsStep(es, u); }
      TakenStep(t, es, u);
    }
  }

  lemma {:induction false} AddsStep(es: seq<Edit<Backup>>, u: string)
    requires es != []
    ensures AddsUuid(es, u) <==> AddsUuid(es[..|es| - 1], u) || (es[|es| - 1].Add? && es[|es| - 1].row.uuid == u)
  {
    var init := es[..|es| - 1];
    if AddsUuid(init, u) {
      var i :| 0 <= i < |init| && init[i].Add? && init[i].row.uuid == u;
      assert es[i] == init[i];
    }
    if i :| 0 <= i < |es| && es[i].Add? && es[i].row.uuid == u && i < |init| { assert init[i] == es[i]; }
  }

  lemma {:induction false} TakenStep(t: Table<Backup>, es: seq<Edit<Backup>>, u: string)
    requires WritesKeepUuid(t, es) && es != []
    ensures var t', e := EditAll(t, es[..|es| - 1]), es[|es| - 1];
      UuidTaken(Edited(t', e), u) <==> UuidTaken(t', u) || (e.Add? && e.row.uuid == u)
  {
    var n := |es| - 1;
    var t', e := EditAll(t, es[..n]), es[n];
    EditWf(t, es[..n]);
    if e.Write? {
      EditKeeps(t, es[..n], e.id, (b: Backup) => b.uuid);
    }
    Holder(t', u);
    Holder(Edited(t', e), u);
    if Holds(t', u) {
      var id :| id in t'.rows && t'.rows[id].uuid == u;
      assert id in Edited(t', e).rows && Edited(t', e).rows[id].uuid == u;
    }
    if e.Add? { assert t'.next in Edited(t', e).rows; }
  }

  ghost predicate Holds(t: Table<Backup>, u: string) { exists id :: id in t.rows && t.rows[id].uuid == u }

  lemma {:induction false} Holder(t: Table<Backup>, u: string)
    ensures UuidTaken(t, u) <==> Holds(t, u)
  {
    var r := Lookup(t, (b: Backup) => b.uuid, u);
    if r.Some? { assert t.rows[r.value].uuid == u; }
  }

  /** No insert repeats a UUID, stored or inserted earlier. */
  ghost predicate NoClash(t: Table<Backup>, es: seq<Edit<Backup>>) {
    && (forall i :: 0 <= i < |es| && es[i].Add? ==> !UuidTaken(t, es[i].row.uuid))
    && (forall i, j :: 0 <= i < j < |es| && es[i].Add? && es[j].Add? ==> es[i].row.uuid != es[j].row.uuid)
  }

  /** All edits go through exactly when no insert repeats a UUID. */
  lemma {:induction false} RunSucceeds(t: Table<Backup>, es: seq<Edit<Backup>>)
    requires WritesKeepUuid(t, es)
    ensures RunEdits(t, es).ok <==> NoClash(t, es)
    ensures RunEdits(t, es).ok ==> RunEdits(t, es).table == EditAll(t, es)
  {
    if es != [] {
      var init, e := es[..|es| - 1], es[|es| - 1];
      RunSucceeds(t, init);
      if e.Add? { TakenAfter(t, init, e.row.uuid); }
      NoClashStep(t, es);
    }
  }

  lemma {:induction false} NoClashStep(t: Table<Backup>, es: seq<Edit<Backup>>)
    requires es != []
    ensures var init, e := es[..|es| - 1], es[|es| - 1];
      NoClash(t, es) <==> NoClash(t, init) && (e.Add? ==> !UuidTaken(t, e.row.uuid) && !AddsUuid(init, e.row.uuid))
  {
    var init, e := es[..|es| - 1], es[|es| - 1];
    assert forall i :: 0 <= i < |init| ==> init[i] == es[i];
  }

  // ---- reconciling

  /** The UUID a new row gets: its own, or a minted one if it has none. */
  function NewUuid(e: BackupEntry, minted: string): string { if e.id == "" then minted else e.id }

  function BackupEdit(t: Table<Backup>, app: Id, secrets: seq<SecretEntry>, minted: string, e: BackupEntry): Edit<Backup> {
    var enc := Enc(secrets, e.id);
    if e.id in AppIndex(t, app) then
      AppIndexFacts(t, app, e.id);
      var id := AppIndex(t, app)[e.id];
      Write(id, t.rows[id].(settings := e.settings, secret := if enc == "" then t.rows[id].secret else enc))
    else Add(Backup(app, NewUuid(e, minted), e.settings, enc))
  }

  function BackupEdits(t: Table<Backup>, app: Id, secrets: seq<SecretEntry>, mint: nat -> string, es: seq<BackupEntry>): (r: seq<Edit<Backup>>)
    ensures |r| == |es| && forall i :: 0 <= i < |es| ==> r[i] == BackupEdit(t, app, secrets, mint(i), es[i])
  {
    seq(|es|, i requires 0 <= i < |es| => BackupEdit(t, app, secrets, mint(i), es[i]))
  }

  function Ids(es: seq<BackupEntry>): set<string> { set e | e in es :: e.id }

  /** Stored rows of the app that no entry names. */
  function Dropped(t: Table<Backup>, app: Id, es: seq<BackupEntry>): set<Id> {
    set u | u in AppIndex(t, app) && u !in Ids(es) :: AppIndex(t, app)[u]
  }

  function ReconcileBackups(t: Table<Backup>, app: Id, secrets: seq<SecretEntry>, mint: nat -> string, es: seq<BackupEntry>): Outcome {
    var run := RunEdits(t, BackupEdits(t, app, secrets, mint, es));
    if run.ok then run.(table := Delete(run.table, Dropped(t, app, es))) else run
  }

  lemma {:induction false} BackupEditsOk(t: Table<Backup>, app: Id, secrets: seq<SecretEntry>, mint: nat -> string, es: seq<BackupEntry>)
    requires Wf(t)
    ensures WritesKeepUuid(t, BackupEdits(t, app, secrets, mint, es))
    ensures forall i :: 0 <= i < |es| && BackupEdits(t, app, secrets, mint, es)[i].Write? ==>
      var e := BackupEdits(t, app, secrets, mint, es)[i]; t.rows[e.id].app == app && e.row.app == app && e.row.uuid == es[i].id
  {
    forall i | 0 <= i < |es| { AppIndexFacts(t, app, es[i].id); }
  }

  /** A reconcile succeeds exactly when no new configuration repeats a UUID, its own or another app's. */
  lemma {:induction false} BackupsSucceed(t: Table<Backup>, app: Id, secrets: seq<SecretEntry>, mint: nat -> string, es: seq<BackupEntry>)
    requires Wf(t)
    ensures ReconcileBackups(t, app, secrets, mint, es).ok <==> NoClash(t, BackupEdits(t, app, secrets, mint, es))
  {
    BackupEditsOk(t, app, secrets, mint, es);
    RunSucceeds(t, BackupEdits(t, app, secrets, mint, es));
  }

  /** A reconcile that fails has deleted nothing. */
  lemma {:induction false} FailureDeletesNothing(t: Table<Backup>, app: Id, secrets: seq<SecretEntry>, mint: nat -> string, es: seq<BackupEntry>)
    requires !ReconcileBackups(t, app, secrets, mint, es).ok
    ensures t.rows.Keys <= ReconcileBackups(t, app, secrets, mint, es).table.rows.Keys
  {
    RunsOnlyGrow(t, BackupEdits(t, app, secrets, mint, es));
  }

  lemma {:induction false} RunsOnlyGrow(t: Table<Backup>, es: seq<Edit<Backup>>)
    ensures t.rows.Keys <= RunEdits(t, es).table.rows.Keys
  {
    if es != [] { RunsOnlyGrow(t, es[..|es| - 1]); }
  }

  /** Which stored rows go. */
  lemma {:induction false} DroppedRow(t: Table<Backup>, app: Id, es: seq<BackupEntry>, id: Id)
    requires UniqueUuids(t, app)
    ensures id in Dropped(t, app, es) <==> id in t.rows && t.rows[id].app == app && t.rows[id].uuid !in Ids(es)
  {
    var index := AppIndex(t, app);
    if id in t.rows && t.rows[id].app == app {
      AppIndexFacts(t, app, t.rows[id].uuid);
    }
    if id in Dropped(t, app, es) {
      var u :| u in index && u !in Ids(es) && index[u] == id;
      AppIndexFacts(t, app, u);
    }
  }

  lemma {:induction false} TableAfter(t: Table<Backup>, app: Id, secrets: seq<SecretEntry>, mint: nat -> string, es: seq<BackupEntry>)
    requires Wf(t) && ReconcileBackups(t, app, secrets, mint, es).ok
    ensures var edits := BackupEdits(t, app, secrets, mint, es);
      && EditsOk(t, edits)
      && ReconcileBackups(t, app, secrets, mint, es).table == Delete(EditAll(t, edits), Dropped(t, app, es))
  {
    BackupEditsOk(t, app, secrets, mint, es);
    RunSucceeds(t, BackupEdits(t, app, secrets, mint, es));
  }

  lemma {:induction false} RowsLeft(t: Table<Backup>, app: Id, secrets: seq<SecretEntry>, mint: nat -> string, es: seq<BackupEntry>, id: Id)
    requires Wf(t) && UniqueUuids(t, app) && ReconcileBackups(t, app, secrets, mint, es).ok
    ensures id in ReconcileBackups(t, app, secrets, mint, es).table.rows <==>
            || (id in t.rows && (t.rows[id].app != app || t.rows[id].uuid in Ids(es)))
            || t.next <= id < t.next + |Added(BackupEdits(t, app, secrets, mint, es))|
  {
    var edits := BackupEdits(t, app, secrets, mint, es);
    TableAfter(t, app, secrets, mint, es);
    EditDomain(t, edits, id);
    DroppedRow(t, app, es, id);
  }

  /** The row an entry leaves on a stored configuration. */
  function Updated(row: Backup, secrets: seq<SecretEntry>, e: BackupEntry): Backup {
    row.(settings := e.settings, secret := if Enc(secrets, e.id) == "" then row.secret else Enc(secrets, e.id))
  }

  lemma {:induction false} MatchedRow(t: Table<Backup>, app: Id, secrets: seq<SecretEntry>, mint: nat -> string, es: seq<BackupEntry>, i: nat, id: Id)
    requires Wf(t) && UniqueUuids(t, app) && ReconcileBackups(t, app, secrets, mint, es).ok
    requires i < |es| && id in t.rows && t.rows[id].app == app && t.rows[id].uuid == es[i].id
    requires forall j :: i < j < |es| ==> es[j].id != es[i].id
    ensures id in ReconcileBackups(t, app, secrets, mint, es).table.rows
    ensures ReconcileBackups(t, app, secrets, mint, es).table.rows[id] == Updated(t.rows[id], secrets, es[i])
  {
    var edits := BackupEdits(t, app, secrets, mint, es);
    TableAfter(t, app, secrets, mint, es);
    RowsLeft(t, app, secrets, mint, es, id);
    AppIndexFacts(t, app, es[i].id);
    assert edits[i] == Write(id, Updated(t.rows[id], secrets, es[i]));
    forall j | i < j < |es| ensures !(edits[j].Write? && edits[j].id == id) { AppIndexFacts(t, app, es[j].id); }
    EditLast(t, edits, id, i);
  }

  /** A stored row keeps its app and its UUID. */
  lemma {:induction false} OldRowKeeps(t: Table<Backup>, app: Id, secrets: seq<SecretEntry>, mint: nat -> string, es: seq<BackupEntry>, id: Id)
    requires Wf(t) && ReconcileBackups(t, app, secrets, mint, es).ok
    requires id in t.rows && id in ReconcileBackups(t, app, secrets, mint, es).table.rows
    ensures var row := ReconcileBackups(t, app, secrets, mint, es).table.rows[id]; row.app == t.rows[id].app && row.uuid == t.rows[id].uuid
  {
    var edits := BackupEdits(t, app, secrets, mint, es);
    TableAfter(t, app, secrets, mint, es);
    BackupEditsOk(t, app, secrets, mint, es);
    EditKeeps(t, edits, id, (b: Backup) => b.app);
    EditKeeps(t, edits, id, (b: Backup) => b.uuid);
  }

  lemma {:induction false} NewRow(t: Table<Backup>, app: Id, secrets: seq<SecretEntry>, mint: nat -> string, es: seq<BackupEntry>, id: Id) returns (j: nat)
    requires Wf(t) && UniqueUuids(t, app) && ReconcileBackups(t, app, secrets, mint, es).ok
    requires id in ReconcileBackups(t, app, secrets, mint, es).table.rows && id !in t.rows
    ensures id >= t.next && j < |es| && es[j].id !in AppIndex(t, app)
    ensures ReconcileBackups(t, app, secrets, mint, es).table.rows[id]
            == Backup(app, NewUuid(es[j], mint(j)), es[j].settings, Enc(secrets, es[j].id))
    ensures id - t.next < |Added(BackupEdits(t, app, secrets, mint, es))|
    ensures BackupEdits(t, app, secrets, mint, es)[j] == Add(Added(BackupEdits(t, app, secrets, mint, es))[id - t.next])
  {
    var edits := BackupEdits(t, app, secrets, mint, es);
    TableAfter(t, app, secrets, mint, es);
    j := EditNewFrom(t, edits, id);
    assert edits[j] == BackupEdit(t, app, secrets, mint(j), es[j]);
  }

  /** Rows added without a clash differ in UUID. */
  lemma {:induction false} AddedDistinct(t: Table<Backup>, edits: seq<Edit<Backup>>, a: nat, b: nat)
    requires NoClash(t, edits) && a < b < |Added(edits)|
    ensures Added(edits)[a].uuid != Added(edits)[b].uuid
  {
    var init := edits[..|edits| - 1];
    NoClashStep(t, edits);
    if b < |Added(init)| {
      AddedDistinct(t, init, a, b);
    } else {
      var j := AddedFrom(init, a);
    }
  }

  /** A row of the app that an entry describes, under this UUID; its secret is the listed one, if one is listed. */
  ghost predicate HasBackup(t: Table<Backup>, app: Id, uuid: string, secrets: seq<SecretEntry>, e: BackupEntry) {
    exists id :: id in t.rows && Describes(t.rows[id], app, uuid, secrets, e)
  }

  predicate Describes(row: Backup, app: Id, uuid: string, secrets: seq<SecretEntry>, e: BackupEntry) {
    row.app == app && row.uuid == uuid && Updated(row, secrets, e) == row
  }

  /** No later entry has the UUID of this one. */
  ghost predicate LastWithUuid(uuids: seq<string>, i: nat) {
    i < |uuids| && forall j :: i < j < |uuids| ==> uuids[j] != uuids[i]
  }

  /** The app's configurations are exactly the entries, under these UUIDs; the last entry for a UUID counts. */
  ghost predicate BackupsAre(t: Table<Backup>, app: Id, secrets: seq<SecretEntry>, es: seq<BackupEntry>, uuids: seq<string>)
    requires |uuids| == |es|
  {
    && (forall i :: 0 <= i < |es| && LastWithUuid(uuids, i) ==> HasBackup(t, app, uuids[i], secrets, es[i]))
    && (forall id :: id in t.rows && t.rows[id].app == app ==> t.rows[id].uuid in uuids)
    && UniqueUuids(t, app)
  }

  function OwnIds(es: seq<BackupEntry>): (r: seq<string>)
    ensures |r| == |es| && forall i :: 0 <= i < |es| ==> r[i] == es[i].id
  {
    seq(|es|, i requires 0 <= i < |es| => es[i].id)
  }

  /** The UUID each entry ends up with: its own, or a minted one if it has none and matches no stored row. */
  function Uuids(t: Table<Backup>, app: Id, mint: nat -> string, es: seq<BackupEntry>): (r: seq<string>)
    ensures |r| == |es|
    ensures forall i :: 0 <= i < |es| ==> r[i] == if es[i].id in AppIndex(t, app) then es[i].id else NewUuid(es[i], mint(i))
  {
    seq(|es|, i requires 0 <= i < |es| => if es[i].id in AppIndex(t, app) then es[i].id else NewUuid(es[i], mint(i)))
  }

  /** Stored rows still wanted keep their id, and their secret unless another one is listed. */
  ghost predicate BackupsKept(before: Table<Backup>, after: Table<Backup>, app: Id, secrets: seq<SecretEntry>, es: seq<BackupEntry>) {
    && (forall id :: id in before.rows && before.rows[id].app == app && before.rows[id].uuid in Ids(es) ==>
          id in after.rows && KeptSecret(before.rows[id], after.rows[id], secrets))
    && (forall id :: id in after.rows && id !in before.rows ==> id >= before.next)
  }

  predicate KeptSecret(old': Backup, row: Backup, secrets: seq<SecretEntry>) {
    && row.app == old'.app && row.uuid == old'.uuid
    && row.secret == (if Enc(secrets, old'.uuid) == "" then old'.secret else Enc(secrets, old'.uuid))
    && (old'.secret != "" ==> row.secret != "")
  }

  lemma {:induction false} LastEntry(es: seq<BackupEntry>, u: string) returns (i: nat)
    requires u in Ids(es)
    ensures i < |es| && es[i].id == u && forall j :: i < j < |es| ==> es[j].id != u
  {
    var n := |es| - 1;
    if es[n].id == u {
      i := n;
    } else {
      assert es == es[..n] + [es[n]];
      i := LastEntry(es[..n], u);
      assert forall j :: i < j < n ==> es[j] == es[..n][j];
    }
  }

  /** What a successful reconcile does, repeated and empty ids included. */
  lemma {:induction false} BackupsReconciled(t: Table<Backup>, app: Id, secrets: seq<SecretEntry>, mint: nat -> string, es: seq<BackupEntry>)
    requires Wf(t) && UniqueUuids(t, app) && ReconcileBackups(t, app, secrets, mint, es).ok
    ensures var t' := ReconcileBackups(t, app, secrets, mint, es).table;
      BackupsAre(t', app, secrets, es, Uuids(t, app, mint, es)) && BackupsKept(t, t', app, secrets, es)
  {
    var t' := ReconcileBackups(t, app, secrets, mint, es).table;
    var uuids := Uuids(t, app, mint, es);
    forall i | 0 <= i < |es| && LastWithUuid(uuids, i) ensures HasBackup(t', app, uuids[i], secrets, es[i]) {
      EntryHasBackup(t, app, secrets, mint, es, i);
    }
    forall id | id in t'.rows && t'.rows[id].app == app ensures t'.rows[id].uuid in uuids {
      RowIsWanted(t, app, secrets, mint, es, id);
    }
    UuidsAreUnique(t, app, secrets, mint, es);
    forall id | id in t.rows && t.rows[id].app == app && t.rows[id].uuid in Ids(es)
      ensures id in t'.rows && KeptSecret(t.rows[id], t'.rows[id], secrets)
    {
      var i := LastEntry(es, t.rows[id].uuid);
      MatchedRow(t, app, secrets, mint, es, i, id);
    }
    forall id | id in t'.rows && id !in t.rows ensures id >= t.next { RowsLeft(t, app, secrets, mint, es, id); }
  }

  lemma {:induction false} EntryHasBackup(t: Table<Backup>, app: Id, secrets: seq<SecretEntry>, mint: nat -> string, es: seq<BackupEntry>, i: nat)
    requires Wf(t) && UniqueUuids(t, app) && ReconcileBackups(t, app, secrets, mint, es).ok
    requires i < |es| && LastWithUuid(Uuids(t, app, mint, es), i)
    ensures HasBackup(ReconcileBackups(t, app, secrets, mint, es).table, app, Uuids(t, app, mint, es)[i], secrets, es[i])
  {
    var t' := ReconcileBackups(t, app, secrets, mint, es).table;
    AppIndexFacts(t, app, es[i].id);
    if es[i].id in AppIndex(t, app) {
      var id := AppIndex(t, app)[es[i].id];
      MatchedRow(t, app, secrets, mint, es, i, id);
      assert Describes(t'.rows[id], app, es[i].id, secrets, es[i]);
    } else {
      var id := NewEntryRow(t, app, secrets, mint, es, i);
      assert Describes(t'.rows[id], app, NewUuid(es[i], mint(i)), secrets, es[i]);
    }
  }

  /** An entry that matches no stored row gets a row of its own. */
  lemma {:induction false} NewEntryRow(t: Table<Backup>, app: Id, secrets: seq<SecretEntry>, mint: nat -> string, es: seq<BackupEntry>, i: nat) returns (id: Id)
    requires Wf(t) && UniqueUuids(t, app) && ReconcileBackups(t, app, secrets, mint, es).ok
    requires i < |es| && es[i].id !in AppIndex(t, app)
    ensures id >= t.next && id in ReconcileBackups(t, app, secrets, mint, es).table.rows
    ensures ReconcileBackups(t, app, secrets, mint, es).table.rows[id] == Backup(app, NewUuid(es[i], mint(i)), es[i].settings, Enc(secrets, es[i].id))
  {
    var edits := BackupEdits(t, app, secrets, mint, es);
    TableAfter(t, app, secrets, mint, es);
    NewEdit(t, app, secrets, mint(i), es[i]);
    id := EditReaches(t, edits, i);
    assert id !in Dropped(t, app, es) by { DroppedRow(t, app, es, id); }
    var t' := Delete(EditAll(t, edits), Dropped(t, app, es));
    assert id in t'.rows && t'.rows[id] == edits[i].row;
  }

  lemma {:induction false} NewEdit(t: Table<Backup>, app: Id, secrets: seq<SecretEntry>, minted: string, e: BackupEntry)
    requires e.id !in AppIndex(t, app)
    ensures BackupEdit(t, app, secrets, minted, e) == Add(Backup(app, NewUuid(e, minted), e.settings, Enc(secrets, e.id)))
  {
  }

  lemma {:induction false} OtherRow(t: Table<Backup>, app: Id, secrets: seq<SecretEntry>, mint: nat -> string, es: seq<BackupEntry>, id: Id)
    requires Wf(t) && id in t.rows && t.rows[id].app != app
    ensures var r := ReconcileBackups(t, app, secrets, mint, es); id in r.table.rows && r.table.rows[id] == t.rows[id]
  {
    var edits := BackupEdits(t, app, secrets, mint, es);
    BackupEditsOk(t, app, secrets, mint, es);
    var m := RunIsPrefix(t, edits);
    EditOld(t, edits[..m], id, t.rows[id]);
    if id in Dropped(t, app, es) {
      var u :| u in AppIndex(t, app) && u !in Ids(es) && AppIndex(t, app)[u] == id;
      AppIndexFacts(t, app, u);
    }
  }

  lemma {:induction false} RowIsWanted(t: Table<Backup>, app: Id, secrets: seq<SecretEntry>, mint: nat -> string, es: seq<BackupEntry>, id: Id)
    requires Wf(t) && UniqueUuids(t, app) && ReconcileBackups(t, app, secrets, mint, es).ok
    requires var t' := ReconcileBackups(t, app, secrets, mint, es).table; id in t'.rows && t'.rows[id].app == app
    ensures ReconcileBackups(t, app, secrets, mint, es).table.rows[id].uuid in Uuids(t, app, mint, es)
  {
    var uuids := Uuids(t, app, mint, es);
    RowsLeft(t, app, secrets, mint, es, id);
    if id in t.rows {
      OldRowKeeps(t, app, secrets, mint, es, id);
      AppIndexFacts(t, app, t.rows[id].uuid);
      var i :| 0 <= i < |es| && es[i].id == t.rows[id].uuid;
      assert uuids[i] == t.rows[id].uuid;
    } else {
      var j := NewRow(t, app, secrets, mint, es, id);
      assert uuids[j] == NewUuid(es[j], mint(j));
    }
  }

  lemma {:induction false} UuidsAreUnique(t: Table<Backup>, app: Id, secrets: seq<SecretEntry>, mint: nat -> string, es: seq<BackupEntry>)
    requires Wf(t) && UniqueUuids(t, app) && ReconcileBackups(t, app, secrets, mint, es).ok
    ensures UniqueUuids(ReconcileBackups(t, app, secrets, mint, es).table, app)
  {
    var t' := ReconcileBackups(t, app, secrets, mint, es).table;
    forall i, j | i in t'.rows && j in t'.rows && t'.rows[i].app == t'.rows[j].app == app && t'.rows[i].uuid == t'.rows[j].uuid
      ensures i == j
    {
      if i <= j { SameUuidSameRow(t, app, secrets, mint, es, i, j); } else { SameUuidSameRow(t, app, secrets, mint, es, j, i); }
    }
  }

  lemma {:induction false} SameUuidSameRow(t: Table<Backup>, app: Id, secrets: seq<SecretEntry>, mint: nat -> string, es: seq<BackupEntry>, i: Id, j: Id)
    requires Wf(t) && UniqueUuids(t, app) && ReconcileBackups(t, app, secrets, mint, es).ok
    requires i <= j
    requires var t' := ReconcileBackups(t, app, secrets, mint, es).table;
      i in t'.rows && j in t'.rows && t'.rows[i].app == t'.rows[j].app == app && t'.rows[i].uuid == t'.rows[j].uuid
    ensures i == j
  {
    if i in t.rows { OldRowKeeps(t, app, secrets, mint, es, i); }
    if j in t.rows { OldRowKeeps(t, app, secrets, mint, es, j); }
    RowsLeft(t, app, secrets, mint, es, i);
    RowsLeft(t, app, secrets, mint, es, j);
    if j !in t.rows {
      if i in t.rows {
        NewUuidIsNew(t, app, secrets, mint, es, i, j);
      } else if i < j {
        NewRowsDiffer(t, app, secrets, mint, es, i, j);
      }
    }
  }

  /** A new row's UUID was held by no row. */
  lemma {:induction false} NewUuidIsNew(t: Table<Backup>, app: Id, secrets: seq<SecretEntry>, mint: nat -> string, es: seq<BackupEntry>, i: Id, j: Id)
    requires Wf(t) && UniqueUuids(t, app) && ReconcileBackups(t, app, secrets, mint, es).ok
    requires i in t.rows && j !in t.rows && j in ReconcileBackups(t, app, secrets, mint, es).table.rows
    ensures t.rows[i].uuid != ReconcileBackups(t, app, secrets, mint, es).table.rows[j].uuid
  {
    var x := NewRow(t, app, secrets, mint, es, j);
    BackupsSucceed(t, app, secrets, mint, es);
    assert !UuidTaken(t, BackupEdits(t, app, secrets, mint, es)[x].row.uuid);
    Holder(t, t.rows[i].uuid);
  }

  lemma {:induction false} NewRowsDiffer(t: Table<Backup>, app: Id, secrets: seq<SecretEntry>, mint: nat -> string, es: seq<BackupEntry>, i: Id, j: Id)
    requires Wf(t) && ReconcileBackups(t, app, secrets, mint, es).ok && i < j && i !in t.rows && j !in t.rows
    requires var t' := ReconcileBackups(t, app, secrets, mint, es).table; i in t'.rows && j in t'.rows
    ensures var t' := ReconcileBackups(t, app, secrets, mint, es).table; t'.rows[i].uuid != t'.rows[j].uuid
  {
    var edits := BackupEdits(t, app, secrets, mint, es);
    TableAfter(t, app, secrets, mint, es);
    BackupsSucceed(t, app, secrets, mint, es);
    AddedRowsDiffer(t, edits, i, j);
  }

  lemma {:induction false} AddedRowsDiffer(t: Table<Backup>, edits: seq<Edit<Backup>>, i: Id, j: Id)
    requires EditsOk(t, edits) && NoClash(t, edits) && i < j
    requires i in EditAll(t, edits).rows && j in EditAll(t, edits).rows && i !in t.rows && j !in t.rows
    ensures EditAll(t, edits).rows[i].uuid != EditAll(t, edits).rows[j].uuid
  {
    var a := EditNewFrom(t, edits, i);
    var b := EditNewFrom(t, edits, j);
    AddedDistinct(t, edits, i - t.next, j - t.next);
  }

  /** Configurations of other apps are never touched, whether the reconcile succeeds or stops half-way. */
  lemma {:induction false} OtherBackupsUntouched(t: Table<Backup>, app: Id, secrets: seq<SecretEntry>, mint: nat -> string, es: seq<BackupEntry>)
    requires Wf(t)
    ensures var r := ReconcileBackups(t, app, secrets, mint, es); SameOutside(t, r.table, OfApp(app)) && Wf(r.table)
  {
    var edits := BackupEdits(t, app, secrets, mint, es);
    var t' := ReconcileBackups(t, app, secrets, mint, es).table;
    BackupEditsOk(t, app, secrets, mint, es);
    var m := RunIsPrefix(t, edits);
    EditWf(t, edits[..m]);
    forall id | id in t.rows && t.rows[id].app != app ensures id in t'.rows && t'.rows[id] == t.rows[id] {
      OtherRow(t, app, secrets, mint, es, id);
    }
    forall id | id in t'.rows && t'.rows[id].app != app ensures id in t.rows && t.rows[id] == t'.rows[id] {
      OtherRowIsOld(t, app, edits[..m], id);
      OtherRow(t, app, secrets, mint, es, id);
    }
  }

  lemma {:induction false} OtherRowIsOld(t: Table<Backup>, app: Id, edits: seq<Edit<Backup>>, id: Id)
    requires EditsOk(t, edits)
    requires forall i :: 0 <= i < |edits| ==> (edits[i].Write? ==> edits[i].row.app == t.rows[edits[i].id].app) && (edits[i].Add? ==> edits[i].row.app == app)
    requires id in EditAll(t, edits).rows && EditAll(t, edits).rows[id].app != app
    ensures id in t.rows && t.rows[id].app != app
  {
    EditDomain(t, edits, id);
    if id in t.rows {
      EditKeeps(t, edits, id, (b: Backup) => b.app);
    } else {
      EditNew(t, edits, id - t.next);
      var j := AddedFrom(edits, id - t.next);
    }
  }

  // ---- reconciling twice

  lemma {:induction false} OwnIdStored(t: Table<Backup>, app: Id, secrets: seq<SecretEntry>, es: seq<BackupEntry>, i: nat) returns (id: Id, j: nat)
    requires BackupsAre(t, app, secrets, es, OwnIds(es)) && i < |es|
    ensures i <= j < |es| && es[j].id == es[i].id && LastWithUuid(OwnIds(es), j)
    ensures es[i].id in AppIndex(t, app) && AppIndex(t, app)[es[i].id] == id && id in t.rows && Describes(t.rows[id], app, es[i].id, secrets, es[j])
  {
    assert es[i] in es;
    j := LastEntry(es, es[i].id);
    assert LastWithUuid(OwnIds(es), j);
    assert HasBackup(t, app, OwnIds(es)[j], secrets, es[j]);
    id :| id in t.rows && Describes(t.rows[id], app, es[j].id, secrets, es[j]);
    AppIndexFacts(t, app, es[i].id);
  }

  lemma {:induction false} StoredEdit(t: Table<Backup>, app: Id, secrets: seq<SecretEntry>, minted: string, e: BackupEntry)
    requires e.id in AppIndex(t, app)
    ensures var id := AppIndex(t, app)[e.id];
      id in t.rows && t.rows[id].uuid == e.id && t.rows[id].app == app && BackupEdit(t, app, secrets, minted, e) == Write(id, Updated(t.rows[id], secrets, e))
  {
    AppIndexFacts(t, app, e.id);
  }

  lemma {:induction false} SettledRow(t: Table<Backup>, app: Id, secrets: seq<SecretEntry>, mint: nat -> string, es: seq<BackupEntry>, id: Id)
    requires Wf(t) && BackupsAre(t, app, secrets, es, OwnIds(es)) && id in t.rows
    requires EditsOk(t, BackupEdits(t, app, secrets, mint, es))
    ensures var t' := EditAll(t, BackupEdits(t, app, secrets, mint, es)); id in t'.rows && t'.rows[id] == t.rows[id]
  {
    var edits := BackupEdits(t, app, secrets, mint, es);
    if t.rows[id].app == app && t.rows[id].uuid in Ids(es) {
      var j := LastEntry(es, t.rows[id].uuid);
      var id2, j2 := OwnIdStored(t, app, secrets, es, j);
      StoredEdit(t, app, secrets, mint(j), es[j]);
      forall i | j < i < |es| ensures !(edits[i].Write? && edits[i].id == id) { AppIndexFacts(t, app, es[i].id); }
      EditLast(t, edits, id, j);
    } else {
      forall i | 0 <= i < |es| ensures !(edits[i].Write? && edits[i].id == id) {
        AppIndexFacts(t, app, es[i].id);
        assert es[i] in es;
      }
      EditOld(t, edits, id, t.rows[id]);
    }
  }

  lemma {:induction false} SettledWrites(t: Table<Backup>, app: Id, secrets: seq<SecretEntry>, mint: nat -> string, es: seq<BackupEntry>)
    requires BackupsAre(t, app, secrets, es, OwnIds(es))
    ensures var edits := BackupEdits(t, app, secrets, mint, es); (forall i :: 0 <= i < |edits| ==> edits[i].Write?) && Added(edits) == []
  {
    var edits := BackupEdits(t, app, secrets, mint, es);
    forall i | 0 <= i < |es| ensures edits[i].Write? {
      var id, j := OwnIdStored(t, app, secrets, es, i);
      StoredEdit(t, app, secrets, mint(i), es[i]);
    }
    NothingAdded(edits);
  }

  lemma {:induction false} SettledEdits(t: Table<Backup>, app: Id, secrets: seq<SecretEntry>, mint: nat -> string, es: seq<BackupEntry>)
    requires Wf(t) && BackupsAre(t, app, secrets, es, OwnIds(es)) && EditsOk(t, BackupEdits(t, app, secrets, mint, es))
    ensures var edits := BackupEdits(t, app, secrets, mint, es); (forall i :: 0 <= i < |edits| ==> edits[i].Write?) && EditAll(t, edits) == t
  {
    var edits := BackupEdits(t, app, secrets, mint, es);
    SettledWrites(t, app, secrets, mint, es);
    forall id | id in t.rows ensures id in EditAll(t, edits).rows && EditAll(t, edits).rows[id] == t.rows[id] {
      SettledRow(t, app, secrets, mint, es, id);
    }
    EditsSettle(t, edits);
  }

  /** A table that already matches the entries is left alone, ids and secrets and all. */
  lemma {:induction false} MatchingIsFixed(t: Table<Backup>, app: Id, secrets: seq<SecretEntry>, mint: nat -> string, es: seq<BackupEntry>)
    requires Wf(t) && BackupsAre(t, app, secrets, es, OwnIds(es))
    ensures ReconcileBackups(t, app, secrets, mint, es) == Outcome(t, true)
  {
    BackupEditsOk(t, app, secrets, mint, es);
    SettledEdits(t, app, secrets, mint, es);
    RunSucceeds(t, BackupEdits(t, app, secrets, mint, es));
    NothingDropped(t, app, secrets, es);
  }

  lemma {:induction false} NothingDropped(t: Table<Backup>, app: Id, secrets: seq<SecretEntry>, es: seq<BackupEntry>)
    requires BackupsAre(t, app, secrets, es, OwnIds(es))
    ensures Delete(t, Dropped(t, app, es)) == t
  {
    forall id ensures id !in Dropped(t, app, es) {
      DroppedRow(t, app, es, id);
      if id in t.rows && t.rows[id].app == app {
        var i :| 0 <= i < |es| && OwnIds(es)[i] == t.rows[id].uuid;
        assert es[i] in es;
      }
    }
    assert Delete(t, Dropped(t, app, es)).rows == t.rows;
  }

  /** Every entry has an id, unless the app has a row without one that it can match. */
  ghost predicate Keyed(t: Table<Backup>, app: Id, es: seq<BackupEntry>) {
    forall i :: 0 <= i < |es| && es[i].id == "" ==> "" in AppIndex(t, app)
  }

  lemma {:induction false} KeyedSettles(t: Table<Backup>, app: Id, secrets: seq<SecretEntry>, mint: nat -> string, mint': nat -> string, es: seq<BackupEntry>)
    requires Wf(t) && UniqueUuids(t, app) && ReconcileBackups(t, app, secrets, mint, es).ok && Keyed(t, app, es)
    ensures var r := ReconcileBackups(t, app, secrets, mint, es); ReconcileBackups(r.table, app, secrets, mint', es) == r
  {
    BackupsReconciled(t, app, secrets, mint, es);
    OtherBackupsUntouched(t, app, secrets, mint, es);
    assert Uuids(t, app, mint, es) == OwnIds(es);
    MatchingIsFixed(ReconcileBackups(t, app, secrets, mint, es).table, app, secrets, mint', es);
  }

  /** Minted rows never answer to an empty id. */
  lemma {:induction false} StillUnmatched(t: Table<Backup>, app: Id, secrets: seq<SecretEntry>, mint: nat -> string, es: seq<BackupEntry>)
    requires Wf(t) && UniqueUuids(t, app) && ReconcileBackups(t, app, secrets, mint, es).ok
    requires "" !in AppIndex(t, app) && forall n :: mint(n) != ""
    ensures "" !in AppIndex(ReconcileBackups(t, app, secrets, mint, es).table, app)
  {
    var t' := ReconcileBackups(t, app, secrets, mint, es).table;
    AppIndexFacts(t', app, "");
    if "" in AppIndex(t', app) {
      RowIsWanted(t, app, secrets, mint, es, AppIndex(t', app)[""]);
    }
  }

  lemma {:induction false} UnmatchedGrows(t: Table<Backup>, app: Id, secrets: seq<SecretEntry>, mint: nat -> string, es: seq<BackupEntry>, i: nat)
    requires Wf(t) && i < |es| && es[i].id !in AppIndex(t, app) && ReconcileBackups(t, app, secrets, mint, es).ok
    ensures ReconcileBackups(t, app, secrets, mint, es).table.next > t.next
  {
    var edits := BackupEdits(t, app, secrets, mint, es);
    TableAfter(t, app, secrets, mint, es);
    NewEdit(t, app, secrets, mint(i), es[i]);
    var a := AddReaches(edits, i);
    EditNext(t, edits);
  }

  /**
   * A successful reconcile repeated changes nothing if and only if every entry has an
   * id, or matches a stored row without one; repeated ids do no harm.
   */
  lemma {:induction false} ReconcileIdempotentIff(t: Table<Backup>, app: Id, secrets: seq<SecretEntry>, mint: nat -> string, mint': nat -> string, es: seq<BackupEntry>)
    requires Wf(t) && UniqueUuids(t, app) && ReconcileBackups(t, app, secrets, mint, es).ok && forall n :: mint(n) != ""
    ensures var r := ReconcileBackups(t, app, secrets, mint, es);
      ReconcileBackups(r.table, app, secrets, mint', es) == r <==> Keyed(t, app, es)
  {
    var t' := ReconcileBackups(t, app, secrets, mint, es).table;
    if Keyed(t, app, es) {
      KeyedSettles(t, app, secrets, mint, mint', es);
    } else {
      var i :| 0 <= i < |es| && es[i].id == "" && "" !in AppIndex(t, app);
      StillUnmatched(t, app, secrets, mint, es);
      OtherBackupsUntouched(t, app, secrets, mint, es);
      if ReconcileBackups(t', app, secrets, mint', es).ok {
        UnmatchedGrows(t', app, secrets, mint', es, i);
      }
    }
  }

  /**
   * An entry without an id gets a row with a minted UUID, which the next apply deletes
   * again, together with the backup runs that hang on it, to insert another one.
   */
  lemma {:induction false} EmptyIdChurns(t: Table<Backup>, app: Id, secrets: seq<SecretEntry>, mint: nat -> string, mint': nat -> string,
                                         es: seq<BackupEntry>, i: nat) returns (id: Id)
    requires Wf(t) && UniqueUuids(t, app) && i < |es| && es[i].id == "" && "" !in AppIndex(t, app)
    requires ReconcileBackups(t, app, secrets, mint, es).ok && (forall n :: mint(n) != "") && mint(i) !in Ids(es)
    requires ReconcileBackups(ReconcileBackups(t, app, secrets, mint, es).table, app, secrets, mint', es).ok
    ensures var t' := ReconcileBackups(t, app, secrets, mint, es).table;
      id in t'.rows && t'.rows[id].uuid == mint(i) && id !in ReconcileBackups(t', app, secrets, mint', es).table.rows
  {
    var t' := ReconcileBackups(t, app, secrets, mint, es).table;
    id := NewEntryRow(t, app, secrets, mint, es, i);
    BackupsReconciled(t, app, secrets, mint, es);
    OtherBackupsUntouched(t, app, secrets, mint, es);
    RowsLeft(t', app, secrets, mint', es, id);
  }

  // ---- rendering

  function RenderEntry(b: Backup): BackupEntry { BackupEntry(b.uuid, b.settings) }

  function RenderBackups(rows: seq<Backup>): (es: seq<BackupEntry>)
    ensures |es| == |rows| && forall i :: 0 <= i < |es| ==> es[i] == RenderEntry(rows[i])
  {
    seq(|rows|, i requires 0 <= i < |rows| => RenderEntry(rows[i]))
  }

  function RenderSecrets(rows: seq<Backup>): seq<SecretEntry> {
    if rows == [] then []
    else
      var b := rows[|rows| - 1];
      RenderSecrets(rows[..|rows| - 1]) + if b.secret == "" then [] else [SecretEntry(b.uuid, b.secret)]
  }

  ghost predicate DistinctRows(rows: seq<Backup>) {
    forall i, j :: 0 <= i < |rows| && 0 <= j < |rows| && rows[i].uuid == rows[j].uuid ==> i == j
  }

  lemma {:induction false} EncStep(rows: seq<Backup>, u: string)
    requires rows != []
    ensures var b, before := rows[|rows| - 1], Enc(RenderSecrets(rows[..|rows| - 1]), u);
      Enc(RenderSecrets(rows), u) == if b.uuid == u && b.secret != "" then b.secret else before
  {
    var b, before := rows[|rows| - 1], RenderSecrets(rows[..|rows| - 1]);
    if b.secret != "" {
      assert RenderSecrets(rows) == before + [SecretEntry(b.uuid, b.secret)];
      assert RenderSecrets(rows)[..|before|] == before;
    } else {
      assert RenderSecrets(rows) == before;
    }
  }

  lemma {:induction false} SecretMissing(rows: seq<Backup>, u: string)
    requires forall i :: 0 <= i < |rows| ==> rows[i].uuid != u
    ensures Enc(RenderSecrets(rows), u) == ""
  {
    if rows != [] {
      EncStep(rows, u);
      SecretMissing(rows[..|rows| - 1], u);
    }
  }

  lemma {:induction false} SecretFound(rows: seq<Backup>, i: nat)
    requires DistinctRows(rows) && i < |rows|
    ensures Enc(RenderSecrets(rows), rows[i].uuid) == rows[i].secret
  {
    var n := |rows| - 1;
    EncStep(rows, rows[i].uuid);
    assert forall j :: 0 <= j < n ==> rows[..n][j] == rows[j];
    if i < n {
      SecretFound(rows[..n], i);
    } else {
      SecretMissing(rows[..n], rows[i].uuid);
    }
  }

  lemma {:induction false} ListedDistinct(t: Table<Backup>, app: Id)
    requires UniqueUuids(t, app)
    ensures DistinctRows(RowsWhere(t, OfApp(app)))
  {
    var ids := BackupIds(t, app);
    assert ids == IdsWhere(t, OfApp(app));
  }

  lemma {:induction false} RenderedMatches(t: Table<Backup>, app: Id)
    requires UniqueUuids(t, app)
    ensures var rows := RowsWhere(t, OfApp(app)); var es := RenderBackups(rows); BackupsAre(t, app, RenderSecrets(rows), es, OwnIds(es))
  {
    var rows, ids := RowsWhere(t, OfApp(app)), BackupIds(t, app);
    var es, secrets := RenderBackups(rows), RenderSecrets(rows);
    ListedDistinct(t, app);
    forall i | 0 <= i < |es| ensures HasBackup(t, app, OwnIds(es)[i], secrets, es[i]) {
      SecretFound(rows, i);
      assert Describes(t.rows[ids[i]], app, es[i].id, secrets, es[i]);
    }
    forall id | id in t.rows && t.rows[id].app == app ensures t.rows[id].uuid in OwnIds(es) {
      assert id in ids;
      var i :| 0 <= i < |ids| && ids[i] == id;
      assert OwnIds(es)[i] == t.rows[id].uuid;
    }
  }

  /** Rendering an app's configurations and their secrets and applying them back changes nothing. */
  lemma {:induction false} BackupsRoundTrip(t: Table<Backup>, app: Id, mint: nat -> string)
    requires Wf(t) && UniqueUuids(t, app)
    ensures var rows := RowsWhere(t, OfApp(app));
      ReconcileBackups(t, app, RenderSecrets(rows), mint, RenderBackups(rows)) == Outcome(t, true)
  {
    var rows := RowsWhere(t, OfApp(app));
    RenderedMatches(t, app);
    MatchingIsFixed(t, app, RenderSecrets(rows), mint, RenderBackups(rows));
  }

  // ---- importing

  function ImportEdit(app: Id, secrets: seq<SecretEntry>, minted: string, e: BackupEntry): Edit<Backup> {
    Add(Backup(app, NewUuid(e, minted), e.settings, Enc(secrets, e.id)))
  }

  function ImportEdits(app: Id, secrets: seq<SecretEntry>, mint: nat -> string, es: seq<BackupEntry>): (r: seq<Edit<Backup>>)
    ensures |r| == |es| && forall i :: 0 <= i < |es| ==> r[i] == ImportEdit(app, secrets, mint(i), es[i])
  {
    seq(|es|, i requires 0 <= i < |es| => ImportEdit(app, secrets, mint(i), es[i]))
  }

  function ImportBackups(t: Table<Backup>, app: Id, secrets: seq<SecretEntry>, mint: nat -> string, es: seq<BackupEntry>): Outcome {
    RunEdits(Delete(t, Elements(IdsWhere(t, OfApp(app)))), ImportEdits(app, secrets, mint, es))
  }

  /** Another app holds a UUID of one of these rows. */
  ghost predicate HeldElsewhere(now: Table<Backup>, app: Id, rows: seq<Backup>) {
    exists id, i :: id in now.rows && now.rows[id].app != app && 0 <= i < |rows| && now.rows[id].uuid == rows[i].uuid
  }

  lemma {:induction false} RenderedAdds(app: Id, mint: nat -> string, rows: seq<Backup>)
    requires DistinctRows(rows) && forall i :: 0 <= i < |rows| ==> rows[i].uuid != "" && rows[i].app == app
    ensures var edits := ImportEdits(app, RenderSecrets(rows), mint, RenderBackups(rows));
      |edits| == |rows| && (forall i :: 0 <= i < |rows| ==> edits[i] == Add(rows[i])) && Added(edits) == rows
  {
    var edits := ImportEdits(app, RenderSecrets(rows), mint, RenderBackups(rows));
    forall i | 0 <= i < |rows| ensures edits[i] == Add(rows[i]) { SecretFound(rows, i); }
    AddsInOrder(edits);
  }

  /**
   * Importing a rendered app, over whatever configurations it has by then, succeeds
   * exactly when no other app holds one of its UUIDs, and then brings back the same
   * configurations and secrets in the same order.
   */
  lemma {:induction false} ImportRestores(t: Table<Backup>, now: Table<Backup>, app: Id, mint: nat -> string)
    requires Wf(t) && Wf(now) && UniqueUuids(t, app)
    requires forall id :: id in t.rows && t.rows[id].app == app ==> t.rows[id].uuid != ""
    ensures var rows := RowsWhere(t, OfApp(app));
      var r := ImportBackups(now, app, RenderSecrets(rows), mint, RenderBackups(rows));
      && (r.ok <==> !HeldElsewhere(now, app, rows))
      && (r.ok ==> RowsWhere(r.table, OfApp(app)) == rows && SameOutside(now, r.table, OfApp(app)))
  {
    var rows := RowsWhere(t, OfApp(app));
    ListedDistinct(t, app);
    RenderedAdds(app, mint, rows);
    ImportedRows(now, app, rows, ImportEdits(app, RenderSecrets(rows), mint, RenderBackups(rows)));
  }

  lemma {:induction false} ImportedRows(now: Table<Backup>, app: Id, rows: seq<Backup>, edits: seq<Edit<Backup>>)
    requires Wf(now) && DistinctRows(rows) && |edits| == |rows| && Added(edits) == rows
    requires forall i :: 0 <= i < |rows| ==> edits[i] == Add(rows[i]) && rows[i].app == app
    ensures var r := RunEdits(Delete(now, Elements(IdsWhere(now, OfApp(app)))), edits);
      && (r.ok <==> !HeldElsewhere(now, app, rows))
      && (r.ok ==> RowsWhere(r.table, OfApp(app)) == rows && SameOutside(now, r.table, OfApp(app)))
  {
    RunSucceeds(Delete(now, Elements(IdsWhere(now, OfApp(app)))), edits);
    ImportClash(now, app, rows, edits);
    ReplacedOutside(now, OfApp(app), edits);
    ReplacedList(now, OfApp(app), edits);
  }

  lemma {:induction false} ImportClash(now: Table<Backup>, app: Id, rows: seq<Backup>, edits: seq<Edit<Backup>>)
    requires DistinctRows(rows) && |edits| == |rows| && forall i :: 0 <= i < |rows| ==> edits[i] == Add(rows[i])
    ensures NoClash(Delete(now, Elements(IdsWhere(now, OfApp(app)))), edits) <==> !HeldElsewhere(now, app, rows)
  {
    var bare := Delete(now, Elements(IdsWhere(now, OfApp(app))));
    forall i | 0 <= i < |rows| ensures UuidTaken(bare, rows[i].uuid) <==> Holds(bare, rows[i].uuid) { Holder(bare, rows[i].uuid); }
    if id, i :| id in now.rows && now.rows[id].app != app && 0 <= i < |rows| && now.rows[id].uuid == rows[i].uuid {
      assert id in bare.rows && bare.rows[id].uuid == rows[i].uuid && edits[i].Add?;
    }
    assert forall id :: id in bare.rows ==> id in now.rows && now.rows[id].app != app && now.rows[id] == bare.rows[id];
  }

  /** The configurations a list of entries asks for, in order. */
  function BackupsAsked(app: Id, secrets: seq<SecretEntry>, mint: nat -> string, es: seq<BackupEntry>): (r: seq<Backup>)
    ensures |r| == |es|
    ensures forall i :: 0 <= i < |es| ==>
      r[i] == Backup(app, if es[i].id == "" then mint(i) else es[i].id, es[i].settings, Enc(secrets, es[i].id))
  {
    seq(|es|, i requires 0 <= i < |es| => Backup(app, if es[i].id == "" then mint(i) else es[i].id, es[i].settings, Enc(secrets, es[i].id)))
  }

  lemma {:induction false} ImportEditsAre(app: Id, secrets: seq<SecretEntry>, mint: nat -> string, es: seq<BackupEntry>)
    ensures var edits := ImportEdits(app, secrets, mint, es); OnlyAdds(edits, OfApp(app)) && Added(edits) == BackupsAsked(app, secrets, mint, es)
  {
    AddsInOrder(ImportEdits(app, secrets, mint, es));
  }

  lemma {:induction false} PrefixOnlyAdds(edits: seq<Edit<Backup>>, app: Id, m: nat)
    requires m <= |edits| && OnlyAdds(edits, OfApp(app))
    ensures OnlyAdds(edits[..m], OfApp(app))
  {
  }

  /** No other app's configuration changes in an import, also when it stops half-way. */
  lemma {:induction false} ImportSparesOthers(t: Table<Backup>, app: Id, secrets: seq<SecretEntry>, mint: nat -> string, es: seq<BackupEntry>)
    requires Wf(t)
    ensures SameOutside(t, ImportBackups(t, app, secrets, mint, es).table, OfApp(app))
  {
    var edits := ImportEdits(app, secrets, mint, es);
    ImportEditsAre(app, secrets, mint, es);
    var m := RunIsPrefix(Delete(t, Elements(IdsWhere(t, OfApp(app)))), edits);
    PrefixOnlyAdds(edits, app, m);
    ReplacedOutside(t, OfApp(app), edits[..m]);
  }

  /**
   * An import of any entries succeeds exactly when no UUID asked for is repeated or held by
   * another app, and then leaves exactly the configurations asked for, in order.
   */
  lemma {:induction false} BackupsImported(t: Table<Backup>, app: Id, secrets: seq<SecretEntry>, mint: nat -> string, es: seq<BackupEntry>)
    requires Wf(t)
    ensures var r, asked := ImportBackups(t, app, secrets, mint, es), BackupsAsked(app, secrets, mint, es);
      && (r.ok <==> DistinctRows(asked) && !HeldElsewhere(t, app, asked))
      && (r.ok ==> RowsWhere(r.table, OfApp(app)) == asked)
  {
    var edits, asked := ImportEdits(app, secrets, mint, es), BackupsAsked(app, secrets, mint, es);
    ImportEditsAre(app, secrets, mint, es);
    if DistinctRows(asked) {
      ImportedRows(t, app, asked, edits);
    } else {
      RepeatClashes(t, app, asked, edits);
    }
  }

  lemma {:induction false} RepeatClashes(t: Table<Backup>, app: Id, rows: seq<Backup>, edits: seq<Edit<Backup>>)
    requires Wf(t) && !DistinctRows(rows) && |edits| == |rows| && forall i :: 0 <= i < |rows| ==> edits[i] == Add(rows[i])
    ensures !RunEdits(Delete(t, Elements(IdsWhere(t, OfApp(app)))), edits).ok
  {
    var i, j :| 0 <= i < |rows| && 0 <= j < |rows| && rows[i].uuid == rows[j].uuid && i != j;
    var bare := Delete(t, Elements(IdsWhere(t, OfApp(app))));
    assert edits[i].Add? && edits[j].Add? && edits[i].row.uuid == edits[j].row.uuid;
    RunSucceeds(bare, edits);
  }
}
