/** Alert rules of one app: reconciled by natural key, rendered, imported. */
module AlertRuleSync {
  import opened Prelude
  import opened ConfigStore

  datatype RuleEntry = RuleEntry(metric: string, operator: string, threshold: real, duration: int, webhook: string, enabled: bool)

  // ---- indexes

  function HookIds(hooks: Table<Webhook>): (ids: seq<Id>)
    ensures StrictlyAscending(ids)
    ensures forall i :: 0 <= i < |ids| ==> ids[i] in hooks.rows
    ensures forall id :: id in ids <==> id in hooks.rows
  {
    IdsWhere(hooks, (w: Webhook) => true)
  }

  /** Ids by name; with a repeated name the newest row wins. */
  function NameIndex(hooks: map<Id, Webhook>, ids: seq<Id>): map<string, Id>
    requires forall i :: 0 <= i < |ids| ==> ids[i] in hooks
  {
    if ids == [] then map[]
    else NameIndex(hooks, ids[..|ids| - 1])[hooks[ids[|ids| - 1]].name := ids[|ids| - 1]]
  }

  function Names(hooks: Table<Webhook>): map<string, Id> { NameIndex(hooks.rows, HookIds(hooks)) }

  function OfApp(app: Id): Rule -> bool { (r: Rule) => r.app == Some(app) }

  function RuleIds(t: Table<Rule>, app: Id): (ids: seq<Id>)
    ensures StrictlyAscending(ids)
    ensures forall id :: id in ids <==> id in t.rows && t.rows[id].app == Some(app)
    ensures forall i :: 0 <= i < |ids| ==> ids[i] in t.rows && t.rows[ids[i]].app == Some(app)
  {
    IdsWhere(t, OfApp(app))
  }

  /** Stored rules by natural key; with a repeated key the newest row wins. */
  function KeyIndex(rows: map<Id, Rule>, ids: seq<Id>): map<RuleKey, Id>
    requires forall i :: 0 <= i < |ids| ==> ids[i] in rows
  {
    if ids == [] then map[]
    else KeyIndex(rows, ids[..|ids| - 1])[rows[ids[|ids| - 1]].key := ids[|ids| - 1]]
  }

  /** The newest rule of an app with its key. */
  ghost predicate Newest(t: Table<Rule>, app: Id, id: Id) {
    && id in t.rows && t.rows[id].app == Some(app)
    && forall j :: j in t.rows && t.rows[j].app == Some(app) && t.rows[j].key == t.rows[id].key ==> j <= id
  }

  lemma {:induction false} KeyIndexFacts(rows: map<Id, Rule>, ids: seq<Id>, k: RuleKey)
    requires StrictlyAscending(ids) && forall i :: 0 <= i < |ids| ==> ids[i] in rows
    ensures k in KeyIndex(rows, ids) ==> KeyIndex(rows, ids)[k] in ids && KeyIndex(rows, ids)[k] in rows && rows[KeyIndex(rows, ids)[k]].key == k
    ensures forall i :: 0 <= i < |ids| && rows[ids[i]].key == k ==> k in KeyIndex(rows, ids) && ids[i] <= KeyIndex(rows, ids)[k]
  {
    if ids != [] {
      KeyIndexFacts(rows, ids[..|ids| - 1], k);
      assert ids == ids[..|ids| - 1] + [ids[|ids| - 1]];
    }
  }

  lemma {:induction false} NameIndexFacts(hooks: map<Id, Webhook>, ids: seq<Id>, name: string)
    requires StrictlyAscending(ids) && forall i :: 0 <= i < |ids| ==> ids[i] in hooks
    ensures name in NameIndex(hooks, ids) ==> NameIndex(hooks, ids)[name] in ids && NameIndex(hooks, ids)[name] in hooks && hooks[NameIndex(hooks, ids)[name]].name == name
    ensures forall i :: 0 <= i < |ids| && hooks[ids[i]].name == name ==> name in NameIndex(hooks, ids) && ids[i] <= NameIndex(hooks, ids)[name]
  {
    if ids != [] {
      NameIndexFacts(hooks, ids[..|ids| - 1], name);
      assert ids == ids[..|ids| - 1] + [ids[|ids| - 1]];
    }
  }

  /** Webhook names are looked up: every name leads to the newest webhook that has it. */
  lemma {:induction false} NamesLead(hooks: Table<Webhook>, name: string)
    ensures name in Names(hooks) ==> Names(hooks)[name] in hooks.rows && hooks.rows[Names(hooks)[name]].name == name
    ensures forall id :: id in hooks.rows && hooks.rows[id].name == name ==> name in Names(hooks) && id <= Names(hooks)[name]
  {
    var ids := HookIds(hooks);
    NameIndexFacts(hooks.rows, ids, name);
    forall id | id in hooks.rows && hooks.rows[id].name == name ensures name in Names(hooks) && id <= Names(hooks)[name] {
      assert id in ids;
      var i :| 0 <= i < |ids| && ids[i] == id;
    }
  }

  function AppIndex(t: Table<Rule>, app: Id): map<RuleKey, Id> { KeyIndex(t.rows, RuleIds(t, app)) }

  /** The index finds, for every key of the app, its newest row. */
  lemma {:induction false} AppIndexFacts(t: Table<Rule>, app: Id, k: RuleKey)
    ensures k in AppIndex(t, app) ==> Newest(t, app, AppIndex(t, app)[k]) && t.rows[AppIndex(t, app)[k]].key == k
    ensures forall id :: Newest(t, app, id) && t.rows[id].key == k ==> k in AppIndex(t, app) && AppIndex(t, app)[k] == id
    ensures forall id :: id in t.rows && t.rows[id].app == Some(app) && t.rows[id].key == k ==> k in AppIndex(t, app)
  {
    var ids := RuleIds(t, app);
    KeyIndexFacts(t.rows, ids, k);
    forall id | id in t.rows && t.rows[id].app == Some(app) && t.rows[id].key == k
      ensures k in AppIndex(t, app) && id <= AppIndex(t, app)[k]
    {
      assert id in ids;
      var i :| 0 <= i < |ids| && ids[i] == id;
    }
  }

  // ---- reconciling

  predicate Usable(e: RuleEntry, names: map<string, Id>) { e.webhook != "" && e.webhook in names }

  function KeyOf(e: RuleEntry, names: map<string, Id>): RuleKey
    requires Usable(e, names)
  {
    RuleKey(e.metric, e.operator, e.threshold, e.duration, names[e.webhook])
  }

  function RuleEdit(t: Table<Rule>, app: Id, names: map<string, Id>, e: RuleEntry): Edit<Rule> {
    if !Usable(e, names) then Skip
    else
      var k := KeyOf(e, names);
      if k in AppIndex(t, app) then
        AppIndexFacts(t, app, k);
        var id := AppIndex(t, app)[k];
        if t.rows[id].enabled != e.enabled then Write(id, t.rows[id].(enabled := e.enabled)) else Keep(id)
      else Add(Rule(Some(app), k, e.enabled))
  }

  function RuleEdits(t: Table<Rule>, app: Id, names: map<string, Id>, es: seq<RuleEntry>): (r: seq<Edit<Rule>>)
    ensures |r| == |es| && forall i :: 0 <= i < |es| ==> r[i] == RuleEdit(t, app, names, es[i])
  {
    seq(|es|, i requires 0 <= i < |es| => RuleEdit(t, app, names, es[i]))
  }

  function ReconcileRules(t: Table<Rule>, app: Id, names: map<string, Id>, es: seq<RuleEntry>): Table<Rule> {
    var edits := RuleEdits(t, app, names, es);
    Delete(EditAll(t, edits), Elements(RuleIds(t, app)) - KeptIds(t.next, edits))
  }

  predicate SameRule(names: map<string, Id>, a: RuleEntry, b: RuleEntry) {
    Usable(a, names) && Usable(b, names) && KeyOf(a, names) == KeyOf(b, names)
  }

  /** Entries that are the same rule agree on its switch, and the rule is stored already. */
  ghost predicate Agreeing(t: Table<Rule>, app: Id, names: map<string, Id>, es: seq<RuleEntry>) {
    forall i, j :: 0 <= i < |es| && 0 <= j < |es| && i != j && SameRule(names, es[i], es[j]) ==>
      KeyOf(es[i], names) in AppIndex(t, app) && es[i].enabled == es[j].enabled
  }

  /** In particular when no two usable entries are the same rule. */
  lemma {:induction false} DistinctAgree(t: Table<Rule>, app: Id, names: map<string, Id>, es: seq<RuleEntry>)
    requires forall i, j :: 0 <= i < |es| && 0 <= j < |es| && SameRule(names, es[i], es[j]) ==> i == j
    ensures Agreeing(t, app, names, es)
  {
  }

  /** Some usable entry is the rule `k`. */
  ghost predicate Wanted(names: map<string, Id>, es: seq<RuleEntry>, k: RuleKey) {
    exists i :: 0 <= i < |es| && Usable(es[i], names) && KeyOf(es[i], names) == k
  }

  lemma {:induction false} RuleEditsOk(t: Table<Rule>, app: Id, names: map<string, Id>, es: seq<RuleEntry>)
    requires Wf(t)
    ensures EditsOk(t, RuleEdits(t, app, names, es))
  {
    forall i | 0 <= i < |es| && Usable(es[i], names) { AppIndexFacts(t, app, KeyOf(es[i], names)); }
  }

  /** An entry matches a stored row when that row is the newest of the entry's key. */
  lemma {:induction false} HitIsMatch(t: Table<Rule>, app: Id, names: map<string, Id>, e: RuleEntry, id: Id)
    ensures Hits(RuleEdit(t, app, names, e), id) <==>
            Usable(e, names) && Newest(t, app, id) && t.rows[id].key == KeyOf(e, names)
  {
    if Usable(e, names) { AppIndexFacts(t, app, KeyOf(e, names)); }
  }

  /** Which rows a reconcile leaves. */
  lemma {:induction false} RowsLeft(t: Table<Rule>, app: Id, names: map<string, Id>, es: seq<RuleEntry>, id: Id)
    requires Wf(t)
    ensures id in ReconcileRules(t, app, names, es).rows <==>
            || (id in t.rows && (t.rows[id].app != Some(app) || (Newest(t, app, id) && Wanted(names, es, t.rows[id].key))))
            || t.next <= id < t.next + |Added(RuleEdits(t, app, names, es))|
  {
    var edits := RuleEdits(t, app, names, es);
    RuleEditsOk(t, app, names, es);
    EditDomain(t, edits, id);
    KeptMember(t.next, edits, id);
    forall i | 0 <= i < |es| ensures Hits(edits[i], id) <==> Usable(es[i], names) && Newest(t, app, id) && t.rows[id].key == KeyOf(es[i], names) {
      HitIsMatch(t, app, names, es[i], id);
    }
  }

  /** An entry for a stored key switches the newest row with that key, and nothing else about it. */
  lemma {:induction false} MatchedRow(t: Table<Rule>, app: Id, names: map<string, Id>, es: seq<RuleEntry>, i: nat, id: Id)
    requires Wf(t) && Agreeing(t, app, names, es) && i < |es| && Usable(es[i], names)
    requires Newest(t, app, id) && t.rows[id].key == KeyOf(es[i], names)
    ensures id in ReconcileRules(t, app, names, es).rows
    ensures ReconcileRules(t, app, names, es).rows[id] == Rule(Some(app), t.rows[id].key, es[i].enabled)
  {
    var edits := RuleEdits(t, app, names, es);
    RuleEditsOk(t, app, names, es);
    RowsLeft(t, app, names, es, id);
    HitIsMatch(t, app, names, es[i], id);
    var row := Rule(Some(app), t.rows[id].key, es[i].enabled);
    forall j | 0 <= j < |es| && edits[j].Write? && edits[j].id == id ensures edits[j].row == row {
      HitIsMatch(t, app, names, es[j], id);
    }
    EditOld(t, edits, id, row);
  }

  lemma {:induction false} OtherRow(t: Table<Rule>, app: Id, names: map<string, Id>, es: seq<RuleEntry>, id: Id)
    requires Wf(t) && id in t.rows && t.rows[id].app != Some(app)
    ensures id in ReconcileRules(t, app, names, es).rows && ReconcileRules(t, app, names, es).rows[id] == t.rows[id]
  {
    var edits := RuleEdits(t, app, names, es);
    RuleEditsOk(t, app, names, es);
    RowsLeft(t, app, names, es, id);
    forall j | 0 <= j < |es| ensures !Hits(edits[j], id) { HitIsMatch(t, app, names, es[j], id); }
    EditOld(t, edits, id, t.rows[id]);
  }

  /** A row that was not there before stands for an entry whose key the app did not have. */
  lemma {:induction false} NewRow(t: Table<Rule>, app: Id, names: map<string, Id>, es: seq<RuleEntry>, id: Id) returns (j: nat)
    requires Wf(t) && id in ReconcileRules(t, app, names, es).rows && id !in t.rows
    ensures id >= t.next && j < |es| && Usable(es[j], names) && KeyOf(es[j], names) !in AppIndex(t, app)
    ensures ReconcileRules(t, app, names, es).rows[id] == Rule(Some(app), KeyOf(es[j], names), es[j].enabled)
    ensures id - t.next < |Added(RuleEdits(t, app, names, es))|
    ensures RuleEdits(t, app, names, es)[j] == Add(Added(RuleEdits(t, app, names, es))[id - t.next])
  {
    var edits := RuleEdits(t, app, names, es);
    RuleEditsOk(t, app, names, es);
    RowsLeft(t, app, names, es, id);
    EditNew(t, edits, id - t.next);
    j := AddedFrom(edits, id - t.next);
  }

  /** Different new rows stand for different entries. */
  lemma {:induction false} AddedDistinct(t: Table<Rule>, app: Id, names: map<string, Id>, es: seq<RuleEntry>, a: nat, b: nat)
    requires Agreeing(t, app, names, es)
    requires a < b < |Added(RuleEdits(t, app, names, es))|
    ensures Added(RuleEdits(t, app, names, es))[a].key != Added(RuleEdits(t, app, names, es))[b].key
  {
    var n := |es| - 1;
    var edits := RuleEdits(t, app, names, es);
    var before := RuleEdits(t, app, names, es[..n]);
    assert before == edits[..n];
    assert Agreeing(t, app, names, es[..n]) by {
      assert forall i :: 0 <= i < n ==> es[..n][i] == es[i];
    }
    if b < |Added(before)| {
      AddedDistinct(t, app, names, es[..n], a, b);
    } else {
      var j := AddedFrom(before, a);
      assert es[..n][j] == es[j];
    }
  }

  /** Some row of the app is the rule `k`, switched as given. */
  ghost predicate HasRule(t: Table<Rule>, app: Id, k: RuleKey, enabled: bool) {
    exists id :: id in t.rows && t.rows[id] == Rule(Some(app), k, enabled)
  }

  ghost predicate UniqueRules(t: Table<Rule>, app: Id) {
    forall i, j :: i in t.rows && j in t.rows && t.rows[i].app == t.rows[j].app == Some(app) && t.rows[i].key == t.rows[j].key ==> i == j
  }

  /** The app's rules are exactly the usable entries, each once, switched as the entry says. */
  ghost predicate RulesMatch(t: Table<Rule>, app: Id, names: map<string, Id>, es: seq<RuleEntry>) {
    && (forall i :: 0 <= i < |es| && Usable(es[i], names) ==> HasRule(t, app, KeyOf(es[i], names), es[i].enabled))
    && (forall id :: id in t.rows && t.rows[id].app == Some(app) ==> Wanted(names, es, t.rows[id].key))
    && UniqueRules(t, app)
  }

  /** The newest row of every wanted stored key keeps its id; other ids are handed out afresh. */
  ghost predicate RuleIdsKept(before: Table<Rule>, after: Table<Rule>, app: Id, names: map<string, Id>, es: seq<RuleEntry>) {
    && (forall id :: Newest(before, app, id) && Wanted(names, es, before.rows[id].key) ==>
          id in after.rows && after.rows[id].app == Some(app) && after.rows[id].key == before.rows[id].key)
    && (forall id :: id in after.rows && id !in before.rows ==> id >= before.next)
  }

  /** What a reconcile does, given agreeing entries. */
  lemma {:induction false} RulesReconciled(t: Table<Rule>, app: Id, names: map<string, Id>, es: seq<RuleEntry>)
    requires Wf(t) && Agreeing(t, app, names, es)
    ensures var t' := ReconcileRules(t, app, names, es);
      RulesMatch(t', app, names, es) && RuleIdsKept(t, t', app, names, es)
  {
    var t' := ReconcileRules(t, app, names, es);
    forall i | 0 <= i < |es| && Usable(es[i], names) ensures HasRule(t', app, KeyOf(es[i], names), es[i].enabled) {
      EntryHasRule(t, app, names, es, i);
    }
    forall id | id in t'.rows && t'.rows[id].app == Some(app) ensures Wanted(names, es, t'.rows[id].key) {
      RowIsWanted(t, app, names, es, id);
    }
    RulesAreUnique(t, app, names, es);
    forall id | Newest(t, app, id) && Wanted(names, es, t.rows[id].key)
      ensures id in t'.rows && t'.rows[id].app == Some(app) && t'.rows[id].key == t.rows[id].key
    {
      var i :| 0 <= i < |es| && Usable(es[i], names) && KeyOf(es[i], names) == t.rows[id].key;
      MatchedRow(t, app, names, es, i, id);
    }
    forall id | id in t'.rows && id !in t.rows ensures id >= t.next { RowsLeft(t, app, names, es, id); }
  }

  lemma {:induction false} EntryHasRule(t: Table<Rule>, app: Id, names: map<string, Id>, es: seq<RuleEntry>, i: nat)
    requires Wf(t) && Agreeing(t, app, names, es) && i < |es| && Usable(es[i], names)
    ensures HasRule(ReconcileRules(t, app, names, es), app, KeyOf(es[i], names), es[i].enabled)
  {
    var k := KeyOf(es[i], names);
    AppIndexFacts(t, app, k);
    if k in AppIndex(t, app) {
      MatchedRow(t, app, names, es, i, AppIndex(t, app)[k]);
    } else {
      var edits := RuleEdits(t, app, names, es);
      assert edits[i] == Add(Rule(Some(app), k, es[i].enabled));
      var a := AddReaches(edits, i);
      RuleEditsOk(t, app, names, es);
      EditNew(t, edits, a);
      RowsLeft(t, app, names, es, t.next + a);
    }
  }

  lemma {:induction false} RowIsWanted(t: Table<Rule>, app: Id, names: map<string, Id>, es: seq<RuleEntry>, id: Id)
    requires Wf(t) && Agreeing(t, app, names, es)
    requires var t' := ReconcileRules(t, app, names, es); id in t'.rows && t'.rows[id].app == Some(app)
    ensures Wanted(names, es, ReconcileRules(t, app, names, es).rows[id].key)
    ensures id in t.rows ==> Newest(t, app, id) && t.rows[id].key == ReconcileRules(t, app, names, es).rows[id].key
  {
    RowsLeft(t, app, names, es, id);
    if id in t.rows {
      if t.rows[id].app != Some(app) {
        OtherRow(t, app, names, es, id);
      } else {
        var i :| 0 <= i < |es| && Usable(es[i], names) && KeyOf(es[i], names) == t.rows[id].key;
        MatchedRow(t, app, names, es, i, id);
      }
    } else {
      var j := NewRow(t, app, names, es, id);
    }
  }

  lemma {:induction false} RulesAreUnique(t: Table<Rule>, app: Id, names: map<string, Id>, es: seq<RuleEntry>)
    requires Wf(t) && Agreeing(t, app, names, es)
    ensures UniqueRules(ReconcileRules(t, app, names, es), app)
  {
    var t' := ReconcileRules(t, app, names, es);
    forall i, j | i in t'.rows && j in t'.rows && t'.rows[i].app == t'.rows[j].app == Some(app) && t'.rows[i].key == t'.rows[j].key
      ensures i == j
    {
      if i <= j { SameRuleSameRow(t, app, names, es, i, j); } else { SameRuleSameRow(t, app, names, es, j, i); }
    }
  }

  lemma {:induction false} SameRuleSameRow(t: Table<Rule>, app: Id, names: map<string, Id>, es: seq<RuleEntry>, i: Id, j: Id)
    requires Wf(t) && Agreeing(t, app, names, es) && i <= j
    requires var t' := ReconcileRules(t, app, names, es);
      i in t'.rows && j in t'.rows && t'.rows[i].app == t'.rows[j].app == Some(app) && t'.rows[i].key == t'.rows[j].key
    ensures i == j
  {
    RowIsWanted(t, app, names, es, i);
    RowIsWanted(t, app, names, es, j);
    RowsLeft(t, app, names, es, i);
    RowsLeft(t, app, names, es, j);
    if j !in t.rows {
      var a := NewRow(t, app, names, es, j);
      if i in t.rows {
        AppIndexFacts(t, app, t.rows[i].key);
      } else if i < j {
        var b := NewRow(t, app, names, es, i);
        AddedDistinct(t, app, names, es, i - t.next, j - t.next);
      }
    }
  }

  /** Rules of other apps, and rules of no app, are never touched. */
  lemma {:induction false} OtherRulesUntouched(t: Table<Rule>, app: Id, names: map<string, Id>, es: seq<RuleEntry>)
    requires Wf(t)
    ensures SameOutside(t, ReconcileRules(t, app, names, es), OfApp(app)) && Wf(ReconcileRules(t, app, names, es))
  {
    var t' := ReconcileRules(t, app, names, es);
    RuleEditsOk(t, app, names, es);
    EditWf(t, RuleEdits(t, app, names, es));
    forall id | id in t.rows && t.rows[id].app != Some(app) ensures id in t'.rows && t'.rows[id] == t.rows[id] {
      OtherRow(t, app, names, es, id);
    }
    forall id | id in t'.rows && t'.rows[id].app != Some(app) ensures id in t.rows && t.rows[id] == t'.rows[id] {
      RowsLeft(t, app, names, es, id);
      if id !in t.rows {
        var j := NewRow(t, app, names, es, id);
      } else if t.rows[id].app == Some(app) {
        MatchedStays(t, app, names, es, id);
      } else {
        OtherRow(t, app, names, es, id);
      }
    }
  }

  /** A stored row never changes app or key. */
  lemma {:induction false} MatchedStays(t: Table<Rule>, app: Id, names: map<string, Id>, es: seq<RuleEntry>, id: Id)
    requires Wf(t) && id in t.rows && id in ReconcileRules(t, app, names, es).rows
    ensures var row := ReconcileRules(t, app, names, es).rows[id]; row.app == t.rows[id].app && row.key == t.rows[id].key
  {
    RuleEditsOk(t, app, names, es);
    var edits := RuleEdits(t, app, names, es);
    forall i | 0 <= i < |es| && edits[i].Write? && edits[i].id == id ensures edits[i].row.(enabled := true) == t.rows[id].(enabled := true) {
      HitIsMatch(t, app, names, es[i], id);
    }
    EditKeeps(t, edits, id, (r: Rule) => r.(enabled := true));
  }

  /** A table that already matches the entries is left alone, ids and all. */
  lemma {:induction false} MatchingIsFixed(t: Table<Rule>, app: Id, names: map<string, Id>, es: seq<RuleEntry>)
    requires Wf(t) && RulesMatch(t, app, names, es)
    ensures ReconcileRules(t, app, names, es) == t
  {
    var edits := RuleEdits(t, app, names, es);
    RuleEditsOk(t, app, names, es);
    forall i | 0 <= i < |es| ensures edits[i].Skip? || edits[i].Keep? { MatchingKeeps(t, app, names, es, i); }
    ConfirmingEdits(t, edits);
    NothingAdded(edits);
    forall id ensures id in ReconcileRules(t, app, names, es).rows <==> id in t.rows {
      RowsLeft(t, app, names, es, id);
    }
    assert ReconcileRules(t, app, names, es).rows == t.rows;
  }

  lemma {:induction false} MatchingKeeps(t: Table<Rule>, app: Id, names: map<string, Id>, es: seq<RuleEntry>, i: nat)
    requires Wf(t) && RulesMatch(t, app, names, es) && i < |es|
    ensures var edit := RuleEdit(t, app, names, es[i]); edit.Skip? || edit.Keep?
  {
    if Usable(es[i], names) {
      var k := KeyOf(es[i], names);
      AppIndexFacts(t, app, k);
      assert HasRule(t, app, k, es[i].enabled);
    }
  }

  // ---- reconciling twice

  lemma {:induction false} AgreeingSettles(t: Table<Rule>, app: Id, names: map<string, Id>, es: seq<RuleEntry>)
    requires Wf(t) && Agreeing(t, app, names, es)
    ensures var t' := ReconcileRules(t, app, names, es); ReconcileRules(t', app, names, es) == t'
  {
    RulesReconciled(t, app, names, es);
    OtherRulesUntouched(t, app, names, es);
    MatchingIsFixed(ReconcileRules(t, app, names, es), app, names, es);
  }

  /**
   * A stored rule that two entries of a list disagree about is flipped by every apply:
   * each entry is compared with the row as it was before the apply.
   */
  lemma {:induction false} DisagreementFlips(t: Table<Rule>, app: Id, names: map<string, Id>, es: seq<RuleEntry>, i: nat, j: nat, id: Id)
    requires Wf(t) && i < |es| && j < |es| && SameRule(names, es[i], es[j]) && es[i].enabled != es[j].enabled
    requires Newest(t, app, id) && t.rows[id].key == KeyOf(es[i], names)
    ensures var t' := ReconcileRules(t, app, names, es);
      id in t'.rows && t'.rows[id] == t.rows[id].(enabled := !t.rows[id].enabled) && Newest(t', app, id)
  {
    var edits := RuleEdits(t, app, names, es);
    var row := t.rows[id].(enabled := !t.rows[id].enabled);
    RuleEditsOk(t, app, names, es);
    RowsLeft(t, app, names, es, id);
    var w := if es[i].enabled == row.enabled then i else j;
    HitIsMatch(t, app, names, es[w], id);
    assert edits[w] == Write(id, row);
    forall x | 0 <= x < |es| && edits[x].Write? && edits[x].id == id ensures edits[x].row == row {
      HitIsMatch(t, app, names, es[x], id);
    }
    EditOld(t, edits, id, row);
    StaysNewest(t, app, names, es, id);
  }

  /** A surviving row of a stored key is the only row with that key. */
  lemma {:induction false} StaysNewest(t: Table<Rule>, app: Id, names: map<string, Id>, es: seq<RuleEntry>, id: Id)
    requires Wf(t) && Newest(t, app, id) && id in ReconcileRules(t, app, names, es).rows
    ensures Newest(ReconcileRules(t, app, names, es), app, id)
  {
    var t' := ReconcileRules(t, app, names, es);
    MatchedStays(t, app, names, es, id);
    AppIndexFacts(t, app, t.rows[id].key);
    forall m | m in t'.rows && t'.rows[m].app == Some(app) && t'.rows[m].key == t.rows[id].key ensures m <= id {
      if m in t.rows {
        MatchedStays(t, app, names, es, m);
      } else {
        var x := NewRow(t, app, names, es, m);
      }
    }
  }

  /** Two entries for one rule that is not stored insert it twice; the next apply deletes the older row. */
  lemma {:induction false} TwinIsDeletedNextTime(t: Table<Rule>, app: Id, names: map<string, Id>, es: seq<RuleEntry>, i: nat, j: nat) returns (a: Id)
    requires Wf(t) && i < j < |es| && SameRule(names, es[i], es[j]) && KeyOf(es[i], names) !in AppIndex(t, app)
    ensures var t' := ReconcileRules(t, app, names, es); a in t'.rows && a !in ReconcileRules(t', app, names, es).rows
  {
    var edits := RuleEdits(t, app, names, es);
    RuleEditsOk(t, app, names, es);
    var p, q := TwoAdds(edits, i, j);
    EditNew(t, edits, p);
    EditNew(t, edits, q);
    RowsLeft(t, app, names, es, t.next + p);
    RowsLeft(t, app, names, es, t.next + q);
    a := t.next + p;
    OtherRulesUntouched(t, app, names, es);
    OlderTwinGoes(ReconcileRules(t, app, names, es), app, names, es, a, t.next + q);
  }

  lemma {:induction false} OlderTwinGoes(t: Table<Rule>, app: Id, names: map<string, Id>, es: seq<RuleEntry>, a: Id, b: Id)
    requires Wf(t) && a < b && a in t.rows && b in t.rows && t.rows[a].app == t.rows[b].app == Some(app) && t.rows[a].key == t.rows[b].key
    ensures a !in ReconcileRules(t, app, names, es).rows
  {
    RowsLeft(t, app, names, es, a);
  }

  /**
   * Reconciling twice is reconciling once if and only if entries that are the same rule
   * agree on its switch and that rule is stored already.
   */
  lemma {:induction false} ReconcileIdempotentIff(t: Table<Rule>, app: Id, names: map<string, Id>, es: seq<RuleEntry>)
    requires Wf(t)
    ensures var t' := ReconcileRules(t, app, names, es);
      ReconcileRules(t', app, names, es) == t' <==> Agreeing(t, app, names, es)
  {
    if Agreeing(t, app, names, es) {
      AgreeingSettles(t, app, names, es);
    } else {
      var i, j :| 0 <= i < |es| && 0 <= j < |es| && i != j && SameRule(names, es[i], es[j])
        && !(KeyOf(es[i], names) in AppIndex(t, app) && es[i].enabled == es[j].enabled);
      RepeatDoesNotSettle(t, app, names, es, if i < j then i else j, if i < j then j else i);
    }
  }

  lemma {:induction false} RepeatDoesNotSettle(t: Table<Rule>, app: Id, names: map<string, Id>, es: seq<RuleEntry>, i: nat, j: nat)
    requires Wf(t) && i < j < |es| && SameRule(names, es[i], es[j])
    requires !(KeyOf(es[i], names) in AppIndex(t, app) && es[i].enabled == es[j].enabled)
    ensures var t' := ReconcileRules(t, app, names, es); ReconcileRules(t', app, names, es) != t'
  {
    var k := KeyOf(es[i], names);
    if k in AppIndex(t, app) {
      AppIndexFacts(t, app, k);
      OtherRulesUntouched(t, app, names, es);
      DisagreementFlips(t, app, names, es, i, j, AppIndex(t, app)[k]);
      DisagreementFlips(ReconcileRules(t, app, names, es), app, names, es, i, j, AppIndex(t, app)[k]);
    } else {
      var a := TwinIsDeletedNextTime(t, app, names, es, i, j);
    }
  }

  // ---- rendering

  function HookName(hooks: Table<Webhook>, id: Id): string {
    if id in hooks.rows then hooks.rows[id].name else ""
  }

  function RenderRule(hooks: Table<Webhook>, r: Rule): RuleEntry {
    RuleEntry(r.key.metric, r.key.operator, r.key.threshold, r.key.duration, HookName(hooks, r.key.webhook), r.enabled)
  }

  function RenderRules(t: Table<Rule>, hooks: Table<Webhook>, app: Id): (es: seq<RuleEntry>)
    ensures |es| == |RuleIds(t, app)|
    ensures forall i :: 0 <= i < |es| ==> es[i] == RenderRule(hooks, t.rows[RuleIds(t, app)[i]])
  {
    var ids := RuleIds(t, app);
    seq(|ids|, i requires 0 <= i < |ids| => RenderRule(hooks, t.rows[ids[i]]))
  }

  /** The rule's webhook can be found again by its name. */
  predicate Portable(hooks: Table<Webhook>, r: Rule) {
    var id := r.key.webhook;
    id in hooks.rows && hooks.rows[id].name != "" && hooks.rows[id].name in Names(hooks) && Names(hooks)[hooks.rows[id].name] == id
  }

  lemma {:induction false} RenderedKey(hooks: Table<Webhook>, r: Rule)
    ensures var e := RenderRule(hooks, r);
      Usable(e, Names(hooks)) && KeyOf(e, Names(hooks)) == r.key <==> Portable(hooks, r)
  {
    NamesLead(hooks, HookName(hooks, r.key.webhook));
  }

  /** A rule whose webhook is not found by its name is nobody's entry. */
  lemma {:induction false} NotPortableNotWanted(t: Table<Rule>, hooks: Table<Webhook>, app: Id, r: Rule)
    requires !Portable(hooks, r)
    ensures !Wanted(Names(hooks), RenderRules(t, hooks, app), r.key)
  {
    var es := RenderRules(t, hooks, app);
    if i :| 0 <= i < |es| && Usable(es[i], Names(hooks)) && KeyOf(es[i], Names(hooks)) == r.key {
      NamesLead(hooks, es[i].webhook);
    }
  }

  /** What a faithful round trip needs: each rule's webhook found by name, no rule twice. */
  ghost predicate RulesPortable(t: Table<Rule>, hooks: Table<Webhook>, app: Id) {
    && (forall id :: id in t.rows && t.rows[id].app == Some(app) ==> Portable(hooks, t.rows[id]))
    && UniqueRules(t, app)
  }

  lemma {:induction false} RenderedMatches(t: Table<Rule>, hooks: Table<Webhook>, app: Id)
    requires RulesPortable(t, hooks, app)
    ensures RulesMatch(t, app, Names(hooks), RenderRules(t, hooks, app))
  {
    var ids, es := RuleIds(t, app), RenderRules(t, hooks, app);
    forall i | 0 <= i < |es| ensures Usable(es[i], Names(hooks)) && KeyOf(es[i], Names(hooks)) == t.rows[ids[i]].key
                                     && HasRule(t, app, KeyOf(es[i], Names(hooks)), es[i].enabled)
    {
      RenderedKey(hooks, t.rows[ids[i]]);
    }
    forall id | id in t.rows && t.rows[id].app == Some(app) ensures Wanted(Names(hooks), es, t.rows[id].key) {
      assert id in ids;
      var i :| 0 <= i < |ids| && ids[i] == id;
    }
  }

  /** Rendering an app's rules and applying them back is the identity exactly when they are portable. */
  lemma {:induction false} RulesRoundTrip(t: Table<Rule>, hooks: Table<Webhook>, app: Id)
    requires Wf(t)
    ensures ReconcileRules(t, app, Names(hooks), RenderRules(t, hooks, app)) == t <==> RulesPortable(t, hooks, app)
  {
    var es := RenderRules(t, hooks, app);
    var t' := ReconcileRules(t, app, Names(hooks), es);
    if RulesPortable(t, hooks, app) {
      RenderedMatches(t, hooks, app);
      MatchingIsFixed(t, app, Names(hooks), es);
    }
    if t' == t {
      UnchangedIsPortable(t, hooks, app);
    }
  }

  lemma {:induction false} UnchangedIsPortable(t: Table<Rule>, hooks: Table<Webhook>, app: Id)
    requires Wf(t) && ReconcileRules(t, app, Names(hooks), RenderRules(t, hooks, app)) == t
    ensures RulesPortable(t, hooks, app)
  {
    var es := RenderRules(t, hooks, app);
    forall id | id in t.rows && t.rows[id].app == Some(app) ensures Portable(hooks, t.rows[id]) && Newest(t, app, id) {
      RowsLeft(t, app, Names(hooks), es, id);
      if !Portable(hooks, t.rows[id]) { NotPortableNotWanted(t, hooks, app, t.rows[id]); }
    }
  }

  // ---- importing

  function ImportEdit(app: Id, names: map<string, Id>, e: RuleEntry): Edit<Rule> {
    if Usable(e, names) then Add(Rule(Some(app), KeyOf(e, names), e.enabled)) else Skip
  }

  function ImportEdits(app: Id, names: map<string, Id>, es: seq<RuleEntry>): (r: seq<Edit<Rule>>)
    ensures |r| == |es| && forall i :: 0 <= i < |es| ==> r[i] == ImportEdit(app, names, es[i])
  {
    seq(|es|, i requires 0 <= i < |es| => ImportEdit(app, names, es[i]))
  }

  function ImportRules(t: Table<Rule>, app: Id, names: map<string, Id>, es: seq<RuleEntry>): Table<Rule> {
    Replace(t, OfApp(app), ImportEdits(app, names, es))
  }

  /**
   * Importing rendered rules, over whatever rules the app has by then, brings back
   * the same rules in the same order; repeated rules included.
   */
  lemma {:induction false} ImportRestores(t: Table<Rule>, now: Table<Rule>, hooks: Table<Webhook>, app: Id)
    requires Wf(t) && Wf(now)
    requires forall id :: id in t.rows && t.rows[id].app == Some(app) ==> Portable(hooks, t.rows[id])
    ensures var now' := ImportRules(now, app, Names(hooks), RenderRules(t, hooks, app));
      RowsWhere(now', OfApp(app)) == RowsWhere(t, OfApp(app)) && SameOutside(now, now', OfApp(app))
  {
    var edits := ImportEdits(app, Names(hooks), RenderRules(t, hooks, app));
    RenderedAdds(t, hooks, app);
    ReplacedOutside(now, OfApp(app), edits);
    ReplacedList(now, OfApp(app), edits);
  }

  lemma {:induction false} RenderedAdds(t: Table<Rule>, hooks: Table<Webhook>, app: Id)
    requires forall id :: id in t.rows && t.rows[id].app == Some(app) ==> Portable(hooks, t.rows[id])
    ensures var edits := ImportEdits(app, Names(hooks), RenderRules(t, hooks, app));
      OnlyAdds(edits, OfApp(app)) && Added(edits) == RowsWhere(t, OfApp(app))
  {
    var ids, es := RuleIds(t, app), RenderRules(t, hooks, app);
    var edits := ImportEdits(app, Names(hooks), es);
    forall i | 0 <= i < |es| ensures edits[i] == Add(t.rows[ids[i]]) { RenderedKey(hooks, t.rows[ids[i]]); }
    AddsInOrder(edits);
  }

  /** The rules a list of entries asks for, in order; entries without a known webhook ask for none. */
  function RulesAsked(app: Id, names: map<string, Id>, es: seq<RuleEntry>): seq<Rule> {
    if es == [] then []
    else
      var e := es[|es| - 1];
      RulesAsked(app, names, es[..|es| - 1]) +
      if e.webhook == "" || e.webhook !in names then []
      else [Rule(Some(app), RuleKey(e.metric, e.operator, e.threshold, e.duration, names[e.webhook]), e.enabled)]
  }

  lemma {:induction false} ImportEditsAre(app: Id, names: map<string, Id>, es: seq<RuleEntry>)
    ensures var edits := ImportEdits(app, names, es); OnlyAdds(edits, OfApp(app)) && Added(edits) == RulesAsked(app, names, es)
  {
    if es != [] {
      ImportEditsAre(app, names, es[..|es| - 1]);
      assert ImportEdits(app, names, es)[..|es| - 1] == ImportEdits(app, names, es[..|es| - 1]);
    }
  }

  /** An import of any entries leaves exactly the rules they ask for, in order, and no other row changed. */
  lemma {:induction false} RulesImported(t: Table<Rule>, app: Id, names: map<string, Id>, es: seq<RuleEntry>)
    requires Wf(t)
    ensures var t' := ImportRules(t, app, names, es);
      RowsWhere(t', OfApp(app)) == RulesAsked(app, names, es) && SameOutside(t, t', OfApp(app))
  {
    var edits := ImportEdits(app, names, es);
    ImportEditsAre(app, names, es);
    ReplacedOutside(t, OfApp(app), edits);
    ReplacedList(t, OfApp(app), edits);
  }
}
