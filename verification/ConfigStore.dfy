/**
 * The database tables that sidecar files mirror: rows by id, ids handed out in
 * increasing order and never reused, lists in id order.
 */
module ConfigStore {
  import opened Prelude

  type Id = nat

  /** Rows by id, and the id the next inserted row gets. */
  datatype Table<T> = Table(rows: map<Id, T>, next: Id)

  ghost predicate Wf<T>(t: Table<T>) { forall id :: id in t.rows ==> id < t.next }

  function Insert<T>(t: Table<T>, row: T): Table<T> { Table(t.rows[t.next := row], t.next + 1) }

  function Put<T>(t: Table<T>, id: Id, row: T): Table<T> { t.(rows := t.rows[id := row]) }

  function Delete<T>(t: Table<T>, ids: set<Id>): Table<T> { t.(rows := t.rows - ids) }

  /** Ids of the rows that satisfy `p`, in order. */
  function IdsWhere<T>(t: Table<T>, p: T -> bool): (ids: seq<Id>)
    ensures StrictlyAscending(ids)
    ensures forall id :: id in ids <==> id in t.rows && p(t.rows[id])
    ensures forall i :: 0 <= i < |ids| ==> ids[i] in t.rows && p(t.rows[ids[i]])
  {
    var ids := Ascending(set id | id in t.rows && p(t.rows[id]));
    assert forall i :: 0 <= i < |ids| ==> ids[i] in ids;
    ids
  }

  datatype App = App(slug: string, name: string)

  datatype Webhook = Webhook(name: string, kind: string, url: string, headers: string, template: string)

  /** What makes two alert rules of an app the same rule. */
  datatype RuleKey = RuleKey(metric: string, operator: string, threshold: real, duration: int, webhook: Id)

  datatype Rule = Rule(app: Option<Id>, key: RuleKey, enabled: bool)

  datatype Settings = Settings(strategy: string, target: string, cron: string, retentionMode: string, retentionCount: int,
                               retentionDays: Option<int>, verify: bool, preHooks: string, postHooks: string, paths: string)

  /** A backup configuration; `secret` is the encrypted target configuration. */
  datatype Backup = Backup(app: Id, uuid: string, settings: Settings, secret: string)

  datatype User = User(username: string, hash: string, role: string, display: string, email: string)

  datatype ApiKey = ApiKey(user: Id, hash: string, name: string, expires: Option<int>)

  datatype Registry = Registry(name: string, url: string, usernameEnc: string, passwordEnc: string)

  datatype DB = DB(
    apps: Table<App>,
    webhooks: Table<Webhook>,
    rules: Table<Rule>,
    backups: Table<Backup>,
    users: Table<User>,
    access: set<(Id, Id)>,            // (user, app)
    keys: Table<ApiKey>,
    registries: map<string, Registry>,
    dbBackup: map<string, string>)

  ghost predicate SameMembers(a: seq<nat>, b: seq<nat>) { forall n: nat :: n in a <==> n in b }

  /** Two increasing sequences with the same members are equal. */
  lemma {:induction false} AscendingUnique(a: seq<nat>, b: seq<nat>)
    requires StrictlyAscending(a) && StrictlyAscending(b) && SameMembers(a, b)
    ensures a == b
    decreases |a|
  {
    assert a != [] ==> a[|a| - 1] in b;
    assert b != [] ==> b[|b| - 1] in a;
    if a != [] {
      SameLast(a, b);
      var a', b' := a[..|a| - 1], b[..|b| - 1];
      forall n: nat ensures n in a' <==> n in b' {
        InitMembers(a, n);
        InitMembers(b, n);
      }
      AscendingUnique(a', b');
      assert a == a' + [a[|a| - 1]] && b == b' + [b[|b| - 1]];
    }
  }

  lemma {:induction false} SameLast(a: seq<nat>, b: seq<nat>)
    requires StrictlyAscending(a) && StrictlyAscending(b) && a != [] && b != []
    requires a[|a| - 1] in b && b[|b| - 1] in a
    ensures a[|a| - 1] == b[|b| - 1]
  {
  }

  lemma {:induction false} InitMembers(a: seq<nat>, n: nat)
    requires StrictlyAscending(a) && a != []
    ensures n in a[..|a| - 1] <==> n in a && n != a[|a| - 1]
  {
    assert a == a[..|a| - 1] + [a[|a| - 1]];
  }

  lemma {:induction false} SameTable<T>(a: Table<T>, b: Table<T>)
    requires a.next == b.next && (forall id :: id in a.rows <==> id in b.rows) && forall id :: id in b.rows ==> a.rows[id] == b.rows[id]
    ensures a == b
  {
    assert a.rows == b.rows;
  }

  // ---- a row found by name

  /** The oldest row whose key is `k`. */
  function Lookup<T, K(==)>(t: Table<T>, key: T -> K, k: K): (r: Option<Id>)
    ensures r.Some? ==> r.value in t.rows && key(t.rows[r.value]) == k
    ensures r.None? ==> forall id :: id in t.rows ==> key(t.rows[id]) != k
    ensures r.Some? ==> forall id :: id in t.rows && key(t.rows[id]) == k ==> r.value <= id
  {
    var p := (row: T) => key(row) == k;
    var ids := IdsWhere(t, p);
    LookupFacts(t, key, k, p);
    if ids == [] then None else Some(ids[0])
  }

  lemma {:induction false} LookupFacts<T, K>(t: Table<T>, key: T -> K, k: K, p: T -> bool)
    requires forall row :: p(row) <==> key(row) == k
    ensures var ids := IdsWhere(t, p);
      if ids == [] then forall id :: id in t.rows ==> key(t.rows[id]) != k
      else forall id :: id in t.rows && key(t.rows[id]) == k ==> ids[0] <= id
  {
    var ids := IdsWhere(t, p);
    forall id | id in t.rows && key(t.rows[id]) == k ensures ids != [] && ids[0] <= id {
      assert p(t.rows[id]) && id in ids;
    }
  }

  ghost predicate UniqueKeys<T, K>(t: Table<T>, key: T -> K) {
    forall i, j :: i in t.rows && j in t.rows && key(t.rows[i]) == key(t.rows[j]) ==> i == j
  }

  // ---- edits planned from a snapshot

  /** What one incoming entry does to the table it was compared with. */
  datatype Edit<T> = Skip | Keep(id: Id) | Write(id: Id, row: T) | Add(row: T)

  function Edited<T>(t: Table<T>, e: Edit<T>): Table<T> {
    match e
    case Skip => t
    case Keep(_) => t
    case Write(id, row) => Put(t, id, row)
    case Add(row) => Insert(t, row)
  }

  function EditAll<T>(t: Table<T>, es: seq<Edit<T>>): Table<T> {
    if es == [] then t else Edited(EditAll(t, es[..|es| - 1]), es[|es| - 1])
  }

  function Added<T>(es: seq<Edit<T>>): seq<T> {
    if es == [] then [] else Added(es[..|es| - 1]) + if es[|es| - 1].Add? then [es[|es| - 1].row] else []
  }

  /** Rows some entry stands for: those matched, and those added from `next` on. */
  function KeptIds<T>(next: Id, es: seq<Edit<T>>): set<Id> {
    if es == [] then {}
    else
      KeptIds(next, es[..|es| - 1]) + KeptBy(next + |Added(es[..|es| - 1])|, es[|es| - 1])
  }

  function KeptBy<T>(next: Id, e: Edit<T>): set<Id> {
    match e
    case Skip => {}
    case Keep(id) => {id}
    case Write(id, _) => {id}
    case Add(_) => {next}
  }

  /** One more edit. */
  lemma {:induction false} EditStep<T>(t: Table<T>, es: seq<Edit<T>>, i: nat)
    requires i < |es|
    ensures EditAll(t, es[..i + 1]) == Edited(EditAll(t, es[..i]), es[i])
    ensures EditAll(t, es[..i]).next == t.next + |Added(es[..i])|
    ensures KeptIds(t.next, es[..i + 1]) == KeptIds(t.next, es[..i]) + KeptBy(EditAll(t, es[..i]).next, es[i])
  {
    assert es[..i + 1][..i] == es[..i];
    EditNext(t, es[..i]);
  }

  predicate Hits<T>(e: Edit<T>, id: Id) { (e.Keep? || e.Write?) && e.id == id }

  ghost predicate EditsOk<T>(t: Table<T>, es: seq<Edit<T>>) {
    Wf(t) && forall i :: 0 <= i < |es| && (es[i].Keep? || es[i].Write?) ==> es[i].id in t.rows
  }

  lemma {:induction false} EditNext<T>(t: Table<T>, es: seq<Edit<T>>)
    ensures EditAll(t, es).next == t.next + |Added(es)|
  {
    if es != [] { EditNext(t, es[..|es| - 1]); }
  }

  lemma {:induction false} EditDomain<T>(t: Table<T>, es: seq<Edit<T>>, id: Id)
    requires EditsOk(t, es)
    ensures id in EditAll(t, es).rows <==> id in t.rows || t.next <= id < t.next + |Added(es)|
  {
    if es != [] {
      EditNext(t, es[..|es| - 1]);
      EditDomain(t, es[..|es| - 1], id);
    }
  }

  lemma {:induction false} EditWf<T>(t: Table<T>, es: seq<Edit<T>>)
    requires EditsOk(t, es)
    ensures Wf(EditAll(t, es))
  {
    EditNext(t, es);
    forall id | id in EditAll(t, es).rows ensures id < EditAll(t, es).next { EditDomain(t, es, id); }
  }

  /** An old row ends as what the edits that write it agree on. */
  lemma {:induction false} EditOld<T>(t: Table<T>, es: seq<Edit<T>>, id: Id, row: T)
    requires EditsOk(t, es) && id in t.rows
    requires forall i :: 0 <= i < |es| && es[i].Write? && es[i].id == id ==> es[i].row == row
    requires t.rows[id] == row || exists i :: 0 <= i < |es| && es[i] == Write(id, row)
    ensures id in EditAll(t, es).rows && EditAll(t, es).rows[id] == row
  {
    if es != [] {
      var n := |es| - 1;
      EditDomain(t, es[..n], id);
      EditNext(t, es[..n]);
      if es[n] != Write(id, row) {
        if i :| 0 <= i < |es| && es[i] == Write(id, row) { assert es[..n][i] == Write(id, row); }
        EditOld(t, es[..n], id, row);
      }
    }
  }

  /** The last write to an old row decides. */
  lemma {:induction false} EditLast<T>(t: Table<T>, es: seq<Edit<T>>, id: Id, j: nat)
    requires EditsOk(t, es) && id in t.rows && j < |es| && es[j].Write? && es[j].id == id
    requires forall i :: j < i < |es| ==> !(es[i].Write? && es[i].id == id)
    ensures id in EditAll(t, es).rows && EditAll(t, es).rows[id] == es[j].row
  {
    var n := |es| - 1;
    if j < n {
      EditLast(t, es[..n], id, j);
      EditNext(t, es[..n]);
    }
  }

  /** What every write to a row leaves alone is left alone. */
  lemma {:induction false} EditKeeps<T, P>(t: Table<T>, es: seq<Edit<T>>, id: Id, part: T -> P)
    requires EditsOk(t, es) && id in t.rows
    requires forall i :: 0 <= i < |es| && es[i].Write? && es[i].id == id ==> part(es[i].row) == part(t.rows[id])
    ensures id in EditAll(t, es).rows && part(EditAll(t, es).rows[id]) == part(t.rows[id])
  {
    if es != [] {
      EditNext(t, es[..|es| - 1]);
      EditKeeps(t, es[..|es| - 1], id, part);
    }
  }

  lemma {:induction false} EditNew<T>(t: Table<T>, es: seq<Edit<T>>, i: nat)
    requires EditsOk(t, es) && i < |Added(es)|
    ensures t.next + i in EditAll(t, es).rows && EditAll(t, es).rows[t.next + i] == Added(es)[i]
  {
    var n := |es| - 1;
    EditNext(t, es[..n]);
    if i < |Added(es[..n])| {
      EditNew(t, es[..n], i);
      assert forall j :: 0 <= j < n ==> es[..n][j] == es[j];
    }
  }

  lemma {:induction false} KeptMember<T>(next: Id, es: seq<Edit<T>>, id: Id)
    ensures id in KeptIds(next, es) <==> (exists i :: 0 <= i < |es| && Hits(es[i], id)) || next <= id < next + |Added(es)|
  {
    if es != [] {
      var n := |es| - 1;
      KeptMember(next, es[..n], id);
      if i :| 0 <= i < n && Hits(es[..n][i], id) { assert Hits(es[i], id); }
      if i :| 0 <= i < |es| && Hits(es[i], id) && i < n { assert Hits(es[..n][i], id); }
    }
  }

  lemma {:induction false} AddedFrom<T>(es: seq<Edit<T>>, i: nat) returns (j: nat)
    requires i < |Added(es)|
    ensures j < |es| && es[j] == Add(Added(es)[i])
  {
    var n := |es| - 1;
    if i < |Added(es[..n])| {
      j := AddedFrom(es[..n], i);
    } else {
      j := n;
    }
  }

  lemma {:induction false} AddReaches<T>(es: seq<Edit<T>>, j: nat) returns (i: nat)
    requires j < |es| && es[j].Add?
    ensures i < |Added(es)| && Added(es)[i] == es[j].row
  {
    var n := |es| - 1;
    if j < n {
      i := AddReaches(es[..n], j);
    } else {
      i := |Added(es[..n])|;
    }
  }

  /** Two inserts leave two rows, in their order. */
  lemma {:induction false} TwoAdds<T>(es: seq<Edit<T>>, i: nat, j: nat) returns (a: nat, b: nat)
    requires i < j < |es| && es[i].Add? && es[j].Add?
    ensures a < b < |Added(es)| && Added(es)[a] == es[i].row && Added(es)[b] == es[j].row
  {
    var n := |es| - 1;
    if j < n {
      a, b := TwoAdds(es[..n], i, j);
    } else {
      a := AddReaches(es[..n], i);
      b := |Added(es[..n])|;
    }
  }

  /** A row that was not there stands for an insert. */
  lemma {:induction false} EditNewFrom<T>(t: Table<T>, es: seq<Edit<T>>, id: Id) returns (j: nat)
    requires EditsOk(t, es) && id in EditAll(t, es).rows && id !in t.rows
    ensures t.next <= id < t.next + |Added(es)| && j < |es| && es[j] == Add(Added(es)[id - t.next])
    ensures EditAll(t, es).rows[id] == es[j].row
  {
    EditDomain(t, es, id);
    EditNew(t, es, id - t.next);
    j := AddedFrom(es, id - t.next);
  }

  /** Every insert leaves its row under a new id. */
  lemma {:induction false} EditReaches<T>(t: Table<T>, es: seq<Edit<T>>, j: nat) returns (id: Id)
    requires EditsOk(t, es) && j < |es| && es[j].Add?
    ensures id >= t.next && id in EditAll(t, es).rows && EditAll(t, es).rows[id] == es[j].row
  {
    var i := AddReaches(es, j);
    EditNew(t, es, i);
    id := t.next + i;
  }

  lemma {:induction false} NothingAdded<T>(es: seq<Edit<T>>)
    requires forall i :: 0 <= i < |es| ==> !es[i].Add?
    ensures Added(es) == []
  {
    if es != [] { NothingAdded(es[..|es| - 1]); }
  }

  /** Edits that add no row and leave every row as it was change nothing. */
  lemma {:induction false} EditsSettle<T>(t: Table<T>, es: seq<Edit<T>>)
    requires EditsOk(t, es) && Added(es) == []
    requires forall id :: id in t.rows ==> id in EditAll(t, es).rows && EditAll(t, es).rows[id] == t.rows[id]
    ensures EditAll(t, es) == t
  {
    EditNext(t, es);
    forall id: Id ensures id in EditAll(t, es).rows <==> id in t.rows { EditDomain(t, es, id); }
    SameTable(EditAll(t, es), t);
  }

  /** Edits that only confirm what is there change nothing. */
  lemma {:induction false} ConfirmingEdits<T>(t: Table<T>, es: seq<Edit<T>>)
    requires EditsOk(t, es)
    requires forall i :: 0 <= i < |es| ==> !es[i].Add?
    requires forall i :: 0 <= i < |es| && es[i].Write? ==> es[i].row == t.rows[es[i].id]
    ensures EditAll(t, es) == t
  {
    if es != [] { ConfirmingEdits(t, es[..|es| - 1]); }
  }

  /** When every edit adds a row, the rows are added in order. */
  lemma {:induction false} AddsInOrder<T>(es: seq<Edit<T>>)
    requires forall i :: 0 <= i < |es| ==> es[i].Add?
    ensures |Added(es)| == |es| && forall i :: 0 <= i < |es| ==> Added(es)[i] == es[i].row
  {
    if es != [] { AddsInOrder(es[..|es| - 1]); }
  }

  // ---- replacing a whole list

  /** The rows that satisfy `p`, oldest first. */
  function RowsWhere<T>(t: Table<T>, p: T -> bool): (rows: seq<T>)
    ensures |rows| == |IdsWhere(t, p)| && forall i :: 0 <= i < |rows| ==> rows[i] == t.rows[IdsWhere(t, p)[i]]
  {
    var ids := IdsWhere(t, p);
    seq(|ids|, i requires 0 <= i < |ids| => t.rows[ids[i]])
  }

  /** Delete the rows that satisfy `p`, then insert what the edits add. */
  function Replace<T>(t: Table<T>, p: T -> bool, es: seq<Edit<T>>): Table<T> {
    EditAll(Delete(t, Elements(IdsWhere(t, p))), es)
  }

  ghost predicate OnlyAdds<T>(es: seq<Edit<T>>, p: T -> bool) {
    forall i :: 0 <= i < |es| ==> es[i].Skip? || (es[i].Add? && p(es[i].row))
  }

  /** One row of a replaced table: an old one outside the list, or an added one. */
  lemma {:induction false} ReplacedRow<T>(t: Table<T>, p: T -> bool, es: seq<Edit<T>>, id: Id)
    requires Wf(t) && OnlyAdds(es, p)
    ensures var t' := Replace(t, p, es);
      && (id < t.next ==> (id in t'.rows <==> id in t.rows && !p(t.rows[id])) && (id in t'.rows ==> t'.rows[id] == t.rows[id]))
      && (id >= t.next ==> (id in t'.rows <==> id - t.next < |Added(es)|)
                           && (id in t'.rows ==> t'.rows[id] == Added(es)[id - t.next] && p(t'.rows[id])))
  {
    var bare := Delete(t, Elements(IdsWhere(t, p)));
    EditDomain(bare, es, id);
    if id in bare.rows {
      EditOld(bare, es, id, t.rows[id]);
    } else if t.next <= id < t.next + |Added(es)| {
      EditNew(bare, es, id - t.next);
      var j := AddedFrom(es, id - t.next);
    }
  }

  ghost predicate SameOutside<T>(before: Table<T>, after: Table<T>, p: T -> bool) {
    && (forall id :: id in before.rows && !p(before.rows[id]) ==> id in after.rows && after.rows[id] == before.rows[id])
    && (forall id :: id in after.rows && !p(after.rows[id]) ==> id in before.rows && before.rows[id] == after.rows[id])
  }

  lemma {:induction false} ReplacedOutside<T>(t: Table<T>, p: T -> bool, es: seq<Edit<T>>)
    requires Wf(t) && OnlyAdds(es, p)
    ensures SameOutside(t, Replace(t, p, es), p)
  {
    var t' := Replace(t, p, es);
    forall id | id in t.rows && !p(t.rows[id]) ensures id in t'.rows && t'.rows[id] == t.rows[id] { ReplacedRow(t, p, es, id); }
    forall id | id in t'.rows && !p(t'.rows[id]) ensures id in t.rows && t.rows[id] == t'.rows[id] { ReplacedRow(t, p, es, id); }
  }

  /** The list afterwards is what was added, in order. */
  lemma {:induction false} ReplacedList<T>(t: Table<T>, p: T -> bool, es: seq<Edit<T>>)
    requires Wf(t) && OnlyAdds(es, p)
    ensures RowsWhere(Replace(t, p, es), p) == Added(es)
  {
    var n := |Added(es)|;
    var made := seq(n, i requires 0 <= i < n => t.next + i);
    var t' := Replace(t, p, es);
    var ids := IdsWhere(t', p);
    forall id: nat ensures id in ids <==> id in made {
      ReplacedRow(t, p, es, id);
      assert t.next <= id < t.next + n ==> made[id - t.next] == id;
    }
    AscendingUnique(ids, made);
    forall i | 0 <= i < n ensures t'.rows[made[i]] == Added(es)[i] { ReplacedRow(t, p, es, made[i]); }
  }
}
