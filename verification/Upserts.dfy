/** Inserting or updating rows by a natural key, entry after entry, and then dropping the rows no entry names. */
module Upserts {
  import opened Prelude
  import opened ConfigStore

  /** How rows of type `T` are keyed, and what an entry makes of the row it finds. */
  datatype Schema<!T, !K, !E> = Schema(key: T -> K, entryKey: E -> K, make: (E, Option<T>) -> T)

  ghost predicate Lawful<T(!new), K, E(!new)>(s: Schema<T, K, E>) {
    forall e, r :: s.key(s.make(e, r)) == s.entryKey(e)
  }

  function Find<T, K(==), E>(s: Schema<T, K, E>, t: Table<T>, k: K): Option<Id> { Lookup(t, s.key, k) }

  function RowOf<T, K(==), E>(s: Schema<T, K, E>, t: Table<T>, k: K): Option<T> {
    var f := Find(s, t, k);
    if f.Some? then Some(t.rows[f.value]) else None
  }

  function Upsert<T, K(==), E>(s: Schema<T, K, E>, t: Table<T>, e: E): Table<T> {
    var f := Find(s, t, s.entryKey(e));
    if f.Some? then Put(t, f.value, s.make(e, Some(t.rows[f.value]))) else Insert(t, s.make(e, None))
  }

  function UpsertAll<T, K(==), E>(s: Schema<T, K, E>, t: Table<T>, es: seq<E>): Table<T> {
    if es == [] then t else Upsert(s, UpsertAll(s, t, es[..|es| - 1]), es[|es| - 1])
  }

  predicate Named<T, K(==), E>(s: Schema<T, K, E>, es: seq<E>, k: K) {
    exists i :: 0 <= i < |es| && s.entryKey(es[i]) == k
  }

  /** Rows that no entry names. */
  function Unnamed<T, K(==), E>(s: Schema<T, K, E>, t: Table<T>, es: seq<E>): set<Id> {
    set id | id in t.rows && !Named(s, es, s.key(t.rows[id]))
  }

  function ReplaceAll<T, K(==), E>(s: Schema<T, K, E>, t: Table<T>, es: seq<E>): Table<T> {
    var t' := UpsertAll(s, t, es);
    Delete(t', Unnamed(s, t', es))
  }

  // ---- one upsert

  lemma {:induction false} FindIs<T, K, E>(s: Schema<T, K, E>, t: Table<T>, k: K, id: Id)
    requires id in t.rows && s.key(t.rows[id]) == k
    requires forall j :: j in t.rows && s.key(t.rows[j]) == k ==> id <= j
    ensures Find(s, t, k) == Some(id)
  {
  }

  /** The row under the entry's key is remade; it keeps its id if it had one. */
  lemma {:induction false} UpsertHits<T(!new), K, E(!new)>(s: Schema<T, K, E>, t: Table<T>, e: E)
    requires Lawful(s) && Wf(t)
    ensures var k, t' := s.entryKey(e), Upsert(s, t, e);
      && RowOf(s, t', k) == Some(s.make(e, RowOf(s, t, k)))
      && Find(s, t', k) == Some(if Find(s, t, k).Some? then Find(s, t, k).value else t.next)
  {
    var k, t', f := s.entryKey(e), Upsert(s, t, e), Find(s, t, s.entryKey(e));
    FindIs(s, t', k, if f.Some? then f.value else t.next);
  }

  /** Every other key leads where it led. */
  lemma {:induction false} UpsertMisses<T(!new), K, E(!new)>(s: Schema<T, K, E>, t: Table<T>, e: E, k: K)
    requires Lawful(s) && Wf(t) && k != s.entryKey(e)
    ensures var t' := Upsert(s, t, e); Find(s, t', k) == Find(s, t, k) && RowOf(s, t', k) == RowOf(s, t, k)
  {
    var t', f := Upsert(s, t, e), Find(s, t, k);
    if f.Some? {
      FindIs(s, t', k, f.value);
    }
  }

  lemma {:induction false} UpsertShape<T(!new), K, E(!new)>(s: Schema<T, K, E>, t: Table<T>, e: E)
    requires Lawful(s) && Wf(t)
    ensures var t' := Upsert(s, t, e);
      && Wf(t') && t.next <= t'.next
      && (forall id :: id in t.rows ==> id in t'.rows && s.key(t'.rows[id]) == s.key(t.rows[id]))
      && (forall id :: id in t'.rows && id !in t.rows ==> id == t.next && s.key(t'.rows[id]) == s.entryKey(e) && Find(s, t, s.entryKey(e)).None?)
  {
  }

  lemma {:induction false} UpsertUnique<T(!new), K, E(!new)>(s: Schema<T, K, E>, t: Table<T>, e: E)
    requires Lawful(s) && Wf(t) && UniqueKeys(t, s.key)
    ensures UniqueKeys(Upsert(s, t, e), s.key)
  {
    UpsertShape(s, t, e);
    var t' := Upsert(s, t, e);
    forall i, j | i in t'.rows && j in t'.rows && s.key(t'.rows[i]) == s.key(t'.rows[j]) ensures i == j {
      if i in t.rows && j in t.rows {
        assert s.key(t.rows[i]) == s.key(t.rows[j]);
      }
    }
  }

  // ---- all of them

  lemma {:induction false} AllShape<T(!new), K, E(!new)>(s: Schema<T, K, E>, t: Table<T>, es: seq<E>)
    requires Lawful(s) && Wf(t)
    ensures var t' := UpsertAll(s, t, es);
      Wf(t') && t.next <= t'.next && forall id :: id in t.rows ==> id in t'.rows && s.key(t'.rows[id]) == s.key(t.rows[id])
  {
    if es != [] {
      AllShape(s, t, es[..|es| - 1]);
      UpsertShape(s, UpsertAll(s, t, es[..|es| - 1]), es[|es| - 1]);
    }
  }

  lemma {:induction false} AllUnique<T(!new), K, E(!new)>(s: Schema<T, K, E>, t: Table<T>, es: seq<E>)
    requires Lawful(s) && Wf(t) && UniqueKeys(t, s.key)
    ensures UniqueKeys(UpsertAll(s, t, es), s.key)
  {
    if es != [] {
      AllShape(s, t, es[..|es| - 1]);
      AllUnique(s, t, es[..|es| - 1]);
      UpsertUnique(s, UpsertAll(s, t, es[..|es| - 1]), es[|es| - 1]);
    }
  }

  lemma {:induction false} NamedStep<T, K, E>(s: Schema<T, K, E>, es: seq<E>, k: K)
    requires es != []
    ensures Named(s, es, k) <==> Named(s, es[..|es| - 1], k) || s.entryKey(es[|es| - 1]) == k
  {
    var init := es[..|es| - 1];
    if Named(s, init, k) {
      var i :| 0 <= i < |init| && s.entryKey(init[i]) == k;
      assert es[i] == init[i];
    }
    if i :| 0 <= i < |es| && s.entryKey(es[i]) == k && i < |init| { assert init[i] == es[i]; }
  }

  /** A stored row is found under the id it had. */
  lemma {:induction false} AllKeepsIds<T(!new), K, E(!new)>(s: Schema<T, K, E>, t: Table<T>, es: seq<E>, k: K)
    requires Lawful(s) && Wf(t) && Find(s, t, k).Some?
    ensures Find(s, UpsertAll(s, t, es), k) == Find(s, t, k)
  {
    if es != [] {
      var t', e := UpsertAll(s, t, es[..|es| - 1]), es[|es| - 1];
      AllShape(s, t, es[..|es| - 1]);
      AllKeepsIds(s, t, es[..|es| - 1], k);
      if s.entryKey(e) == k { UpsertHits(s, t', e); } else { UpsertMisses(s, t', e, k); }
    }
  }

  /** A key no entry names leads where it led. */
  lemma {:induction false} AllMisses<T(!new), K, E(!new)>(s: Schema<T, K, E>, t: Table<T>, es: seq<E>, k: K)
    requires Lawful(s) && Wf(t) && !Named(s, es, k)
    ensures Find(s, UpsertAll(s, t, es), k) == Find(s, t, k) && RowOf(s, UpsertAll(s, t, es), k) == RowOf(s, t, k)
  {
    if es != [] {
      NamedStep(s, es, k);
      AllShape(s, t, es[..|es| - 1]);
      AllMisses(s, t, es[..|es| - 1], k);
      UpsertMisses(s, UpsertAll(s, t, es[..|es| - 1]), es[|es| - 1], k);
    }
  }

  /** A row that is not the one its key leads to, or whose key no entry names, is not touched. */
  lemma {:induction false} Untouched<T(!new), K, E(!new)>(s: Schema<T, K, E>, t: Table<T>, es: seq<E>, id: Id)
    requires Lawful(s) && Wf(t) && id in t.rows
    requires Find(s, t, s.key(t.rows[id])) != Some(id) || !Named(s, es, s.key(t.rows[id]))
    ensures id in UpsertAll(s, t, es).rows && UpsertAll(s, t, es).rows[id] == t.rows[id]
  {
    if es != [] {
      var n := |es| - 1;
      NamedStep(s, es, s.key(t.rows[id]));
      AllShape(s, t, es[..n]);
      AllKeepsIds(s, t, es[..n], s.key(t.rows[id]));
      Untouched(s, t, es[..n], id);
    }
  }

  /** The last entry for a key decides. */
  lemma {:induction false} LastDecides<T(!new), K, E(!new)>(s: Schema<T, K, E>, t: Table<T>, es: seq<E>, i: nat)
    requires Lawful(s) && Wf(t) && i < |es| && forall j :: i < j < |es| ==> s.entryKey(es[j]) != s.entryKey(es[i])
    ensures var k := s.entryKey(es[i]);
      RowOf(s, UpsertAll(s, t, es), k) == Some(s.make(es[i], RowOf(s, UpsertAll(s, t, es[..i]), k)))
  {
    var n := |es| - 1;
    AllShape(s, t, es[..n]);
    if i == n {
      UpsertHits(s, UpsertAll(s, t, es[..n]), es[n]);
    } else {
      LastDecides(s, t, es[..n], i);
      assert es[..n][..i] == es[..i];
      UpsertMisses(s, UpsertAll(s, t, es[..n]), es[n], s.entryKey(es[i]));
    }
  }

  /** The only entry for a key makes the row out of the stored one. */
  lemma {:induction false} OnlyDecides<T(!new), K, E(!new)>(s: Schema<T, K, E>, t: Table<T>, es: seq<E>, i: nat)
    requires Lawful(s) && Wf(t) && i < |es| && forall j :: 0 <= j < |es| && s.entryKey(es[j]) == s.entryKey(es[i]) ==> j == i
    ensures var k := s.entryKey(es[i]); RowOf(s, UpsertAll(s, t, es), k) == Some(s.make(es[i], RowOf(s, t, k)))
  {
    LastDecides(s, t, es, i);
    AllMisses(s, t, es[..i], s.entryKey(es[i]));
  }

  /** Entries that find what they would make change nothing. */
  lemma {:induction false} AllConfirms<T(!new), K, E(!new)>(s: Schema<T, K, E>, t: Table<T>, es: seq<E>)
    requires forall i :: 0 <= i < |es| ==> var r := RowOf(s, t, s.entryKey(es[i])); r.Some? && s.make(es[i], r) == r.value
    ensures UpsertAll(s, t, es) == t
  {
    if es != [] {
      var n := |es| - 1;
      forall i | 0 <= i < n ensures var r := RowOf(s, t, s.entryKey(es[..n][i])); r.Some? && s.make(es[..n][i], r) == r.value {
        assert es[..n][i] == es[i];
      }
      AllConfirms(s, t, es[..n]);
      assert Put(t, Find(s, t, s.entryKey(es[n])).value, RowOf(s, t, s.entryKey(es[n])).value) == t;
    }
  }

  /** What no entry touches survives in every row. */
  lemma {:induction false} PartKept<T(!new), K, E(!new), P(!new)>(s: Schema<T, K, E>, t: Table<T>, es: seq<E>, part: T -> P, id: Id)
    requires Lawful(s) && Wf(t) && id in t.rows
    requires forall e, r :: part(s.make(e, Some(r))) == part(r)
    ensures id in UpsertAll(s, t, es).rows && part(UpsertAll(s, t, es).rows[id]) == part(t.rows[id])
  {
    if es != [] {
      AllShape(s, t, es[..|es| - 1]);
      PartKept(s, t, es[..|es| - 1], part, id);
    }
  }

  /** New rows carry keys that entries name. */
  lemma {:induction false} NewIsNamed<T(!new), K, E(!new)>(s: Schema<T, K, E>, t: Table<T>, es: seq<E>, id: Id)
    requires Lawful(s) && Wf(t) && id in UpsertAll(s, t, es).rows && id !in t.rows
    ensures id >= t.next && Named(s, es, s.key(UpsertAll(s, t, es).rows[id]))
  {
    var n := |es| - 1;
    var t' := UpsertAll(s, t, es[..n]);
    AllShape(s, t, es[..n]);
    UpsertShape(s, t', es[n]);
    NamedStep(s, es, s.key(UpsertAll(s, t, es).rows[id]));
    if id in t'.rows {
      NewIsNamed(s, t, es[..n], id);
    }
  }

  /** Dropping unnamed rows does not change what named keys lead to. */
  lemma {:induction false} SurvivorFound<T(!new), K, E(!new)>(s: Schema<T, K, E>, t: Table<T>, es: seq<E>, k: K)
    requires Lawful(s) && Wf(t) && Named(s, es, k) && Find(s, UpsertAll(s, t, es), k).Some?
    ensures Find(s, ReplaceAll(s, t, es), k) == Find(s, UpsertAll(s, t, es), k)
    ensures RowOf(s, ReplaceAll(s, t, es), k) == RowOf(s, UpsertAll(s, t, es), k)
  {
    var f := Find(s, UpsertAll(s, t, es), k);
    FindIs(s, ReplaceAll(s, t, es), k, f.value);
  }

  ghost predicate DistinctKeys<T, K, E>(s: Schema<T, K, E>, es: seq<E>) {
    forall i, j :: 0 <= i < |es| && 0 <= j < |es| && s.entryKey(es[i]) == s.entryKey(es[j]) ==> i == j
  }

  /**
   * The rows are exactly those the entries name, each made by its entry out of the
   * stored row; a stored row that is still named keeps its id, new rows get new ids.
   */
  ghost predicate Matches<T, K, E>(s: Schema<T, K, E>, before: Table<T>, after: Table<T>, es: seq<E>) {
    && (forall id :: id in after.rows ==> Named(s, es, s.key(after.rows[id])))
    && (forall id :: id in before.rows ==> (id in after.rows <==> Named(s, es, s.key(before.rows[id]))))
    && (forall id :: id in before.rows && id in after.rows ==> s.key(after.rows[id]) == s.key(before.rows[id]))
    && (forall id :: id in after.rows && id !in before.rows ==> id >= before.next)
    && (forall i :: 0 <= i < |es| ==>
          RowOf(s, after, s.entryKey(es[i])) == Some(s.make(es[i], RowOf(s, before, s.entryKey(es[i])))))
  }

  lemma {:induction false} ReplaceMatches<T(!new), K, E(!new)>(s: Schema<T, K, E>, t: Table<T>, es: seq<E>)
    requires Lawful(s) && Wf(t) && DistinctKeys(s, es)
    ensures Matches(s, t, ReplaceAll(s, t, es), es)
  {
    AllShape(s, t, es);
    forall id | id in UpsertAll(s, t, es).rows && id !in t.rows ensures id >= t.next { NewIsNamed(s, t, es, id); }
    forall i | 0 <= i < |es|
      ensures RowOf(s, ReplaceAll(s, t, es), s.entryKey(es[i])) == Some(s.make(es[i], RowOf(s, t, s.entryKey(es[i]))))
    {
      OnlyDecides(s, t, es, i);
      SurvivorFound(s, t, es, s.entryKey(es[i]));
    }
  }

  /** The row of an entry after a replace is made from the stored row under the same id, or from nothing under a new id. */
  lemma {:induction false} MadeFrom<T(!new), K, E(!new)>(s: Schema<T, K, E>, t: Table<T>, es: seq<E>, i: nat) returns (id: Id)
    requires Lawful(s) && Wf(t) && DistinctKeys(s, es) && i < |es|
    ensures var t' := ReplaceAll(s, t, es);
      id in t'.rows && t'.rows[id] == s.make(es[i], if id in t.rows then Some(t.rows[id]) else None) && s.key(t'.rows[id]) == s.entryKey(es[i])
  {
    var k := s.entryKey(es[i]);
    OnlyDecides(s, t, es, i);
    SurvivorFound(s, t, es, k);
    AllShape(s, t, es);
    id := Find(s, UpsertAll(s, t, es), k).value;
    if Find(s, t, k).Some? { AllKeepsIds(s, t, es, k); }
  }

  /** Making a row again out of what was made changes nothing. */
  ghost predicate Stable<T(!new), K, E(!new)>(s: Schema<T, K, E>) {
    forall e, r :: s.make(e, Some(s.make(e, r))) == s.make(e, r)
  }

  /** Replacing a second time finds everything in place. */
  lemma {:induction false} ReplaceSettles<T(!new), K, E(!new)>(s: Schema<T, K, E>, t: Table<T>, es: seq<E>)
    requires Lawful(s) && Stable(s) && Wf(t) && DistinctKeys(s, es)
    ensures var t' := ReplaceAll(s, t, es); UpsertAll(s, t', es) == t' && Unnamed(s, t', es) == {}
  {
    ReplaceMatches(s, t, es);
    AllConfirms(s, ReplaceAll(s, t, es), es);
  }

  lemma {:induction false} UniqueFind<T, K, E>(s: Schema<T, K, E>, t: Table<T>, id: Id)
    requires UniqueKeys(t, s.key) && id in t.rows
    ensures Find(s, t, s.key(t.rows[id])) == Some(id) && RowOf(s, t, s.key(t.rows[id])) == Some(t.rows[id])
  {
  }

  /** Entries whose keys are all stored add no row. */
  lemma {:induction false} NothingNew<T(!new), K, E(!new)>(s: Schema<T, K, E>, t: Table<T>, es: seq<E>)
    requires Lawful(s) && Wf(t) && forall i :: 0 <= i < |es| ==> Find(s, t, s.entryKey(es[i])).Some?
    ensures UpsertAll(s, t, es).next == t.next && forall id :: id in UpsertAll(s, t, es).rows <==> id in t.rows
  {
    if es != [] {
      var n := |es| - 1;
      assert forall i :: 0 <= i < n ==> es[..n][i] == es[i];
      NothingNew(s, t, es[..n]);
      AllKeepsIds(s, t, es[..n], s.entryKey(es[n]));
    }
  }
}
