/**
 * The debounced sidecar writer: every change to a key schedules a write after a
 * quiet period, a later schedule replaces the timer of an earlier one, and Close
 * flushes what is pending. A replaced or stopped timer may already have fired and
 * be waiting for the lock, so every timer ever started can still fire once.
 *
 * A write reads the database and replaces the file in one step, or fails and leaves it;
 * the program drops the error of a failed write.
 */
module DebouncedWriter {
  import opened Prelude

  type Key = string
  type TimerId = nat
  type Value = string

  /** The fields guarded by the lock. */
  datatype Table = Table(timers: map<Key, TimerId>, pending: set<Key>, closed: bool, next: TimerId)

  // ---- the three critical sections

  /** Schedule: refuse when closed, else start a fresh timer and make it the live one. */
  function Scheduled(t: Table, k: Key): Table {
    if t.closed then t
    else Table(t.timers[k := t.next], t.pending + {k}, false, t.next + 1)
  }

  /** A timer callback that got the lock is live when no later schedule replaced it. */
  predicate Live(t: Table, id: TimerId, k: Key) { k in t.timers && t.timers[k] == id }

  function Fired(t: Table, id: TimerId, k: Key): Table {
    if Live(t, id, k) then Table(t.timers - {k}, t.pending - {k}, t.closed, t.next) else t
  }

  /** Close: drop every pending key with its timer, once. */
  function Closed(t: Table): Table {
    if t.closed then t else Table(t.timers - t.pending, {}, true, t.next)
  }

  class Syncer {
    var timers: map<Key, TimerId>
    var pending: set<Key>
    var closed: bool
    var next: TimerId

    ghost function Abs(): Table
      reads this
    {
      Table(timers, pending, closed, next)
    }

    constructor ()
      ensures Abs() == Table(map[], {}, false, 0)
    {
      timers, pending, closed, next := map[], {}, false, 0;
    }

    method Schedule(k: Key)
      modifies this
      ensures Abs() == Scheduled(old(Abs()), k)
    {
      if closed {
        return;
      }
      pending := pending + {k};
      var self := next;
      next := next + 1;
      timers := timers[k := self];
    }

    /** The part of a callback under the lock; `run` says whether it goes on to write. */
    method Fire(self: TimerId, k: Key) returns (run: bool)
      modifies this
      ensures Abs() == Fired(old(Abs()), self, k)
      ensures run <==> Live(old(Abs()), self, k)
    {
      if !(k in timers && timers[k] == self) {
        return false;
      }
      timers := timers - {k};
      pending := pending - {k};
      return true;
    }

    /** Takes the pending keys for the flush outside the lock; map iteration leaves their order open. */
    method Close() returns (keys: set<Key>)
      modifies this
      ensures Abs() == Closed(old(Abs()))
      ensures keys == if old(closed) then {} else old(pending)
    {
      keys := {};
      if closed {
        return;
      }
      closed := true;
      while pending != {}
        invariant closed && next == old(next)
        invariant keys + pending == old(pending) && keys !! pending
        invariant timers == old(timers) - keys
        decreases |pending|
      {
        var k :| k in pending;
        assert old(timers) - keys - {k} == old(timers) - (keys + {k});
        keys := keys + {k};
        timers := timers - {k};
        pending := pending - {k};
      }
    }
  }

  // ---- the protocol: callers, callbacks and the flush, in any interleaving

  datatype State = State(
    table: Table,
    started: map<TimerId, Key>,     // timers that have not run their critical section yet
    past: map<TimerId, Key>,        // callbacks past the lock, about to write
    flush: multiset<Key>,           // keys Close still has to write
    db: map<Key, Value>,
    file: map<Key, Value>,
    unscheduled: set<Key>,          // changed in the database, schedule not called yet
    missed: set<Key>,               // schedule called after Close
    failed: set<Key>,               // last write attempt failed; the code drops the error
    replaced: set<TimerId>,         // ghost: timers a later schedule or Close took over
    log: seq<Event>)

  datatype Event =
    | Accepted(key: Key, id: TimerId)
    | WriteStart(key: Key, writer: Writer)

  datatype Writer = Callback(id: TimerId) | Flush

  datatype Step =
    | Change(k: Key, v: Value)
    | Schedule(k: Key)
    | Fire(id: TimerId)
    | CallbackWrite(id: TimerId, ok: bool)
    | Close
    | FlushWrite(k: Key, ok: bool)

  predicate Enabled(s: State, step: Step) {
    match step
    case Change(k, v) => true
    case Schedule(k) => true
    case Fire(id) => id in s.started
    case CallbackWrite(id, _) => id in s.past
    case Close => true
    case FlushWrite(k, _) => k in s.flush
  }

  function Stored(m: map<Key, Value>, k: Key): Option<Value> { if k in m then Some(m[k]) else None }

  /** A write that fails leaves the file as it was. */
  function Write(s: State, k: Key, writer: Writer, ok: bool): State {
    s.(file := if ok && k in s.db then s.file[k := s.db[k]] else s.file,
       failed := if ok then s.failed - {k} else s.failed + {k},
       log := s.log + [WriteStart(k, writer)])
  }

  function Next(s: State, step: Step): State
    requires Enabled(s, step)
  {
    match step
    case Change(k, v) => s.(db := s.db[k := v], unscheduled := s.unscheduled + {k})
    case Schedule(k) =>
      if s.table.closed then
        s.(table := Scheduled(s.table, k), unscheduled := s.unscheduled - {k}, missed := s.missed + {k})
      else
        s.(table := Scheduled(s.table, k),
           started := s.started[s.table.next := k],
           unscheduled := s.unscheduled - {k},
           replaced := s.replaced + (if k in s.table.timers then {s.table.timers[k]} else {}),
           log := s.log + [Accepted(k, s.table.next)])
    case Fire(id) =>
      var k := s.started[id];
      s.(table := Fired(s.table, id, k),
         started := s.started - {id},
         past := if Live(s.table, id, k) then s.past[id := k] else s.past)
    case CallbackWrite(id, ok) =>
      Write(s, s.past[id], Callback(id), ok).(past := s.past - {id})
    case Close =>
      s.(table := Closed(s.table),
         flush := if s.table.closed then s.flush else s.flush + multiset(s.table.pending),
         replaced := if s.table.closed then s.replaced else s.replaced + s.table.timers.Values)
    case FlushWrite(k, ok) =>
      Write(s, k, Flush, ok).(flush := s.flush - multiset{k})
  }

  ghost predicate Initial(s: State) {
    s.table == Table(map[], {}, false, 0) && s.started == map[] && s.past == map[] && s.flush == multiset{}
    && s.unscheduled == {} && s.missed == {} && s.failed == {} && s.replaced == {} && s.log == []
    && s.file == s.db
  }

  /** The states of a run, one per step taken. */
  ghost predicate Run(states: seq<State>, steps: seq<Step>) {
    && |states| == |steps| + 1
    && Initial(states[0])
    && forall i :: 0 <= i < |steps| ==> Enabled(states[i], steps[i]) && states[i + 1] == Next(states[i], steps[i])
  }

  // ---- what every reachable state satisfies

  /** A write for `k` is on its way: its timer is live, a callback holds it, or Close will flush it. */
  ghost predicate Outstanding(s: State, k: Key) {
    k in s.table.pending || k in s.past.Values || k in s.flush
  }

  /** Accepted for `k` at some point of the log with no write of `k` started since. */
  predicate Dirty(log: seq<Event>, k: Key) {
    log != [] &&
    var last := log[|log| - 1];
    if last.key == k then last.Accepted? else Dirty(log[..|log| - 1], k)
  }

  ghost predicate TableInv(s: State) {
    && s.table.pending == s.table.timers.Keys
    && (s.table.closed ==> s.table.pending == {})
    && (forall k :: k in s.table.timers ==> s.table.timers[k] in s.started && s.started[s.table.timers[k]] == k)
    && (forall id :: id in s.started || id in s.past || id in s.replaced ==> id < s.table.next)
    && s.started.Keys !! s.past.Keys
    && s.file.Keys <= s.db.Keys
  }

  /** Not the writer's doing: schedule not called yet, called after Close, or the last write failed. */
  ghost predicate Excused(s: State, k: Key) { k in s.unscheduled || k in s.missed || k in s.failed }

  ghost predicate ProgressInv(s: State) {
    && (forall k :: Dirty(s.log, k) ==> Outstanding(s, k))
    && (forall k :: Stored(s.file, k) != Stored(s.db, k) ==> Outstanding(s, k) || Excused(s, k))
  }

  ghost predicate Inv(s: State) { TableInv(s) && ProgressInv(s) }

  lemma {:induction false} ScheduleKeepsTable(s: State, k: Key)
    requires TableInv(s)
    ensures TableInv(Next(s, Schedule(k)))
  {
    var t := Next(s, Schedule(k));
    assert t.table.pending == t.table.timers.Keys;
  }

  lemma {:induction false} FireKeepsTable(s: State, id: TimerId)
    requires TableInv(s) && id in s.started
    ensures TableInv(Next(s, Fire(id)))
  {
    var t := Next(s, Fire(id));
    assert t.table.pending == t.table.timers.Keys;
  }

  lemma {:induction false} CloseKeepsTable(s: State)
    requires TableInv(s)
    ensures TableInv(Next(s, Close))
  {
    var t := Next(s, Close);
    assert t.table.pending == t.table.timers.Keys;
    if !s.table.closed {
      forall id | id in s.table.timers.Values ensures id < s.table.next {
        var k :| k in s.table.timers && s.table.timers[k] == id;
      }
    }
  }

  lemma {:induction false} TableInvKept(s: State, step: Step)
    requires TableInv(s) && Enabled(s, step)
    ensures TableInv(Next(s, step))
  {
    match step
    case Schedule(k) => ScheduleKeepsTable(s, k);
    case Fire(id) => FireKeepsTable(s, id);
    case Close => CloseKeepsTable(s);
    case _ =>
  }

  lemma {:induction false} DirtySnoc(log: seq<Event>, e: Event, k: Key)
    ensures Dirty(log + [e], k) <==> if e.key == k then e.Accepted? else Dirty(log, k)
  {
    assert (log + [e])[..|log|] == log;
  }

  /** Steps that write nothing keep every outstanding write outstanding. */
  lemma {:induction false} OutstandingKept(s: State, step: Step, k: Key)
    requires TableInv(s) && Enabled(s, step) && Outstanding(s, k)
    requires step.CallbackWrite? ==> s.past[step.id] != k
    requires step.FlushWrite? ==> step.k != k
    ensures Outstanding(Next(s, step), k)
  {
    var t := Next(s, step);
    if k in s.past.Values {
      var id :| id in s.past && s.past[id] == k;
      match step
      case Fire(id2) =>
        assert id2 != id;
        assert id in t.past && t.past[id] == k;
      case _ => assert id in t.past && t.past[id] == k;
    } else if k in s.table.pending {
      if step.Fire? && Live(s.table, step.id, s.started[step.id]) && s.started[step.id] == k {
        assert t.past[step.id] == k;
      }
    }
  }

  lemma {:induction false} ProgressInvKept(s: State, step: Step)
    requires Inv(s) && Enabled(s, step)
    ensures ProgressInv(Next(s, step))
  {
    var t := Next(s, step);
    forall k | Dirty(t.log, k) ensures Outstanding(t, k) { DirtyKept(s, step, k); }
    forall k | Stored(t.file, k) != Stored(t.db, k) ensures Outstanding(t, k) || Excused(t, k) {
      DriftKept(s, step, k);
    }
  }

  predicate Writes(s: State, step: Step, k: Key)
    requires Enabled(s, step)
  {
    (step.CallbackWrite? && s.past[step.id] == k) || (step.FlushWrite? && step.k == k)
  }

  lemma {:induction false} DirtyKept(s: State, step: Step, k: Key)
    requires TableInv(s) && ProgressInv(s) && Enabled(s, step) && Dirty(Next(s, step).log, k)
    ensures Outstanding(Next(s, step), k)
  {
    var t := Next(s, step);
    if t.log != s.log {
      DirtySnoc(s.log, t.log[|t.log| - 1], k);
      assert t.log == s.log + [t.log[|t.log| - 1]];
    }
    if step.Schedule? && !s.table.closed && step.k == k {
      assert k in t.table.pending;
    } else {
      OutstandingKept(s, step, k);
    }
  }

  lemma {:induction false} DriftKept(s: State, step: Step, k: Key)
    requires TableInv(s) && ProgressInv(s) && Enabled(s, step)
    requires Stored(Next(s, step).file, k) != Stored(Next(s, step).db, k)
    ensures var t := Next(s, step); Outstanding(t, k) || Excused(t, k)
  {
    if Outstanding(s, k) && !Writes(s, step, k) {
      OutstandingKept(s, step, k);
    }
  }

  /** Every state of every run satisfies the invariant. */
  lemma {:induction false} RunInv(states: seq<State>, steps: seq<Step>, i: nat)
    requires Run(states, steps) && i < |states|
    ensures Inv(states[i])
  {
    if i > 0 {
      RunInv(states, steps, i - 1);
      TableInvKept(states[i - 1], steps[i - 1]);
      ProgressInvKept(states[i - 1], steps[i - 1]);
    }
  }

  // ---- theorems over whole runs

  /** In every state, the pending keys are exactly those with a live timer, and that timer can still fire. */
  lemma {:induction false} PendingIsLive(states: seq<State>, steps: seq<Step>, i: nat)
    requires Run(states, steps) && i < |states|
    ensures var s := states[i];
            && s.table.pending == s.table.timers.Keys
            && forall k :: k in s.table.pending ==> s.table.timers[k] in s.started && s.started[s.table.timers[k]] == k
  {
    RunInv(states, steps, i);
  }

  /** One step of a run. */
  lemma {:induction false} StepAt(states: seq<State>, steps: seq<Step>, n: nat)
    requires Run(states, steps) && n < |steps|
    ensures Enabled(states[n], steps[n]) && states[n + 1] == Next(states[n], steps[n])
  {
  }

  lemma {:induction false} StepGrows(s: State, step: Step)
    requires Enabled(s, step)
    ensures Grew(s, Next(s, step))
  {
  }

  ghost predicate Grew(a: State, b: State) { a.replaced <= b.replaced && a.log <= b.log }

  lemma {:induction false} GrewTransitive(a: State, b: State, c: State)
    requires Grew(a, b) && Grew(b, c)
    ensures Grew(a, c)
  {
  }

  lemma {:induction false} RunGrows(states: seq<State>, steps: seq<Step>, i: nat, j: nat)
    requires Run(states, steps) && i <= j < |states|
    ensures Grew(states[i], states[j])
    decreases j
  {
    if i < j {
      RunGrows(states, steps, i, j - 1);
      StepAt(states, steps, j - 1);
      StepGrows(states[j - 1], steps[j - 1]);
      GrewTransitive(states[i], states[j - 1], states[j]);
    }
  }

  /** No write of `k` starts at or after position `p` of the log. */
  ghost predicate Unwritten(log: seq<Event>, k: Key, p: nat) {
    forall n :: p <= n < |log| ==> log[n].key != k || log[n].Accepted?
  }

  lemma {:induction false} UnwrittenIsDirty(log: seq<Event>, k: Key, p: nat)
    requires p < |log| && log[p].Accepted? && log[p].key == k && Unwritten(log, k, p)
    ensures Dirty(log, k)
  {
    if log[|log| - 1].key != k {
      UnwrittenIsDirty(log[..|log| - 1], k, p);
    }
  }

  /** No accepted schedule is lost: until a write of its key starts, one is on its way. */
  lemma {:induction false} AcceptedIsNeverLost(states: seq<State>, steps: seq<Step>, i: nat, p: nat)
    requires Run(states, steps) && i < |states|
    requires p < |states[i].log| && states[i].log[p].Accepted? && Unwritten(states[i].log, states[i].log[p].key, p)
    ensures Outstanding(states[i], states[i].log[p].key)
  {
    RunInv(states, steps, i);
    UnwrittenIsDirty(states[i].log, states[i].log[p].key, p);
  }

  /** With nothing on its way the files agree with the database, except for keys first scheduled after Close and keys whose last write failed. */
  lemma {:induction false} QuietMeansInSync(states: seq<State>, steps: seq<Step>, i: nat, k: Key)
    requires Run(states, steps) && i < |states|
    requires var s := states[i]; s.table.pending == {} && s.past == map[] && s.flush == multiset{} && s.unscheduled == {}
    requires k !in states[i].missed && k !in states[i].failed
    ensures var s := states[i]; (k in s.file <==> k in s.db) && (k in s.db ==> s.file[k] == s.db[k])
  {
    RunInv(states, steps, i);
    assert Stored(states[i].file, k) == Stored(states[i].db, k);
  }

  lemma {:induction false} NothingMissedWhileOpen(states: seq<State>, steps: seq<Step>, i: nat)
    requires Run(states, steps) && i < |states|
    ensures !states[i].table.closed ==> states[i].missed == {}
  {
    if i > 0 {
      NothingMissedWhileOpen(states, steps, i - 1);
      StepAt(states, steps, i - 1);
    }
  }

  /** What a closed syncer can still do. */
  ghost predicate Draining(before: State, now: State) {
    && now.table.closed && now.table.pending == {}
    && (forall id :: id in now.past ==> id in before.past && now.past[id] == before.past[id])
    && now.flush <= before.flush
    && before.log <= now.log
    && (forall n :: |before.log| <= n < |now.log| ==> LateWrite(before, now.log[n]))
    && |now.log| + |now.past| + |now.flush| == |before.log| + |before.past| + |before.flush|
  }

  /** A write by a callback that was already past the lock, or of a key Close took with it. */
  ghost predicate LateWrite(before: State, e: Event) {
    && e.WriteStart?
    && (match e.writer
        case Callback(id) => id in before.past && before.past[id] == e.key
        case Flush => e.key in before.flush)
  }

  lemma {:induction false} CallbackDrains(before: State, s: State, id: TimerId, ok: bool)
    requires Draining(before, s) && id in s.past
    ensures Draining(before, Next(s, CallbackWrite(id, ok)))
  {
    var t := Next(s, CallbackWrite(id, ok));
    assert t.past.Keys == s.past.Keys - {id};
    assert |t.past| == |t.past.Keys| && |s.past| == |s.past.Keys|;
  }

  lemma {:induction false} FlushDrains(before: State, s: State, k: Key, ok: bool)
    requires Draining(before, s) && k in s.flush
    ensures Draining(before, Next(s, FlushWrite(k, ok)))
  {
  }

  lemma {:induction false} DrainingKept(before: State, s: State, step: Step)
    requires TableInv(s) && Draining(before, s) && Enabled(s, step)
    ensures Draining(before, Next(s, step))
  {
    match step
    case CallbackWrite(id, ok) => CallbackDrains(before, s, id, ok);
    case FlushWrite(k, ok) => FlushDrains(before, s, k, ok);
    case _ =>
  }

  /**
   * After Close no schedule is accepted and no timer passes the lock: every later
   * write is one that was already on its way, each of those happens at most once,
   * and what is written plus what is left is always the same amount.
   */
  lemma {:induction false} CloseDrains(states: seq<State>, steps: seq<Step>, i: nat, j: nat)
    requires Run(states, steps) && i <= j < |states| && states[i].table.closed
    ensures Draining(states[i], states[j])
    decreases j
  {
    RunInv(states, steps, i);
    if i < j {
      CloseDrains(states, steps, i, j - 1);
      RunInv(states, steps, j - 1);
      DrainStep(states, steps, states[i], j - 1);
    } else {
      DrainingSelf(states[i]);
    }
  }

  lemma {:induction false} DrainStep(states: seq<State>, steps: seq<Step>, before: State, n: nat)
    requires Run(states, steps) && n < |steps| && TableInv(states[n]) && Draining(before, states[n])
    ensures Draining(before, states[n + 1])
  {
    StepAt(states, steps, n);
    var s, step := states[n], steps[n];
    DrainingKept(before, s, step);
  }

  lemma {:induction false} DrainingSelf(s: State)
    requires TableInv(s) && s.table.closed
    ensures Draining(s, s)
  {
  }

  // ---- coalescing: one write at most per accepted schedule

  function Wrote(log: seq<Event>): set<TimerId> {
    if log == [] then {}
    else
      var e := log[|log| - 1];
      Wrote(log[..|log| - 1]) + if e.WriteStart? && e.writer.Callback? then {e.writer.id} else {}
  }

  /** Four disjoint sets that together hold every number below `next`. */
  ghost predicate Partition(next: nat, a: set<TimerId>, b: set<TimerId>, c: set<TimerId>, d: set<TimerId>) {
    && (forall id: TimerId :: id < next <==> id in a || id in b || id in c || id in d)
    && a !! b && a !! c && a !! d && b !! c && b !! d && c !! d
  }

  /** Every accepted schedule is in exactly one of four places: live, past the lock, written, or taken over. */
  ghost predicate Accounted(s: State) {
    && Partition(s.table.next, s.table.timers.Values, s.past.Keys, Wrote(s.log), s.replaced)
    && Injective(s.table.timers)
  }

  lemma {:induction false} PartitionAdd(next: nat, a: set<TimerId>, b: set<TimerId>, c: set<TimerId>, d: set<TimerId>, out: set<TimerId>)
    requires Partition(next, a, b, c, d) && out <= a
    ensures Partition(next + 1, a - out + {next}, b, c, d + out)
  {
    assert next !in a && next !in b && next !in c && next !in d;
  }

  lemma {:induction false} WroteSnoc(log: seq<Event>, e: Event)
    ensures Wrote(log + [e]) == Wrote(log) + if e.WriteStart? && e.writer.Callback? then {e.writer.id} else {}
  {
    assert (log + [e])[..|log|] == log;
  }

  ghost predicate Injective(m: map<Key, TimerId>) {
    forall k, l :: k in m && l in m && m[k] == m[l] ==> k == l
  }

  lemma {:induction false} ValuesPut(m: map<Key, TimerId>, k: Key, v: TimerId)
    requires Injective(m) && v !in m.Values
    ensures Injective(m[k := v])
    ensures m[k := v].Values == m.Values - (if k in m then {m[k]} else {}) + {v}
  {
    var m' := m[k := v];
    forall x | x in m.Values && x != v && !(k in m && m[k] == x) ensures x in m'.Values {
      var l :| l in m && m[l] == x;
      assert m'[l] == x;
    }
    assert m'[k] == v;
  }

  lemma {:induction false} ValuesDrop(m: map<Key, TimerId>, k: Key)
    requires Injective(m) && k in m
    ensures Injective(m - {k}) && (m - {k}).Values == m.Values - {m[k]}
  {
    var m' := m - {k};
    forall x | x in m.Values && x != m[k] ensures x in m'.Values {
      var l :| l in m && m[l] == x;
      assert m'[l] == x;
    }
  }

  lemma {:induction false} FireAccounts(s: State, id: TimerId)
    requires Accounted(s) && TableInv(s) && id in s.started
    ensures Accounted(Next(s, Fire(id)))
  {
    var k := s.started[id];
    if Live(s.table, id, k) {
      var t := Next(s, Fire(id));
      ValuesDrop(s.table.timers, k);
      assert id in s.table.timers.Values;
      assert t.past.Keys == s.past.Keys + {id};
    }
  }

  lemma {:induction false} CloseAccounts(s: State)
    requires Accounted(s) && TableInv(s)
    ensures Accounted(Next(s, Close))
  {
    assert s.table.timers - s.table.pending == map[];
  }

  lemma {:induction false} AccountedKept(s: State, step: Step)
    requires Accounted(s) && TableInv(s) && Enabled(s, step)
    ensures Accounted(Next(s, step))
  {
    match step
    case Schedule(k) =>
      var next, timers := s.table.next, s.table.timers;
      if !s.table.closed {
        PartitionAdd(next, timers.Values, s.past.Keys, Wrote(s.log), s.replaced, if k in timers then {timers[k]} else {});
        assert next !in timers.Values;
        ValuesPut(timers, k, next);
        WroteSnoc(s.log, Accepted(k, next));
      }
    case Fire(id) => FireAccounts(s, id);
    case CallbackWrite(id, _) =>
      WroteSnoc(s.log, WriteStart(s.past[id], Callback(id)));
      assert Next(s, step).past.Keys == s.past.Keys - {id};
    case FlushWrite(k, _) => WroteSnoc(s.log, WriteStart(k, Flush));
    case Close => CloseAccounts(s);
    case Change(_, _) =>
  }

  /** In every state of every run each accepted schedule is accounted for exactly once. */
  lemma {:induction false} SchedulesAreAccounted(states: seq<State>, steps: seq<Step>, i: nat)
    requires Run(states, steps) && i < |states|
    ensures Accounted(states[i])
  {
    if i > 0 {
      SchedulesAreAccounted(states, steps, i - 1);
      RunInv(states, steps, i - 1);
      StepAt(states, steps, i - 1);
      AccountedKept(states[i - 1], steps[i - 1]);
    }
  }

  /** A callback writes at most once. */
  lemma {:induction false} NoDoubleWrite(states: seq<State>, steps: seq<Step>, i: nat, n: nat, m: nat)
    requires Run(states, steps) && i < |states| && n < m < |states[i].log|
    requires states[i].log[n].WriteStart? && states[i].log[n].writer.Callback?
    ensures states[i].log[m] != states[i].log[n]
    decreases i
  {
    StepAt(states, steps, i - 1);
    var s := states[i - 1];
    if m < |s.log| {
      NoDoubleWrite(states, steps, i - 1, n, m);
    } else if steps[i - 1].CallbackWrite? {
      SchedulesAreAccounted(states, steps, i - 1);
      WroteMember(s.log, n);
    }
  }

  lemma {:induction false} WroteMember(log: seq<Event>, n: nat)
    requires n < |log| && log[n].WriteStart? && log[n].writer.Callback?
    ensures log[n].writer.id in Wrote(log)
  {
    if n < |log| - 1 {
      WroteMember(log[..|log| - 1], n);
    }
  }

  /** A timer that a later schedule or Close took over never writes, before or after. */
  lemma {:induction false} ReplacedTimersNeverWrite(states: seq<State>, steps: seq<Step>, i: nat, j: nat, n: nat)
    requires Run(states, steps) && i < |states| && j < |states| && n < |states[j].log|
    requires states[j].log[n].WriteStart? && states[j].log[n].writer.Callback?
    ensures states[j].log[n].writer.id !in states[i].replaced
  {
    var top := if i < j then j else i;
    RunGrows(states, steps, i, top);
    RunGrows(states, steps, j, top);
    SchedulesAreAccounted(states, steps, top);
    WroteMember(states[top].log, n);
  }

  // ---- what a state says about the run that led to it

  /** The value of `k` after the last of `steps` that changed it. */
  function ValueAfter(before: map<Key, Value>, steps: seq<Step>, k: Key): Option<Value> {
    if steps == [] then (if k in before then Some(before[k]) else None)
    else
      var n := |steps| - 1;
      if steps[n].Change? && steps[n].k == k then Some(steps[n].v) else ValueAfter(before, steps[..n], k)
  }

  ghost predicate Holds(m: map<Key, Value>, k: Key, v: Option<Value>) {
    (k in m <==> v.Some?) && (k in m ==> m[k] == v.value)
  }

  /** The database holds the last value given to each key. */
  lemma {:induction false} DatabaseIsLatest(states: seq<State>, steps: seq<Step>, i: nat, k: Key)
    requires Run(states, steps) && i < |states|
    ensures Holds(states[i].db, k, ValueAfter(states[0].db, steps[..i], k))
  {
    if i > 0 {
      DatabaseIsLatest(states, steps, i - 1, k);
      StepAt(states, steps, i - 1);
      assert steps[..i][..i - 1] == steps[..i - 1];
    }
  }

  /** `step` writes key `k`, with that outcome. */
  ghost predicate WritesKey(s: State, step: Step, k: Key, ok: bool) {
    match step
    case CallbackWrite(id, good) => id in s.past && s.past[id] == k && good == ok
    case FlushWrite(key, good) => key == k && good == ok
    case _ => false
  }

  /** What the last successful write of `k` among the first `i` steps found in the database. */
  ghost function LastWritten(states: seq<State>, steps: seq<Step>, i: nat, k: Key): Option<Value>
    requires i < |states| && |states| == |steps| + 1
  {
    if i > 0 && WritesKey(states[i - 1], steps[i - 1], k, true) && k in states[i - 1].db then Some(states[i - 1].db[k])
    else if i > 0 then LastWritten(states, steps, i - 1, k)
    else if k in states[0].file then Some(states[0].file[k]) else None
  }

  /** Whether the last write of `k` among the first `i` steps failed. */
  ghost predicate LastFailed(states: seq<State>, steps: seq<Step>, i: nat, k: Key)
    requires i < |states| && |states| == |steps| + 1
  {
    i > 0 && !WritesKey(states[i - 1], steps[i - 1], k, true)
    && (WritesKey(states[i - 1], steps[i - 1], k, false) || LastFailed(states, steps, i - 1, k))
  }

  /** A file holds what its last successful write found; `failed` names the keys whose last write failed, and no others. */
  lemma {:induction false} FilesAreWritten(states: seq<State>, steps: seq<Step>, i: nat, k: Key)
    requires Run(states, steps) && i < |states|
    ensures Holds(states[i].file, k, LastWritten(states, steps, i, k))
    ensures k in states[i].failed <==> LastFailed(states, steps, i, k)
  {
    if i > 0 {
      FilesAreWritten(states, steps, i - 1, k);
      StepAt(states, steps, i - 1);
      FileStep(states[i - 1], steps[i - 1], k);
    }
  }

  /** What one step does to the file of `k`. */
  lemma {:induction false} FileStep(s: State, step: Step, k: Key)
    requires Enabled(s, step)
    ensures var t, good, bad := Next(s, step), WritesKey(s, step, k, true), WritesKey(s, step, k, false);
      && Holds(t.file, k, if good && k in s.db then Some(s.db[k]) else if k in s.file then Some(s.file[k]) else None)
      && (k in t.failed <==> !good && (bad || k in s.failed))
  {
  }

  ghost predicate ClosedBefore(steps: seq<Step>, i: nat)
    requires i <= |steps|
  {
    exists n :: 0 <= n < i && steps[n] == Close
  }

  /** The syncer is closed exactly from the first Close on. */
  lemma {:induction false} ClosedIsForever(states: seq<State>, steps: seq<Step>, i: nat)
    requires Run(states, steps) && i < |states|
    ensures states[i].table.closed <==> ClosedBefore(steps, i)
  {
    if i > 0 {
      ClosedIsForever(states, steps, i - 1);
      StepAt(states, steps, i - 1);
      ClosedStep(states[i - 1], steps[i - 1]);
      ClosedBeforeNext(steps, i - 1);
    }
  }

  lemma {:induction false} ClosedStep(s: State, step: Step)
    requires Enabled(s, step)
    ensures Next(s, step).table.closed <==> s.table.closed || step == Close
  {
  }

  lemma {:induction false} ClosedBeforeNext(steps: seq<Step>, i: nat)
    requires i < |steps|
    ensures ClosedBefore(steps, i + 1) <==> ClosedBefore(steps, i) || steps[i] == Close
  {
  }

  /** A schedule before Close starts a timer of its own that is the live one; after Close it is only remembered as missed. */
  ghost predicate Schedules(s: State, t: State, k: Key, closed: bool) {
    if closed then
      t.table == s.table && t.started == s.started && t.log == s.log && k in t.missed
    else
      var id := s.table.next;
      && id !in s.started && k in t.table.timers && t.table.timers[k] == id && t.started == s.started[id := k]
      && k in t.table.pending && t.missed == s.missed && t.log == s.log + [Accepted(k, id)]
  }

  lemma {:induction false} ScheduleOutcome(states: seq<State>, steps: seq<Step>, i: nat, k: Key)
    requires Run(states, steps) && i < |steps| && steps[i] == Schedule(k)
    ensures Schedules(states[i], states[i + 1], k, ClosedBefore(steps, i))
  {
    RunInv(states, steps, i);
    ClosedIsForever(states, steps, i);
    StepAt(states, steps, i);
  }

  /** The first Close takes every pending key to its flush list and leaves no live timer; a later one changes nothing. */
  lemma {:induction false} CloseOutcome(states: seq<State>, steps: seq<Step>, i: nat)
    requires Run(states, steps) && i < |steps| && steps[i] == Close
    ensures var s, t := states[i], states[i + 1];
      if ClosedBefore(steps, i) then t == s
      else t.flush == s.flush + multiset(s.table.pending) && t.table.timers == map[] && t.table.pending == {} && t.started == s.started
  {
    RunInv(states, steps, i);
    ClosedIsForever(states, steps, i);
    StepAt(states, steps, i);
    assert states[i].table.timers - states[i].table.timers.Keys == map[];
  }
}
