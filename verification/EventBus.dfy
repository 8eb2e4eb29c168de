/**
 * The realtime event bus and the WebSocket loop that reads from it. A subscriber
 * has a bounded queue; when it is full the oldest event is dropped and a stale
 * flag is set, and the loop answers the flag with a resync frame.
 */
module EventBus {
  import opened Prelude

  const SUB_BUFFER: nat := 64

  datatype Event = Event(typ: string, topic: string, app: string)

  /** Channel and flag of one subscriber after an event was offered to it. */
  function Offered<E>(ch: seq<E>, stale: bool, e: E): (seq<E>, bool) {
    if |ch| < SUB_BUFFER then (ch + [e], stale) else (ch[1..] + [e], true)
  }

  class Subscriber {
    const filter: Event -> bool
    var ch: seq<Event>
    var stale: bool
    var closed: bool

    constructor (filter: Event -> bool)
      ensures this.filter == filter && ch == [] && !stale && !closed
    {
      this.filter := filter;
      ch, stale, closed := [], false, false;
    }

    /** The nested selects of a publish: send, or drop the oldest, send and mark stale. */
    method Offer(e: Event)
      requires |ch| <= SUB_BUFFER
      modifies this
      ensures (ch, stale) == Offered(old(ch), old(stale), e) && closed == old(closed)
      ensures |ch| <= SUB_BUFFER
    {
      if |ch| < SUB_BUFFER {
        ch := ch + [e];
      } else {
        if |ch| > 0 {
          ch := ch[1..];
        }
        if |ch| < SUB_BUFFER {
          ch := ch + [e];
        }
        stale := true;
      }
    }
  }

  class Bus {
    var subs: seq<Subscriber>

    constructor ()
      ensures subs == []
    {
      subs := [];
    }

    ghost predicate Valid()
      reads this, subs
    {
      Distinct(subs) && forall i :: 0 <= i < |subs| ==> |subs[i].ch| <= SUB_BUFFER && !subs[i].closed
    }

    method Subscribe(filter: Event -> bool) returns (s: Subscriber)
      requires Valid()
      modifies this
      ensures Valid() && fresh(s) && subs == old(subs) + [s] && s.filter == filter && s.ch == [] && !s.stale
    {
      s := new Subscriber(filter);
      assert s !in subs;
      subs := subs + [s];
    }

    /** Unsubscribes and closes the channel; a second call finds it closed and does nothing. */
    method Cancel(s: Subscriber)
      requires Valid() && (s.closed || s in subs)
      modifies this, s
      ensures Valid() && s.closed && s !in subs
      ensures forall x :: x in old(subs) && x != s ==> x in subs
      ensures s.ch == old(s.ch) && s.stale == old(s.stale)
    {
      if s.closed {
        return;
      }
      var i :| 0 <= i < |subs| && subs[i] == s;
      ghost var before := subs;
      subs := subs[..i] + subs[i + 1..];
      assert forall k :: 0 <= k < |subs| ==> subs[k] == before[if k < i then k else k + 1];
      forall x | x in before && x != s ensures x in subs {
        var k :| 0 <= k < |before| && before[k] == x;
        assert subs[if k < i then k else k - 1] == x;
      }
      s.closed := true;
    }

    /** Offers an event to every subscriber whose filter accepts it; never blocks. */
    method Publish(e: Event)
      requires Valid()
      modifies subs
      ensures Valid() && subs == old(subs)
      ensures forall i :: 0 <= i < |subs| ==>
                (subs[i].ch, subs[i].stale) ==
                if subs[i].filter(e) then Offered(old(subs[i].ch), old(subs[i].stale), e)
                else (old(subs[i].ch), old(subs[i].stale))
    {
      var i := 0;
      while i < |subs|
        invariant 0 <= i <= |subs| && Valid()
        invariant forall k :: 0 <= k < i ==>
                    (subs[k].ch, subs[k].stale) ==
                    if subs[k].filter(e) then Offered(old(subs[k].ch), old(subs[k].stale), e)
                    else (old(subs[k].ch), old(subs[k].stale))
        invariant forall k :: i <= k < |subs| ==> subs[k].ch == old(subs[k].ch) && subs[k].stale == old(subs[k].stale)
      {
        if subs[i].filter(e) {
          subs[i].Offer(e);
        }
        i := i + 1;
      }
    }
  }

  // ---- one subscriber, its publishers and its WebSocket loop

  /** An accepted event with its position among the accepted ones. */
  datatype Item = Item(pos: nat, event: Event)

  /** Where the loop is: waiting, writing an event frame, about to read the flag, to clear it, to send the resync, or gone. */
  datatype Place = Waiting | Writing(item: Item) | Checking | Resetting | Resyncing | Gone

  datatype Entry = Dropped(item: Item) | EventFrame(item: Item) | ResyncFrame

  datatype State = State(
    accepted: nat,
    queue: seq<Item>,
    stale: bool,
    place: Place,
    received: seq<Item>,
    overflowed: bool,
    log: seq<Entry>)

  /** A drop in the log with no resync frame after it. */
  predicate Owed(log: seq<Entry>) {
    log != [] &&
    match log[|log| - 1]
    case Dropped(_) => true
    case ResyncFrame => false
    case EventFrame(_) => Owed(log[..|log| - 1])
  }

  datatype Step =
    | Publish(event: Event)
    | Receive
    | WriteFrame(ok: bool)   // a failed write, or an event that ends the session, closes the socket
    | ReadFlag
    | ResetFlag
    | SendResync

  predicate Enabled(s: State, step: Step) {
    match step
    case Publish(_) => s.place != Gone
    case Receive => s.place == Waiting && s.queue != []
    case WriteFrame(_) => s.place.Writing?
    case ReadFlag => s.place == Checking
    case ResetFlag => s.place == Resetting
    case SendResync => s.place == Resyncing
  }

  /** One event offered to the subscriber, with what the run remembers of it. */
  function Published(s: State, e: Event): State {
    var (queue, stale) := Offered(s.queue, s.stale, Item(s.accepted, e));
    var full := |s.queue| >= SUB_BUFFER;
    s.(accepted := s.accepted + 1, queue := queue, stale := stale, overflowed := s.overflowed || full,
       log := if full then s.log + [Dropped(s.queue[0])] else s.log)
  }

  function Events(items: seq<Item>): (es: seq<Event>)
    ensures |es| == |items| && forall i :: 0 <= i < |items| ==> es[i] == items[i].event
  {
    seq(|items|, i requires 0 <= i < |items| => items[i].event)
  }

  /** Numbering the events changes nothing about what an offer does to them. */
  lemma {:induction false} PublishIsOffer(s: State, e: Event)
    ensures var t := Published(s, e); (Events(t.queue), t.stale) == Offered(Events(s.queue), s.stale, e)
  {
    var t := Published(s, e);
    assert Events(t.queue) == Offered(Events(s.queue), s.stale, e).0;
  }

  /** With room an event is queued and nothing else happens; at 64 the oldest makes way and the subscriber is stale. */
  lemma {:induction false} OfferDropsOldest(ch: seq<Event>, stale: bool, e: Event)
    ensures |ch| < 64 ==> Offered(ch, stale, e) == (ch + [e], stale)
    ensures |ch| == 64 ==> |Offered(ch, stale, e).0| == 64 && Offered(ch, stale, e).0[..63] == ch[1..] && Offered(ch, stale, e).0[63] == e && Offered(ch, stale, e).1
  {
  }

  /** A step of the WebSocket loop. */
  function LoopNext(s: State, step: Step): State
    requires Enabled(s, step) && !step.Publish?
  {
    match step
    case Receive => s.(queue := s.queue[1..], received := s.received + [s.queue[0]], place := Writing(s.queue[0]))
    case WriteFrame(ok) =>
      s.(log := s.log + [EventFrame(s.place.item)], place := if ok then Checking else Gone)
    case ReadFlag => s.(place := if s.stale then Resetting else Waiting)
    case ResetFlag => s.(stale := false, place := Resyncing)
    case SendResync => s.(log := s.log + [ResyncFrame], place := Waiting)
  }

  function Next(s: State, step: Step): State
    requires Enabled(s, step)
  {
    if step.Publish? then Published(s, step.event) else LoopNext(s, step)
  }

  const INITIAL := State(0, [], false, Waiting, [], false, [])

  ghost predicate Run(states: seq<State>, steps: seq<Step>) {
    && |states| == |steps| + 1
    && states[0] == INITIAL
    && forall i :: 0 <= i < |steps| ==> Enabled(states[i], steps[i]) && states[i + 1] == Next(states[i], steps[i])
  }

  // ---- delivery

  /** Received and queued events: in order, ending in the newest accepted one, and all of them until the first overflow. */
  ghost predicate DeliveryOk(s: State) {
    var d := s.received + s.queue;
    && |s.queue| <= 64
    && InOrder(d, s.accepted)
    && (!s.overflowed ==> |d| == s.accepted && forall i :: 0 <= i < |d| ==> d[i].pos == i)
  }

  lemma {:induction false} DropKeepsOrder(received: seq<Item>, queue: seq<Item>, item: Item)
    requires queue != [] && (forall i, j :: 0 <= i < j < |received + queue| ==> (received + queue)[i].pos < (received + queue)[j].pos)
    requires (received + queue)[|received + queue| - 1].pos < item.pos
    ensures var d := received + (queue[1..] + [item]); forall i, j :: 0 <= i < j < |d| ==> d[i].pos < d[j].pos
  {
    var old', d := received + queue, received + (queue[1..] + [item]);
    assert forall i :: 0 <= i < |d| - 1 ==> d[i] == old'[if i < |received| then i else i + 1];
    assert forall i :: 0 <= i < |old'| ==> old'[i].pos < item.pos;
  }

  /** Delivered events: in order, ending in the newest. */
  ghost predicate InOrder(d: seq<Item>, accepted: nat) {
    && (forall i, j :: 0 <= i < j < |d| ==> d[i].pos < d[j].pos)
    && (accepted > 0 ==> d != [] && d[|d| - 1].pos == accepted - 1)
    && (accepted == 0 ==> d == [])
  }

  lemma {:induction false} InOrderSnoc(d: seq<Item>, item: Item)
    requires InOrder(d, item.pos)
    ensures InOrder(d + [item], item.pos + 1)
  {
  }

  lemma {:induction false} OverflowDelivers(s: State, e: Event)
    requires DeliveryOk(s) && |s.queue| >= SUB_BUFFER
    ensures DeliveryOk(Published(s, e))
  {
    DropKeepsOrder(s.received, s.queue, Item(s.accepted, e));
  }

  lemma {:induction false} PushDelivers(s: State, e: Event)
    requires DeliveryOk(s) && |s.queue| < SUB_BUFFER
    ensures DeliveryOk(Published(s, e))
  {
    var item := Item(s.accepted, e);
    InOrderSnoc(s.received + s.queue, item);
    assert s.received + (s.queue + [item]) == s.received + s.queue + [item];
  }

  lemma {:induction false} PublishDelivers(s: State, e: Event)
    requires DeliveryOk(s)
    ensures DeliveryOk(Published(s, e))
  {
    if |s.queue| < SUB_BUFFER {
      PushDelivers(s, e);
    } else {
      OverflowDelivers(s, e);
    }
  }

  lemma {:induction false} DeliveryKept(s: State, step: Step)
    requires DeliveryOk(s) && Enabled(s, step)
    ensures DeliveryOk(Next(s, step))
  {
    if step.Publish? {
      PublishDelivers(s, step.event);
    } else if step.Receive? {
      assert s.received + [s.queue[0]] + s.queue[1..] == s.received + s.queue;
    }
  }

  /** In every run the queue stays bounded and delivery is in order, newest last, and complete until the first overflow. */
  lemma {:induction false} DeliveryInEveryRun(states: seq<State>, steps: seq<Step>, i: nat)
    requires Run(states, steps) && i < |states|
    ensures DeliveryOk(states[i])
  {
    if i > 0 {
      DeliveryInEveryRun(states, steps, i - 1);
      DeliveryKept(states[i - 1], steps[i - 1]);
    }
  }

  // ---- no missed resync

  lemma {:induction false} OwedSnoc(log: seq<Entry>, e: Entry)
    ensures Owed(log + [e]) <==> e.Dropped? || (e.EventFrame? && Owed(log))
  {
    assert (log + [e])[..|log|] == log;
  }

  /** A resync that is owed is on its way: the loop will meet the flag, or has met it already. */
  ghost predicate ResyncOk(s: State) {
    && (Owed(s.log) && s.place != Gone ==>
          || (s.stale && (s.queue != [] || s.place.Writing? || s.place == Checking))
          || s.place == Resetting || s.place == Resyncing)
    && (s.place == Resetting ==> s.stale)
  }

  lemma {:induction false} ResyncKept(s: State, step: Step)
    requires ResyncOk(s) && Enabled(s, step)
    ensures ResyncOk(Next(s, step))
  {
    match step
    case Publish(e) =>
      if |s.queue| >= SUB_BUFFER {
        OwedSnoc(s.log, Dropped(s.queue[0]));
      }
    case WriteFrame(ok) => OwedSnoc(s.log, EventFrame(s.place.item));
    case SendResync => OwedSnoc(s.log, ResyncFrame);
    case _ =>
  }

  /** No drop goes unanswered: in every state of every run, an owed resync is on its way. */
  lemma {:induction false} NoMissedResync(states: seq<State>, steps: seq<Step>, i: nat)
    requires Run(states, steps) && i < |states|
    ensures ResyncOk(states[i])
  {
    if i > 0 {
      NoMissedResync(states, steps, i - 1);
      ResyncKept(states[i - 1], steps[i - 1]);
    }
  }

  /** The step the loop takes next while its writes succeed; none when it waits on an empty queue. */
  function LoopStep(s: State): Option<Step> {
    match s.place
    case Waiting => if s.queue == [] then None else Some(Receive)
    case Writing(_) => Some(WriteFrame(true))
    case Checking => Some(ReadFlag)
    case Resetting => Some(ResetFlag)
    case Resyncing => Some(SendResync)
    case Gone => None
  }

  /** Loop steps before an owed resync is sent. */
  function Distance(place: Place): nat {
    match place
    case Waiting => 5
    case Writing(_) => 4
    case Checking => 3
    case Resetting => 2
    case Resyncing => 1
    case Gone => 0
  }

  function Runs(s: State, n: nat): State
    decreases n
  {
    if n == 0 || LoopStep(s).None? then s else Runs(Next(s, LoopStep(s).value), n - 1)
  }

  /** An owed resync is sent within five steps of the loop, without waiting for another event. */
  lemma {:induction false} ResyncWithinFive(s: State)
    requires ResyncOk(s) && Owed(s.log) && s.place != Gone
    ensures !Owed(Runs(s, Distance(s.place)).log)
    decreases Distance(s.place)
  {
    assert LoopStep(s).Some?;
    var t := Next(s, LoopStep(s).value);
    match s.place
    case Resyncing =>
      OwedSnoc(s.log, ResyncFrame);
      assert Runs(t, 0) == t;
    case Writing(item) =>
      OwedSnoc(s.log, EventFrame(item));
      ResyncWithinFive(t);
    case Gone =>
    case Waiting => ResyncWithinFive(t);
    case Checking => ResyncWithinFive(t);
    case Resetting => ResyncWithinFive(t);
  }

  // ---- what the client is sent

  /** The events written to the socket, in order. */
  function Frames(log: seq<Entry>): seq<Item> {
    if log == [] then []
    else Frames(log[..|log| - 1]) + match log[|log| - 1] case EventFrame(item) => [item] case _ => []
  }

  ghost predicate FramesOk(s: State) {
    && s.received == Frames(s.log) + (if s.place.Writing? then [s.place.item] else [])
    && (!s.overflowed ==> !s.stale && s.place != Resetting && s.place != Resyncing && forall i :: 0 <= i < |s.log| ==> s.log[i].EventFrame?)
  }

  lemma {:induction false} FramesSnoc(log: seq<Entry>, e: Entry)
    ensures Frames(log + [e]) == Frames(log) + match e case EventFrame(item) => [item] case _ => []
  {
    assert (log + [e])[..|log|] == log;
  }

  lemma {:induction false} FramesKept(s: State, step: Step)
    requires FramesOk(s) && Enabled(s, step)
    ensures FramesOk(Next(s, step))
  {
    match step
    case Publish(e) =>
      if |s.queue| >= SUB_BUFFER { FramesSnoc(s.log, Dropped(s.queue[0])); }
    case WriteFrame(ok) => FramesSnoc(s.log, EventFrame(s.place.item));
    case SendResync => FramesSnoc(s.log, ResyncFrame);
    case _ =>
  }

  /**
   * In every run the client is written every received event once, in order, the one in
   * hand excepted; and without an overflow nothing else: no resync frame.
   */
  lemma {:induction false} ClientIsSent(states: seq<State>, steps: seq<Step>, i: nat)
    requires Run(states, steps) && i < |states|
    ensures FramesOk(states[i])
  {
    if i > 0 {
      ClientIsSent(states, steps, i - 1);
      FramesKept(states[i - 1], steps[i - 1]);
    }
  }

  /** A failed write closes the socket: it is the last step of its run. */
  lemma {:induction false} FailedWriteEnds(states: seq<State>, steps: seq<Step>, i: nat)
    requires Run(states, steps) && i < |steps| && steps[i] == WriteFrame(false)
    ensures i == |steps| - 1 && states[i + 1].place == Gone
  {
    assert Enabled(states[i], steps[i]) && states[i + 1] == Next(states[i], steps[i]);
  }

  function Drops(log: seq<Entry>): nat {
    if log == [] then 0 else Drops(log[..|log| - 1]) + if log[|log| - 1].Dropped? then 1 else 0
  }

  function Resyncs(log: seq<Entry>): nat {
    if log == [] then 0 else Resyncs(log[..|log| - 1]) + if log[|log| - 1].ResyncFrame? then 1 else 0
  }

  lemma {:induction false} CountsSnoc(log: seq<Entry>, e: Entry)
    ensures Drops(log + [e]) == Drops(log) + if e.Dropped? then 1 else 0
    ensures Resyncs(log + [e]) == Resyncs(log) + if e.ResyncFrame? then 1 else 0
  {
    assert (log + [e])[..|log|] == log;
  }

  /** Every resync sent, flagged or about to be sent has a drop of its own. */
  ghost predicate ResyncsEarned(s: State) {
    && Resyncs(s.log) + (if s.stale then 1 else 0) + (if s.place == Resyncing then 1 else 0) <= Drops(s.log)
    && (s.place == Resetting ==> s.stale)
  }

  lemma {:induction false} EarnedKept(s: State, step: Step)
    requires ResyncsEarned(s) && Enabled(s, step)
    ensures ResyncsEarned(Next(s, step))
  {
    match step
    case Publish(e) =>
      if |s.queue| >= SUB_BUFFER { CountsSnoc(s.log, Dropped(s.queue[0])); }
    case WriteFrame(ok) => CountsSnoc(s.log, EventFrame(s.place.item));
    case SendResync => CountsSnoc(s.log, ResyncFrame);
    case _ =>
  }

  /** The client never gets more resync frames than events were dropped. */
  lemma {:induction false} NoNeedlessResync(states: seq<State>, steps: seq<Step>, i: nat)
    requires Run(states, steps) && i < |states|
    ensures ResyncsEarned(states[i])
  {
    if i > 0 {
      NoNeedlessResync(states, steps, i - 1);
      EarnedKept(states[i - 1], steps[i - 1]);
    }
  }

  // ---- the same loop against publishers that are not atomic

  /** A publisher that found the queue full: about to drop, to send, or to mark the subscriber. */
  datatype Publisher = FoundFull(item: Item) | Sending(item: Item) | Marking

  datatype FineState = FineState(base: State, publishers: map<nat, Publisher>)

  datatype FineStep =
    | Loop(step: Step)
    | Try(id: nat, event: Event)
    | Drop(id: nat)
    | Push(id: nat)
    | Mark(id: nat)

  predicate FineEnabled(f: FineState, step: FineStep) {
    match step
    case Loop(s) => !s.Publish? && Enabled(f.base, s)
    case Try(id, _) => id !in f.publishers && f.base.place != Gone
    case Drop(id) => id in f.publishers && f.publishers[id].FoundFull?
    case Push(id) => id in f.publishers && f.publishers[id].Sending?
    case Mark(id) => id in f.publishers && f.publishers[id].Marking?
  }

  function FineNext(f: FineState, step: FineStep): FineState
    requires FineEnabled(f, step)
  {
    var s := f.base;
    match step
    case Loop(l) => f.(base := LoopNext(s, l))
    case Try(id, e) =>
      var item := Item(s.accepted, e);
      if |s.queue| < SUB_BUFFER then f.(base := s.(accepted := s.accepted + 1, queue := s.queue + [item]))
      else f.(base := s.(accepted := s.accepted + 1), publishers := f.publishers[id := FoundFull(item)])
    case Drop(id) =>
      f.(base := if s.queue == [] then s
                 else s.(queue := s.queue[1..], overflowed := true, log := s.log + [Dropped(s.queue[0])]),
         publishers := f.publishers[id := Sending(f.publishers[id].item)])
    case Push(id) =>
      var item := f.publishers[id].item;
      f.(base := if |s.queue| < SUB_BUFFER then s.(queue := s.queue + [item])
                 else s.(overflowed := true, log := s.log + [Dropped(item)]),
         publishers := f.publishers[id := Marking])
    case Mark(id) =>
      f.(base := s.(stale := true), publishers := f.publishers - {id})
  }

  /** The state a sequence of finer steps leads to, if each was enabled. */
  function After(path: seq<FineStep>): Option<FineState> {
    if path == [] then Some(FineState(INITIAL, map[]))
    else
      match After(path[..|path| - 1])
      case None => None
      case Some(g) => if FineEnabled(g, path[|path| - 1]) then Some(FineNext(g, path[|path| - 1])) else None
  }

  function Then(f: Option<FineState>, step: FineStep): Option<FineState> {
    if f.Some? && FineEnabled(f.value, step) then Some(FineNext(f.value, step)) else None
  }

  /** One publish run to its end with nothing in between. */
  function PublishAlone(f: FineState, id: nat, e: Event): Option<FineState> {
    var tried := Then(Some(f), Try(id, e));
    if tried.Some? && id in tried.value.publishers then Then(Then(Then(tried, Drop(id)), Push(id)), Mark(id)) else tried
  }

  /** A publish that nothing interleaves is exactly one atomic publish. */
  lemma {:induction false} AloneIsAtomic(f: FineState, id: nat, e: Event)
    requires id !in f.publishers && f.base.place != Gone && |f.base.queue| <= SUB_BUFFER
    ensures PublishAlone(f, id, e) == Some(FineState(Published(f.base, e), f.publishers))
  {
    if |f.base.queue| == SUB_BUFFER {
      var item := Item(f.base.accepted, e);
      var f1 := FineNext(f, Try(id, e));
      assert f1.publishers == f.publishers[id := FoundFull(item)];
      var f2 := FineNext(f1, Drop(id));
      var f3 := FineNext(f2, Push(id));
      assert f3.publishers == f.publishers[id := Marking];
      assert FineNext(f3, Mark(id)).publishers == f.publishers;
    }
  }

  /** A publisher that has dropped something and not yet marked the subscriber. */
  ghost predicate Underway(f: FineState) {
    exists id :: id in f.publishers && !f.publishers[id].FoundFull?
  }

  /** The weaker promise that survives: an owed resync is flagged, about to be flagged, or about to be sent. */
  ghost predicate FineResyncOk(f: FineState) {
    && |f.base.queue| <= SUB_BUFFER
    && (Owed(f.base.log) ==> f.base.stale || Underway(f) || f.base.place == Resyncing || f.base.place == Gone)
    && (f.base.place == Resetting ==> f.base.stale)
  }

  lemma {:induction false} UnderwayKept(f: FineState, step: FineStep)
    requires Underway(f) && FineEnabled(f, step) && !step.Mark?
    ensures Underway(FineNext(f, step))
  {
    var id :| id in f.publishers && !f.publishers[id].FoundFull?;
    var t := FineNext(f, step);
    assert id in t.publishers && !t.publishers[id].FoundFull?;
  }

  lemma {:induction false} FineResyncKept(f: FineState, step: FineStep)
    requires FineResyncOk(f) && FineEnabled(f, step)
    ensures FineResyncOk(FineNext(f, step))
  {
    var s, t := f.base, FineNext(f, step);
    if Underway(f) && !step.Mark? {
      UnderwayKept(f, step);
    }
    match step
    case Loop(l) =>
      if l.WriteFrame? {
        OwedSnoc(s.log, EventFrame(s.place.item));
      } else if l.SendResync? {
        OwedSnoc(s.log, ResyncFrame);
      }
    case Drop(id) => assert t.publishers[id].Sending? && Underway(t);
    case Push(id) => assert t.publishers[id].Marking? && Underway(t);
    case _ =>
  }

  /** However publishers and the loop interleave, no drop is forgotten and the queue stays bounded. */
  lemma {:induction false} NoForgottenDrop(path: seq<FineStep>)
    requires After(path).Some?
    ensures FineResyncOk(After(path).value)
  {
    if path != [] {
      var n := |path| - 1;
      NoForgottenDrop(path[..n]);
      FineResyncKept(After(path[..n]).value, path[n]);
    }
  }

  /** The publishers that still hold their event. */
  ghost function Holders(ps: map<nat, Publisher>): set<nat> {
    set id | id in ps && !ps[id].Marking?
  }

  /** Every accepted event was received, is queued, was dropped or is held by its publisher. */
  ghost predicate Accounted(f: FineState) {
    && f.base.accepted == |f.base.received| + |f.base.queue| + Drops(f.base.log) + |Holders(f.publishers)|
    && (f.base.overflowed <==> Drops(f.base.log) > 0)
  }

  lemma {:induction false} HoldersStep(f: FineState, step: FineStep)
    requires FineEnabled(f, step)
    ensures var n, m := |Holders(f.publishers)|, |Holders(FineNext(f, step).publishers)|;
      match step
      case Loop(_) => m == n
      case Try(_, _) => m == n + if |f.base.queue| < SUB_BUFFER then 0 else 1
      case Drop(_) => m == n
      case Push(_) => m == n - 1
      case Mark(_) => m == n
  {
    var a, b := Holders(f.publishers), Holders(FineNext(f, step).publishers);
    match step
    case Loop(_) => assert a == b;
    case Try(id, e) => assert b == if |f.base.queue| < SUB_BUFFER then a else a + {id};
    case Drop(id) => assert a == b;
    case Push(id) => assert b == a - {id} && id in a;
    case Mark(id) => assert a == b;
  }

  lemma {:induction false} AccountedKept(f: FineState, step: FineStep)
    requires Accounted(f) && FineEnabled(f, step)
    ensures Accounted(FineNext(f, step))
  {
    var s := f.base;
    HoldersStep(f, step);
    match step
    case Loop(l) =>
      if l.WriteFrame? { CountsSnoc(s.log, EventFrame(s.place.item)); }
      else if l.SendResync? { CountsSnoc(s.log, ResyncFrame); }
    case Try(_, _) =>
    case Drop(_) =>
      if s.queue != [] { CountsSnoc(s.log, Dropped(s.queue[0])); }
    case Push(id) => CountsSnoc(s.log, Dropped(f.publishers[id].item));
    case Mark(_) =>
  }

  /** However publishers and the loop interleave, no accepted event vanishes without being counted as dropped. */
  lemma {:induction false} NothingVanishes(path: seq<FineStep>)
    requires After(path).Some?
    ensures Accounted(After(path).value)
  {
    if path == [] {
      assert Holders(map[]) == {};
    } else {
      var n := |path| - 1;
      NothingVanishes(path[..n]);
      AccountedKept(After(path[..n]).value, path[n]);
    }
  }

  lemma {:induction false} Extend(path: seq<FineStep>, g: FineState, step: FineStep) returns (p: seq<FineStep>, f: FineState)
    requires After(path) == Some(g) && FineEnabled(g, step)
    ensures f == FineNext(g, step) && After(p) == Some(f)
  {
    p, f := path + [step], FineNext(g, step);
    assert p[..|path|] == path;
  }

  lemma {:induction false} FillQueue(k: nat, e: Event) returns (p: seq<FineStep>, f: FineState)
    requires k <= SUB_BUFFER
    ensures After(p) == Some(f) && f.publishers == map[]
    ensures f.base.accepted == k && |f.base.queue| == k && !f.base.stale && f.base.place == Waiting && f.base.log == []
  {
    if k == 0 {
      p, f := [], FineState(INITIAL, map[]);
    } else {
      p, f := FillQueue(k - 1, e);
      p, f := Extend(p, f, Try(0, e));
    }
  }

  /** One event through the loop of a subscriber that is not marked. */
  lemma {:induction false} DrainOne(path: seq<FineStep>, g: FineState) returns (p: seq<FineStep>, f: FineState)
    requires After(path) == Some(g) && !g.base.stale && g.base.place == Waiting && g.base.queue != []
    ensures After(p) == Some(f) && f.publishers == g.publishers
    ensures |f.base.queue| == |g.base.queue| - 1 && !f.base.stale && f.base.place == Waiting
    ensures Owed(g.base.log) ==> Owed(f.base.log)
  {
    var item := g.base.queue[0];
    p, f := Extend(path, g, Loop(Receive));
    assert f.base.place == Writing(item);
    p, f := Extend(p, f, Loop(WriteFrame(true)));
    OwedSnoc(g.base.log, EventFrame(item));
    p, f := Extend(p, f, Loop(ReadFlag));
  }

  /** The loop empties the queue of a subscriber that is not marked, event by event. */
  lemma {:induction false} DrainQueue(path: seq<FineStep>, g: FineState) returns (p: seq<FineStep>, f: FineState)
    requires After(path) == Some(g) && !g.base.stale && g.base.place == Waiting
    ensures After(p) == Some(f) && f.publishers == g.publishers
    ensures f.base.queue == [] && !f.base.stale && f.base.place == Waiting && (Owed(g.base.log) ==> Owed(f.base.log))
    decreases |g.base.queue|
  {
    p, f := path, g;
    if g.base.queue != [] {
      p, f := DrainOne(path, g);
      p, f := DrainQueue(p, f);
    }
  }

  /** A publisher finds the queue full, drops the oldest event and sends its own, but has not marked yet. */
  lemma {:induction false} OverflowUnmarked(e: Event) returns (p: seq<FineStep>, f: FineState)
    ensures After(p) == Some(f) && f.publishers == map[0 := Marking]
    ensures Owed(f.base.log) && !f.base.stale && f.base.place == Waiting
  {
    p, f := FillQueue(SUB_BUFFER, e);
    var oldest := f.base.queue[0];
    p, f := Extend(p, f, Try(0, e));
    assert f.publishers == map[0 := FoundFull(Item(SUB_BUFFER, e))];
    OwedSnoc(f.base.log, Dropped(oldest));
    p, f := Extend(p, f, Drop(0));
    p, f := Extend(p, f, Push(0));
  }

  /**
   * The stronger promise does need atomic publishes: a publisher that marks the
   * subscriber only after the loop has drained the queue leaves a loop that waits
   * on an empty queue with a resync owed, until some later event arrives.
   */
  lemma {:induction false} LateMarkDelaysResync(e: Event) returns (p: seq<FineStep>, f: FineState)
    ensures After(p) == Some(f) && f.publishers == map[]
    ensures Owed(f.base.log) && f.base.stale && f.base.queue == [] && f.base.place == Waiting
    ensures LoopStep(f.base).None?
  {
    p, f := OverflowUnmarked(e);
    p, f := DrainQueue(p, f);
    p, f := Extend(p, f, Mark(0));
    assert f.publishers == map[];
  }

  /**
   * The exact condition, in every state publishers and the loop can reach: once no
   * publisher is between a drop and its mark, an owed resync goes out by itself, within
   * five steps of the loop, if and only if the loop is not waiting on an empty queue.
   */
  lemma {:induction false} ResyncUnlessIdle(path: seq<FineStep>)
    requires After(path).Some? && !Underway(After(path).value)
    requires var s := After(path).value.base; Owed(s.log) && s.place != Gone
    ensures var s := After(path).value.base; !Owed(Runs(s, Distance(s.place)).log) <==> !(s.place == Waiting && s.queue == [])
  {
    NoForgottenDrop(path);
    var s := After(path).value.base;
    if !(s.place == Waiting && s.queue == []) {
      ResyncWithinFive(s);
    }
  }

  /** Such a delayed resync goes out within five steps of the loop once the next event is queued. */
  lemma {:induction false} NextEventBringsResync(f: FineState, id: nat, e: Event)
    requires FineEnabled(f, Try(id, e)) && f.base.queue == [] && f.base.stale && f.base.place == Waiting && Owed(f.base.log)
    ensures !Owed(Runs(FineNext(f, Try(id, e)).base, 5).log)
  {
    ResyncWithinFive(FineNext(f, Try(id, e)).base);
  }
}
