/**
 * Deploy log streams: a bounded history for late subscribers, and a bounded
 * channel per subscriber that drops lines when it is full. Sending to or closing
 * a closed channel would panic, so that must not happen in any run.
 */
module DeployLogs {
  import opened Prelude

  datatype Line = Text(line: string, stream: string) | DoneLine(action: string, status: string)

  const HISTORY_LIMIT: nat := 10000
  const BUFFER: nat := 200

  type ChanId = nat

  datatype Chan = Chan(queue: seq<Line>, closed: bool)

  /** A non-blocking send: a full channel drops the line. */
  function TrySend(c: Chan, l: Line): Chan {
    if |c.queue| < BUFFER then c.(queue := c.queue + [l]) else c
  }

  function CloseChan(c: Chan): Chan { c.(closed := true) }

  function Last(h: seq<Line>, n: nat): seq<Line> { if |h| > n then h[|h| - n..] else h }

  function First(h: seq<Line>, n: nat): seq<Line> { if |h| > n then h[..n] else h }

  /** `panicked` records a send to a closed channel or a second close of one. */
  datatype Core = Core(history: seq<Line>, subs: seq<ChanId>, closed: bool, chans: map<ChanId, Chan>, next: ChanId, panicked: bool)

  function Subscribed(c: Core): Core {
    var ch := Chan(First(c.history, BUFFER), c.closed);
    c.(subs := if c.closed then c.subs else c.subs + [c.next], chans := c.chans[c.next := ch], next := c.next + 1)
  }

  function Without(subs: seq<ChanId>, id: ChanId): seq<ChanId> {
    if subs == [] then [] else if subs[0] == id then subs[1..] else [subs[0]] + Without(subs[1..], id)
  }

  function Unsubscribed(c: Core, id: ChanId): Core { c.(subs := Without(c.subs, id)) }

  function Broadcast(chans: map<ChanId, Chan>, subs: set<ChanId>, l: Line, close: bool): map<ChanId, Chan> {
    map id | id in chans ::
      if id !in subs then chans[id]
      else if close then CloseChan(TrySend(chans[id], l)) else TrySend(chans[id], l)
  }

  /** Going through the subscribers would hit a closed channel, or close one listed twice. */
  ghost predicate WouldPanic(c: Core, close: bool) {
    || (exists id :: id in c.subs && id in c.chans && c.chans[id].closed)
    || (close && !Distinct(c.subs))
  }

  ghost function Sent(c: Core, l: Line): Core {
    if c.closed then c
    else c.(history := Last(c.history + [l], HISTORY_LIMIT),
            chans := Broadcast(c.chans, Elements(c.subs), l, false),
            panicked := c.panicked || WouldPanic(c, false))
  }

  ghost function ClosedWith(c: Core, done: Line): Core {
    if c.closed then c
    else c.(closed := true, history := c.history + [done],
            chans := Broadcast(c.chans, Elements(c.subs), done, true),
            panicked := c.panicked || WouldPanic(c, true))
  }

  /** Subscribers are distinct, and open as long as the log is. */
  ghost predicate Sound(c: Core) {
    && !c.panicked
    && Distinct(c.subs)
    && (forall id :: id in c.subs ==> id in c.chans)
    && (!c.closed ==> forall id :: id in c.subs ==> !c.chans[id].closed)
    && (forall id :: id in c.chans ==> id < c.next)
  }

  lemma {:induction false} WithoutAt(subs: seq<ChanId>, i: nat)
    requires i < |subs| && subs[i] !in subs[..i]
    ensures Without(subs, subs[i]) == subs[..i] + subs[i + 1..]
  {
    if i > 0 {
      assert subs[..i] == [subs[0]] + subs[1..][..i - 1];
      WithoutAt(subs[1..], i - 1);
    }
  }

  lemma {:induction false} WithoutMissing(subs: seq<ChanId>, id: ChanId)
    requires id !in subs
    ensures Without(subs, id) == subs
  {
    if subs != [] { WithoutMissing(subs[1..], id); }
  }

  class DeployLog {
    var history: seq<Line>
    var subs: seq<ChanId>
    var closed: bool
    var chans: map<ChanId, Chan>
    var next: ChanId

    ghost function Abs(): Core
      reads this
    {
      Core(history, subs, closed, chans, next, false)
    }

    constructor ()
      ensures Abs() == Core([], [], false, map[], 0, false)
    {
      history, subs, closed, chans, next := [], [], false, map[], 0;
    }

    method Subscribe() returns (id: ChanId)
      modifies this
      ensures id == old(next) && Abs() == Subscribed(old(Abs()))
    {
      id := next;
      next := next + 1;
      var ch, i := Chan([], false), 0;
      while i < |history|
        invariant 0 <= i <= |history| && !ch.closed
        invariant ch.queue == First(history[..i], BUFFER)
      {
        ch := TrySend(ch, history[i]);
        i := i + 1;
      }
      assert history[..|history|] == history;
      if closed {
        chans := chans[id := CloseChan(ch)];
        return;
      }
      chans := chans[id := ch];
      subs := subs + [id];
    }

    method Unsubscribe(id: ChanId)
      modifies this
      ensures Abs() == Unsubscribed(old(Abs()), id)
    {
      for i := 0 to |subs|
        invariant subs == old(subs) && id !in subs[..i]
      {
        if subs[i] == id {
          WithoutAt(subs, i);
          subs := subs[..i] + subs[i + 1..];
          return;
        }
        assert subs[..i + 1] == subs[..i] + [subs[i]];
      }
      assert subs[..|subs|] == subs;
      WithoutMissing(subs, id);
    }

    /** Offers a line to every subscriber in turn, closing each afterwards if asked. */
    method Offer(l: Line, close: bool)
      requires Sound(Abs()) && forall id :: id in subs ==> !chans[id].closed
      modifies this`chans
      ensures chans == Broadcast(old(chans), Elements(subs), l, close)
    {
      var i := 0;
      while i < |subs|
        invariant 0 <= i <= |subs|
        invariant chans.Keys == old(chans).Keys
        invariant chans == Broadcast(old(chans), Elements(subs[..i]), l, close)
      {
        var id := subs[i];
        assert id in subs && id !in subs[..i];
        assert Elements(subs[..i + 1]) == Elements(subs[..i]) + {id};
        chans := chans[id := TrySend(chans[id], l)];
        if close {
          chans := chans[id := CloseChan(chans[id])];
        }
        i := i + 1;
      }
      assert subs[..|subs|] == subs;
    }

    method Send(l: Line)
      requires Sound(Abs())
      modifies this
      ensures Abs() == Sent(old(Abs()), l)
    {
      if closed {
        return;
      }
      history := history + [l];
      if |history| > HISTORY_LIMIT {
        history := history[|history| - HISTORY_LIMIT..];
      }
      Offer(l, false);
    }

    method CloseWith(action: string, status: string)
      requires Sound(Abs())
      modifies this
      ensures Abs() == ClosedWith(old(Abs()), DoneLine(action, status))
    {
      if closed {
        return;
      }
      closed := true;
      var done := DoneLine(action, status);
      history := history + [done];
      Offer(done, true);
    }
  }

  lemma {:induction false} WithoutMembers(subs: seq<ChanId>, id: ChanId)
    requires Distinct(subs)
    ensures forall x :: x in Without(subs, id) <==> x in subs && x != id
  {
    if subs != [] {
      WithoutMembers(subs[1..], id);
      assert subs == [subs[0]] + subs[1..];
    }
  }

  lemma {:induction false} WithoutDistinct(subs: seq<ChanId>, id: ChanId)
    requires Distinct(subs)
    ensures Distinct(Without(subs, id))
  {
    if subs != [] && subs[0] != id {
      WithoutDistinct(subs[1..], id);
      WithoutMembers(subs[1..], id);
      var r := Without(subs[1..], id);
      assert forall i :: 0 <= i < |r| ==> r[i] in r && r[i] in subs[1..];
    }
  }

  // ---- runs, with a record of what each subscriber should see

  /** Positions of the lines that went into a subscriber's channel, and what the consumer took out of it. */
  datatype Track = Track(from: nat, upto: nat, got: seq<nat>, received: seq<Line>, dropped: bool)

  datatype State = State(core: Core, sent: seq<Line>, tracks: map<ChanId, Track>)

  datatype Step =
    | Subscribe
    | Unsubscribe(id: ChanId)
    | Send(l: Line)
    | Close(action: string, status: string)
    | Receive(id: ChanId)

  predicate Enabled(s: State, step: Step) {
    step.Receive? ==> step.id in s.core.chans && step.id in s.tracks && s.core.chans[step.id].queue != []
  }

  function Range(from: nat, upto: nat): seq<nat>
    requires from <= upto
  {
    seq(upto - from, i requires 0 <= i < upto - from => from + i)
  }

  /** The record of a subscriber that just had the history replayed to it. */
  function NewTrack(sent: nat, history: seq<Line>): Track {
    var from := if |history| <= sent then sent - |history| else 0;
    var m := |First(history, BUFFER)|;
    Track(from, sent, Range(from, from + m), [], m < |history|)
  }

  function Noted(t: Track, full: bool, pos: nat): Track {
    if full then t.(upto := pos + 1, dropped := true) else t.(upto := pos + 1, got := t.got + [pos])
  }

  function NotedAll(s: State): map<ChanId, Track> {
    map id | id in s.tracks ::
      if id in s.core.subs && id in s.core.chans then Noted(s.tracks[id], |s.core.chans[id].queue| >= BUFFER, |s.sent|) else s.tracks[id]
  }

  ghost function Next(s: State, step: Step): State
    requires Enabled(s, step)
  {
    match step
    case Subscribe =>
      State(Subscribed(s.core), s.sent, s.tracks[s.core.next := NewTrack(|s.sent|, s.core.history)])
    case Unsubscribe(id) => s.(core := Unsubscribed(s.core, id))
    case Send(l) =>
      State(Sent(s.core, l), if s.core.closed then s.sent else s.sent + [l], if s.core.closed then s.tracks else NotedAll(s))
    case Close(action, status) =>
      State(ClosedWith(s.core, DoneLine(action, status)),
            if s.core.closed then s.sent else s.sent + [DoneLine(action, status)],
            if s.core.closed then s.tracks else NotedAll(s))
    case Receive(id) =>
      var c, t := s.core.chans[id], s.tracks[id];
      s.(core := s.core.(chans := s.core.chans[id := c.(queue := c.queue[1..])]),
         tracks := s.tracks[id := t.(received := t.received + [c.queue[0]])])
  }

  const INITIAL := State(Core([], [], false, map[], 0, false), [], map[])

  function Pick(sent: seq<Line>, got: seq<nat>): seq<Line>
    requires forall i :: 0 <= i < |got| ==> got[i] < |sent|
  {
    seq(|got|, i requires 0 <= i < |got| => sent[got[i]])
  }

  /** A subscriber's stream: in order, without duplicates, complete unless its buffer was once full. */
  ghost predicate StreamOk(sent: seq<Line>, c: Chan, t: Track) {
    && t.from <= t.upto <= |sent|
    && StrictlyAscending(t.got)
    && (forall i :: 0 <= i < |t.got| ==> t.from <= t.got[i] < t.upto)
    && t.received + c.queue == Pick(sent, t.got)
    && (!t.dropped ==> t.got == Range(t.from, t.upto))
    && |c.queue| <= BUFFER
  }

  ghost predicate HistoryOk(s: State) {
    && |s.core.history| <= |s.sent|
    && s.core.history == s.sent[|s.sent| - |s.core.history|..]
    && (!s.core.closed ==> s.core.history == Last(s.sent, HISTORY_LIMIT))
    && (s.core.closed ==>
          && |s.sent| > 0 && s.sent[|s.sent| - 1].DoneLine?
          && s.core.history == Last(s.sent[..|s.sent| - 1], HISTORY_LIMIT) + [s.sent[|s.sent| - 1]])
  }

  ghost predicate StreamsOk(s: State) {
    && s.tracks.Keys == s.core.chans.Keys
    && (forall id :: id in s.tracks ==> StreamOk(s.sent, s.core.chans[id], s.tracks[id]))
    && (forall id :: id in s.core.subs ==> id in s.tracks && s.tracks[id].upto == |s.sent|)
  }

  ghost predicate Inv(s: State) { Sound(s.core) && HistoryOk(s) && StreamsOk(s) }

  ghost predicate Run(states: seq<State>, steps: seq<Step>) {
    && |states| == |steps| + 1
    && states[0] == INITIAL
    && forall i :: 0 <= i < |steps| ==> Enabled(states[i], steps[i]) && states[i + 1] == Next(states[i], steps[i])
  }

  lemma {:induction false} SoundKept(s: State, step: Step)
    requires Sound(s.core) && Enabled(s, step)
    ensures Sound(Next(s, step).core)
  {
    match step
    case Subscribe =>
      assert forall i :: 0 <= i < |s.core.subs| ==> s.core.subs[i] in s.core.subs;
    case Unsubscribe(id) =>
      WithoutMembers(s.core.subs, id);
      WithoutDistinct(s.core.subs, id);
    case _ =>
  }

  lemma {:induction false} LastSnoc(sent: seq<Line>, l: Line)
    ensures Last(Last(sent, HISTORY_LIMIT) + [l], HISTORY_LIMIT) == Last(sent + [l], HISTORY_LIMIT)
  {
  }

  lemma {:induction false} SuffixSnoc(sent: seq<Line>, h: seq<Line>, l: Line)
    requires |h| <= |sent| && h == sent[|sent| - |h|..]
    ensures h + [l] == (sent + [l])[|sent| - |h|..]
  {
  }

  lemma {:induction false} LastIsSuffix(sent: seq<Line>)
    ensures var h := Last(sent, HISTORY_LIMIT); |h| <= |sent| && h == sent[|sent| - |h|..]
  {
  }

  lemma {:induction false} SendKeepsHistory(s: State, l: Line)
    requires HistoryOk(s) && !s.core.closed
    ensures HistoryOk(Next(s, Send(l)))
  {
    LastSnoc(s.sent, l);
    LastIsSuffix(s.sent + [l]);
  }

  lemma {:induction false} CloseKeepsHistory(s: State, action: string, status: string)
    requires HistoryOk(s) && !s.core.closed
    ensures HistoryOk(Next(s, Close(action, status)))
  {
    var t := Next(s, Close(action, status));
    assert t.sent[..|t.sent| - 1] == s.sent;
    SuffixSnoc(s.sent, s.core.history, DoneLine(action, status));
  }

  lemma {:induction false} HistoryKept(s: State, step: Step)
    requires HistoryOk(s) && Enabled(s, step)
    ensures HistoryOk(Next(s, step))
  {
    if step.Send? && !s.core.closed {
      SendKeepsHistory(s, step.l);
    } else if step.Close? && !s.core.closed {
      CloseKeepsHistory(s, step.action, step.status);
    }
  }

  lemma {:induction false} PickGrows(sent: seq<Line>, l: Line, got: seq<nat>)
    requires forall i :: 0 <= i < |got| ==> got[i] < |sent|
    ensures Pick(sent + [l], got) == Pick(sent, got)
    ensures Pick(sent + [l], got + [|sent|]) == Pick(sent, got) + [l]
  {
  }

  /** One more line for a subscriber that was up to date. */
  lemma {:induction false} StreamOffered(sent: seq<Line>, c: Chan, t: Track, l: Line)
    requires StreamOk(sent, c, t) && t.upto == |sent| && !c.closed
    ensures StreamOk(sent + [l], TrySend(c, l), Noted(t, |c.queue| >= BUFFER, |sent|))
  {
    PickGrows(sent, l, t.got);
    assert Range(t.from, t.upto + 1) == Range(t.from, t.upto) + [t.upto];
    if |c.queue| < BUFFER {
      assert t.received + (c.queue + [l]) == t.received + c.queue + [l];
    }
  }

  lemma {:induction false} StreamAside(sent: seq<Line>, c: Chan, t: Track, l: Line)
    requires StreamOk(sent, c, t)
    ensures StreamOk(sent + [l], c, t)
  {
    PickGrows(sent, l, t.got);
  }

  lemma {:induction false} ClosingKeepsStream(sent: seq<Line>, c: Chan, t: Track)
    requires StreamOk(sent, c, t) && !c.closed
    ensures StreamOk(sent, CloseChan(c), t)
  {
  }

  lemma {:induction false} OfferedKept(s: State, l: Line, close: bool, t: State)
    requires Inv(s) && !s.core.closed
    requires t.sent == s.sent + [l] && t.tracks == NotedAll(s) && t.core.subs == s.core.subs
    requires t.core.chans == Broadcast(s.core.chans, Elements(s.core.subs), l, close)
    ensures StreamsOk(t)
  {
    forall id | id in t.tracks ensures StreamOk(t.sent, t.core.chans[id], t.tracks[id]) {
      if id in s.core.subs {
        StreamOffered(s.sent, s.core.chans[id], s.tracks[id], l);
        if close {
          ClosingKeepsStream(t.sent, TrySend(s.core.chans[id], l), t.tracks[id]);
        }
      } else {
        StreamAside(s.sent, s.core.chans[id], s.tracks[id], l);
      }
    }
  }

  /** A new subscriber starts with the head of the history. */
  lemma {:induction false} StreamReplayed(sent: seq<Line>, history: seq<Line>, closed: bool)
    requires |history| <= |sent| && history == sent[|sent| - |history|..]
    ensures StreamOk(sent, Chan(First(history, BUFFER), closed), NewTrack(|sent|, history))
    ensures NewTrack(|sent|, history).upto == |sent|
  {
    var from, queue := |sent| - |history|, First(history, BUFFER);
    assert [] + queue == Pick(sent, Range(from, from + |queue|));
  }

  lemma {:induction false} SubscribeKept(s: State)
    requires Inv(s)
    ensures StreamsOk(Next(s, Subscribe))
  {
    var t := Next(s, Subscribe);
    var id := s.core.next;
    StreamReplayed(s.sent, s.core.history, s.core.closed);
    assert t.core.chans == s.core.chans[id := Chan(First(s.core.history, BUFFER), s.core.closed)];
    assert t.tracks == s.tracks[id := NewTrack(|s.sent|, s.core.history)];
    StreamsPut(s, t, id);
  }

  /** Adding or replacing one good stream keeps the others good. */
  lemma {:induction false} StreamsPut(s: State, t: State, id: ChanId)
    requires StreamsOk(s) && t.sent == s.sent && id in t.core.chans && id in t.tracks
    requires t.core.chans == s.core.chans[id := t.core.chans[id]] && t.tracks == s.tracks[id := t.tracks[id]]
    requires StreamOk(t.sent, t.core.chans[id], t.tracks[id])
    requires forall x :: x in t.core.subs ==> x in s.core.subs || x == id
    requires id in t.core.subs ==> t.tracks[id].upto == |t.sent|
    ensures StreamsOk(t)
  {
    forall x | x in t.tracks ensures StreamOk(t.sent, t.core.chans[x], t.tracks[x]) {
      if x != id {
        assert t.tracks[x] == s.tracks[x] && t.core.chans[x] == s.core.chans[x];
      }
    }
  }

  lemma {:induction false} ReceiveKept(s: State, id: ChanId)
    requires Inv(s) && Enabled(s, Receive(id))
    ensures StreamsOk(Next(s, Receive(id)))
  {
    var c, t := s.core.chans[id], s.tracks[id];
    assert t.received + [c.queue[0]] + c.queue[1..] == t.received + c.queue;
    StreamsPut(s, Next(s, Receive(id)), id);
  }

  lemma {:induction false} StreamsKept(s: State, step: Step)
    requires Inv(s) && Enabled(s, step)
    ensures StreamsOk(Next(s, step))
  {
    match step
    case Subscribe => SubscribeKept(s);
    case Unsubscribe(id) => WithoutMembers(s.core.subs, id);
    case Send(l) =>
      if !s.core.closed {
        OfferedKept(s, l, false, Next(s, step));
      }
    case Close(action, status) =>
      if !s.core.closed {
        OfferedKept(s, DoneLine(action, status), true, Next(s, step));
      }
    case Receive(id) => ReceiveKept(s, id);
  }

  /** Every state of every run is sound. */
  lemma {:induction false} RunInv(states: seq<State>, steps: seq<Step>, i: nat)
    requires Run(states, steps) && i < |states|
    ensures Inv(states[i])
  {
    if i > 0 {
      RunInv(states, steps, i - 1);
      SoundKept(states[i - 1], steps[i - 1]);
      HistoryKept(states[i - 1], steps[i - 1]);
      StreamsKept(states[i - 1], steps[i - 1]);
    }
  }

  // ---- theorems

  /** The history is the last lines sent, and after the end one Done line more. */
  lemma {:induction false} HistoryIsBounded(states: seq<State>, steps: seq<Step>, i: nat)
    requires Run(states, steps) && i < |states|
    ensures var s := states[i];
            if s.core.closed then
              && |s.sent| > 0 && s.sent[|s.sent| - 1].DoneLine?
              && s.core.history == Last(s.sent[..|s.sent| - 1], 10000) + [s.sent[|s.sent| - 1]]
            else s.core.history == Last(s.sent, 10000)
  {
    RunInv(states, steps, i);
  }

  /**
   * What a subscriber received and has queued is an in-order, duplicate-free
   * selection of the history it found and the lines sent while it was subscribed,
   * and all of them if its buffer was never full.
   */
  lemma {:induction false} StreamIsFaithful(states: seq<State>, steps: seq<Step>, i: nat, id: ChanId)
    requires Run(states, steps) && i < |states| && id in states[i].tracks
    ensures var s := states[i]; var t := s.tracks[id];
            && id in s.core.chans && t.from <= t.upto <= |s.sent|
            && StrictlyAscending(t.got) && (forall k :: 0 <= k < |t.got| ==> t.from <= t.got[k] < t.upto)
            && t.received + s.core.chans[id].queue == Pick(s.sent, t.got)
            && (!t.dropped ==> t.received + s.core.chans[id].queue == s.sent[t.from..t.upto])
            && (id in s.core.subs ==> t.upto == |s.sent|)
  {
    RunInv(states, steps, i);
    var s := states[i];
    var t := s.tracks[id];
    assert StreamOk(s.sent, s.core.chans[id], t);
    if !t.dropped {
      assert Pick(s.sent, Range(t.from, t.upto)) == s.sent[t.from..t.upto];
    }
  }

  /** No run ever sends to a closed channel or closes a channel twice. */
  lemma {:induction false} NoPanic(states: seq<State>, steps: seq<Step>, i: nat)
    requires Run(states, steps) && i < |states|
    ensures var c := states[i].core;
      && !c.panicked && Distinct(c.subs) && (forall id :: id in c.subs ==> id in c.chans)
      && (!c.closed ==> forall id :: id in c.subs ==> !c.chans[id].closed)
  {
    RunInv(states, steps, i);
  }

  // ---- who is served

  /** A subscriber that gets every line while the log is open, and the end when it is over. */
  ghost predicate Attached(s: State, id: ChanId) {
    && id in s.core.chans && id in s.tracks && s.tracks[id].upto == |s.sent|
    && if s.core.closed then s.core.chans[id].closed else id in s.core.subs
  }

  lemma {:induction false} SubscribeAttaches(s: State)
    requires Inv(s)
    ensures Attached(Next(s, Subscribe), s.core.next)
    ensures var t := Next(s, Subscribe); var h := s.core.history;
      && t.core.chans[s.core.next].queue == (if |h| > 200 then h[..200] else h)
      && t.tracks[s.core.next].from == |s.sent| - |h| && (t.tracks[s.core.next].dropped <==> |h| > 200)
      && t.tracks[s.core.next].received == []
      && t.core.subs == if s.core.closed then s.core.subs else s.core.subs + [s.core.next]
  {
    assert s.core.subs + [s.core.next] == Subscribed(s.core).subs || s.core.closed;
  }

  lemma {:induction false} AttachedKept(s: State, step: Step, id: ChanId)
    requires Inv(s) && Enabled(s, step) && Attached(s, id) && step != Unsubscribe(id)
    ensures Attached(Next(s, step), id)
  {
    match step
    case Unsubscribe(other) => WithoutMembers(s.core.subs, other);
    case _ =>
  }

  lemma {:induction false} StaysAttached(states: seq<State>, steps: seq<Step>, i: nat, j: nat, id: ChanId)
    requires Run(states, steps) && i < j < |states| && steps[i] == Subscribe && id == states[i].core.next
    requires forall k :: i < k < j ==> steps[k] != Unsubscribe(id)
    ensures Attached(states[j], id)
    decreases j
  {
    RunInv(states, steps, j - 1);
    if j == i + 1 {
      SubscribeAttaches(states[i]);
    } else {
      StaysAttached(states, steps, i, j - 1, id);
      AttachedKept(states[j - 1], steps[j - 1], id);
    }
  }

  lemma {:induction false} ServedAtEnd(s: State, id: ChanId)
    requires Inv(s) && Attached(s, id)
    ensures !s.core.closed ==> id in s.core.subs
    ensures s.core.closed ==> s.core.chans[id].closed && |s.sent| > 0 && s.sent[s.tracks[id].upto - 1].DoneLine?
  {
  }

  /**
   * A subscriber that did not unsubscribe is on the list and up to date while the log is
   * open; when the log is over its channel is closed and its last offered line was the
   * Done line, also if it came after the end.
   */
  lemma {:induction false} SubscriberIsServed(states: seq<State>, steps: seq<Step>, i: nat, j: nat, id: ChanId)
    requires Run(states, steps) && i < j < |states| && steps[i] == Subscribe && id == states[i].core.next
    requires forall k :: i < k < j ==> steps[k] != Unsubscribe(id)
    ensures var s := states[j];
      && id in s.core.chans && id in s.tracks && s.tracks[id].upto == |s.sent|
      && (!s.core.closed ==> id in s.core.subs)
      && (s.core.closed ==> s.core.chans[id].closed && |s.sent| > 0 && s.sent[s.tracks[id].upto - 1].DoneLine?)
  {
    RunInv(states, steps, j);
    StaysAttached(states, steps, i, j, id);
    ServedAtEnd(states[j], id);
  }

  /** A line for a subscriber on the list is queued if there is room for 200, else that line alone is lost. */
  lemma {:induction false} LineIsOffered(s: State, step: Step, id: ChanId)
    requires Inv(s) && Enabled(s, step) && !s.core.closed && id in s.core.subs && (step.Send? || step.Close?)
    ensures var queue := s.core.chans[id].queue;
      var line := if step.Send? then step.l else DoneLine(step.action, step.status);
      Next(s, step).core.chans[id] == Chan(if |queue| < 200 then queue + [line] else queue, step.Close?)
  {
  }

  /** A subscriber nobody dropped a line for, since it joined with a history of `from` lines before. */
  ghost predicate Undropped(s: State, id: ChanId, from: nat) {
    Attached(s, id) && !s.tracks[id].dropped && s.tracks[id].from == from
  }

  lemma {:induction false} UndroppedKept(s: State, step: Step, id: ChanId, from: nat)
    requires Inv(s) && Enabled(s, step) && Undropped(s, id, from) && step != Unsubscribe(id)
    requires step.Send? || step.Close? ==> |s.core.chans[id].queue| < 200
    ensures Undropped(Next(s, step), id, from)
  {
    AttachedKept(s, step, id);
  }

  lemma {:induction false} NeverFull(states: seq<State>, steps: seq<Step>, i: nat, j: nat, id: ChanId)
    requires Run(states, steps) && i < j < |states| && steps[i] == Subscribe && id == states[i].core.next
    requires |states[i].core.history| <= 200 && |states[i].core.history| <= |states[i].sent|
    requires forall k :: i < k < j ==> steps[k] != Unsubscribe(id)
    requires forall k :: i < k < j && (steps[k].Send? || steps[k].Close?) && id in states[k].core.chans ==> |states[k].core.chans[id].queue| < 200
    ensures Undropped(states[j], id, |states[i].sent| - |states[i].core.history|)
    decreases j
  {
    RunInv(states, steps, j - 1);
    if j == i + 1 {
      SubscribeAttaches(states[i]);
    } else {
      NeverFull(states, steps, i, j - 1, id);
      UndroppedKept(states[j - 1], steps[j - 1], id, |states[i].sent| - |states[i].core.history|);
    }
  }

  /**
   * A subscriber that joined with at most 200 lines of history and never had 200 lines
   * waiting when one more was sent has got, or has queued, that history and every line
   * sent since.
   */
  lemma {:induction false} NeverFullIsComplete(states: seq<State>, steps: seq<Step>, i: nat, j: nat, id: ChanId)
    requires Run(states, steps) && i < j < |states| && steps[i] == Subscribe && id == states[i].core.next
    requires |states[i].core.history| <= 200
    requires forall k :: i < k < j ==> steps[k] != Unsubscribe(id)
    requires forall k :: i < k < j && (steps[k].Send? || steps[k].Close?) && id in states[k].core.chans ==> |states[k].core.chans[id].queue| < 200
    ensures var before, s := states[i], states[j];
      && |before.core.history| <= |before.sent| <= |s.sent| && id in s.tracks && id in s.core.chans
      && s.tracks[id].received + s.core.chans[id].queue == s.sent[|before.sent| - |before.core.history|..]
  {
    RunInv(states, steps, i);
    NeverFull(states, steps, i, j, id);
    StreamIsFaithful(states, steps, j, id);
    SentGrows(states, steps, i, j);
  }

  lemma {:induction false} SentGrows(states: seq<State>, steps: seq<Step>, i: nat, j: nat)
    requires Run(states, steps) && i <= j < |states|
    ensures states[i].sent <= states[j].sent
    decreases j
  {
    if i < j {
      SentGrows(states, steps, i, j - 1);
      assert states[j] == Next(states[j - 1], steps[j - 1]);
    }
  }

  /** Off the list, and given nothing beyond what it was given before. */
  ghost predicate Detached(s: State, id: ChanId, lines: seq<Line>, closed: bool) {
    && id in s.core.chans && id in s.tracks && id !in s.core.subs
    && s.tracks[id].received + s.core.chans[id].queue == lines && s.core.chans[id].closed == closed
  }

  lemma {:induction false} DetachedKept(s: State, step: Step, id: ChanId, lines: seq<Line>, closed: bool)
    requires Inv(s) && Enabled(s, step) && Detached(s, id, lines, closed)
    ensures Detached(Next(s, step), id, lines, closed)
  {
    match step
    case Unsubscribe(other) => WithoutMembers(s.core.subs, other);
    case Receive(other) =>
      if other == id {
        var c, t := s.core.chans[id], s.tracks[id];
        assert t.received + [c.queue[0]] + c.queue[1..] == t.received + c.queue;
      }
    case _ =>
  }

  /** A subscriber that unsubscribed gets no further line, and nobody closes its channel any more. */
  lemma {:induction false} GoneStaysGone(states: seq<State>, steps: seq<Step>, i: nat, j: nat, id: ChanId)
    requires Run(states, steps) && i < j < |states| && steps[i] == Unsubscribe(id) && id in states[i].core.chans && id in states[i].tracks
    ensures Detached(states[j], id, states[i].tracks[id].received + states[i].core.chans[id].queue, states[i].core.chans[id].closed)
    decreases j
  {
    RunInv(states, steps, j - 1);
    if j == i + 1 {
      WithoutMembers(states[i].core.subs, id);
    } else {
      GoneStaysGone(states, steps, i, j - 1, id);
      DetachedKept(states[j - 1], steps[j - 1], id, states[i].tracks[id].received + states[i].core.chans[id].queue, states[i].core.chans[id].closed);
    }
  }
}
