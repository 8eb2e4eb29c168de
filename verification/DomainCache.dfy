/**
 * The domain cache: maps a request host to the app that owns the domain, from a
 * list of apps that is reloaded at most once every two seconds. The clock is a
 * natural number of nanoseconds; lower-casing is a parameter, so nothing depends
 * on which alphabet it covers.
 */
module DomainCaching {
  import opened Prelude

  const SECOND: nat := 1_000_000_000
  const TTL: nat := 10 * SECOND
  const MISS_REFRESH: nat := 2 * SECOND

  datatype App = App(id: int, domain: string)

  /** What one call of the list function gives back. */
  type Answer = Result<seq<App>, string>

  datatype State = State(ids: Option<map<string, int>>, loaded: Option<nat>, lastErr: Option<string>)

  datatype Outcome = Found(id: int) | Failed(err: string) | Unknown(domain: string)

  /** The part of a host before its first colon. */
  function BeforeColon(domain: string): string {
    if domain == "" || domain[0] == ':' then "" else [domain[0]] + BeforeColon(domain[1..])
  }

  function Host(domain: string, lower: string -> string): string {
    lower(BeforeColon(domain))
  }

  /** `id` is the lowest id among the listed apps with this domain. */
  ghost predicate Owns(apps: seq<App>, lower: string -> string, host: string, id: int) {
    && host != ""
    && (exists a :: a in apps && lower(a.domain) == host && a.id == id)
    && (forall a :: a in apps && lower(a.domain) == host ==> id <= a.id)
  }

  ghost predicate Unowned(apps: seq<App>, lower: string -> string, host: string) {
    host == "" || forall a :: a in apps ==> lower(a.domain) != host
  }

  /** Domain owners of a list, app by app. */
  function OwnerMap(apps: seq<App>, lower: string -> string): map<string, int> {
    if apps == [] then map[]
    else
      var ids, a := OwnerMap(apps[..|apps| - 1], lower), apps[|apps| - 1];
      var d := lower(a.domain);
      if d != "" && (d !in ids || a.id < ids[d]) then ids[d := a.id] else ids
  }

  lemma {:induction false} OwnerMapFindsOwners(apps: seq<App>, lower: string -> string, host: string)
    ensures host in OwnerMap(apps, lower) ==> Owns(apps, lower, host, OwnerMap(apps, lower)[host])
    ensures host !in OwnerMap(apps, lower) ==> Unowned(apps, lower, host)
    ensures "" !in OwnerMap(apps, lower)
  {
    if apps != [] {
      var n := |apps| - 1;
      OwnerMapFindsOwners(apps[..n], lower, host);
      assert apps == apps[..n] + [apps[n]];
      if host in OwnerMap(apps, lower) && !(host == lower(apps[n].domain) && OwnerMap(apps, lower)[host] == apps[n].id) {
        var w :| w in apps[..n] && lower(w.domain) == host && w.id == OwnerMap(apps, lower)[host];
        assert w in apps;
      }
    }
  }

  function Reload(s: State, now: nat, answer: Answer, lower: string -> string): State {
    match answer
    case Err(e) => State(s.ids, Some(now), Some(e))
    case Ok(apps) => State(Some(OwnerMap(apps, lower)), Some(now), None)
  }

  function Cached(s: State, host: string): Option<int> {
    if s.ids.Some? && host in s.ids.value && host != "" then Some(s.ids.value[host]) else None
  }

  predicate Expired(s: State, now: nat, age: nat) {
    s.loaded.None? || now - s.loaded.value >= age
  }

  datatype Looked = Looked(state: State, outcome: Outcome, listed: bool)

  /** One lookup; `answer` is what the list function returns if it is called now. */
  function LookupNext(s: State, now: nat, domain: string, answer: Answer, lower: string -> string): Looked {
    var host := Host(domain, lower);
    var s1 := if Expired(s, now, TTL) then Reload(s, now, answer, lower) else s;
    if Cached(s1, host).Some? then
      Looked(s1, Found(Cached(s1, host).value), Expired(s, now, TTL))
    else
      var s2 := if Expired(s1, now, MISS_REFRESH) then Reload(s1, now, answer, lower) else s1;
      Looked(s2,
             if Cached(s2, host).Some? then Found(Cached(s2, host).value)
             else if s2.ids.None? && s2.lastErr.Some? then Failed(s2.lastErr.value)
             else Unknown(domain),
             Expired(s, now, TTL) || Expired(s1, now, MISS_REFRESH))
  }

  /** A lookup lists at most once, and only when the last list call is two seconds old. */
  lemma {:induction false} LookupListsOnce(s: State, now: nat, domain: string, answer: Answer, lower: string -> string)
    ensures var r := LookupNext(s, now, domain, answer, lower);
            && (r.listed ==> Expired(s, now, MISS_REFRESH) && r.state == Reload(s, now, answer, lower))
            && (!r.listed ==> r.state == s)
  {
    var s1 := if Expired(s, now, TTL) then Reload(s, now, answer, lower) else s;
    assert Expired(s, now, TTL) ==> !Expired(s1, now, MISS_REFRESH);
  }

  /** It lists exactly when the last list call is ten seconds old, or two seconds old and the host is not in the map. */
  lemma {:induction false} ListsWhenNeeded(s: State, now: nat, domain: string, answer: Answer, lower: string -> string)
    requires s.ids.Some? ==> "" !in s.ids.value
    ensures var known := s.ids.Some? && Host(domain, lower) in s.ids.value;
      var age := if s.loaded.None? then 10 * SECOND else now - s.loaded.value;
      LookupNext(s, now, domain, answer, lower).listed <==> age >= 10 * SECOND || (age >= 2 * SECOND && !known)
  {
  }

  class DomainCache {
    const lower: string -> string
    var ids: Option<map<string, int>>
    var loaded: Option<nat>
    var lastErr: Option<string>

    ghost function Abs(): State
      reads this
    {
      State(ids, loaded, lastErr)
    }

    constructor (lower: string -> string)
      ensures this.lower == lower && Abs() == State(None, None, None)
    {
      this.lower := lower;
      ids, loaded, lastErr := None, None, None;
    }

    /** Rebuilds the map; on error the previous one stays in use. */
    method ReloadLocked(now: nat, answer: Answer)
      modifies this
      ensures Abs() == Reload(old(Abs()), now, answer, lower)
    {
      loaded := Some(now);
      if answer.Err? {
        lastErr := Some(answer.error);
        return;
      }
      lastErr := None;
      var apps, rebuilt, i := answer.value, map[], 0;
      while i < |apps|
        invariant 0 <= i <= |apps|
        invariant rebuilt == OwnerMap(apps[..i], lower)
      {
        assert apps[..i + 1][..i] == apps[..i];
        var d := lower(apps[i].domain);
        if d != "" {
          if d !in rebuilt || apps[i].id < rebuilt[d] {
            rebuilt := rebuilt[d := apps[i].id];
          }
        }
        i := i + 1;
      }
      assert apps[..|apps|] == apps;
      ids := Some(rebuilt);
    }

    method Lookup(now: nat, domain: string, answer: Answer) returns (outcome: Outcome)
      modifies this
      ensures var r := LookupNext(old(Abs()), now, domain, answer, lower);
              Abs() == r.state && outcome == r.outcome
    {
      var host := Host(domain, lower);
      if loaded.None? || now - loaded.value >= TTL {
        ReloadLocked(now, answer);
      }
      if ids.Some? && host in ids.value && host != "" {
        return Found(ids.value[host]);
      }
      if now - loaded.value >= MISS_REFRESH {
        ReloadLocked(now, answer);
        if ids.Some? && host in ids.value && host != "" {
          return Found(ids.value[host]);
        }
      }
      if ids.None? && lastErr.Some? {
        return Failed(lastErr.value);
      }
      return Unknown(domain);
    }
  }

  datatype Call = Call(now: nat, domain: string, answer: Answer)

  /** A call of the list function that really happened. */
  datatype Listing = Listing(at: nat, answer: Answer)

  datatype History = History(state: State, listings: seq<Listing>, outcomes: seq<Outcome>)

  function Extend(h: History, c: Call, lower: string -> string): History {
    var r := LookupNext(h.state, c.now, c.domain, c.answer, lower);
    History(r.state,
            if r.listed then h.listings + [Listing(c.now, c.answer)] else h.listings,
            h.outcomes + [r.outcome])
  }

  /** A whole run of lookups from a cache that was never loaded. */
  function Run(calls: seq<Call>, lower: string -> string): (h: History)
    ensures |h.outcomes| == |calls|
  {
    if calls == [] then History(State(None, None, None), [], [])
    else Extend(Run(calls[..|calls| - 1], lower), calls[|calls| - 1], lower)
  }

  ghost predicate Monotone(calls: seq<Call>) {
    forall i, j :: 0 <= i < j < |calls| ==> calls[i].now <= calls[j].now
  }

  /** Position of the last listing that succeeded, or none. */
  function LastGood(ls: seq<Listing>): (r: Option<nat>)
    ensures r.Some? ==> r.value < |ls| && ls[r.value].answer.Ok?
    ensures r.Some? ==> forall i :: r.value < i < |ls| ==> ls[i].answer.Err?
    ensures r.None? ==> forall i :: 0 <= i < |ls| ==> ls[i].answer.Err?
  {
    if ls == [] then None
    else if ls[|ls| - 1].answer.Ok? then Some(|ls| - 1)
    else LastGood(ls[..|ls| - 1])
  }

  /** What the cache remembers of the listings so far. */
  ghost predicate Remembers(h: History, lower: string -> string, now: nat) {
    && (h.listings == [] ==> h.state == State(None, None, None))
    && (h.listings != [] ==> h.state.loaded == Some(h.listings[|h.listings| - 1].at)
                             && h.listings[|h.listings| - 1].at <= now)
    && (LastGood(h.listings).None? <==> h.state.ids.None?)
    && (h.state.ids.Some? ==>
      h.state.ids == Some(OwnerMap(h.listings[LastGood(h.listings).value].answer.value, lower)))
    && (h.listings != [] ==> h.state.lastErr == ErrorOf(h.listings[|h.listings| - 1].answer))
    && (forall i, j :: 0 <= i < j < |h.listings| ==> h.listings[j].at - h.listings[i].at >= MISS_REFRESH)
  }

  function ErrorOf(a: Answer): Option<string> { if a.Err? then Some(a.error) else None }

  lemma {:induction false} LastGoodSnoc(ls: seq<Listing>, l: Listing)
    ensures LastGood(ls + [l]) == if l.answer.Ok? then Some(|ls|) else LastGood(ls)
  {
    assert (ls + [l])[..|ls|] == ls;
  }

  lemma {:induction false} AfterListing(h: History, c: Call, lower: string -> string, before: nat, outcome: Outcome)
    requires Remembers(h, lower, before) && before <= c.now && Expired(h.state, c.now, MISS_REFRESH)
    ensures Remembers(History(Reload(h.state, c.now, c.answer, lower), h.listings + [Listing(c.now, c.answer)],
                              h.outcomes + [outcome]), lower, c.now)
  {
    LastGoodSnoc(h.listings, Listing(c.now, c.answer));
  }

  lemma {:induction false} ExtendRemembers(h: History, c: Call, lower: string -> string, before: nat)
    requires Remembers(h, lower, before) && before <= c.now
    ensures Remembers(Extend(h, c, lower), lower, c.now)
  {
    LookupListsOnce(h.state, c.now, c.domain, c.answer, lower);
    var r := LookupNext(h.state, c.now, c.domain, c.answer, lower);
    if r.listed {
      AfterListing(h, c, lower, before, r.outcome);
    }
  }

  lemma {:induction false} RunRemembers(calls: seq<Call>, lower: string -> string)
    requires Monotone(calls)
    ensures Remembers(Run(calls, lower), lower, if calls == [] then 0 else calls[|calls| - 1].now)
  {
    if calls != [] {
      var n := |calls| - 1;
      RunRemembers(calls[..n], lower);
      ExtendRemembers(Run(calls[..n], lower), calls[n], lower, if n == 0 then 0 else calls[n - 1].now);
    }
  }

  /** However many hosts miss and however often the database fails, list calls are two seconds apart. */
  lemma {:induction false} ListingsAreSpaced(calls: seq<Call>, lower: string -> string, i: nat, j: nat)
    requires Monotone(calls)
    requires i < j < |Run(calls, lower).listings|
    ensures Run(calls, lower).listings[j].at - Run(calls, lower).listings[i].at >= 2 * SECOND
  {
    RunRemembers(calls, lower);
  }

  /** A hit names the lowest app id for that domain in the last list that succeeded. */
  lemma {:induction false} HitIsOwner(calls: seq<Call>, lower: string -> string)
    requires Monotone(calls) && calls != []
    requires Run(calls, lower).outcomes[|calls| - 1].Found?
    ensures var h := Run(calls, lower);
            && LastGood(h.listings).Some?
            && Owns(h.listings[LastGood(h.listings).value].answer.value, lower,
                    Host(calls[|calls| - 1].domain, lower), h.outcomes[|calls| - 1].id)
  {
    RunRemembers(calls, lower);
    var h := Run(calls, lower);
    var good := h.listings[LastGood(h.listings).value].answer.value;
    OwnerMapFindsOwners(good, lower, Host(calls[|calls| - 1].domain, lower));
  }

  /** The host is cut at its first colon, if it has one, and lower-cased. */
  lemma {:induction false} HostCutsPort(domain: string, lower: string -> string)
    ensures exists n: nat :: n <= |domain| && Host(domain, lower) == lower(domain[..n]) && ':' !in domain[..n]
                             && (n == |domain| || domain[n] == ':')
  {
    var n := |BeforeColon(domain)|;
    BeforeColonIs(domain);
    assert Host(domain, lower) == lower(domain[..n]);
  }

  lemma {:induction false} BeforeColonIs(s: string)
    ensures var n := |BeforeColon(s)|; n <= |s| && BeforeColon(s) == s[..n] && ':' !in s[..n] && (n == |s| || s[n] == ':')
  {
    if s != "" && s[0] != ':' { BeforeColonIs(s[1..]); }
  }

  /**
   * Every answer, whatever lists succeed or fail: the owner in the last list that
   * succeeded, or "unknown" if it has none; before any list has succeeded, the error of
   * the last list call.
   */
  lemma {:induction false} AnswerIsExact(calls: seq<Call>, lower: string -> string)
    requires Monotone(calls) && calls != []
    ensures var h, c := Run(calls, lower), calls[|calls| - 1];
      h.listings != [] &&
      match LastGood(h.listings)
      case None =>
        var last := h.listings[|h.listings| - 1].answer;
        last.Err? && h.outcomes[|calls| - 1] == Failed(last.error)
      case Some(g) =>
        match h.outcomes[|calls| - 1]
        case Found(id) => Owns(h.listings[g].answer.value, lower, Host(c.domain, lower), id)
        case Unknown(d) => d == c.domain && Unowned(h.listings[g].answer.value, lower, Host(c.domain, lower))
        case Failed(_) => false
  {
    RunRemembers(calls, lower);
    var h, c := Run(calls, lower), calls[|calls| - 1];
    if LastGood(h.listings).Some? {
      OwnerMapFindsOwners(h.listings[LastGood(h.listings).value].answer.value, lower, Host(c.domain, lower));
    }
  }

  ghost predicate AllSucceed(calls: seq<Call>) {
    forall i :: 0 <= i < |calls| ==> calls[i].answer.Ok?
  }

  lemma {:induction false} ListingsSucceed(calls: seq<Call>, lower: string -> string)
    requires AllSucceed(calls)
    ensures forall i :: 0 <= i < |Run(calls, lower).listings| ==> Run(calls, lower).listings[i].answer.Ok?
  {
    if calls != [] {
      ListingsSucceed(calls[..|calls| - 1], lower);
    }
  }

  /**
   * While lists succeed, every hit agrees with a list less than ten seconds old and
   * every miss with one less than two seconds old; no lookup fails.
   */
  lemma {:induction false} AnswersAreFresh(calls: seq<Call>, lower: string -> string)
    requires Monotone(calls) && AllSucceed(calls) && calls != []
    ensures var h, c := Run(calls, lower), calls[|calls| - 1];
            && h.listings != []
            && var last := h.listings[|h.listings| - 1];
            && last.answer.Ok? && last.at <= c.now
            && match h.outcomes[|calls| - 1] {
                 case Found(id) => c.now - last.at < 10 * SECOND && Owns(last.answer.value, lower, Host(c.domain, lower), id)
                 case Unknown(d) => d == c.domain && c.now - last.at < 2 * SECOND
                                    && Unowned(last.answer.value, lower, Host(c.domain, lower))
                 case Failed(_) => false
               }
  {
    RunRemembers(calls, lower);
    ListingsSucceed(calls, lower);
    var h, c := Run(calls, lower), calls[|calls| - 1];
    OwnerMapFindsOwners(h.listings[|h.listings| - 1].answer.value, lower, Host(c.domain, lower));
  }
}
