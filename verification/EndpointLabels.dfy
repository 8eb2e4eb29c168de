/**
 * Endpoints as numbered compose labels: `simpledeploy.endpoints.N.field`. One
 * side writes a list of endpoints into the labels of their services, the other
 * parses labels back into endpoints and orders them app-wide.
 */
module EndpointKeys {
  import opened Prelude

  datatype Field = Domain | Port | Tls | Protocol | Path

  const PREFIX := "simpledeploy.endpoints."

  function FieldName(f: Field): string {
    match f
    case Domain => "domain"
    case Port => "port"
    case Tls => "tls"
    case Protocol => "protocol"
    case Path => "path"
  }

  function FieldOf(name: string): Option<Field> {
    if name == "domain" then Some(Domain)
    else if name == "port" then Some(Port)
    else if name == "tls" then Some(Tls)
    else if name == "protocol" then Some(Protocol)
    else if name == "path" then Some(Path)
    else None
  }

  predicate IsDigit(c: char) { '0' <= c <= '9' }

  /** Decimal digits, as `%d` prints a non-negative number. */
  function PrintNat(n: nat): string {
    if n < 10 then [('0' as int + n) as char] else PrintNat(n / 10) + [('0' as int + n % 10) as char]
  }

  function ParseNat(ds: string): nat
    requires forall i :: 0 <= i < |ds| ==> IsDigit(ds[i])
  {
    if ds == "" then 0
    else
      assert IsDigit(ds[|ds| - 1]);
      10 * ParseNat(ds[..|ds| - 1]) + (ds[|ds| - 1] as int - '0' as int)
  }

  lemma {:induction false} ParsePrint(n: nat)
    ensures PrintNat(n) != "" && forall i :: 0 <= i < |PrintNat(n)| ==> IsDigit(PrintNat(n)[i])
    ensures ParseNat(PrintNat(n)) == n
  {
    var s := PrintNat(n);
    if n < 10 {
      assert s[..0] == "";
    } else {
      ParsePrint(n / 10);
      assert s[..|s| - 1] == PrintNat(n / 10);
    }
  }

  /** Number of leading digits. */
  function DigitRun(s: string): (d: nat)
    ensures d <= |s| && forall i :: 0 <= i < d ==> IsDigit(s[i])
  {
    if s == "" || !IsDigit(s[0]) then 0 else 1 + DigitRun(s[1..])
  }

  lemma {:induction false} DigitRunStops(ds: string, rest: string)
    requires forall i :: 0 <= i < |ds| ==> IsDigit(ds[i])
    requires rest == "" || !IsDigit(rest[0])
    ensures DigitRun(ds + rest) == |ds|
  {
    if ds == "" {
      assert ds + rest == rest;
    } else {
      assert (ds + rest)[1..] == ds[1..] + rest && (ds + rest)[0] == ds[0];
      DigitRunStops(ds[1..], rest);
    }
  }

  /** The label key of a field of endpoint `n`. */
  function Key(n: nat, f: Field): string {
    PREFIX + (PrintNat(n) + ("." + FieldName(f)))
  }

  /** What follows the common prefix: a number, a dot and a field name. */
  function ParseRest(rest: string): Option<(nat, Field)> {
    var d := DigitRun(rest);
    if d == 0 || d == |rest| || rest[d] != '.' then None
    else
      match FieldOf(rest[d + 1..])
      case None => None
      case Some(f) => Some((ParseNat(rest[..d]), f))
  }

  /** The match of the endpoint label expression: a number, and one of the five field names, and nothing else. */
  function ParseKey(k: string): Option<(nat, Field)> {
    if PREFIX <= k then ParseRest(k[|PREFIX|..]) else None
  }

  lemma {:induction false} FieldOfName(f: Field)
    ensures FieldOf(FieldName(f)) == Some(f)
  {
  }

  lemma {:induction false} ParseRestOf(ds: string, n: nat, f: Field)
    requires ds != "" && (forall i :: 0 <= i < |ds| ==> IsDigit(ds[i])) && ParseNat(ds) == n
    ensures ParseRest(ds + ("." + FieldName(f))) == Some((n, f))
  {
    var tail := "." + FieldName(f);
    DigitRunStops(ds, tail);
    FieldOfName(f);
    assert (ds + tail)[..|ds|] == ds && (ds + tail)[|ds| + 1..] == FieldName(f);
  }

  lemma {:induction false} ParseKeyOfKey(n: nat, f: Field)
    ensures ParseKey(Key(n, f)) == Some((n, f))
    ensures PREFIX <= Key(n, f)
  {
    ParsePrint(n);
    ParseRestOf(PrintNat(n), n, f);
    assert Key(n, f)[|PREFIX|..] == PrintNat(n) + ("." + FieldName(f));
  }

  /** The prefix, at least one digit, a dot, one of five names, and nothing after it. */
  ghost predicate KeyShape(k: string, ds: string, name: string) {
    && ds != "" && (forall i :: 0 <= i < |ds| ==> IsDigit(ds[i]))
    && name in {"domain", "port", "tls", "protocol", "path"}
    && k == "simpledeploy.endpoints." + (ds + ("." + name))
  }

  lemma {:induction false} FieldsAreNamed(name: string)
    ensures FieldOf(name).Some? <==> name in {"domain", "port", "tls", "protocol", "path"}
    ensures FieldOf(name).Some? ==> FieldName(FieldOf(name).value) == name
  {
  }

  lemma {:induction false} ShapeParses(k: string, ds: string, name: string)
    requires KeyShape(k, ds, name)
    ensures FieldOf(name).Some? && ParseKey(k) == Some((ParseNat(ds), FieldOf(name).value))
  {
    FieldsAreNamed(name);
    ParseRestOf(ds, ParseNat(ds), FieldOf(name).value);
    assert k[|PREFIX|..] == ds + ("." + name);
  }

  lemma {:induction false} ParsedShape(k: string) returns (ds: string, name: string)
    requires ParseKey(k).Some?
    ensures KeyShape(k, ds, name)
  {
    var rest := k[|PREFIX|..];
    var d := DigitRun(rest);
    ds, name := rest[..d], rest[d + 1..];
    FieldsAreNamed(name);
    assert k == PREFIX + rest && rest == ds + ("." + name);
  }

  /** The label expression matches exactly the keys of that shape. */
  lemma {:induction false} ParsesExactly(k: string)
    ensures ParseKey(k).Some? <==> exists ds, name :: KeyShape(k, ds, name)
    ensures forall ds, name :: KeyShape(k, ds, name) ==> ParseKey(k).value.0 == ParseNat(ds) && FieldName(ParseKey(k).value.1) == name
  {
    if ParseKey(k).Some? {
      var ds, name := ParsedShape(k);
    }
    forall ds, name | KeyShape(k, ds, name)
      ensures ParseKey(k).Some? && ParseKey(k).value.0 == ParseNat(ds) && FieldName(ParseKey(k).value.1) == name
    {
      ShapeParses(k, ds, name);
      FieldsAreNamed(name);
    }
  }
}

module EndpointLabels {
  import opened Prelude
  import opened EndpointKeys

  datatype Endpoint = Endpoint(domain: string, port: string, tls: string, service: string,
                               protocol: string, path: string, index: nat)

  function Get(e: Endpoint, f: Field): string {
    match f
    case Domain => e.domain
    case Port => e.port
    case Tls => e.tls
    case Protocol => e.protocol
    case Path => e.path
  }

  function Set(e: Endpoint, f: Field, v: string): Endpoint {
    match f
    case Domain => e.(domain := v)
    case Port => e.(port := v)
    case Tls => e.(tls := v)
    case Protocol => e.(protocol := v)
    case Path => e.(path := v)
  }

  /** A labels block: a mapping in file order, or the list form. */
  datatype Labels = Mapping(pairs: seq<(string, string)>) | ListForm(items: seq<string>)

  datatype Service = Service(name: string, labels: Option<Labels>)

  // ---- writing

  predicate Kept(p: (string, string)) { !(PREFIX <= p.0) }

  function Strip(s: Service): Service {
    match s.labels
    case Some(Mapping(pairs)) => s.(labels := Some(Mapping(Filter(pairs, Kept))))
    case _ => s
  }

  /** Endpoints of `eps` on a service. */
  function CountOn(eps: seq<Endpoint>, service: string): nat {
    if eps == [] then 0
    else CountOn(eps[..|eps| - 1], service) + if eps[|eps| - 1].service == service then 1 else 0
  }

  /** The endpoints numbered per service, in order. */
  function Numbered(eps: seq<Endpoint>): (r: seq<Endpoint>)
    ensures |r| == |eps|
  {
    if eps == [] then []
    else
      var n := |eps| - 1;
      Numbered(eps[..n]) + [eps[n].(index := CountOn(eps[..n], eps[n].service))]
  }

  /** The numbered endpoints of one service. */
  function Mine(eps: seq<Endpoint>, service: string): seq<Endpoint> {
    if eps == [] then []
    else
      var n := |eps| - 1;
      Mine(eps[..n], service)
      + if eps[n].service == service then [eps[n].(index := CountOn(eps[..n], service))] else []
  }

  function LabelIf(e: Endpoint, f: Field): seq<(string, string)> {
    if f == Domain || Get(e, f) != "" then [(Key(e.index, f), Get(e, f))] else []
  }

  function LabelsOf(e: Endpoint): seq<(string, string)> {
    LabelIf(e, Domain) + LabelIf(e, Port) + LabelIf(e, Tls) + LabelIf(e, Protocol) + LabelIf(e, Path)
  }

  function AllLabels(eps: seq<Endpoint>): seq<(string, string)> {
    if eps == [] then [] else AllLabels(eps[..|eps| - 1]) + LabelsOf(eps[|eps| - 1])
  }

  /** Key and value nodes one after the other: what appending labels does to a list. */
  function Flat(pairs: seq<(string, string)>): seq<string> {
    if pairs == [] then [] else Flat(pairs[..|pairs| - 1]) + [pairs[|pairs| - 1].0, pairs[|pairs| - 1].1]
  }

  function AddLabels(s: Service, eps: seq<Endpoint>): Service {
    if eps == [] then s
    else
      match s.labels
      case None => s.(labels := Some(Mapping(AllLabels(eps))))
      case Some(Mapping(pairs)) => s.(labels := Some(Mapping(pairs + AllLabels(eps))))
      case Some(ListForm(items)) => s.(labels := Some(ListForm(items + Flat(AllLabels(eps)))))
  }

  function Updated(s: Service, eps: seq<Endpoint>): Service {
    AddLabels(Strip(s), Mine(eps, s.name))
  }

  lemma {:induction false} FlatAt(pairs: seq<(string, string)>)
    ensures |Flat(pairs)| == 2 * |pairs|
    ensures forall i :: 0 <= i < |pairs| ==> Flat(pairs)[2 * i] == pairs[i].0 && Flat(pairs)[2 * i + 1] == pairs[i].1
  {
    if pairs != [] { FlatAt(pairs[..|pairs| - 1]); }
  }

  /** Labels before an update and after it, `added` being those of the service's own endpoints. */
  ghost predicate LabelsUpdated(before: Option<Labels>, after: Option<Labels>, added: seq<(string, string)>) {
    match before
    case None => after == if added == [] then None else Some(Mapping(added))
    case Some(Mapping(pairs)) => after == Some(Mapping(Filter(pairs, Kept) + added))
    case Some(ListForm(items)) =>
      && after.Some? && after.value.ListForm? && |after.value.items| == |items| + 2 * |added| && items <= after.value.items
      && forall i :: 0 <= i < |added| ==> after.value.items[|items| + 2 * i] == added[i].0 && after.value.items[|items| + 2 * i + 1] == added[i].1
  }

  /** Every form of labels keeps what is not an endpoint label; a list gains key and value as two items, and keeps all it had. */
  lemma {:induction false} UpdateOutcome(s: Service, eps: seq<Endpoint>)
    ensures Updated(s, eps).name == s.name && LabelsUpdated(s.labels, Updated(s, eps).labels, AllLabels(Mine(eps, s.name)))
  {
    var mine := Mine(eps, s.name);
    FlatAt(AllLabels(mine));
    if mine != [] { assert LabelIf(mine[|mine| - 1], Domain) != []; }
    forall pairs: seq<(string, string)> | s.labels == Some(Mapping(pairs)) ensures Filter(pairs, Kept) + [] == Filter(pairs, Kept) {}
  }

  method RemoveEndpointLabels(pairs: seq<(string, string)>) returns (kept: seq<(string, string)>)
    ensures kept == Filter(pairs, Kept)
  {
    kept := [];
    var i := 0;
    while i < |pairs|
      invariant 0 <= i <= |pairs|
      invariant kept == Filter(pairs[..i], Kept)
    {
      assert pairs[..i + 1] == pairs[..i] + [pairs[i]];
      FilterConcat(pairs[..i], [pairs[i]], Kept);
      if Kept(pairs[i]) {
        kept := kept + [pairs[i]];
      }
      i := i + 1;
    }
    assert pairs[..|pairs|] == pairs;
  }

  /** Groups and counters after some endpoints. */
  ghost predicate Grouped(groups: map<string, seq<Endpoint>>, counters: map<string, nat>, eps: seq<Endpoint>) {
    && (forall s :: s in groups <==> Mine(eps, s) != [])
    && (forall s :: s in groups ==> groups[s] == Mine(eps, s))
    && (forall s :: CountOn(eps, s) == if s in counters then counters[s] else 0)
  }

  method AddToGroup(groups: map<string, seq<Endpoint>>, counters: map<string, nat>, ghost eps: seq<Endpoint>, e: Endpoint)
    returns (groups': map<string, seq<Endpoint>>, counters': map<string, nat>)
    requires Grouped(groups, counters, eps)
    ensures Grouped(groups', counters', eps + [e])
  {
    assert (eps + [e])[..|eps|] == eps;
    var s := e.service;
    var idx := if s in counters then counters[s] else 0;
    counters' := counters[s := idx + 1];
    groups' := groups[s := (if s in groups then groups[s] else []) + [e.(index := idx)]];
  }

  /** Groups endpoints by service, numbering them with a counter per service. */
  method GroupByService(eps: seq<Endpoint>) returns (groups: map<string, seq<Endpoint>>)
    ensures forall s :: s in groups <==> Mine(eps, s) != []
    ensures forall s :: s in groups ==> groups[s] == Mine(eps, s)
  {
    groups := map[];
    var counters: map<string, nat> := map[];
    for i := 0 to |eps|
      invariant Grouped(groups, counters, eps[..i])
    {
      assert eps[..i + 1] == eps[..i] + [eps[i]];
      groups, counters := AddToGroup(groups, counters, eps[..i], eps[i]);
    }
    assert eps[..|eps|] == eps;
  }

  /** Strips old endpoint labels from every service, then writes the new ones. */
  method UpdateEndpoints(services: seq<Service>, eps: seq<Endpoint>) returns (out: seq<Service>)
    ensures |out| == |services| && forall i :: 0 <= i < |services| ==> out[i] == Updated(services[i], eps)
  {
    var stripped, i := [], 0;
    while i < |services|
      invariant 0 <= i <= |services| && |stripped| == i
      invariant forall k :: 0 <= k < i ==> stripped[k] == Strip(services[k])
    {
      var s := services[i];
      if s.labels.Some? && s.labels.value.Mapping? {
        var kept := RemoveEndpointLabels(s.labels.value.pairs);
        s := s.(labels := Some(Mapping(kept)));
      }
      stripped := stripped + [s];
      i := i + 1;
    }
    var groups := GroupByService(eps);
    out, i := [], 0;
    while i < |services|
      invariant 0 <= i <= |services| && |out| == i
      invariant forall k :: 0 <= k < i ==> out[k] == Updated(services[k], eps)
    {
      var s := stripped[i];
      assert s.name == services[i].name;
      if s.name in groups {
        s := AddLabels(s, groups[s.name]);
      }
      out := out + [s];
      i := i + 1;
    }
  }

  // ---- reading

  /** Trimming and lower-casing of label values; nothing depends on which characters they touch. */
  datatype Normalizer = Normalizer(protocol: string -> string, path: string -> string)

  function Norm(nz: Normalizer, f: Field, v: string): string {
    match f
    case Protocol => nz.protocol(v)
    case Path => nz.path(v)
    case _ => v
  }

  /** Keys that mean the same field of the same endpoint ("1" and "01" do) have the same value. */
  ghost predicate Consistent(labels: map<string, string>, nz: Normalizer) {
    forall k, l :: k in labels && l in labels ==> !Disagree(labels, nz, k, l)
  }

  predicate Disagree(labels: map<string, string>, nz: Normalizer, k: string, l: string)
    requires k in labels && l in labels
  {
    && ParseKey(k).Some? && ParseKey(k) == ParseKey(l)
    && Norm(nz, ParseKey(k).value.1, labels[k]) != Norm(nz, ParseKey(k).value.1, labels[l])
  }

  /** Some key among `keys` names field `f` of endpoint `i`. */
  ghost predicate Names(keys: set<string>, i: nat, f: Field) {
    exists k :: k in keys && ParseKey(k) == Some((i, f))
  }

  ghost predicate Mentions(keys: set<string>, i: nat) {
    exists k :: k in keys && ParseKey(k).Some? && ParseKey(k).value.0 == i
  }

  /** Field `f` of `e` is the value of one of the labels that name it. */
  ghost predicate Holds(e: Endpoint, f: Field, labels: map<string, string>, keys: set<string>, nz: Normalizer) {
    exists k :: k in keys && k in labels && ParseKey(k) == Some((e.index, f)) && Get(e, f) == Norm(nz, f, labels[k])
  }

  /** Endpoint `e` holds what the labels among `keys` say about its index, and nothing else. */
  ghost predicate Reads(e: Endpoint, labels: map<string, string>, keys: set<string>, nz: Normalizer) {
    && (forall f :: Names(keys, e.index, f) ==> Holds(e, f, labels, keys, nz))
    && (forall f :: !Names(keys, e.index, f) ==> Get(e, f) == "")
  }

  /** The endpoints of a service: one per mentioned index, in index order. */
  ghost predicate Extracted(eps: seq<Endpoint>, labels: map<string, string>, service: string, nz: Normalizer) {
    && (forall i, j :: 0 <= i < j < |eps| ==> eps[i].index < eps[j].index)
    && (forall i :: 0 <= i < |eps| ==> eps[i].service == service && Mentions(labels.Keys, eps[i].index) && Reads(eps[i], labels, labels.Keys, nz))
    && (forall n: nat :: Mentions(labels.Keys, n) ==> HasIndex(eps, n))
  }

  ghost predicate HasIndex(eps: seq<Endpoint>, n: nat) {
    exists i :: 0 <= i < |eps| && eps[i].index == n
  }

  ghost predicate ReadSoFar(byIndex: map<nat, Endpoint>, labels: map<string, string>, done: set<string>, service: string, nz: Normalizer) {
    && (forall i :: i in byIndex <==> Mentions(done, i))
    && (forall i :: i in byIndex ==> byIndex[i].index == i && byIndex[i].service == service && Reads(byIndex[i], labels, done, nz))
  }

  lemma {:induction false} MentionsNext(done: set<string>, k: string, i: nat)
    ensures Mentions(done + {k}, i) <==> Mentions(done, i) || (ParseKey(k).Some? && ParseKey(k).value.0 == i)
  {
    if Mentions(done, i) {
      var l :| l in done && ParseKey(l).Some? && ParseKey(l).value.0 == i;
      assert l in done + {k};
    }
    if ParseKey(k).Some? && ParseKey(k).value.0 == i {
      assert k in done + {k};
    }
  }

  lemma {:induction false} NamesNext(done: set<string>, k: string, i: nat, f: Field)
    ensures Names(done + {k}, i, f) <==> Names(done, i, f) || ParseKey(k) == Some((i, f))
  {
    if Names(done, i, f) {
      var l :| l in done && ParseKey(l) == Some((i, f));
      assert l in done + {k};
    }
    if ParseKey(k) == Some((i, f)) {
      assert k in done + {k};
    }
  }

  lemma {:induction false} HoldsMore(e: Endpoint, f: Field, labels: map<string, string>, done: set<string>, k: string, nz: Normalizer)
    requires Holds(e, f, labels, done, nz)
    ensures Holds(e, f, labels, done + {k}, nz)
  {
    var l :| l in done && l in labels && ParseKey(l) == Some((e.index, f)) && Get(e, f) == Norm(nz, f, labels[l]);
    assert l in done + {k};
  }

  lemma {:induction false} ReadsUntouched(e: Endpoint, labels: map<string, string>, done: set<string>, k: string, nz: Normalizer)
    requires Reads(e, labels, done, nz) && (ParseKey(k).None? || ParseKey(k).value.0 != e.index)
    ensures Reads(e, labels, done + {k}, nz)
  {
    forall f ensures Names(done + {k}, e.index, f) <==> Names(done, e.index, f) {
      NamesNext(done, k, e.index, f);
    }
    forall f | Names(done, e.index, f) ensures Holds(e, f, labels, done + {k}, nz) {
      HoldsMore(e, f, labels, done, k, nz);
    }
  }

  /** The label visited last decides its field; the other fields stay as they are. */
  lemma {:induction false} ReadsNext(e: Endpoint, labels: map<string, string>, done: set<string>, k: string, nz: Normalizer)
    requires k in labels && ParseKey(k).Some? && ParseKey(k).value.0 == e.index && Reads(e, labels, done, nz)
    ensures var f := ParseKey(k).value.1; Reads(Set(e, f, Norm(nz, f, labels[k])), labels, done + {k}, nz)
  {
    var f := ParseKey(k).value.1;
    var e' := Set(e, f, Norm(nz, f, labels[k]));
    forall g ensures Names(done + {k}, e.index, g) <==> Names(done, e.index, g) || g == f {
      NamesNext(done, k, e.index, g);
    }
    forall g | Names(done + {k}, e.index, g) ensures Holds(e', g, labels, done + {k}, nz) {
      if g == f {
        assert k in done + {k} && Get(e', g) == Norm(nz, g, labels[k]);
      } else {
        HoldsMore(e, g, labels, done, k, nz);
        SameField(e, e', g, labels, done + {k}, nz);
      }
    }
  }

  lemma {:induction false} SameField(e: Endpoint, e': Endpoint, g: Field, labels: map<string, string>, keys: set<string>, nz: Normalizer)
    requires Holds(e, g, labels, keys, nz) && e'.index == e.index && Get(e', g) == Get(e, g)
    ensures Holds(e', g, labels, keys, nz)
  {
    var l :| l in keys && l in labels && ParseKey(l) == Some((e.index, g)) && Get(e, g) == Norm(nz, g, labels[l]);
    assert Get(e', g) == Norm(nz, g, labels[l]);
  }

  /** What visiting one label does to the endpoints collected so far. */
  function ReadOne(byIndex: map<nat, Endpoint>, labels: map<string, string>, k: string, service: string, nz: Normalizer): map<nat, Endpoint> {
    var m := ParseKey(k);
    if m.None? || k !in labels then byIndex
    else
      var (n, f) := m.value;
      var e := if n in byIndex then byIndex[n] else Endpoint("", "", "", service, "", "", n);
      byIndex[n := Set(e, f, Norm(nz, f, labels[k]))]
  }

  /** Endpoints by index after visiting labels in this order. */
  function Visit(labels: map<string, string>, order: seq<string>, service: string, nz: Normalizer): map<nat, Endpoint> {
    if order == [] then map[]
    else ReadOne(Visit(labels, order[..|order| - 1], service, nz), labels, order[|order| - 1], service, nz)
  }

  /** An order in which a map may be gone through. */
  ghost predicate IsOrder(order: seq<string>, keys: set<string>) {
    Distinct(order) && forall k :: k in order <==> k in keys
  }

  /** The collected endpoints, sorted by index. */
  function InIndexOrder(byIndex: map<nat, Endpoint>): (eps: seq<Endpoint>)
    ensures |eps| == |Ascending(byIndex.Keys)|
    ensures forall i :: 0 <= i < |eps| ==> Ascending(byIndex.Keys)[i] in byIndex && eps[i] == byIndex[Ascending(byIndex.Keys)[i]]
  {
    var indices := Ascending(byIndex.Keys);
    assert forall i :: 0 <= i < |indices| ==> indices[i] in indices;
    seq(|indices|, i requires 0 <= i < |indices| => byIndex[indices[i]])
  }

  /** Parses the labels of a service, visiting them in any order. */
  method ExtractEndpoints(labels: map<string, string>, service: string, nz: Normalizer) returns (eps: seq<Endpoint>, ghost order: seq<string>)
    ensures IsOrder(order, labels.Keys) && eps == InIndexOrder(Visit(labels, order, service, nz))
    ensures Extracted(eps, labels, service, nz)
  {
    var byIndex: map<nat, Endpoint> := map[];
    var todo := labels.Keys;
    order := [];
    while todo != {}
      invariant todo <= labels.Keys && IsOrder(order, labels.Keys - todo)
      invariant byIndex == Visit(labels, order, service, nz)
      decreases |todo|
    {
      var k :| k in todo;
      assert (order + [k])[..|order|] == order;
      var m := ParseKey(k);
      if m.Some? {
        var n, f := m.value.0, m.value.1;
        var e := if n in byIndex then byIndex[n] else Endpoint("", "", "", service, "", "", n);
        byIndex := byIndex[n := Set(e, f, Norm(nz, f, labels[k]))];
      }
      todo, order := todo - {k}, order + [k];
    }
    VisitExtracts(labels, order, service, nz);
    eps := ListInOrder(byIndex);
  }

  method ListInOrder(byIndex: map<nat, Endpoint>) returns (eps: seq<Endpoint>)
    ensures eps == InIndexOrder(byIndex)
  {
    var indices := Ascending(byIndex.Keys);
    eps := [];
    for i := 0 to |indices|
      invariant eps == InIndexOrder(byIndex)[..i]
    {
      assert indices[i] in indices;
      eps := eps + [byIndex[indices[i]]];
    }
  }

  /** One more label read. */
  lemma {:induction false} ReadOneReads(byIndex: map<nat, Endpoint>, labels: map<string, string>, done: set<string>, k: string, service: string, nz: Normalizer)
    requires k in labels && ReadSoFar(byIndex, labels, done, service, nz)
    ensures ReadSoFar(ReadOne(byIndex, labels, k, service, nz), labels, done + {k}, service, nz)
  {
    var m := ParseKey(k);
    if m.Some? {
      var e := if m.value.0 in byIndex then byIndex[m.value.0] else Endpoint("", "", "", service, "", "", m.value.0);
      assert m.value.0 !in byIndex ==> Reads(e, labels, done, nz);
      ReadsNext(e, labels, done, k, nz);
    }
    forall i: nat ensures Mentions(done + {k}, i) <==> Mentions(done, i) || (m.Some? && m.value.0 == i) {
      MentionsNext(done, k, i);
    }
    forall i | i in byIndex && (m.None? || i != m.value.0) ensures Reads(byIndex[i], labels, done + {k}, nz) {
      ReadsUntouched(byIndex[i], labels, done, k, nz);
    }
  }

  lemma {:induction false} VisitReads(labels: map<string, string>, order: seq<string>, service: string, nz: Normalizer)
    requires forall i :: 0 <= i < |order| ==> order[i] in labels
    ensures ReadSoFar(Visit(labels, order, service, nz), labels, Elements(order), service, nz)
  {
    if order != [] {
      var n := |order| - 1;
      VisitReads(labels, order[..n], service, nz);
      ReadOneReads(Visit(labels, order[..n], service, nz), labels, Elements(order[..n]), order[n], service, nz);
      assert order == order[..n] + [order[n]];
      assert Elements(order) == Elements(order[..n]) + {order[n]};
    }
  }

  lemma {:induction false} VisitAllReads(labels: map<string, string>, order: seq<string>, service: string, nz: Normalizer)
    requires IsOrder(order, labels.Keys)
    ensures ReadSoFar(Visit(labels, order, service, nz), labels, labels.Keys, service, nz)
  {
    assert forall i :: 0 <= i < |order| ==> order[i] in order;
    VisitReads(labels, order, service, nz);
    assert Elements(order) == labels.Keys;
  }

  lemma {:induction false} VisitExtracts(labels: map<string, string>, order: seq<string>, service: string, nz: Normalizer)
    requires IsOrder(order, labels.Keys)
    ensures Extracted(InIndexOrder(Visit(labels, order, service, nz)), labels, service, nz)
  {
    VisitAllReads(labels, order, service, nz);
    ReadIsExtracted(Visit(labels, order, service, nz), labels, service, nz);
  }

  lemma {:induction false} ReadIsExtracted(byIndex: map<nat, Endpoint>, labels: map<string, string>, service: string, nz: Normalizer)
    requires ReadSoFar(byIndex, labels, labels.Keys, service, nz)
    ensures Extracted(InIndexOrder(byIndex), labels, service, nz)
  {
    var eps, indices := InIndexOrder(byIndex), Ascending(byIndex.Keys);
    forall n: nat | Mentions(labels.Keys, n) ensures HasIndex(eps, n) {
      assert n in byIndex && n in indices;
      var i :| 0 <= i < |indices| && indices[i] == n;
      assert eps[i].index == n;
    }
  }

  // ---- writing, then reading

  /** The mapping a YAML loader sees: it refuses a key with two values. */
  ghost predicate MapOf(m: map<string, string>, pairs: seq<(string, string)>) {
    && (forall k :: k in m ==> (k, m[k]) in pairs)
    && (forall p :: p in pairs ==> p.0 in m && m[p.0] == p.1)
  }

  function PairsOf(s: Service): seq<(string, string)>
    requires s.labels.Some? ==> s.labels.value.Mapping?
  {
    if s.labels.None? then [] else s.labels.value.pairs
  }

  predicate Written(e: Endpoint, f: Field) { f == Domain || Get(e, f) != "" }

  ghost predicate Writes(e: Endpoint, p: (string, string)) {
    exists f :: Written(e, f) && p == (Key(e.index, f), Get(e, f))
  }

  lemma {:induction false} LabelsOfMembers(e: Endpoint, p: (string, string))
    ensures p in LabelsOf(e) <==> Writes(e, p)
  {
    if Writes(e, p) {
      var f :| Written(e, f) && p == (Key(e.index, f), Get(e, f));
      assert p in LabelIf(e, f);
    }
    if p in LabelsOf(e) {
      assert exists f :: p in LabelIf(e, f) by {
        assert p in LabelIf(e, Domain) || p in LabelIf(e, Port) || p in LabelIf(e, Tls)
               || p in LabelIf(e, Protocol) || p in LabelIf(e, Path);
      }
    }
  }

  ghost predicate SomeWrites(eps: seq<Endpoint>, p: (string, string)) {
    exists i :: 0 <= i < |eps| && Writes(eps[i], p)
  }

  lemma {:induction false} SomeWritesSnoc(eps: seq<Endpoint>, p: (string, string))
    requires eps != []
    ensures var n := |eps| - 1; SomeWrites(eps, p) <==> SomeWrites(eps[..n], p) || Writes(eps[n], p)
  {
    var n := |eps| - 1;
    if SomeWrites(eps[..n], p) {
      var i :| 0 <= i < n && Writes(eps[..n][i], p);
      assert Writes(eps[i], p);
    }
    if SomeWrites(eps, p) && !Writes(eps[n], p) {
      var i :| 0 <= i < |eps| && Writes(eps[i], p);
      assert Writes(eps[..n][i], p);
    }
  }

  lemma {:induction false} AllLabelsMembers(eps: seq<Endpoint>, p: (string, string))
    ensures p in AllLabels(eps) <==> SomeWrites(eps, p)
  {
    if eps != [] {
      var n := |eps| - 1;
      AllLabelsMembers(eps[..n], p);
      LabelsOfMembers(eps[n], p);
      SomeWritesSnoc(eps, p);
    }
  }

  /** The endpoints of a service are numbered from zero without a gap. */
  lemma {:induction false} MineIsNumbered(eps: seq<Endpoint>, service: string)
    ensures |Mine(eps, service)| == CountOn(eps, service)
    ensures forall j :: 0 <= j < |Mine(eps, service)| ==> Mine(eps, service)[j].index == j && Mine(eps, service)[j].service == service
  {
    if eps != [] {
      MineIsNumbered(eps[..|eps| - 1], service);
    }
  }

  ghost predicate Normalized(eps: seq<Endpoint>, nz: Normalizer) {
    forall i :: 0 <= i < |eps| ==> nz.protocol(eps[i].protocol) == eps[i].protocol && nz.path(eps[i].path) == eps[i].path
  }

  lemma {:induction false} MineIsNormalized(eps: seq<Endpoint>, service: string, nz: Normalizer)
    requires Normalized(eps, nz)
    ensures Normalized(Mine(eps, service), nz)
  {
    if eps != [] {
      MineIsNormalized(eps[..|eps| - 1], service, nz);
    }
  }

  /** Labels that say exactly `mine`, next to labels that are none of the parser's business. */
  ghost predicate Says(m: map<string, string>, mine: seq<Endpoint>) {
    && (forall j :: 0 <= j < |mine| ==> mine[j].index == j)
    && (forall k :: k in m && PREFIX <= k ==> SomeWrites(mine, (k, m[k])))
    && (forall i, f :: 0 <= i < |mine| && Written(mine[i], f) ==> Key(i, f) in m && m[Key(i, f)] == Get(mine[i], f))
  }

  lemma {:induction false} UpdatedPairs(s: Service, eps: seq<Endpoint>)
    requires s.labels.Some? ==> s.labels.value.Mapping?
    ensures var u := Updated(s, eps);
            && (u.labels.Some? ==> u.labels.value.Mapping?)
            && PairsOf(u) == Filter(PairsOf(s), Kept) + AllLabels(Mine(eps, s.name))
  {
  }

  /** Writing the labels of a service makes them say its endpoints. */
  lemma {:induction false} UpdatedSays(s: Service, eps: seq<Endpoint>, m: map<string, string>)
    requires s.labels.Some? ==> s.labels.value.Mapping?
    requires MapOf(m, PairsOf(Updated(s, eps)))
    ensures Says(m, Mine(eps, s.name))
  {
    var mine := Mine(eps, s.name);
    var kept := Filter(PairsOf(s), Kept);
    MineIsNumbered(eps, s.name);
    UpdatedPairs(s, eps);
    forall k | k in m && PREFIX <= k ensures SomeWrites(mine, (k, m[k])) {
      AllLabelsMembers(mine, (k, m[k]));
    }
    forall i, f | 0 <= i < |mine| && Written(mine[i], f) ensures Key(i, f) in m && m[Key(i, f)] == Get(mine[i], f) {
      var p := (Key(i, f), Get(mine[i], f));
      assert Writes(mine[i], p);
      AllLabelsMembers(mine, p);
      assert p in kept + AllLabels(mine);
    }
  }

  /** What any parsed key of such labels stands for. */
  lemma {:induction false} SaysKey(m: map<string, string>, mine: seq<Endpoint>, k: string)
    requires Says(m, mine) && k in m && ParseKey(k).Some?
    ensures var (i, f) := ParseKey(k).value; i < |mine| && Written(mine[i], f) && k == Key(i, f) && m[k] == Get(mine[i], f)
  {
    var i :| 0 <= i < |mine| && Writes(mine[i], (k, m[k]));
    var f :| Written(mine[i], f) && (k, m[k]) == (Key(mine[i].index, f), Get(mine[i], f));
    ParseKeyOfKey(i, f);
  }

  lemma {:induction false} SaysMentions(m: map<string, string>, mine: seq<Endpoint>, n: nat)
    requires Says(m, mine)
    ensures Mentions(m.Keys, n) <==> n < |mine|
  {
    if Mentions(m.Keys, n) {
      var k :| k in m.Keys && ParseKey(k).Some? && ParseKey(k).value.0 == n;
      SaysKey(m, mine, k);
    }
    if n < |mine| {
      assert Written(mine[n], Domain);
      ParseKeyOfKey(n, Domain);
      assert Key(n, Domain) in m.Keys;
    }
  }

  lemma {:induction false} SaysField(m: map<string, string>, mine: seq<Endpoint>, e: Endpoint, f: Field, nz: Normalizer)
    requires Says(m, mine) && Normalized(mine, nz) && e.index < |mine| && Reads(e, m, m.Keys, nz)
    ensures Get(e, f) == Get(mine[e.index], f)
  {
    var i := e.index;
    if Written(mine[i], f) {
      ParseKeyOfKey(i, f);
      assert Key(i, f) in m.Keys;
      assert Holds(e, f, m, m.Keys, nz);
      var k :| k in m.Keys && k in m && ParseKey(k) == Some((i, f)) && Get(e, f) == Norm(nz, f, m[k]);
      SaysKey(m, mine, k);
    } else if Names(m.Keys, i, f) {
      var k :| k in m.Keys && ParseKey(k) == Some((i, f));
      SaysKey(m, mine, k);
    }
  }

  lemma {:induction false} LastIndex(eps: seq<Endpoint>, i: nat, n: nat)
    requires forall i, j :: 0 <= i < j < |eps| ==> eps[i].index < eps[j].index
    requires i < |eps| && eps[i].index == n - 1 && eps[|eps| - 1].index < n
    ensures i == |eps| - 1
  {
  }

  /** Strictly increasing numbers that are exactly those below `n` are `0, 1, .., n - 1`. */
  lemma {:induction false} ConsecutiveIndices(eps: seq<Endpoint>, n: nat)
    requires forall i, j :: 0 <= i < j < |eps| ==> eps[i].index < eps[j].index
    requires forall i :: 0 <= i < |eps| ==> eps[i].index < n
    requires forall k: nat :: k < n ==> HasIndex(eps, k)
    ensures |eps| == n && forall i :: 0 <= i < n ==> eps[i].index == i
  {
    if n == 0 {
      assert eps == [];
    } else {
      var last := |eps| - 1;
      assert HasIndex(eps, n - 1);
      var i :| 0 <= i < |eps| && eps[i].index == n - 1;
      LastIndex(eps, i, n);
      forall k: nat | k < n - 1 ensures HasIndex(eps[..last], k) {
        assert HasIndex(eps, k);
        var j :| 0 <= j < |eps| && eps[j].index == k;
        assert j < last && eps[..last][j] == eps[j];
      }
      ConsecutiveIndices(eps[..last], n - 1);
      assert forall j :: 0 <= j < last ==> eps[j] == eps[..last][j];
    }
  }

  /**
   * Writing endpoints as labels and parsing the labels back gives each service its
   * own endpoints, in order and numbered from zero, whatever labels were there
   * before and in whatever order the parser visits them.
   */
  lemma {:induction false} LabelRoundTrip(s: Service, eps: seq<Endpoint>, m: map<string, string>, nz: Normalizer, out: seq<Endpoint>)
    requires s.labels.Some? ==> s.labels.value.Mapping?
    requires Normalized(eps, nz)
    requires MapOf(m, PairsOf(Updated(s, eps)))
    requires Extracted(out, m, s.name, nz)
    ensures out == Mine(eps, s.name)
  {
    UpdatedSays(s, eps, m);
    MineIsNumbered(eps, s.name);
    MineIsNormalized(eps, s.name, nz);
    SaysIsRead(m, Mine(eps, s.name), s.name, nz, out);
  }

  lemma {:induction false} SaysIsRead(m: map<string, string>, mine: seq<Endpoint>, service: string, nz: Normalizer, out: seq<Endpoint>)
    requires Says(m, mine) && Normalized(mine, nz) && Extracted(out, m, service, nz)
    requires forall i :: 0 <= i < |mine| ==> mine[i].service == service
    ensures out == mine
  {
    forall n: nat ensures Mentions(m.Keys, n) <==> n < |mine| { SaysMentions(m, mine, n); }
    ConsecutiveIndices(out, |mine|);
    forall i | 0 <= i < |mine| ensures out[i] == mine[i] {
      SameEndpoint(m, mine, out[i], nz);
    }
  }

  lemma {:induction false} SameEndpoint(m: map<string, string>, mine: seq<Endpoint>, e: Endpoint, nz: Normalizer)
    requires Says(m, mine) && Normalized(mine, nz) && e.index < |mine| && Reads(e, m, m.Keys, nz)
    requires e.service == mine[e.index].service
    ensures e == mine[e.index]
  {
    forall f ensures Get(e, f) == Get(mine[e.index], f) { SaysField(m, mine, e, f, nz); }
    EqualByFields(e, mine[e.index]);
  }

  lemma {:induction false} EqualByFields(a: Endpoint, b: Endpoint)
    requires a.index == b.index && a.service == b.service
    requires forall f :: Get(a, f) == Get(b, f)
    ensures a == b
  {
    assert Get(a, Domain) == Get(b, Domain) && Get(a, Port) == Get(b, Port) && Get(a, Tls) == Get(b, Tls);
    assert Get(a, Protocol) == Get(b, Protocol) && Get(a, Path) == Get(b, Path);
  }

  // ---- labels in list form

  predicate NoEquals(s: string) { '=' !in s }

  function UptoEquals(s: string): nat {
    if s == "" || s[0] == '=' then 0 else 1 + UptoEquals(s[1..])
  }

  /** A list item as the loader reads it: key, equals sign, value. */
  function SplitItem(s: string): (string, string) {
    var i := UptoEquals(s);
    if i < |s| then (s[..i], s[i + 1..]) else (s, "")
  }

  /** The key ends at the first equals sign; an item without one is a key with an empty value. */
  lemma {:induction false} SplitIs(s: string)
    ensures var (k, v) := SplitItem(s); NoEquals(k) && if NoEquals(s) then k == s && v == "" else s == k + "=" + v
  {
    FirstEquals(s);
    var i := UptoEquals(s);
    if i < |s| { assert s == s[..i] + "=" + s[i + 1..] && s[i] == '='; }
  }

  lemma {:induction false} FirstEquals(s: string)
    ensures var i := UptoEquals(s); i <= |s| && NoEquals(s[..i]) && (i < |s| ==> s[i] == '=')
  {
    if s != "" && s[0] != '=' {
      FirstEquals(s[1..]);
      assert s[..UptoEquals(s)] == [s[0]] + s[1..][..UptoEquals(s[1..])];
    }
  }

  lemma {:induction false} SplitPlain(s: string)
    requires NoEquals(s)
    ensures UptoEquals(s) == |s| && SplitItem(s) == (s, "")
  {
    if s != "" { SplitPlain(s[1..]); }
  }

  ghost predicate PlainText(e: Endpoint) { forall f :: NoEquals(Get(e, f)) }

  lemma {:induction false} KeyHasNoEquals(n: nat, f: Field)
    ensures NoEquals(Key(n, f))
  {
    ParsePrint(n);
    assert NoEquals(PREFIX) && NoEquals("." + FieldName(f));
  }

  lemma {:induction false} FlatMembers(pairs: seq<(string, string)>, item: string)
    requires item in Flat(pairs)
    ensures exists i :: 0 <= i < |pairs| && (item == pairs[i].0 || item == pairs[i].1)
  {
    var n := |pairs| - 1;
    if item in Flat(pairs[..n]) {
      FlatMembers(pairs[..n], item);
      var i :| 0 <= i < |pairs[..n]| && (item == pairs[..n][i].0 || item == pairs[..n][i].1);
      assert item == pairs[i].0 || item == pairs[i].1;
    }
  }

  lemma {:induction false} WrittenItemsArePlain(mine: seq<Endpoint>, item: string)
    requires item in Flat(AllLabels(mine)) && forall i :: 0 <= i < |mine| ==> PlainText(mine[i])
    ensures NoEquals(item)
  {
    var pairs := AllLabels(mine);
    FlatMembers(pairs, item);
    var i :| 0 <= i < |pairs| && (item == pairs[i].0 || item == pairs[i].1);
    assert pairs[i] in pairs;
    AllLabelsMembers(mine, pairs[i]);
    var j :| 0 <= j < |mine| && Writes(mine[j], pairs[i]);
    var f :| Written(mine[j], f) && pairs[i] == (Key(mine[j].index, f), Get(mine[j], f));
    KeyHasNoEquals(mine[j].index, f);
  }

  /** The labels a loader sees in a list. */
  function ItemPairs(items: seq<string>): (r: seq<(string, string)>)
    ensures |r| == |items| && forall i :: 0 <= i < |items| ==> r[i] == SplitItem(items[i])
  {
    seq(|items|, i requires 0 <= i < |items| => SplitItem(items[i]))
  }

  /**
   * The mapping form is needed: written into a list, keys and values become items of
   * their own, every label reads as empty, and no endpoint with a domain comes back.
   */
  lemma {:induction false} ListFormLosesEndpoints(s: Service, eps: seq<Endpoint>, m: map<string, string>, nz: Normalizer, out: seq<Endpoint>)
    requires s.labels == Some(ListForm([])) && (forall i :: 0 <= i < |Mine(eps, s.name)| ==> PlainText(Mine(eps, s.name)[i]))
    requires Mine(eps, s.name) != [] && Mine(eps, s.name)[0].domain != ""
    requires Updated(s, eps).labels.Some? && Updated(s, eps).labels.value.ListForm?
    requires MapOf(m, ItemPairs(Updated(s, eps).labels.value.items)) && Extracted(out, m, s.name, nz)
    ensures out != Mine(eps, s.name)
  {
    var mine := Mine(eps, s.name);
    var items := Updated(s, eps).labels.value.items;
    assert items == Flat(AllLabels(mine));
    forall k | k in m ensures m[k] == "" {
      var i :| 0 <= i < |items| && ItemPairs(items)[i] == (k, m[k]);
      assert items[i] in items;
      WrittenItemsArePlain(mine, items[i]);
      SplitPlain(items[i]);
    }
    if out == mine {
      EmptyLabelsEmptyDomain(m, out[0], nz);
    }
  }

  lemma {:induction false} EmptyLabelsEmptyDomain(m: map<string, string>, e: Endpoint, nz: Normalizer)
    requires Reads(e, m, m.Keys, nz) && forall k :: k in m ==> m[k] == ""
    ensures e.domain == ""
  {
    assert Get(e, Domain) == e.domain;
    if Names(m.Keys, e.index, Domain) {
      assert Holds(e, Domain, m, m.Keys, nz);
    }
  }

  lemma {:induction false} FilterNone(pairs: seq<(string, string)>)
    requires forall i :: 0 <= i < |pairs| ==> !Kept(pairs[i])
    ensures Filter(pairs, Kept) == []
  {
    if pairs != [] {
      FilterNone(pairs[1..]);
    }
  }

  lemma {:induction false} FilterAll(pairs: seq<(string, string)>)
    requires forall i :: 0 <= i < |pairs| ==> Kept(pairs[i])
    ensures Filter(pairs, Kept) == pairs
  {
    if pairs != [] {
      FilterAll(pairs[1..]);
    }
  }

  /** Every label that is not an endpoint label stays, with its value and its place. */
  lemma {:induction false} OtherLabelsStay(s: Service, eps: seq<Endpoint>)
    requires s.labels.Some? ==> s.labels.value.Mapping?
    ensures Filter(PairsOf(Updated(s, eps)), Kept) == Filter(PairsOf(s), Kept)
  {
    var mine := Mine(eps, s.name);
    var kept, added := Filter(PairsOf(s), Kept), AllLabels(mine);
    UpdatedPairs(s, eps);
    FilterConcat(kept, added, Kept);
    FilterAll(kept);
    forall i | 0 <= i < |added| ensures !Kept(added[i]) { AddedIsEndpointLabel(mine, added[i]); }
    FilterNone(added);
  }

  lemma {:induction false} AddedIsEndpointLabel(mine: seq<Endpoint>, p: (string, string))
    requires p in AllLabels(mine)
    ensures !Kept(p)
  {
    AllLabelsMembers(mine, p);
    var j :| 0 <= j < |mine| && Writes(mine[j], p);
    var f :| Written(mine[j], f) && p == (Key(mine[j].index, f), Get(mine[j], f));
    ParseKeyOfKey(mine[j].index, f);
  }

  // ---- the app-wide list

  /** Lexicographic order of strings. */
  predicate Lt(a: string, b: string) {
    if b == "" then false else if a == "" then true
    else if a[0] != b[0] then a[0] < b[0] else Lt(a[1..], b[1..])
  }

  /** `a` is a proper prefix of `b`, or smaller in the first character after a common prefix. */
  ghost predicate LtAt(a: string, b: string, i: nat) {
    i <= |a| && i < |b| && a[..i] == b[..i] && (i == |a| || a[i] < b[i])
  }

  lemma {:induction false} SharedFirst(a: string, b: string, i: nat)
    requires 0 < i <= |a| && i <= |b| && a[..i] == b[..i]
    ensures a[0] == b[0]
  {
    assert a[..i][0] == a[0] && b[..i][0] == b[0];
  }

  lemma {:induction false} LtIsLexicographic(a: string, b: string)
    ensures Lt(a, b) <==> exists i: nat :: LtAt(a, b, i)
  {
    if a == "" || b == "" || a[0] != b[0] {
      forall i: nat | LtAt(a, b, i) ensures i == 0 {
        if i > 0 { SharedFirst(a, b, i); }
      }
      if Lt(a, b) { assert LtAt(a, b, 0); }
    } else {
      LtIsLexicographic(a[1..], b[1..]);
      if i: nat :| LtAt(a[1..], b[1..], i) {
        assert a[..i + 1] == [a[0]] + a[1..][..i] && b[..i + 1] == [b[0]] + b[1..][..i];
        assert LtAt(a, b, i + 1);
      }
      if i: nat :| LtAt(a, b, i) {
        assert i > 0;
        assert a[1..][..i - 1] == a[..i][1..] && b[1..][..i - 1] == b[..i][1..];
        assert LtAt(a[1..], b[1..], i - 1);
      }
    }
  }

  /** The order of the app-wide list: by domain, then number, then service. */
  lemma {:induction false} BeforeIs(x: Endpoint, y: Endpoint)
    ensures Before(x, y) <==>
      || Lt(x.domain, y.domain)
      || (x.domain == y.domain && x.index < y.index)
      || (x.domain == y.domain && x.index == y.index && Lt(x.service, y.service))
  {
    LtTotal(x.domain, y.domain);
    LtTotal(x.service, y.service);
  }

  lemma {:induction false} LtTotal(a: string, b: string)
    ensures Lt(a, b) || a == b || Lt(b, a)
    ensures !(Lt(a, b) && Lt(b, a)) && !Lt(a, a)
  {
    if a != "" && b != "" && a[0] == b[0] {
      LtTotal(a[1..], b[1..]);
      assert a == [a[0]] + a[1..] && b == [b[0]] + b[1..];
    }
    if a != "" {
      LtTotal(a[1..], a[1..]);
    }
  }

  lemma {:induction false} LtTransitive(a: string, b: string, c: string)
    requires Lt(a, b) && Lt(b, c)
    ensures Lt(a, c)
  {
    if a != "" && a[0] == b[0] == c[0] {
      LtTransitive(a[1..], b[1..], c[1..]);
    }
  }

  /** Domain first, then label number, then service name. */
  predicate Before(x: Endpoint, y: Endpoint) {
    if x.domain != y.domain then Lt(x.domain, y.domain)
    else if x.index != y.index then x.index < y.index
    else Lt(x.service, y.service)
  }

  predicate SameKey(x: Endpoint, y: Endpoint) {
    x.domain == y.domain && x.index == y.index && x.service == y.service
  }

  lemma {:induction false} BeforeTotal(x: Endpoint, y: Endpoint)
    ensures Before(x, y) || SameKey(x, y) || Before(y, x)
    ensures !(Before(x, y) && Before(y, x)) && !Before(x, x)
  {
    LtTotal(x.domain, y.domain);
    LtTotal(x.service, y.service);
    LtTotal(x.service, x.service);
  }

  lemma {:induction false} BeforeTransitive(x: Endpoint, y: Endpoint, z: Endpoint)
    requires Before(x, y) && Before(y, z)
    ensures Before(x, z)
  {
    if x.domain != y.domain && y.domain != z.domain {
      LtTransitive(x.domain, y.domain, z.domain);
      LtTotal(x.domain, y.domain);
    } else if x.domain == y.domain == z.domain && x.index == y.index == z.index {
      LtTransitive(x.service, y.service, z.service);
    }
  }

  ghost predicate Ordered(eps: seq<Endpoint>) {
    forall i, j :: 0 <= i < j < |eps| ==> Before(eps[i], eps[j])
  }

  ghost predicate DistinctKeys(eps: seq<Endpoint>) {
    forall i, j :: 0 <= i < j < |eps| ==> !SameKey(eps[i], eps[j])
  }

  function InsertEndpoint(e: Endpoint, eps: seq<Endpoint>): seq<Endpoint> {
    if eps == [] || Before(e, eps[0]) then [e] + eps else [eps[0]] + InsertEndpoint(e, eps[1..])
  }

  /** The stable sort; with distinct keys any correct sort gives this list. */
  function SortEndpoints(eps: seq<Endpoint>): seq<Endpoint> {
    if eps == [] then [] else InsertEndpoint(eps[|eps| - 1], SortEndpoints(eps[..|eps| - 1]))
  }

  lemma {:induction false} InsertMembers(e: Endpoint, eps: seq<Endpoint>, x: Endpoint)
    ensures x in InsertEndpoint(e, eps) <==> x == e || x in eps
  {
    if eps != [] && !Before(e, eps[0]) {
      InsertMembers(e, eps[1..], x);
      assert eps == [eps[0]] + eps[1..];
    }
  }

  lemma {:induction false} InsertOrders(e: Endpoint, eps: seq<Endpoint>)
    requires Ordered(eps) && forall i :: 0 <= i < |eps| ==> !SameKey(e, eps[i])
    ensures Ordered(InsertEndpoint(e, eps))
  {
    if eps == [] {
    } else if Before(e, eps[0]) {
      forall i | 0 < i < |eps| ensures Before(e, eps[i]) { BeforeTransitive(e, eps[0], eps[i]); }
    } else {
      InsertOrders(e, eps[1..]);
      BeforeTotal(e, eps[0]);
      var r := InsertEndpoint(e, eps[1..]);
      forall i | 0 <= i < |r| ensures Before(eps[0], r[i]) {
        InsertMembers(e, eps[1..], r[i]);
      }
    }
  }

  lemma {:induction false} SortMembers(eps: seq<Endpoint>, x: Endpoint)
    ensures x in SortEndpoints(eps) <==> x in eps
  {
    if eps != [] {
      var n := |eps| - 1;
      SortMembers(eps[..n], x);
      InsertMembers(eps[n], SortEndpoints(eps[..n]), x);
      assert eps == eps[..n] + [eps[n]];
    }
  }

  lemma {:induction false} SortOrders(eps: seq<Endpoint>)
    requires DistinctKeys(eps)
    ensures Ordered(SortEndpoints(eps))
  {
    if eps != [] {
      var n := |eps| - 1;
      SortOrders(eps[..n]);
      var r := SortEndpoints(eps[..n]);
      forall i | 0 <= i < |r| ensures !SameKey(eps[n], r[i]) {
        SortMembers(eps[..n], r[i]);
        var j :| 0 <= j < n && eps[..n][j] == r[i];
        assert !SameKey(eps[j], eps[n]);
      }
      InsertOrders(eps[n], r);
    }
  }

  /** `e` is an endpoint of some service of the project. */
  ghost predicate EndpointOf(e: Endpoint, project: map<string, map<string, string>>, nz: Normalizer) {
    && e.service in project
    && Mentions(project[e.service].Keys, e.index)
    && Reads(e, project[e.service], project[e.service].Keys, nz)
  }

  /** The app-wide list: every endpoint of every service, in the fixed order. */
  ghost predicate AppWide(eps: seq<Endpoint>, project: map<string, map<string, string>>, nz: Normalizer) {
    && Ordered(eps)
    && (forall i :: 0 <= i < |eps| ==> EndpointOf(eps[i], project, nz))
    && (forall s, n: nat :: s in project && Mentions(project[s].Keys, n) ==> Covers(eps, s, n))
  }

  ghost predicate Covers(eps: seq<Endpoint>, service: string, n: nat) {
    exists i :: 0 <= i < |eps| && eps[i].service == service && eps[i].index == n
  }

  /** Two ordered lists with the same members are the same list, so no iteration order can show. */
  lemma {:induction false} OrderIsUnique(a: seq<Endpoint>, b: seq<Endpoint>)
    requires Ordered(a) && Ordered(b) && forall e :: e in a <==> e in b
    ensures a == b
  {
    assert a != [] ==> a[0] in b;
    assert b != [] ==> b[0] in a;
    if a != [] {
      SameHead(a, b);
      forall e ensures e in a[1..] <==> e in b[1..] { TailMembers(a, e); TailMembers(b, e); }
      OrderIsUnique(a[1..], b[1..]);
      assert a == [a[0]] + a[1..] && b == [b[0]] + b[1..];
    }
  }

  lemma {:induction false} SameHead(a: seq<Endpoint>, b: seq<Endpoint>)
    requires Ordered(a) && Ordered(b) && a != [] && b != [] && a[0] in b && b[0] in a
    ensures a[0] == b[0]
  {
    var i :| 0 <= i < |b| && b[i] == a[0];
    var j :| 0 <= j < |a| && a[j] == b[0];
    if i > 0 && j > 0 {
      BeforeTotal(a[0], b[0]);
    }
  }

  lemma {:induction false} TailMembers(a: seq<Endpoint>, e: Endpoint)
    requires Ordered(a) && a != []
    ensures e in a[1..] <==> e in a && e != a[0]
  {
    BeforeTotal(a[0], a[0]);
    if e in a[1..] {
      var i :| 0 <= i < |a[1..]| && a[1..][i] == e;
      assert a[i + 1] == e && Before(a[0], a[i + 1]);
    }
  }

  /** The endpoints of the services visited so far. */
  ghost predicate Collected(all: seq<Endpoint>, project: map<string, map<string, string>>, nz: Normalizer, todo: set<string>) {
    && DistinctKeys(all)
    && (forall i :: 0 <= i < |all| ==> EndpointOf(all[i], project, nz) && all[i].service !in todo)
    && (forall s, n: nat :: s in project && s !in todo && Mentions(project[s].Keys, n) ==> Covers(all, s, n))
  }

  /** Parses every service, visiting them in any order, and sorts the result. */
  method ParseEndpoints(project: map<string, map<string, string>>, nz: Normalizer) returns (eps: seq<Endpoint>)
    ensures AppWide(eps, project, nz)
  {
    var all: seq<Endpoint> := [];
    var todo := project.Keys;
    while todo != {}
      invariant todo <= project.Keys
      invariant Collected(all, project, nz, todo)
      decreases |todo|
    {
      var s :| s in todo;
      var mine, _ := ExtractEndpoints(project[s], s, nz);
      MoreEndpoints(project, nz, todo, all, s, mine);
      all := all + mine;
      todo := todo - {s};
    }
    SortedIsAppWide(all, project, nz);
    eps := SortEndpoints(all);
  }

  lemma {:induction false} SortedIsAppWide(all: seq<Endpoint>, project: map<string, map<string, string>>, nz: Normalizer)
    requires Collected(all, project, nz, {})
    ensures AppWide(SortEndpoints(all), project, nz)
  {
    var eps := SortEndpoints(all);
    SortOrders(all);
    forall i | 0 <= i < |eps| ensures EndpointOf(eps[i], project, nz) {
      SortMembers(all, eps[i]);
      assert eps[i] in all;
    }
    forall s, n: nat | s in project && Mentions(project[s].Keys, n) ensures Covers(eps, s, n) {
      assert Covers(all, s, n);
      var i :| 0 <= i < |all| && all[i].service == s && all[i].index == n;
      SortMembers(all, all[i]);
      assert all[i] in eps;
    }
  }

  /** Consistent labels leave one reading of each index. */
  lemma {:induction false} ReadsIsUnique(a: Endpoint, b: Endpoint, labels: map<string, string>, nz: Normalizer)
    requires a.index == b.index && a.service == b.service && Consistent(labels, nz)
    requires Reads(a, labels, labels.Keys, nz) && Reads(b, labels, labels.Keys, nz)
    ensures a == b
  {
    forall f ensures Get(a, f) == Get(b, f) {
      if Names(labels.Keys, a.index, f) {
        assert Holds(a, f, labels, labels.Keys, nz) && Holds(b, f, labels, labels.Keys, nz);
        var k :| k in labels && ParseKey(k) == Some((a.index, f)) && Get(a, f) == Norm(nz, f, labels[k]);
        var l :| l in labels && ParseKey(l) == Some((b.index, f)) && Get(b, f) == Norm(nz, f, labels[l]);
        assert !Disagree(labels, nz, k, l);
      }
    }
    EqualByFields(a, b);
  }

  lemma {:induction false} MoreEndpoints(project: map<string, map<string, string>>, nz: Normalizer, todo: set<string>,
                                         all: seq<Endpoint>, s: string, mine: seq<Endpoint>)
    requires todo <= project.Keys && s in todo
    requires Collected(all, project, nz, todo) && Extracted(mine, project[s], s, nz)
    ensures Collected(all + mine, project, nz, todo - {s})
  {
    var both := all + mine;
    forall i, j | 0 <= i < j < |both| ensures !SameKey(both[i], both[j]) {
      if i < |all| <= j {
        assert both[i] == all[i] && both[j].service == s;
      }
    }
    forall t, n: nat | t in project && t !in todo - {s} && Mentions(project[t].Keys, n) ensures Covers(both, t, n) {
      if t == s {
        assert HasIndex(mine, n);
        var i :| 0 <= i < |mine| && mine[i].index == n;
        assert both[|all| + i] == mine[i];
      } else {
        assert Covers(all, t, n);
        var i :| 0 <= i < |all| && all[i].service == t && all[i].index == n;
        assert both[i] == all[i];
      }
    }
  }

  // ---- when the order of visits cannot show

  lemma {:induction false} ReadingsAgree(a: map<nat, Endpoint>, b: map<nat, Endpoint>, labels: map<string, string>, service: string, nz: Normalizer)
    requires Consistent(labels, nz)
    requires ReadSoFar(a, labels, labels.Keys, service, nz) && ReadSoFar(b, labels, labels.Keys, service, nz)
    ensures a == b
  {
    forall i | i in a ensures i in b && a[i] == b[i] {
      assert Mentions(labels.Keys, i);
      ReadsIsUnique(a[i], b[i], labels, nz);
    }
    forall i | i in b ensures i in a { assert Mentions(labels.Keys, i); }
  }

  lemma {:induction false} SomeOrder(keys: set<string>) returns (order: seq<string>)
    ensures IsOrder(order, keys)
  {
    if keys == {} {
      order := [];
    } else {
      var k :| k in keys;
      var rest := SomeOrder(keys - {k});
      order := rest + [k];
    }
  }

  /** An order that visits `k` last gives its field the value of `k`. */
  lemma {:induction false} LastVisited(labels: map<string, string>, service: string, nz: Normalizer, k: string, n: nat, f: Field) returns (order: seq<string>)
    requires k in labels && ParseKey(k) == Some((n, f))
    ensures IsOrder(order, labels.Keys)
    ensures var m := Visit(labels, order, service, nz); n in m && Get(m[n], f) == Norm(nz, f, labels[k])
  {
    var rest := SomeOrder(labels.Keys - {k});
    order := rest + [k];
    assert order[..|rest|] == rest;
  }

  lemma {:induction false} ListDetermines(a: map<nat, Endpoint>, b: map<nat, Endpoint>, n: nat)
    requires (forall i :: i in a ==> a[i].index == i) && (forall i :: i in b ==> b[i].index == i)
    requires InIndexOrder(a) == InIndexOrder(b) && n in a
    ensures n in b && a[n] == b[n]
  {
    var indices := Ascending(a.Keys);
    assert n in indices;
    var i :| 0 <= i < |indices| && indices[i] == n;
    assert InIndexOrder(b)[i].index == n;
  }

  /** Two labels that disagree give two different results, each in some order of visits. */
  lemma {:induction false} DisagreementShows(labels: map<string, string>, service: string, nz: Normalizer, k: string, l: string)
    returns (a: seq<string>, b: seq<string>)
    requires k in labels && l in labels && Disagree(labels, nz, k, l)
    ensures IsOrder(a, labels.Keys) && IsOrder(b, labels.Keys)
    ensures InIndexOrder(Visit(labels, a, service, nz)) != InIndexOrder(Visit(labels, b, service, nz))
  {
    var (n, f) := ParseKey(k).value;
    a := LastVisited(labels, service, nz, k, n, f);
    b := LastVisited(labels, service, nz, l, n, f);
    VisitAllReads(labels, a, service, nz);
    VisitAllReads(labels, b, service, nz);
    if InIndexOrder(Visit(labels, a, service, nz)) == InIndexOrder(Visit(labels, b, service, nz)) {
      ListDetermines(Visit(labels, a, service, nz), Visit(labels, b, service, nz), n);
    }
  }

  /**
   * What a service's labels are parsed to is the same in every order of visits if and only
   * if labels that mean the same field agree on its value.
   */
  lemma {:induction false} DeterminedIffConsistent(labels: map<string, string>, service: string, nz: Normalizer)
    ensures Consistent(labels, nz) <==>
      forall a, b :: IsOrder(a, labels.Keys) && IsOrder(b, labels.Keys) ==>
        InIndexOrder(Visit(labels, a, service, nz)) == InIndexOrder(Visit(labels, b, service, nz))
  {
    if Consistent(labels, nz) {
      forall a, b | IsOrder(a, labels.Keys) && IsOrder(b, labels.Keys)
        ensures InIndexOrder(Visit(labels, a, service, nz)) == InIndexOrder(Visit(labels, b, service, nz))
      {
        VisitAllReads(labels, a, service, nz);
        VisitAllReads(labels, b, service, nz);
        ReadingsAgree(Visit(labels, a, service, nz), Visit(labels, b, service, nz), labels, service, nz);
      }
    } else {
      var k, l :| k in labels && l in labels && Disagree(labels, nz, k, l);
      var a, b := DisagreementShows(labels, service, nz, k, l);
    }
  }

  // ---- the app-wide round trip

  /** The project a loader sees after the update: the labels of every service, read as mappings. */
  ghost predicate ProjectOf(project: map<string, map<string, string>>, services: seq<Service>, eps: seq<Endpoint>) {
    && (forall i, j :: 0 <= i < j < |services| ==> services[i].name != services[j].name)
    && (forall i :: 0 <= i < |services| ==> services[i].labels.Some? ==> services[i].labels.value.Mapping?)
    && (forall i :: 0 <= i < |services| ==>
          services[i].name in project && MapOf(project[services[i].name], PairsOf(Updated(services[i], eps))))
    && (forall n :: n in project ==> Serves(services, n))
  }

  ghost predicate Serves(services: seq<Service>, name: string) {
    exists i :: 0 <= i < |services| && services[i].name == name
  }

  lemma {:induction false} MineReads(m: map<string, string>, mine: seq<Endpoint>, i: nat, nz: Normalizer)
    requires Says(m, mine) && Normalized(mine, nz) && i < |mine|
    ensures Reads(mine[i], m, m.Keys, nz)
  {
    forall f | Names(m.Keys, i, f) ensures Holds(mine[i], f, m, m.Keys, nz) {
      var k :| k in m.Keys && ParseKey(k) == Some((i, f));
      SaysKey(m, mine, k);
    }
    forall f | Written(mine[i], f) ensures Names(m.Keys, i, f) {
      ParseKeyOfKey(i, f);
      assert Key(i, f) in m.Keys;
    }
  }

  lemma {:induction false} EndpointsAreMine(services: seq<Service>, eps: seq<Endpoint>, project: map<string, map<string, string>>,
                                            nz: Normalizer, e: Endpoint)
    requires ProjectOf(project, services, eps) && Normalized(eps, nz) && e.service in project
    ensures EndpointOf(e, project, nz) <==> e in Mine(eps, e.service)
  {
    assert Serves(services, e.service);
    var i :| 0 <= i < |services| && services[i].name == e.service;
    var m, mine := project[e.service], Mine(eps, e.service);
    UpdatedSays(services[i], eps, m);
    MineIsNumbered(eps, e.service);
    MineIsNormalized(eps, e.service, nz);
    SaysMentions(m, mine, e.index);
    if EndpointOf(e, project, nz) {
      SameEndpoint(m, mine, e, nz);
    }
    if e in mine {
      MineReads(m, mine, e.index, nz);
    }
  }

  lemma {:induction false} NumberedMembers(eps: seq<Endpoint>, e: Endpoint)
    ensures e in Numbered(eps) <==> e in Mine(eps, e.service)
  {
    if eps != [] {
      NumberedMembers(eps[..|eps| - 1], e);
    }
  }

  lemma {:induction false} CountGrows(eps: seq<Endpoint>, i: nat, j: nat, service: string)
    requires i < j <= |eps| && eps[i].service == service
    ensures CountOn(eps[..i], service) < CountOn(eps[..j], service)
  {
    assert eps[..j][..j - 1] == eps[..j - 1];
    if i < j - 1 {
      CountGrows(eps, i, j - 1, service);
    }
  }

  lemma {:induction false} NumberedAt(eps: seq<Endpoint>, i: nat)
    requires i < |eps|
    ensures Numbered(eps)[i] == eps[i].(index := CountOn(eps[..i], eps[i].service))
  {
    var n := |eps| - 1;
    if i < n {
      NumberedAt(eps[..n], i);
      assert eps[..n][..i] == eps[..i];
    }
  }

  lemma {:induction false} NumberedDistinct(eps: seq<Endpoint>)
    ensures DistinctKeys(Numbered(eps))
  {
    forall i, j | 0 <= i < j < |eps| ensures !SameKey(Numbered(eps)[i], Numbered(eps)[j]) {
      NumberedAt(eps, i);
      NumberedAt(eps, j);
      if eps[i].service == eps[j].service {
        CountGrows(eps, i, j, eps[i].service);
      }
    }
  }

  lemma {:induction false} WrittenIsParsed(services: seq<Service>, eps: seq<Endpoint>, project: map<string, map<string, string>>,
                                           nz: Normalizer, out: seq<Endpoint>, e: Endpoint)
    requires ProjectOf(project, services, eps) && Normalized(eps, nz) && AppWide(out, project, nz) && e in Numbered(eps)
    requires forall i :: 0 <= i < |eps| ==> Serves(services, eps[i].service)
    ensures e in out
  {
    var i :| 0 <= i < |eps| && Numbered(eps)[i] == e;
    NumberedAt(eps, i);
    NumberedMembers(eps, e);
    assert Serves(services, e.service);
    EndpointsAreMine(services, eps, project, nz, e);
    assert Covers(out, e.service, e.index);
    var j :| 0 <= j < |out| && out[j].service == e.service && out[j].index == e.index;
    EndpointsAreMine(services, eps, project, nz, out[j]);
    SameNumber(eps, e.service, e, out[j]);
  }

  lemma {:induction false} SameNumber(eps: seq<Endpoint>, service: string, a: Endpoint, b: Endpoint)
    requires a in Mine(eps, service) && b in Mine(eps, service) && a.index == b.index
    ensures a == b
  {
    MineIsNumbered(eps, service);
  }

  /**
   * The app-wide round trip: write endpoints of existing services as labels, parse
   * the project, and the list is exactly the written endpoints, numbered per
   * service and sorted by domain, number and service. The result does not depend
   * on the order in which services or labels are visited.
   */
  lemma {:induction false} AppRoundTrip(services: seq<Service>, eps: seq<Endpoint>, project: map<string, map<string, string>>,
                                        nz: Normalizer, out: seq<Endpoint>)
    requires ProjectOf(project, services, eps) && Normalized(eps, nz)
    requires forall i :: 0 <= i < |eps| ==> Serves(services, eps[i].service)
    requires AppWide(out, project, nz)
    ensures out == SortEndpoints(Numbered(eps))
  {
    forall e ensures e in out <==> e in Numbered(eps) {
      NumberedMembers(eps, e);
      if e in out {
        EndpointsAreMine(services, eps, project, nz, e);
      }
      if e in Numbered(eps) {
        WrittenIsParsed(services, eps, project, nz, out, e);
      }
    }
    NumberedDistinct(eps);
    SortOrders(Numbered(eps));
    forall e ensures e in SortEndpoints(Numbered(eps)) <==> e in out { SortMembers(Numbered(eps), e); }
    OrderIsUnique(out, SortEndpoints(Numbered(eps)));
  }

  /** Sorting loses and invents nothing. */
  lemma {:induction false} SortIsPermutation(eps: seq<Endpoint>)
    ensures multiset(SortEndpoints(eps)) == multiset(eps)
  {
    if eps != [] {
      var n := |eps| - 1;
      SortIsPermutation(eps[..n]);
      InsertIsPermutation(eps[n], SortEndpoints(eps[..n]));
      assert eps == eps[..n] + [eps[n]];
    }
  }

  lemma {:induction false} InsertIsPermutation(e: Endpoint, eps: seq<Endpoint>)
    ensures multiset(InsertEndpoint(e, eps)) == multiset(eps) + multiset{e}
  {
    if eps != [] && !Before(e, eps[0]) {
      InsertIsPermutation(e, eps[1..]);
      assert eps == [eps[0]] + eps[1..];
    }
  }
}
