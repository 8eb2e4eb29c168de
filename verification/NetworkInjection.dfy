/**
 * Attaching an app to the shared proxy network: a rewrite of the compose tree
 * that lists the network under every service with endpoint labels and declares
 * it at the top level. Trees are values here, so they have no aliases.
 */
module NetworkInjection {
  import opened Prelude
  import opened EndpointKeys

  datatype Node =
    | Scalar(value: string)
    | Sequence(items: seq<Node>)
    | Mapping(entries: seq<(Node, Node)>)

  /** Position of the first entry with this scalar key. */
  function Find(es: seq<(Node, Node)>, key: string): (r: Option<nat>)
    ensures r.Some? ==> r.value < |es| && es[r.value].0 == Scalar(key)
                        && forall j :: 0 <= j < r.value ==> es[j].0 != Scalar(key)
    ensures r.None? ==> forall j :: 0 <= j < |es| ==> es[j].0 != Scalar(key)
  {
    if es == [] then None
    else if es[0].0 == Scalar(key) then Some(0)
    else
      match Find(es[1..], key)
      case None => None
      case Some(i) => Some(i + 1)
  }

  function Value(m: Node, key: string): Option<Node> {
    if m.Mapping? && Find(m.entries, key).Some? then Some(m.entries[Find(m.entries, key).value].1) else None
  }

  /** The mapping with the value of an existing key replaced. */
  function Replace(m: Node, key: string, v: Node): Node
    requires Value(m, key).Some?
  {
    var i := Find(m.entries, key).value;
    Mapping(m.entries[i := (m.entries[i].0, v)])
  }

  /** The mapping with one entry appended. */
  function Append(m: Node, key: string, v: Node): Node
    requires m.Mapping?
  {
    Mapping(m.entries + [(Scalar(key), v)])
  }

  lemma {:induction false} FindIsFirst(es: seq<(Node, Node)>, key: string, i: nat)
    requires i < |es| && es[i].0 == Scalar(key) && forall j :: 0 <= j < i ==> es[j].0 != Scalar(key)
    ensures Find(es, key) == Some(i)
  {
  }

  lemma {:induction false} ReplaceValue(m: Node, key: string, v: Node, other: string)
    requires Value(m, key).Some?
    ensures Value(Replace(m, key, v), other) == if other == key then Some(v) else Value(m, other)
  {
    var i := Find(m.entries, key).value;
    var es := Replace(m, key, v).entries;
    if Find(m.entries, other).Some? {
      FindIsFirst(es, other, Find(m.entries, other).value);
    } else {
      assert forall j :: 0 <= j < |es| ==> es[j].0 == m.entries[j].0;
    }
  }

  lemma {:induction false} AppendValue(m: Node, key: string, v: Node, other: string)
    requires m.Mapping? && Value(m, key).None?
    ensures Value(Append(m, key, v), other) == if other == key then Some(v) else Value(m, other)
  {
    var es := Append(m, key, v).entries;
    if Find(m.entries, other).Some? {
      FindIsFirst(es, other, Find(m.entries, other).value);
    } else if other == key {
      FindIsFirst(es, other, |m.entries|);
    } else {
      assert forall j :: 0 <= j < |es| ==> es[j].0 != Scalar(other);
    }
  }

  // ---- which services take part

  /** The label prefix expression: the common prefix, a number and a dot. */
  predicate EndpointPrefix(s: string) {
    PREFIX <= s &&
    var rest := s[|PREFIX|..];
    var d := DigitRun(rest);
    0 < d < |rest| && rest[d] == '.'
  }

  /** The prefix, at least one digit, and a dot, whatever follows. */
  ghost predicate MarkerShape(s: string, ds: string, rest: string) {
    && ds != "" && (forall i :: 0 <= i < |ds| ==> IsDigit(ds[i]))
    && s == "simpledeploy.endpoints." + (ds + ("." + rest))
  }

  lemma {:induction false} MarkerMatches(s: string, ds: string, rest: string)
    requires MarkerShape(s, ds, rest)
    ensures EndpointPrefix(s)
  {
    DigitRunStops(ds, "." + rest);
    assert s[|PREFIX|..] == ds + ("." + rest);
  }

  lemma {:induction false} MatchIsMarker(s: string) returns (ds: string, rest: string)
    requires EndpointPrefix(s)
    ensures MarkerShape(s, ds, rest)
  {
    var tail := s[|PREFIX|..];
    var d := DigitRun(tail);
    ds, rest := tail[..d], tail[d + 1..];
    assert tail == ds + ("." + rest);
    assert s == PREFIX + tail;
  }

  /** The label test matches exactly that shape. */
  lemma {:induction false} EndpointPrefixShape(s: string)
    ensures EndpointPrefix(s) <==> exists ds, rest :: MarkerShape(s, ds, rest)
  {
    if EndpointPrefix(s) {
      var ds, rest := MatchIsMarker(s);
    }
    forall ds, rest | MarkerShape(s, ds, rest) ensures EndpointPrefix(s) { MarkerMatches(s, ds, rest); }
  }

  lemma {:induction false} KeyIsMarker(n: nat, f: Field)
    ensures EndpointPrefix(Key(n, f)) && '=' !in Key(n, f)
  {
    ParsePrint(n);
    MarkerMatches(Key(n, f), PrintNat(n), FieldName(f));
    assert '=' !in PREFIX && '=' !in "." + FieldName(f);
  }

  /** Every label that writing an endpoint produces marks its service, in a mapping and in a list. */
  lemma {:induction false} WrittenKeyMarks(n: nat, f: Field, value: string, es: seq<(Node, Node)>, items: seq<Node>, i: nat)
    ensures i < |es| && es[i].0 == Scalar(Key(n, f)) ==> HasEndpointLabel(Mapping([(Scalar("labels"), Mapping(es))]))
    ensures i < |items| && items[i] == Scalar(Key(n, f) + "=" + value) ==> HasEndpointLabel(Mapping([(Scalar("labels"), Sequence(items))]))
  {
    KeyIsMarker(n, f);
    PlainBefore(Key(n, f), value);
    FindIsFirst([(Scalar("labels"), Mapping(es))], "labels", 0);
    FindIsFirst([(Scalar("labels"), Sequence(items))], "labels", 0);
  }

  lemma {:induction false} PlainBefore(key: string, value: string)
    requires '=' !in key
    ensures BeforeEquals(key + "=" + value) == key
  {
    if key == "" {
      assert (key + "=" + value)[0] == '=';
    } else {
      assert (key + "=" + value)[1..] == key[1..] + "=" + value;
      PlainBefore(key[1..], value);
    }
  }

  function BeforeEquals(s: string): string {
    if s == "" || s[0] == '=' then "" else [s[0]] + BeforeEquals(s[1..])
  }

  predicate HasEndpointLabel(svc: Node) {
    match Value(svc, "labels")
    case Some(Mapping(es)) => exists i :: 0 <= i < |es| && es[i].0.Scalar? && EndpointPrefix(es[i].0.value)
    case Some(Sequence(items)) => exists i :: 0 <= i < |items| && items[i].Scalar? && EndpointPrefix(BeforeEquals(items[i].value))
    case _ => false
  }

  /** A service listed on the network. */
  predicate Uses(svc: Node, name: string) {
    match Value(svc, "networks")
    case Some(Sequence(items)) => Scalar(name) in items
    case Some(Mapping(es)) => Find(es, name).Some?
    case _ => false
  }

  /** `text` is the key of a label of the service, in either form of the labels. */
  ghost predicate LabelText(svc: Node, text: string) {
    match Value(svc, "labels")
    case Some(Mapping(es)) => exists i :: 0 <= i < |es| && es[i].0 == Scalar(text)
    case Some(Sequence(items)) => exists i :: 0 <= i < |items| && items[i].Scalar? && KeyPart(items[i].value, text)
    case _ => false
  }

  /** `key` is what stands before the first equals sign, or all of the item. */
  predicate KeyPart(item: string, key: string) { '=' !in key && key <= item && (key == item || item[|key|] == '=') }

  lemma {:induction false} KeyPartIs(item: string, key: string)
    ensures KeyPart(item, key) <==> key == BeforeEquals(item)
  {
    if item == "" || item[0] == '=' {
    } else if key != "" && key[0] == item[0] {
      KeyPartIs(item[1..], key[1..]);
    } else {
      KeyPartIs(item[1..], BeforeEquals(item[1..]));
    }
  }

  /** A service takes part exactly when the key of one of its labels has the shape of an endpoint label. */
  lemma {:induction false} MarkedExactly(svc: Node)
    ensures HasEndpointLabel(svc) <==> exists text :: LabelText(svc, text) && EndpointPrefix(text)
  {
    match Value(svc, "labels")
    case Some(Mapping(es)) =>
      if i :| 0 <= i < |es| && es[i].0.Scalar? && EndpointPrefix(es[i].0.value) { assert LabelText(svc, es[i].0.value); }
    case Some(Sequence(items)) =>
      if i :| 0 <= i < |items| && items[i].Scalar? && EndpointPrefix(BeforeEquals(items[i].value)) {
        KeyPartIs(items[i].value, BeforeEquals(items[i].value));
        assert LabelText(svc, BeforeEquals(items[i].value));
      }
      if text :| LabelText(svc, text) && EndpointPrefix(text) {
        var i :| 0 <= i < |items| && items[i].Scalar? && KeyPart(items[i].value, text);
        KeyPartIs(items[i].value, text);
      }
    case _ =>
  }

  // ---- the rewrite

  function Attach(svc: Node, name: string): Node
    requires svc.Mapping?
  {
    match Value(svc, "networks")
    case None => Append(svc, "networks", Sequence([Scalar("default"), Scalar(name)]))
    case Some(Sequence(items)) =>
      if Scalar(name) in items then svc else Replace(svc, "networks", Sequence(items + [Scalar(name)]))
    case Some(Mapping(es)) =>
      if Find(es, name).Some? then svc else Replace(svc, "networks", Append(Mapping(es), name, Mapping([])))
    case Some(Scalar(_)) => svc
  }

  function Rewired(svc: Node, name: string): Node {
    if svc.Mapping? && HasEndpointLabel(svc) then Attach(svc, name) else svc
  }

  function RewiredAll(es: seq<(Node, Node)>, name: string): (r: seq<(Node, Node)>)
    ensures |r| == |es|
    ensures forall i :: 0 <= i < |es| ==> r[i] == (es[i].0, Rewired(es[i].1, name))
  {
    seq(|es|, i requires 0 <= i < |es| => (es[i].0, Rewired(es[i].1, name)))
  }

  predicate AnyUses(services: Option<Node>, name: string) {
    services.Some? && services.value.Mapping? &&
    exists i :: 0 <= i < |services.value.entries| && Uses(services.value.entries[i].1, name)
  }

  function Declaration(name: string): Node {
    Mapping([(Scalar("external"), Scalar("true")), (Scalar("name"), Scalar(name))])
  }

  function Declare(top: Node, name: string): Node
    requires top.Mapping?
  {
    match Value(top, "networks")
    case None => Append(top, "networks", Mapping([(Scalar(name), Declaration(name))]))
    case Some(Mapping(es)) =>
      if Find(es, name).Some? then top
      else Replace(top, "networks", Append(Mapping(es), name, Declaration(name)))
    case Some(_) => top
  }

  function WithServices(top: Node, name: string): Node {
    match Value(top, "services")
    case Some(Mapping(es)) => Replace(top, "services", Mapping(RewiredAll(es, name)))
    case _ => top
  }

  function Injected(top: Node, name: string): Node {
    if !top.Mapping? then top
    else
      var t := WithServices(top, name);
      if AnyUses(Value(t, "services"), name) then Declare(t, name) else t
  }

  // ---- the rewrite step by step: service by service, then the top level, keeping a change flag

  method AttachServiceNetwork(svc: Node, name: string) returns (out: Node, changed: bool)
    requires svc.Mapping?
    ensures out == Attach(svc, name) && (changed <==> out != svc)
  {
    var nets := Value(svc, "networks");
    if nets.None? {
      out := Append(svc, "networks", Sequence([Scalar("default"), Scalar(name)]));
      assert |out.entries| > |svc.entries|;
      return out, true;
    }
    var i := Find(svc.entries, "networks").value;
    match nets.value
    case Sequence(items) =>
      if Scalar(name) in items {
        return svc, false;
      }
      out := Replace(svc, "networks", Sequence(items + [Scalar(name)]));
      assert out.entries[i].1 == Sequence(items + [Scalar(name)]) && |items + [Scalar(name)]| > |items|;
      return out, true;
    case Mapping(es) =>
      if Find(es, name).Some? {
        return svc, false;
      }
      out := Replace(svc, "networks", Append(Mapping(es), name, Mapping([])));
      assert out.entries[i].1 == Append(Mapping(es), name, Mapping([])) && |out.entries[i].1.entries| > |es|;
      return out, true;
    case Scalar(_) =>
      return svc, false;
  }

  method InjectServices(es: seq<(Node, Node)>, name: string) returns (out: seq<(Node, Node)>, changed: bool)
    ensures out == RewiredAll(es, name) && (changed <==> out != es)
  {
    out, changed := es, false;
    var i := 0;
    while i < |es|
      invariant 0 <= i <= |es| && |out| == |es|
      invariant forall j :: 0 <= j < i ==> out[j] == (es[j].0, Rewired(es[j].1, name))
      invariant forall j :: i <= j < |es| ==> out[j] == es[j]
      invariant changed <==> exists j :: 0 <= j < i && out[j] != es[j]
    {
      var svc := es[i].1;
      if svc.Mapping? && HasEndpointLabel(svc) {
        var svc', c := AttachServiceNetwork(svc, name);
        out := out[i := (es[i].0, svc')];
        changed := changed || c;
      }
      i := i + 1;
    }
    assert out == RewiredAll(es, name);
  }

  // ---- what the rewrite promises

  lemma {:induction false} AttachUses(svc: Node, name: string)
    requires svc.Mapping?
    ensures Uses(Attach(svc, name), name) <==>
            Value(svc, "networks").None? || !Value(svc, "networks").value.Scalar?
  {
    var nets := Value(svc, "networks");
    if nets.None? {
      AppendValue(svc, "networks", Sequence([Scalar("default"), Scalar(name)]), "networks");
    } else if nets.value.Sequence? {
      ReplaceValue(svc, "networks", Sequence(nets.value.items + [Scalar(name)]), "networks");
    } else if nets.value.Mapping? {
      var grown := Append(nets.value, name, Mapping([]));
      ReplaceValue(svc, "networks", grown, "networks");
      if Find(nets.value.entries, name).None? {
        FindIsFirst(grown.entries, name, |nets.value.entries|);
      }
    }
  }

  /** Attaching adds the shared network, and `default` exactly when it had to create the block; all else stays. */
  lemma {:induction false} AttachLists(svc: Node, name: string, net: string)
    requires svc.Mapping? && (Value(svc, "networks").None? || !Value(svc, "networks").value.Scalar?)
    ensures Uses(Attach(svc, name), net) <==>
            Uses(svc, net) || net == name || (net == "default" && Value(svc, "networks").None?)
  {
    var nets := Value(svc, "networks");
    if nets.None? {
      AppendValue(svc, "networks", Sequence([Scalar("default"), Scalar(name)]), "networks");
    } else if nets.value.Sequence? {
      ReplaceValue(svc, "networks", Sequence(nets.value.items + [Scalar(name)]), "networks");
    } else {
      var grown := Append(nets.value, name, Mapping([]));
      ReplaceValue(svc, "networks", grown, "networks");
      if Find(nets.value.entries, name).None? {
        AppendValue(nets.value, name, Mapping([]), net);
      }
    }
  }

  /** Attaching does not touch the labels. */
  lemma {:induction false} AttachKeepsLabels(svc: Node, name: string)
    requires svc.Mapping?
    ensures Attach(svc, name).Mapping? && (HasEndpointLabel(Attach(svc, name)) <==> HasEndpointLabel(svc))
  {
    var nets := Value(svc, "networks");
    if nets.None? {
      AppendValue(svc, "networks", Sequence([Scalar("default"), Scalar(name)]), "labels");
    } else if nets.value.Sequence? {
      ReplaceValue(svc, "networks", Sequence(nets.value.items + [Scalar(name)]), "labels");
    } else if nets.value.Mapping? {
      ReplaceValue(svc, "networks", Append(nets.value, name, Mapping([])), "labels");
    }
  }

  lemma {:induction false} AttachWhenUsed(svc: Node, name: string)
    requires svc.Mapping? && (Uses(svc, name) || (Value(svc, "networks").Some? && Value(svc, "networks").value.Scalar?))
    ensures Attach(svc, name) == svc
  {
  }

  lemma {:induction false} RewiredIsStable(svc: Node, name: string)
    ensures Rewired(Rewired(svc, name), name) == Rewired(svc, name)
  {
    if svc.Mapping? && HasEndpointLabel(svc) {
      AttachKeepsLabels(svc, name);
      AttachUses(svc, name);
      AttachWhenUsed(if Uses(Attach(svc, name), name) then Attach(svc, name) else svc, name);
    }
  }

  lemma {:induction false} RewiredAllIsStable(es: seq<(Node, Node)>, name: string)
    ensures RewiredAll(RewiredAll(es, name), name) == RewiredAll(es, name)
  {
    forall i | 0 <= i < |es| ensures RewiredAll(RewiredAll(es, name), name)[i] == RewiredAll(es, name)[i] {
      RewiredIsStable(es[i].1, name);
    }
  }

  /** A rewired service block stays as it is under a second pass. */
  lemma {:induction false} ServicesSettled(t: Node, name: string)
    ensures WithServices(WithServices(t, name), name) == WithServices(t, name)
    ensures t.Mapping? ==> WithServices(t, name).Mapping? && Value(WithServices(t, name), "networks") == Value(t, "networks")
  {
    match Value(t, "services")
    case Some(Mapping(es)) =>
      var rewired := Mapping(RewiredAll(es, name));
      ReplaceValue(t, "services", rewired, "services");
      ReplaceValue(t, "services", rewired, "networks");
      RewiredAllIsStable(es, name);
      var t' := WithServices(t, name);
      var i := Find(t'.entries, "services").value;
      assert t'.entries[i := (t'.entries[i].0, t'.entries[i].1)] == t'.entries;
    case _ =>
  }

  lemma {:induction false} DeclareKeepsServices(t: Node, name: string)
    requires t.Mapping?
    ensures Declare(t, name).Mapping? && Value(Declare(t, name), "services") == Value(t, "services")
    ensures Declare(Declare(t, name), name) == Declare(t, name)
  {
    match Value(t, "networks")
    case None =>
      var block := Mapping([(Scalar(name), Declaration(name))]);
      AppendValue(t, "networks", block, "services");
      AppendValue(t, "networks", block, "networks");
      FindIsFirst(block.entries, name, 0);
    case Some(Mapping(es)) =>
      var block := Append(Mapping(es), name, Declaration(name));
      ReplaceValue(t, "networks", block, "services");
      ReplaceValue(t, "networks", block, "networks");
      if Find(es, name).None? {
        FindIsFirst(block.entries, name, |es|);
      }
    case Some(_) =>
  }

  lemma {:induction false} WithSameServices(t: Node, u: Node, name: string)
    requires t.Mapping? && u.Mapping? && Value(u, "services") == Value(t, "services")
    requires WithServices(t, name) == t
    ensures WithServices(u, name) == u
  {
    match Value(t, "services")
    case Some(Mapping(es)) =>
      ReplaceValue(t, "services", Mapping(RewiredAll(es, name)), "services");
      assert RewiredAll(es, name) == es;
      var i := Find(u.entries, "services").value;
      assert u.entries[i := (u.entries[i].0, u.entries[i].1)] == u.entries;
    case _ =>
  }

  /** A second injection changes nothing. */
  lemma {:induction false} InjectionIsIdempotent(top: Node, name: string)
    ensures Injected(Injected(top, name), name) == Injected(top, name)
  {
    if top.Mapping? {
      var t := WithServices(top, name);
      ServicesSettled(top, name);
      if AnyUses(Value(t, "services"), name) {
        DeclareKeepsServices(t, name);
        WithSameServices(t, Declare(t, name), name);
      }
    }
  }

  /** Services of a tree, or none when they are not a mapping. */
  function ServiceEntries(top: Node): seq<(Node, Node)> {
    match Value(top, "services")
    case Some(Mapping(es)) => es
    case _ => []
  }

  lemma {:induction false} InjectedServices(top: Node, name: string)
    ensures ServiceEntries(Injected(top, name)) == RewiredAll(ServiceEntries(top), name)
    ensures top.Mapping? ==> Injected(top, name).Mapping?
  {
    if top.Mapping? {
      var t := WithServices(top, name);
      ServicesSettled(top, name);
      match Value(top, "services") {
        case Some(Mapping(es)) => ReplaceValue(top, "services", Mapping(RewiredAll(es, name)), "services");
        case _ => assert RewiredAll([], name) == [];
      }
      if AnyUses(Value(t, "services"), name) {
        DeclareKeepsServices(t, name);
      }
    }
  }

  /** Every service with an endpoint label ends up on the network, unless its networks value is a bare scalar. */
  lemma {:induction false} EndpointServicesAttached(top: Node, name: string, i: nat)
    requires i < |ServiceEntries(top)|
    ensures var before, after := ServiceEntries(top), ServiceEntries(Injected(top, name));
            && |after| == |before| && after[i].0 == before[i].0
            && (!(before[i].1.Mapping? && HasEndpointLabel(before[i].1)) ==> after[i].1 == before[i].1)
            && (before[i].1.Mapping? && HasEndpointLabel(before[i].1) ==>
                  (Uses(after[i].1, name) <==>
                     Value(before[i].1, "networks").None? || !Value(before[i].1, "networks").value.Scalar?))
  {
    InjectedServices(top, name);
    var svc := ServiceEntries(top)[i].1;
    if svc.Mapping? && HasEndpointLabel(svc) {
      AttachUses(svc, name);
    }
  }

  predicate Declared(top: Node, name: string) {
    match Value(top, "networks")
    case Some(Mapping(es)) => Find(es, name).Some?
    case _ => false
  }

  /** Some entry of the services block is on the network. */
  ghost predicate SomeServiceUses(top: Node, name: string) {
    match Value(top, "services")
    case Some(Mapping(es)) => exists i :: 0 <= i < |es| && Uses(es[i].1, name)
    case _ => false
  }

  lemma {:induction false} UsesAreSeen(top: Node, name: string)
    ensures AnyUses(Value(top, "services"), name) <==> SomeServiceUses(top, name)
  {
  }

  /** The network is declared whenever some service uses it and the top-level block can hold it; otherwise that block is untouched. */
  lemma {:induction false} UsedNetworkDeclared(top: Node, name: string)
    requires top.Mapping?
    ensures var out := Injected(top, name);
            if SomeServiceUses(out, name) then
              Declared(out, name) <==> Value(top, "networks").None? || Value(top, "networks").value.Mapping?
            else Value(out, "networks") == Value(top, "networks")
  {
    var t := WithServices(top, name);
    ServicesSettled(top, name);
    UsesAreSeen(Injected(top, name), name);
    if AnyUses(Value(t, "services"), name) {
      DeclareKeepsServices(t, name);
      match Value(t, "networks") {
        case None =>
          var block := Mapping([(Scalar(name), Declaration(name))]);
          AppendValue(t, "networks", block, "networks");
          FindIsFirst(block.entries, name, 0);
        case Some(Mapping(es)) =>
          var block := Append(Mapping(es), name, Declaration(name));
          ReplaceValue(t, "networks", block, "networks");
          if Find(es, name).None? {
            FindIsFirst(block.entries, name, |es|);
          }
        case Some(_) =>
      }
    }
  }

  /** How a network declared here reads: external, under its own name, and nothing else. */
  ghost predicate DeclaredExternal(top: Node, name: string) {
    && Declared(top, name)
    && Value(Value(top, "networks").value, name) == Some(Mapping([(Scalar("external"), Scalar("true")), (Scalar("name"), Scalar(name))]))
  }

  lemma {:induction false} DeclareDeclares(t: Node, name: string)
    requires t.Mapping? && (Value(t, "networks").None? || Value(t, "networks").value.Mapping?)
    ensures if Declared(t, name) then Declare(t, name) == t else DeclaredExternal(Declare(t, name), name)
  {
    match Value(t, "networks")
    case None =>
      var block := Mapping([(Scalar(name), Declaration(name))]);
      AppendValue(t, "networks", block, "networks");
      FindIsFirst(block.entries, name, 0);
    case Some(Mapping(es)) =>
      if Find(es, name).None? {
        var block := Append(Mapping(es), name, Declaration(name));
        ReplaceValue(t, "networks", block, "networks");
        AppendValue(Mapping(es), name, Declaration(name), name);
        FindIsFirst(block.entries, name, |es|);
      }
    case Some(_) =>
  }

  /** A network that an injection declares is declared external; one that was declared before is left as it was. */
  lemma {:induction false} NewDeclarationIsExternal(top: Node, name: string)
    requires top.Mapping? && Declared(Injected(top, name), name)
    ensures if Declared(top, name) then Value(Injected(top, name), "networks") == Value(top, "networks")
            else DeclaredExternal(Injected(top, name), name)
  {
    var t := WithServices(top, name);
    ServicesSettled(top, name);
    if AnyUses(Value(t, "services"), name) && (Value(t, "networks").None? || Value(t, "networks").value.Mapping?) {
      DeclareDeclares(t, name);
    }
  }

  /** The shared network is listed in the form the service uses: last in a list, or as a key with an empty mapping. */
  lemma {:induction false} AttachedForm(svc: Node, name: string)
    requires svc.Mapping? && !Uses(svc, name)
    ensures match Value(svc, "networks")
            case None => Value(Attach(svc, name), "networks") == Some(Sequence([Scalar("default"), Scalar(name)]))
            case Some(Sequence(items)) => Value(Attach(svc, name), "networks") == Some(Sequence(items + [Scalar(name)]))
            case Some(Mapping(es)) => Value(Attach(svc, name), "networks") == Some(Mapping(es + [(Scalar(name), Mapping([]))]))
            case Some(Scalar(_)) => Attach(svc, name) == svc
  {
    match Value(svc, "networks")
    case None => AppendValue(svc, "networks", Sequence([Scalar("default"), Scalar(name)]), "networks");
    case Some(Sequence(items)) => ReplaceValue(svc, "networks", Sequence(items + [Scalar(name)]), "networks");
    case Some(Mapping(es)) => ReplaceValue(svc, "networks", Append(Mapping(es), name, Mapping([])), "networks");
    case _ =>
  }

  /** `b` is `a` with things appended: nothing is removed, reordered or rewritten. */
  ghost predicate Grown(a: Node, b: Node)
    decreases a
  {
    || a == b
    || (a.Sequence? && b.Sequence? && a.items <= b.items)
    || (&& a.Mapping? && b.Mapping? && |a.entries| <= |b.entries|
        && forall i :: 0 <= i < |a.entries| ==> a.entries[i].0 == b.entries[i].0 && Grown(a.entries[i].1, b.entries[i].1))
  }

  lemma {:induction false} ReplaceGrows(m: Node, key: string, v: Node)
    requires Value(m, key).Some? && Grown(Value(m, key).value, v)
    ensures Grown(m, Replace(m, key, v))
  {
    var b := Replace(m, key, v);
    forall i | 0 <= i < |m.entries| ensures m.entries[i].0 == b.entries[i].0 && Grown(m.entries[i].1, b.entries[i].1) {
    }
  }

  lemma {:induction false} AttachGrows(svc: Node, name: string)
    requires svc.Mapping?
    ensures Grown(svc, Attach(svc, name))
  {
    var nets := Value(svc, "networks");
    if nets.Some? && nets.value.Sequence? {
      ReplaceGrows(svc, "networks", if Scalar(name) in nets.value.items then nets.value else Sequence(nets.value.items + [Scalar(name)]));
    } else if nets.Some? && nets.value.Mapping? {
      ReplaceGrows(svc, "networks", Append(nets.value, name, Mapping([])));
    }
  }

  lemma {:induction false} ServicesGrow(top: Node, name: string)
    ensures Grown(top, WithServices(top, name))
  {
    match Value(top, "services")
    case Some(Mapping(es)) =>
      var rewired := Mapping(RewiredAll(es, name));
      forall i | 0 <= i < |es| ensures es[i].0 == rewired.entries[i].0 && Grown(es[i].1, rewired.entries[i].1) {
        if es[i].1.Mapping? {
          AttachGrows(es[i].1, name);
        }
      }
      ReplaceGrows(top, "services", rewired);
    case _ =>
  }

  lemma {:induction false} DeclareGrows(t: Node, name: string)
    requires t.Mapping?
    ensures Grown(t, Declare(t, name))
  {
    match Value(t, "networks")
    case Some(Mapping(es)) => ReplaceGrows(t, "networks", Append(Mapping(es), name, Declaration(name)));
    case _ =>
  }

  lemma {:induction false} GrownTransitive(a: Node, b: Node, c: Node)
    requires Grown(a, b) && Grown(b, c)
    ensures Grown(a, c)
    decreases a
  {
    if a != b && b != c && a.Mapping? {
      forall i | 0 <= i < |a.entries| ensures a.entries[i].0 == c.entries[i].0 && Grown(a.entries[i].1, c.entries[i].1) {
        GrownTransitive(a.entries[i].1, b.entries[i].1, c.entries[i].1);
      }
    }
  }

  /** Injection only ever appends. */
  lemma {:induction false} InjectionOnlyAppends(top: Node, name: string)
    ensures Grown(top, Injected(top, name))
  {
    if top.Mapping? {
      var t := WithServices(top, name);
      ServicesGrow(top, name);
      ServicesSettled(top, name);
      if AnyUses(Value(t, "services"), name) {
        DeclareGrows(t, name);
        GrownTransitive(top, t, Declare(t, name));
      }
    }
  }

  /** Apart from its services and its networks block, the top level is untouched. */
  lemma {:induction false} OtherBlocksUntouched(top: Node, name: string, key: string)
    requires key != "services" && key != "networks"
    ensures Value(Injected(top, name), key) == Value(top, key)
  {
    if top.Mapping? {
      var t := WithServices(top, name);
      ServicesSettled(top, name);
      match Value(top, "services") {
        case Some(Mapping(es)) => ReplaceValue(top, "services", Mapping(RewiredAll(es, name)), key);
        case _ =>
      }
      match Value(t, "networks") {
        case None => AppendValue(t, "networks", Mapping([(Scalar(name), Declaration(name))]), key);
        case Some(Mapping(es)) => ReplaceValue(t, "networks", Append(Mapping(es), name, Declaration(name)), key);
        case Some(_) =>
      }
    }
  }

  /** The whole injection, with the flag the caller uses to decide whether to write the file. */
  method InjectSharedNetwork(top: Node, name: string) returns (out: Node, changed: bool)
    ensures out == Injected(top, name) && (changed <==> out != top)
  {
    if !top.Mapping? {
      return top, false;
    }
    out, changed := top, false;
    var services := Value(top, "services");
    if services.Some? && services.value.Mapping? {
      var es, c := InjectServices(services.value.entries, name);
      out, changed := Replace(top, "services", Mapping(es)), c;
      ReplaceValue(top, "services", Mapping(es), "services");
      ghost var i := Find(top.entries, "services").value;
      assert top.entries[i := (top.entries[i].0, top.entries[i].1)] == top.entries;
    }
    assert out == WithServices(top, name) && (changed <==> out != top);
    if AnyUses(Value(out, "services"), name) {
      var t := out;
      out := Declare(t, name);
      if out != t {
        DeclareAlters(top, name);
        changed := true;
      }
    }
  }

  lemma {:induction false} DeclareAlters(top: Node, name: string)
    requires top.Mapping?
    requires var t := WithServices(top, name); t.Mapping? && Declare(t, name) != t
    ensures Declare(WithServices(top, name), name) != top
  {
    var t := WithServices(top, name);
    ServicesSettled(top, name);
    match Value(t, "networks")
    case None => AppendValue(t, "networks", Mapping([(Scalar(name), Declaration(name))]), "networks");
    case Some(Mapping(es)) =>
      ReplaceValue(t, "networks", Append(Mapping(es), name, Declaration(name)), "networks");
      assert |Append(Mapping(es), name, Declaration(name)).entries| > |es|;
    case Some(_) =>
  }
}
