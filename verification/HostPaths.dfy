/**
 * Which host folders a compose file may mount: the order of host paths, the
 * rules on protected folders, and the layout rules between binds. Symlinks are
 * an abstract resolution function.
 */
module HostPaths {
  import opened Prelude
  import opened Paths

  predicate HasPrefix(s: string, prefix: string) { prefix <= s }

  /** `p` is `base` or inside it, tested on the strings. */
  predicate Within(p: string, base: string) {
    if base == "/" then HasPrefix(p, "/") else p == base || HasPrefix(p, base + "/")
  }

  predicate Overlaps(a: string, b: string) { Within(a, b) || Within(b, a) }

  // ---- the string test is the tree order of folders

  lemma {:induction false} JoinConcat(a: seq<string>, b: seq<string>)
    requires a != [] && b != []
    ensures Join(a + b) == Join(a) + "/" + Join(b)
  {
    if |a| == 1 {
      assert (a + b)[1..] == b;
    } else {
      assert (a + b)[1..] == a[1..] + b;
      JoinConcat(a[1..], b);
      assert a[0] + "/" + (Join(a[1..]) + "/" + Join(b)) == a[0] + "/" + Join(a[1..]) + "/" + Join(b);
    }
  }

  lemma {:induction false} RootIsEmpty(base: string, b: seq<string>)
    requires IsCleanAbs(base, b)
    ensures base == "/" <==> b == []
  {
    if b != [] {
      assert CleanPart(b[0]);
    }
  }

  lemma {:induction false} SplitCleanAbs(p: string, a: seq<string>)
    requires IsCleanAbs(p, a)
    ensures a != [] ==> Split(p) == [""] + a
    ensures a == [] ==> Split(p) == ["", ""]
  {
    assert p == "" + "/" + Join(a);
    SplitAtSlash("", Join(a));
    if a != [] {
      SplitJoin(a);
    }
  }

  lemma {:induction false} PrefixGivesParts(p: string, a: seq<string>, base: string, b: seq<string>)
    requires IsCleanAbs(p, a) && IsCleanAbs(base, b) && b != []
    requires HasPrefix(p, base + "/")
    ensures b <= a
  {
    var rest := p[|base| + 1..];
    assert p == base + "/" + rest;
    SplitAtSlash(base, rest);
    SplitCleanAbs(base, b);
    SplitCleanAbs(p, a);
    assert |Split(p)| >= 3;
    if a != [] {
      assert [""] + a == [""] + b + Split(rest);
      assert forall i :: 0 <= i < |b| ==> a[i] == ([""] + a)[i + 1] == b[i];
    }
  }

  lemma {:induction false} PartsGivePrefix(p: string, a: seq<string>, base: string, b: seq<string>)
    requires IsCleanAbs(p, a) && IsCleanAbs(base, b) && b != [] && b < a
    ensures HasPrefix(p, base + "/")
  {
    var c := a[|b|..];
    assert a == b + c;
    JoinConcat(b, c);
    assert p == base + "/" + Join(c);
  }

  /** On clean absolute paths the string test is exactly the prefix order of their components. */
  lemma {:induction false} WithinIsPrefixOrder(p: string, a: seq<string>, base: string, b: seq<string>)
    requires IsCleanAbs(p, a) && IsCleanAbs(base, b)
    ensures Within(p, base) <==> b <= a
  {
    RootIsEmpty(base, b);
    if b != [] {
      if p == base {
        CleanIsIdempotent(p, a);
        CleanIsIdempotent(base, b);
      } else if HasPrefix(p, base + "/") {
        PrefixGivesParts(p, a, base, b);
      }
      assert b <= a ==> b == a || b < a;
      if b < a {
        PartsGivePrefix(p, a, base, b);
      }
    }
  }

  ghost predicate CleanAbs(p: string) { exists cs :: IsCleanAbs(p, cs) }

  /** A tree order: a partial order in which everything above one path is on a single line. */
  lemma {:induction false} WithinIsTreeOrder(x: string, p: string, q: string)
    requires CleanAbs(x) && CleanAbs(p) && CleanAbs(q)
    ensures Within(x, x)
    ensures Within(x, p) && Within(p, x) ==> x == p
    ensures Within(x, p) && Within(p, q) ==> Within(x, q)
    ensures Within(x, p) && Within(x, q) ==> Overlaps(p, q)
  {
    var a :| IsCleanAbs(x, a);
    var b :| IsCleanAbs(p, b);
    var c :| IsCleanAbs(q, c);
    WithinIsPrefixOrder(x, a, x, a);
    WithinIsPrefixOrder(x, a, p, b);
    WithinIsPrefixOrder(p, b, x, a);
    WithinIsPrefixOrder(p, b, q, c);
    WithinIsPrefixOrder(x, a, q, c);
    WithinIsPrefixOrder(q, c, p, b);
    assert b <= a && a <= b ==> a == b;
    assert b <= a && c <= a ==> b <= c || c <= b;
  }

  // ---- rules on one bind

  const SYSTEM_PATHS: seq<string> := [
    "/bin", "/boot", "/dev", "/etc", "/home", "/lib", "/lib32", "/lib64", "/libx32", "/proc", "/root",
    "/run", "/sbin", "/snap", "/sys", "/usr", "/var/backups", "/var/lib", "/var/log", "/var/mail",
    "/var/run", "/var/spool"]

  const READ_ONLY_PATHS: seq<string> := ["/var/log"]

  /** Folders that host paths are checked against; `appDir` is empty when unknown. */
  datatype Folders = Folders(appDir: string, appReal: string, dataDirs: seq<string>, appsDirs: seq<string>, allowed: seq<string>)

  datatype Rule = OtherApp | DataFolder | HoldsApps | SystemFolder

  datatype Reason = Permitted | Unchecked | Refused(rule: Rule) | LinkRefused(link: string, rule: Rule)

  /** Resolves symlinks of a clean absolute path; fails on dangling links, loops and the like. */
  type Resolver = string -> Option<string>

  predicate AnyWithin(p: string, bases: seq<string>) {
    exists i :: 0 <= i < |bases| && Within(p, bases[i])
  }

  predicate AnyOverlap(p: string, bases: seq<string>) {
    exists i :: 0 <= i < |bases| && Overlaps(p, bases[i])
  }

  function ProtectedReason(h: Folders, p: string, readOnly: bool): Option<Rule> {
    if exists i :: 0 <= i < |h.appsDirs| && p != h.appsDirs[i] && Within(p, h.appsDirs[i]) then Some(OtherApp)
    else if AnyOverlap(p, h.dataDirs) then Some(DataFolder)
    else if exists i :: 0 <= i < |h.appsDirs| && Within(h.appsDirs[i], p) then Some(HoldsApps)
    else if AnyWithin(p, h.allowed) then None
    else if readOnly && AnyWithin(p, READ_ONLY_PATHS) then None
    else if AnyOverlap(p, SYSTEM_PATHS) then Some(SystemFolder)
    else None
  }

  predicate InApp(h: Folders, lex: string, target: string) {
    h.appDir != "" && Within(lex, h.appDir) && Within(target, h.appReal)
  }

  /** The path a source is judged as, before symlinks; none when a relative path has no app folder. */
  function Lexical(h: Folders, src: string): Option<string> {
    if IsAbs(src) then Some(Clean(src))
    else if h.appDir == "" then None
    else Some(Clean(h.appDir + "/" + src))
  }

  function BindReason(h: Folders, src: string, readOnly: bool, resolve: Resolver): Reason {
    var lex := Lexical(h, src);
    if lex.None? || resolve(lex.value).None? then Unchecked
    else
      var l, target := lex.value, resolve(lex.value).value;
      if InApp(h, l, target) then Permitted
      else
        var written := if h.appDir == "" || !Within(l, h.appDir) then ProtectedReason(h, l, readOnly) else None;
        if written.Some? then Refused(written.value)
        else
          var linked := if target != l then ProtectedReason(h, target, readOnly) else None;
          if linked.Some? then LinkRefused(target, linked.value) else Permitted
  }

  /** Everything `Folders` names is a clean absolute path, and the app folder is resolved. */
  ghost predicate Settled(h: Folders, resolve: Resolver) {
    && (h.appDir != "" ==> CleanAbs(h.appDir) && resolve(h.appDir) == Some(h.appReal))
    && (forall i :: 0 <= i < |h.dataDirs| ==> CleanAbs(h.dataDirs[i]))
    && (forall i :: 0 <= i < |h.appsDirs| ==> CleanAbs(h.appsDirs[i]))
    && (forall i :: 0 <= i < |h.allowed| ==> CleanAbs(h.allowed[i]))
  }

  /** What resolving symlinks guarantees: clean results, and a path that resolves to itself has no link above it. */
  ghost predicate ResolverLaws(resolve: Resolver) {
    && (forall p :: CleanAbs(p) && resolve(p).Some? ==> CleanAbs(resolve(p).value))
    && (forall p, q :: CleanAbs(p) && CleanAbs(q) && resolve(p) == Some(p) && Within(p, q) ==> resolve(q) == Some(q))
  }

  /** No folder of the list is, contains or lies inside `p`. */
  ghost predicate ClearOf(p: string, dirs: seq<string>) {
    forall i :: 0 <= i < |dirs| ==> !Overlaps(p, dirs[i])
  }

  /** The rule on protected folders, in one line: clear of data and app folders, and of system folders unless excepted. */
  lemma {:induction false} ProtectedRule(h: Folders, p: string, readOnly: bool)
    ensures ProtectedReason(h, p, readOnly).None? ==>
            && ClearOf(p, h.dataDirs) && ClearOf(p, h.appsDirs)
            && (AnyWithin(p, h.allowed) || (readOnly && AnyWithin(p, READ_ONLY_PATHS)) || ClearOf(p, SYSTEM_PATHS))
    ensures ClearOf(p, h.dataDirs) && ClearOf(p, h.appsDirs) && ClearOf(p, SYSTEM_PATHS) ==>
            ProtectedReason(h, p, readOnly).None?
  {
    forall i | ProtectedReason(h, p, readOnly).None? && 0 <= i < |h.appsDirs| ensures !Overlaps(p, h.appsDirs[i]) {
      if p == h.appsDirs[i] {
        assert Within(h.appsDirs[i], p);
      }
    }
  }

  /** The whole rule: clear of data and app folders, and either clear of system folders or excepted. */
  ghost predicate Free(h: Folders, p: string, readOnly: bool) {
    && ClearOf(p, h.dataDirs) && ClearOf(p, h.appsDirs)
    && (ClearOf(p, SYSTEM_PATHS) || AnyWithin(p, h.allowed) || (readOnly && Within(p, "/var/log")))
  }

  /** A path is refused exactly when it is not free. */
  lemma {:induction false} ProtectedExactly(h: Folders, p: string, readOnly: bool)
    ensures ProtectedReason(h, p, readOnly).None? <==> Free(h, p, readOnly)
  {
    assert READ_ONLY_PATHS[0] == "/var/log" && (Within(p, READ_ONLY_PATHS[0]) ==> AnyWithin(p, READ_ONLY_PATHS));
    ProtectedRule(h, p, readOnly);
    if Free(h, p, readOnly) {
      assert forall i :: 0 <= i < |h.appsDirs| ==> !Overlaps(p, h.appsDirs[i]);
    }
  }

  /** Which rule is named: the most specific one that applies. */
  lemma {:induction false} RuleNamed(h: Folders, p: string, readOnly: bool, rule: Rule)
    requires ProtectedReason(h, p, readOnly) == Some(rule)
    ensures var inside := exists i :: 0 <= i < |h.appsDirs| && p != h.appsDirs[i] && Within(p, h.appsDirs[i]);
      var data := !ClearOf(p, h.dataDirs);
      var above := exists i :: 0 <= i < |h.appsDirs| && Within(h.appsDirs[i], p);
      && (rule == OtherApp <==> inside)
      && (rule == DataFolder <==> !inside && data)
      && (rule == HoldsApps <==> !inside && !data && above)
      && (rule == SystemFolder <==> !inside && !data && !above)
  {
  }

  lemma {:induction false} LexicalIsClean(h: Folders, src: string)
    requires h.appDir != "" ==> CleanAbs(h.appDir)
    ensures Lexical(h, src).Some? ==> CleanAbs(Lexical(h, src).value)
  {
    if IsAbs(src) {
      CleanIsClean(src);
    } else if h.appDir != "" {
      CleanIsClean(h.appDir + "/" + src);
    }
  }

  /** A permitted bind really points into the app's own folder, or at a place the rules leave free. */
  lemma {:induction false} PermittedTarget(h: Folders, src: string, readOnly: bool, resolve: Resolver)
    requires Settled(h, resolve) && ResolverLaws(resolve)
    requires BindReason(h, src, readOnly, resolve) == Permitted
    ensures var lex := Lexical(h, src);
            && lex.Some? && resolve(lex.value).Some? && CleanAbs(resolve(lex.value).value)
            && var target := resolve(lex.value).value;
               (h.appDir != "" && Within(target, h.appReal)) || ProtectedReason(h, target, readOnly).None?
  {
    LexicalIsClean(h, src);
    var lex := Lexical(h, src).value;
    if resolve(lex) == Some(lex) && h.appDir != "" && Within(lex, h.appDir) {
      assert resolve(h.appDir) == Some(h.appDir);
    }
  }

  /**
   * A bind is permitted exactly when it resolves and either stays in the app's folder, as
   * written and as resolved, or its target is free and so is the path as written, unless
   * that lies in the app's folder. It is left unchecked exactly when it does not resolve.
   */
  lemma {:induction false} PermittedExactly(h: Folders, src: string, readOnly: bool, resolve: Resolver)
    requires Settled(h, resolve) && ResolverLaws(resolve)
    ensures BindReason(h, src, readOnly, resolve) == Unchecked <==>
            (!IsAbs(src) && h.appDir == "") || resolve(WrittenPath(h, src)).None?
    ensures BindReason(h, src, readOnly, resolve) == Permitted <==>
            && (IsAbs(src) || h.appDir != "") && resolve(WrittenPath(h, src)).Some?
            && var lex, target := WrittenPath(h, src), resolve(WrittenPath(h, src)).value;
               var inApp := h.appDir != "" && Within(lex, h.appDir);
               (inApp && Within(target, h.appReal)) || (Free(h, target, readOnly) && (inApp || Free(h, lex, readOnly)))
  {
    var lex := WrittenPath(h, src);
    assert Lexical(h, src).Some? ==> Lexical(h, src) == Some(lex);
    LexicalIsClean(h, src);
    if resolve(lex).Some? {
      ProtectedExactly(h, lex, readOnly);
      ProtectedExactly(h, resolve(lex).value, readOnly);
      if Lexical(h, src).Some? && resolve(lex) == Some(lex) && h.appDir != "" && Within(lex, h.appDir) {
        assert resolve(h.appDir) == Some(h.appDir);
      }
    }
  }

  /** The path a source stands for before symlinks are followed. */
  function WrittenPath(h: Folders, src: string): string { Clean(if IsAbs(src) then src else h.appDir + "/" + src) }

  /** Nothing in a clear subtree is inside a protected one. */
  lemma {:induction false} ClearSubtree(x: string, p: string, dirs: seq<string>)
    requires CleanAbs(x) && CleanAbs(p) && Within(x, p) && ClearOf(p, dirs)
    requires forall i :: 0 <= i < |dirs| ==> CleanAbs(dirs[i])
    ensures !AnyWithin(x, dirs)
  {
    forall i | 0 <= i < |dirs| ensures !Within(x, dirs[i]) {
      WithinIsTreeOrder(x, p, dirs[i]);
    }
  }

  lemma {:induction false} TwoPartPath(a: string, b: string)
    requires CleanPart(a) && CleanPart(b)
    ensures CleanAbs("/" + a) && CleanAbs("/" + a + "/" + b)
  {
    assert Join([a]) == a && IsCleanAbs("/" + a, [a]);
    assert [a, b][1..] == [b];
    assert Join([a, b]) == a + "/" + b;
    assert "/" + (a + "/" + b) == "/" + a + "/" + b;
    assert IsCleanAbs("/" + a + "/" + b, [a, b]);
  }

  lemma {:induction false} SystemPathsAreClean(i: nat)
    requires i < |SYSTEM_PATHS|
    ensures CleanAbs(SYSTEM_PATHS[i])
  {
    var p := SYSTEM_PATHS[i];
    if i < 16 {
      assert CleanPart(p[1..]);
      TwoPartPath(p[1..], p[1..]);
      assert p == "/" + p[1..];
    } else {
      TwoPartPath("var", p[5..]);
      assert p == "/" + "var" + "/" + p[5..];
    }
  }

  /**
   * What a permitted bind exposes: every host path below its target is in the
   * app's own folder, or else in no data folder, no app's folder and, unless the
   * target is excepted by the operator or mounted read-only under a log folder,
   * in no system folder.
   */
  lemma {:induction false} BindExposesNothingProtected(h: Folders, src: string, readOnly: bool, resolve: Resolver, x: string)
    requires Settled(h, resolve) && ResolverLaws(resolve)
    requires BindReason(h, src, readOnly, resolve) == Permitted
    requires CleanAbs(x)
    requires Lexical(h, src).Some? && resolve(Lexical(h, src).value).Some?
    requires Within(x, resolve(Lexical(h, src).value).value)
    ensures var target := resolve(Lexical(h, src).value).value;
            || (h.appDir != "" && Within(x, h.appReal))
            || (&& !AnyWithin(x, h.dataDirs) && !AnyWithin(x, h.appsDirs)
                && (AnyWithin(target, h.allowed) || (readOnly && AnyWithin(target, READ_ONLY_PATHS)) || !AnyWithin(x, SYSTEM_PATHS)))
  {
    PermittedTarget(h, src, readOnly, resolve);
    var target := resolve(Lexical(h, src).value).value;
    if h.appDir != "" && Within(target, h.appReal) {
      assert CleanAbs(h.appReal);
      WithinIsTreeOrder(x, target, h.appReal);
    } else {
      ProtectedRule(h, target, readOnly);
      ClearSubtree(x, target, h.dataDirs);
      ClearSubtree(x, target, h.appsDirs);
      if ClearOf(target, SYSTEM_PATHS) {
        forall i | 0 <= i < |SYSTEM_PATHS| ensures CleanAbs(SYSTEM_PATHS[i]) { SystemPathsAreClean(i); }
        ClearSubtree(x, target, SYSTEM_PATHS);
      }
    }
  }

  /** The protected system folders. */
  lemma {:induction false} SystemFolders()
    ensures Elements(SYSTEM_PATHS) == {"/bin", "/boot", "/dev", "/etc", "/home", "/lib", "/lib32", "/lib64", "/libx32", "/proc", "/root", "/run",
      "/sbin", "/snap", "/sys", "/usr", "/var/backups", "/var/lib", "/var/log", "/var/mail", "/var/run", "/var/spool"}
  {
    var all := {"/bin", "/boot", "/dev", "/etc", "/home", "/lib", "/lib32", "/lib64", "/libx32", "/proc", "/root", "/run",
      "/sbin", "/snap", "/sys", "/usr", "/var/backups", "/var/lib", "/var/log", "/var/mail", "/var/run", "/var/spool"};
    forall i | 0 <= i < |SYSTEM_PATHS| ensures SYSTEM_PATHS[i] in all { }
    assert SYSTEM_PATHS[0] in Elements(SYSTEM_PATHS);
  }

  // ---- rules between binds

  datatype VolumeKind = BindVolume | NamedVolume | OtherVolume

  datatype Volume = Volume(kind: VolumeKind, source: string, readOnly: bool)

  /** The volumes of one container. */
  datatype Mounts = Mounts(who: string, volumes: seq<Volume>)

  /** A named volume whose driver options bind an absolute host folder. */
  datatype HostBind = HostBind(device: string, readOnly: bool)

  datatype Bind = Bind(who: string, src: string, writable: bool)

  datatype Violation = WritableAppFolder(who: string) | NestedBind(who: string, inner: string, outer: string)

  function Resolved(p: string, resolve: Resolver): string {
    if resolve(p).Some? then resolve(p).value else p
  }

  function BindOf(who: string, v: Volume, named: map<string, HostBind>, h: Folders, resolve: Resolver): Option<Bind> {
    if v.kind.NamedVolume? then
      if v.source in named then
        Some(Bind(who, Resolved(Clean(named[v.source].device), resolve), !v.readOnly && !named[v.source].readOnly))
      else None
    else if v.source == "" || (!v.kind.BindVolume? && !HasPrefix(v.source, "/")) || Lexical(h, v.source).None? then None
    else Some(Bind(who, Resolved(Lexical(h, v.source).value, resolve), !v.readOnly))
  }

  function BindsOf(c: Mounts, named: map<string, HostBind>, h: Folders, resolve: Resolver): seq<Bind>
    decreases |c.volumes|
  {
    if c.volumes == [] then []
    else
      var n := |c.volumes| - 1;
      var b := BindOf(c.who, c.volumes[n], named, h, resolve);
      BindsOf(Mounts(c.who, c.volumes[..n]), named, h, resolve) + if b.Some? then [b.value] else []
  }

  function AllBinds(cs: seq<Mounts>, named: map<string, HostBind>, h: Folders, resolve: Resolver): seq<Bind> {
    if cs == [] then []
    else AllBinds(cs[..|cs| - 1], named, h, resolve) + BindsOf(cs[|cs| - 1], named, h, resolve)
  }

  predicate AppHit(b: Bind, h: Folders) { b.writable && h.appReal != "" && b.src == h.appReal }

  predicate NestHit(a: Bind, b: Bind) { a.writable && b.src != a.src && Within(b.src, a.src) }

  function AppHits(binds: seq<Bind>, h: Folders): set<Violation> {
    set b | b in binds && AppHit(b, h) :: WritableAppFolder(b.who)
  }

  function NestHits(outer: seq<Bind>, inner: seq<Bind>): set<Violation> {
    set a, b | a in outer && b in inner && NestHit(a, b) :: NestedBind(b.who, b.src, a.src)
  }

  function AddOnce(out: seq<Violation>, v: Violation): (r: seq<Violation>)
    ensures Distinct(out) ==> Distinct(r)
    ensures Elements(r) == Elements(out) + {v}
  {
    if v in out then out else out + [v]
  }

  lemma {:induction false} AppHitsNext(binds: seq<Bind>, i: nat, h: Folders)
    requires i < |binds|
    ensures AppHits(binds[..i + 1], h)
         == AppHits(binds[..i], h) + if AppHit(binds[i], h) then {WritableAppFolder(binds[i].who)} else {}
  {
    assert binds[..i + 1] == binds[..i] + [binds[i]];
  }

  lemma {:induction false} NestRowNext(a: Bind, binds: seq<Bind>, j: nat)
    requires j < |binds|
    ensures NestHits([a], binds[..j + 1])
         == NestHits([a], binds[..j]) + if NestHit(a, binds[j]) then {NestedBind(binds[j].who, binds[j].src, a.src)} else {}
  {
    assert binds[..j + 1] == binds[..j] + [binds[j]];
    assert a in [a];
    assert binds[j] in binds[..j + 1];
  }

  lemma {:induction false} NestHitsNext(binds: seq<Bind>, i: nat)
    requires i < |binds|
    ensures NestHits(binds[..i + 1], binds) == NestHits(binds[..i], binds) + NestHits([binds[i]], binds)
  {
    assert binds[..i + 1] == binds[..i] + [binds[i]];
  }

  /** Every violation once. */
  method LayoutViolations(binds: seq<Bind>, h: Folders) returns (out: seq<Violation>)
    ensures Distinct(out)
    ensures Elements(out) == AppHits(binds, h) + NestHits(binds, binds)
  {
    out := [];
    var i := 0;
    while i < |binds|
      invariant 0 <= i <= |binds| && Distinct(out)
      invariant Elements(out) == AppHits(binds[..i], h)
    {
      AppHitsNext(binds, i, h);
      if AppHit(binds[i], h) {
        out := AddOnce(out, WritableAppFolder(binds[i].who));
      }
      i := i + 1;
    }
    assert binds[..|binds|] == binds;
    i := 0;
    while i < |binds|
      invariant 0 <= i <= |binds| && Distinct(out)
      invariant Elements(out) == AppHits(binds, h) + NestHits(binds[..i], binds)
    {
      NestHitsNext(binds, i);
      out := NestedRow(out, binds[i], binds);
      i := i + 1;
    }
  }

  method NestedRow(before: seq<Violation>, a: Bind, binds: seq<Bind>) returns (out: seq<Violation>)
    requires Distinct(before)
    ensures Distinct(out)
    ensures Elements(out) == Elements(before) + NestHits([a], binds)
  {
    out := before;
    if !a.writable {
      return;
    }
    var j := 0;
    while j < |binds|
      invariant 0 <= j <= |binds| && Distinct(out)
      invariant Elements(out) == Elements(before) + NestHits([a], binds[..j])
    {
      NestRowNext(a, binds, j);
      if binds[j].src != a.src && Within(binds[j].src, a.src) {
        out := AddOnce(out, NestedBind(binds[j].who, binds[j].src, a.src));
      }
      j := j + 1;
    }
    assert binds[..|binds|] == binds;
  }

  /** Collects the binds of every container, then reports the layout violations. */
  method BindLayoutViolations(cs: seq<Mounts>, named: map<string, HostBind>, h: Folders, resolve: Resolver)
    returns (out: seq<Violation>)
    ensures Distinct(out)
    ensures var binds := AllBinds(cs, named, h, resolve);
            Elements(out) == AppHits(binds, h) + NestHits(binds, binds)
  {
    var binds, i := [], 0;
    while i < |cs|
      invariant 0 <= i <= |cs|
      invariant binds == AllBinds(cs[..i], named, h, resolve)
    {
      assert cs[..i + 1][..i] == cs[..i];
      var row := CollectBinds(cs[i], named, h, resolve);
      binds := binds + row;
      i := i + 1;
    }
    assert cs[..|cs|] == cs;
    out := LayoutViolations(binds, h);
  }

  method CollectBinds(c: Mounts, named: map<string, HostBind>, h: Folders, resolve: Resolver) returns (row: seq<Bind>)
    ensures row == BindsOf(c, named, h, resolve)
  {
    row := [];
    var j := 0;
    while j < |c.volumes|
      invariant 0 <= j <= |c.volumes|
      invariant row == BindsOf(Mounts(c.who, c.volumes[..j]), named, h, resolve)
    {
      assert c.volumes[..j + 1][..j] == c.volumes[..j];
      var b := BindOf(c.who, c.volumes[j], named, h, resolve);
      if b.Some? {
        row := row + [b.value];
      }
      j := j + 1;
    }
    assert c.volumes[..|c.volumes|] == c.volumes;
    assert Mounts(c.who, c.volumes) == c;
  }

  lemma {:induction false} ResolvedIsClean(p: string, resolve: Resolver)
    requires CleanAbs(p) && ResolverLaws(resolve)
    ensures CleanAbs(Resolved(p, resolve))
  {
  }

  lemma {:induction false} BindsAreClean(c: Mounts, named: map<string, HostBind>, h: Folders, resolve: Resolver)
    requires Settled(h, resolve) && ResolverLaws(resolve)
    requires forall v :: v in named ==> IsAbs(named[v].device)
    ensures forall b :: b in BindsOf(c, named, h, resolve) ==> CleanAbs(b.src)
    decreases |c.volumes|
  {
    if c.volumes != [] {
      var n := |c.volumes| - 1;
      var v := c.volumes[n];
      BindsAreClean(Mounts(c.who, c.volumes[..n]), named, h, resolve);
      if v.kind.NamedVolume? {
        if v.source in named {
          CleanIsClean(named[v.source].device);
          ResolvedIsClean(Clean(named[v.source].device), resolve);
        }
      } else if Lexical(h, v.source).Some? {
        LexicalIsClean(h, v.source);
        ResolvedIsClean(Lexical(h, v.source).value, resolve);
      }
    }
  }

  lemma {:induction false} AllBindsAreClean(cs: seq<Mounts>, named: map<string, HostBind>, h: Folders, resolve: Resolver)
    requires Settled(h, resolve) && ResolverLaws(resolve)
    requires forall v :: v in named ==> IsAbs(named[v].device)
    ensures forall b :: b in AllBinds(cs, named, h, resolve) ==> CleanAbs(b.src)
  {
    if cs != [] {
      AllBindsAreClean(cs[..|cs| - 1], named, h, resolve);
      BindsAreClean(cs[|cs| - 1], named, h, resolve);
    }
  }

  /** A mount that binds host path `path`, before symlinks, writable or not. */
  ghost predicate Binds(v: Volume, named: map<string, HostBind>, h: Folders, path: string, writable: bool) {
    if v.kind == NamedVolume then
      v.source in named && path == Clean(named[v.source].device) && (writable <==> !v.readOnly && !named[v.source].readOnly)
    else
      && v.source != "" && (v.kind == BindVolume || v.source[0] == '/')
      && (IsAbs(v.source) || h.appDir != "")
      && path == WrittenPath(h, v.source) && (writable <==> !v.readOnly)
  }

  lemma {:induction false} BindOfBinds(who: string, v: Volume, named: map<string, HostBind>, h: Folders, resolve: Resolver)
    ensures var b := BindOf(who, v, named, h, resolve);
      && (b.Some? ==> exists path :: Binds(v, named, h, path, b.value.writable) && b.value == Bind(who, Resolved(path, resolve), b.value.writable))
      && (forall path, w :: Binds(v, named, h, path, w) ==> b == Some(Bind(who, Resolved(path, resolve), w)))
  {
    var b := BindOf(who, v, named, h, resolve);
    if b.Some? {
      var path := if v.kind == NamedVolume then Clean(named[v.source].device) else WrittenPath(h, v.source);
      assert Binds(v, named, h, path, b.value.writable);
    }
  }

  /** Where a path leads through symlinks; one that cannot be followed stands for itself. */
  ghost predicate LandsAt(path: string, src: string, resolve: Resolver) {
    match resolve(path)
    case Some(target) => src == target
    case None => src == path
  }

  /** A bind stands for a volume of a container. */
  ghost predicate StandsFor(b: Bind, cs: seq<Mounts>, named: map<string, HostBind>, h: Folders, resolve: Resolver, i: int, j: int) {
    && 0 <= i < |cs| && 0 <= j < |cs[i].volumes| && b.who == cs[i].who
    && exists path :: Binds(cs[i].volumes[j], named, h, path, b.writable) && LandsAt(path, b.src, resolve)
  }

  lemma {:induction false} RowHas(c: Mounts, named: map<string, HostBind>, h: Folders, resolve: Resolver, b: Bind, j: nat)
    requires j < |c.volumes| && BindOf(c.who, c.volumes[j], named, h, resolve) == Some(b)
    ensures b in BindsOf(c, named, h, resolve)
    decreases |c.volumes|
  {
    var n := |c.volumes| - 1;
    if j < n { RowHas(Mounts(c.who, c.volumes[..n]), named, h, resolve, b, j); }
  }

  lemma {:induction false} RowFrom(c: Mounts, named: map<string, HostBind>, h: Folders, resolve: Resolver, b: Bind) returns (j: nat)
    requires b in BindsOf(c, named, h, resolve)
    ensures j < |c.volumes| && BindOf(c.who, c.volumes[j], named, h, resolve) == Some(b)
    decreases |c.volumes|
  {
    var n := |c.volumes| - 1;
    if b in BindsOf(Mounts(c.who, c.volumes[..n]), named, h, resolve) {
      j := RowFrom(Mounts(c.who, c.volumes[..n]), named, h, resolve, b);
    } else {
      j := n;
    }
  }

  lemma {:induction false} AllCollected(cs: seq<Mounts>, named: map<string, HostBind>, h: Folders, resolve: Resolver, b: Bind)
    ensures b in AllBinds(cs, named, h, resolve) <==> exists i :: 0 <= i < |cs| && b in BindsOf(cs[i], named, h, resolve)
  {
    if cs != [] {
      var n := |cs| - 1;
      AllCollected(cs[..n], named, h, resolve, b);
      if i :| 0 <= i < n && b in BindsOf(cs[..n][i], named, h, resolve) { assert cs[i] == cs[..n][i]; }
      if i :| 0 <= i < |cs| && b in BindsOf(cs[i], named, h, resolve) && i < n { assert cs[..n][i] == cs[i]; }
    }
  }

  /** The binds that are judged are exactly those of the volumes, with where they point and whether they are writable. */
  lemma {:induction false} BindsAreCollected(cs: seq<Mounts>, named: map<string, HostBind>, h: Folders, resolve: Resolver, b: Bind)
    ensures b in AllBinds(cs, named, h, resolve) <==> exists i, j :: StandsFor(b, cs, named, h, resolve, i, j)
  {
    AllCollected(cs, named, h, resolve, b);
    if b in AllBinds(cs, named, h, resolve) {
      var i :| 0 <= i < |cs| && b in BindsOf(cs[i], named, h, resolve);
      var j := RowFrom(cs[i], named, h, resolve, b);
      BindOfBinds(cs[i].who, cs[i].volumes[j], named, h, resolve);
      assert StandsFor(b, cs, named, h, resolve, i, j);
    }
    if i, j :| StandsFor(b, cs, named, h, resolve, i, j) {
      var path :| Binds(cs[i].volumes[j], named, h, path, b.writable) && LandsAt(path, b.src, resolve);
      BindOfBinds(cs[i].who, cs[i].volumes[j], named, h, resolve);
      RowHas(cs[i], named, h, resolve, b, j);
    }
  }

  /** The folder tree a layout must respect: no writable bind of the app folder, none above another bind. */
  ghost predicate GoodLayout(binds: seq<Bind>, h: Folders) {
    && (forall b :: b in binds && b.writable && h.appReal != "" ==> b.src != h.appReal)
    && (forall a, b, pa, pb :: a in binds && b in binds && a.writable && IsCleanAbs(a.src, pa) && IsCleanAbs(b.src, pb) ==> !(pa < pb))
  }

  /** No violation is reported exactly when the layout is good, in terms of path components. */
  lemma {:induction false} NoViolationIffGoodLayout(cs: seq<Mounts>, named: map<string, HostBind>, h: Folders, resolve: Resolver)
    requires Settled(h, resolve) && ResolverLaws(resolve)
    requires forall v :: v in named ==> IsAbs(named[v].device)
    ensures var binds := AllBinds(cs, named, h, resolve);
            AppHits(binds, h) + NestHits(binds, binds) == {} <==> GoodLayout(binds, h)
  {
    var binds := AllBinds(cs, named, h, resolve);
    AllBindsAreClean(cs, named, h, resolve);
    var hits := AppHits(binds, h) + NestHits(binds, binds);
    if hits == {} {
      forall b | b in binds && b.writable && h.appReal != "" ensures b.src != h.appReal {
        assert AppHit(b, h) ==> WritableAppFolder(b.who) in hits;
      }
      forall a, b, pa, pb | a in binds && b in binds && a.writable && IsCleanAbs(a.src, pa) && IsCleanAbs(b.src, pb)
        ensures !(pa < pb)
      {
        WithinIsPrefixOrder(b.src, pb, a.src, pa);
        CleanIsIdempotent(a.src, pa);
        CleanIsIdempotent(b.src, pb);
        assert NestHit(a, b) ==> NestedBind(b.who, b.src, a.src) in hits;
      }
    }
    if GoodLayout(binds, h) {
      forall v | v in NestHits(binds, binds) ensures false {
        var a, b :| a in binds && b in binds && NestHit(a, b) && v == NestedBind(b.who, b.src, a.src);
        NestHitOrder(a, b);
      }
    }
  }

  lemma {:induction false} NestHitOrder(a: Bind, b: Bind)
    requires CleanAbs(a.src) && CleanAbs(b.src) && NestHit(a, b)
    ensures exists pa, pb :: IsCleanAbs(a.src, pa) && IsCleanAbs(b.src, pb) && pa < pb
  {
    var pa :| IsCleanAbs(a.src, pa);
    var pb :| IsCleanAbs(b.src, pb);
    WithinIsPrefixOrder(b.src, pb, a.src, pa);
    assert pa != pb && |pa| < |pb|;
  }
}
