/**
 * Slash-separated paths: splitting, joining and lexical cleaning, as Go's
 * path.Clean does them (Unix filepath.Clean is the same function).
 */
module Paths {

  /** Components between slashes; never empty. */
  function Split(p: string): (cs: seq<string>)
    ensures |cs| >= 1
    ensures forall c :: c in cs ==> '/' !in c
  {
    if p == "" then [""]
    else
      var rest := Split(p[1..]);
      if p[0] == '/' then [""] + rest else [[p[0]] + rest[0]] + rest[1..]
  }

  function Join(cs: seq<string>): string {
    if cs == [] then "" else if |cs| == 1 then cs[0] else cs[0] + "/" + Join(cs[1..])
  }

  /** A component that can stand in a path: neither empty nor holding a slash. */
  predicate Part(c: string) { c != "" && '/' !in c }

  /** A component of a clean path. */
  predicate CleanPart(c: string) { Part(c) && c != "." && c != ".." }

  lemma {:induction false} SplitNoSlash(c: string)
    requires '/' !in c
    ensures Split(c) == [c]
  {
    if c != "" {
      SplitNoSlash(c[1..]);
      assert c == [c[0]] + c[1..];
    }
  }

  /** A slash always separates. */
  lemma {:induction false} SplitAtSlash(a: string, b: string)
    ensures Split(a + "/" + b) == Split(a) + Split(b)
  {
    if a == "" {
      assert (a + "/" + b)[1..] == b;
    } else {
      assert (a + "/" + b)[1..] == a[1..] + "/" + b;
      SplitAtSlash(a[1..], b);
    }
  }

  lemma {:induction false} SplitJoin(cs: seq<string>)
    requires cs != [] && forall c :: c in cs ==> '/' !in c
    ensures Split(Join(cs)) == cs
  {
    SplitNoSlash(cs[0]);
    if |cs| > 1 {
      SplitAtSlash(cs[0], Join(cs[1..]));
      SplitJoin(cs[1..]);
    }
  }

  /** One component processed by the cleaning stack. */
  function Push(rooted: bool, stack: seq<string>, c: string): seq<string> {
    if c == "" || c == "." then stack
    else if c == ".." then
      if stack != [] && stack[|stack| - 1] != ".." then stack[..|stack| - 1]
      else if rooted then stack
      else stack + [".."]
    else stack + [c]
  }

  function CleanParts(rooted: bool, cs: seq<string>): seq<string> {
    if cs == [] then []
    else Push(rooted, CleanParts(rooted, cs[..|cs| - 1]), cs[|cs| - 1])
  }

  predicate IsAbs(p: string) { p != "" && p[0] == '/' }

  function Clean(p: string): string {
    var parts := CleanParts(IsAbs(p), Split(p));
    if IsAbs(p) then "/" + Join(parts) else if parts == [] then "." else Join(parts)
  }

  /** The stack holds proper components, with any ".." only at its bottom. */
  ghost predicate StackShape(rooted: bool, stack: seq<string>) {
    && (forall i :: 0 <= i < |stack| ==> Part(stack[i]) && stack[i] != ".")
    && (forall i, j :: 0 <= i < j < |stack| && stack[j] == ".." ==> stack[i] == "..")
    && (rooted ==> forall i :: 0 <= i < |stack| ==> stack[i] != "..")
  }

  lemma {:induction false} CleanPartsShape(rooted: bool, cs: seq<string>)
    requires forall c :: c in cs ==> '/' !in c
    ensures StackShape(rooted, CleanParts(rooted, cs))
  {
    if cs != [] {
      CleanPartsShape(rooted, cs[..|cs| - 1]);
    }
  }

  /** Where a component takes a walk: up, down, or nowhere. */
  function Move(c: string): int {
    if c == "" || c == "." then 0 else if c == ".." then -1 else 1
  }

  /** Depth below the start after walking the components. */
  function Depth(cs: seq<string>): int {
    if cs == [] then 0 else Depth(cs[..|cs| - 1]) + Move(cs[|cs| - 1])
  }

  /** The walk never goes above its start, at any prefix. */
  ghost predicate StaysInside(cs: seq<string>) {
    forall n :: 0 <= n <= |cs| ==> Depth(cs[..n]) >= 0
  }

  predicate Escapes(stack: seq<string>) { stack != [] && stack[0] == ".." }

  /** The cleaning stack of a relative walk starts with ".." exactly when the walk once left its start. */
  lemma {:induction false} StackTracksWalk(cs: seq<string>)
    requires forall c :: c in cs ==> '/' !in c
    ensures Escapes(CleanParts(false, cs)) <==> !StaysInside(cs)
    ensures !Escapes(CleanParts(false, cs)) ==> Depth(cs) == |CleanParts(false, cs)|
  {
    if cs == [] {
      assert StaysInside(cs);
    } else {
      var init := cs[..|cs| - 1];
      StackTracksWalk(init);
      CleanPartsShape(false, init);
      assert forall n :: 0 <= n <= |init| ==> cs[..n] == init[..n];
      assert cs[..|cs|] == cs && init[..|init|] == init;
    }
  }

  /** Components that are already clean pass through unchanged. */
  lemma {:induction false} CleanPartsIdentity(rooted: bool, cs: seq<string>)
    requires forall c :: c in cs ==> CleanPart(c)
    ensures CleanParts(rooted, cs) == cs
  {
    if cs != [] {
      assert CleanPart(cs[|cs| - 1]);
      CleanPartsIdentity(rooted, cs[..|cs| - 1]);
      assert cs == cs[..|cs| - 1] + [cs[|cs| - 1]];
    }
  }

  /** Empty components change nothing. */
  lemma {:induction false} CleanPartsSkipsBlanks(rooted: bool, cs: seq<string>, blanks: seq<string>)
    requires forall i :: 0 <= i < |blanks| ==> blanks[i] == ""
    ensures CleanParts(rooted, cs + blanks) == CleanParts(rooted, cs)
  {
    if blanks == [] {
      assert cs + blanks == cs;
    } else {
      var n := |blanks| - 1;
      CleanPartsSkipsBlanks(rooted, cs, blanks[..n]);
      assert (cs + blanks)[|cs| + n] == "";
      assert (cs + blanks)[..|cs| + n] == cs + blanks[..n];
    }
  }

  lemma {:induction false} CleanPartsDropsLeadingBlank(rooted: bool, cs: seq<string>)
    ensures CleanParts(rooted, [""] + cs) == CleanParts(rooted, cs)
  {
    if cs == [] {
      assert [""] + cs == [""] && [""][..0] == [];
    } else {
      var n := |cs| - 1;
      CleanPartsDropsLeadingBlank(rooted, cs[..n]);
      assert ([""] + cs)[..n + 1] == [""] + cs[..n];
    }
  }

  /** A clean absolute path, and the components it is made of. */
  ghost predicate IsCleanAbs(p: string, cs: seq<string>) {
    (forall c :: c in cs ==> CleanPart(c)) && p == "/" + Join(cs)
  }

  lemma {:induction false} CleanIsClean(p: string)
    requires IsAbs(p)
    ensures IsCleanAbs(Clean(p), CleanParts(true, Split(p)))
  {
    CleanPartsShape(true, Split(p));
  }

  /** Cleaning a clean absolute path changes nothing. */
  lemma {:induction false} CleanIsIdempotent(p: string, cs: seq<string>)
    requires IsCleanAbs(p, cs)
    ensures Clean(p) == p && CleanParts(true, Split(p)) == cs
  {
    var body := Join(cs);
    assert p == "" + "/" + body;
    SplitAtSlash("", body);
    CleanPartsDropsLeadingBlank(true, Split(body));
    if cs != [] {
      SplitJoin(cs);
      CleanPartsIdentity(true, cs);
    } else {
      assert Split(body) == [""];
      assert [""][..0] == [];
    }
  }
}
