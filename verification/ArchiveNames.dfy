/**
 * Names in backup archives: which entry names a restore accepts, which container
 * paths a backup accepts, and the tar operands built from them.
 */
module ArchiveNames {
  import opened Prelude
  import opened Paths

  // ---- names a restore accepts

  datatype EntryType = Regular | Directory | Symlink | HardLink | BlockDevice | CharDevice | Fifo

  datatype NameError = EmptyName | AbsoluteName | NulInName | ParentTraversal | LinkEntry | SpecialEntry

  predicate HasPrefix(s: string, prefix: string) { prefix <= s }

  predicate Contains(s: string, sub: string) {
    exists i :: 0 <= i <= |s| && sub <= s[i..]
  }

  function CheckTarEntry(name: string, typ: EntryType): Result<(), NameError> {
    if name == "" then Err(EmptyName)
    else if HasPrefix(name, "/") then Err(AbsoluteName)
    else if '\0' in name then Err(NulInName)
    else
      var cleaned := Clean(name);
      if cleaned == ".." || HasPrefix(cleaned, "../") || Contains(cleaned, "/../") then Err(ParentTraversal)
      else
        match typ
        case Symlink | HardLink => Err(LinkEntry)
        case BlockDevice | CharDevice | Fifo => Err(SpecialEntry)
        case Regular | Directory => Ok(())
  }

  /** The string test on a cleaned relative name sees exactly a leading ".." component. */
  lemma {:induction false} TraversalTest(stack: seq<string>)
    requires StackShape(false, stack)
    ensures var s := if stack == [] then "." else Join(stack);
            s == ".." || HasPrefix(s, "../") || Contains(s, "/../") <==> Escapes(stack)
  {
    if stack != [] {
      var s := Join(stack);
      SplitJoin(stack);
      if s == ".." {
        SplitNoSlash("..");
      }
      if HasPrefix(s, "../") {
        assert s == ".." + "/" + s[3..];
        SplitAtSlash("..", s[3..]);
        SplitNoSlash("..");
      }
      if Contains(s, "/../") {
        InnerParent(stack);
      }
    }
  }

  lemma {:induction false} SplitAround(a: string, b: string)
    ensures var cs := Split(a + "/../" + b); |cs| > |Split(a)| && cs[|Split(a)|] == ".."
  {
    assert a + "/../" + b == a + "/" + (".." + "/" + b);
    SplitAtSlash(a, ".." + "/" + b);
    SplitAtSlash("..", b);
    SplitNoSlash("..");
  }

  /** A joined stack that holds "/../" has a ".." in it, so its bottom is one too. */
  lemma {:induction false} InnerParent(stack: seq<string>)
    requires StackShape(false, stack) && stack != [] && Contains(Join(stack), "/../")
    ensures Escapes(stack)
  {
    var s := Join(stack);
    SplitJoin(stack);
    var i :| 0 <= i <= |s| && "/../" <= s[i..];
    assert s == s[..i] + "/../" + s[i..][4..];
    SplitAround(s[..i], s[i..][4..]);
  }

  /**
   * A name is accepted exactly when it is a non-empty relative name without NUL
   * whose walk stays at or below the extraction root at every step, and the entry
   * is neither a link nor a device.
   */
  lemma {:induction false} AcceptedNamesStayInside(name: string, typ: EntryType)
    ensures CheckTarEntry(name, typ).Ok? <==>
            && name != "" && name[0] != '/' && '\0' !in name
            && StaysInside(Split(name))
            && (typ == Regular || typ == Directory)
  {
    if name != "" && name[0] != '/' {
      CleanPartsShape(false, Split(name));
      TraversalTest(CleanParts(false, Split(name)));
      StackTracksWalk(Split(name));
    }
  }

  /** Which fault of a refused entry is named: the first one in this order. */
  lemma {:induction false} FaultNamed(name: string, typ: EntryType)
    ensures var r := CheckTarEntry(name, typ);
      var plain := name != "" && name[0] != '/';
      var inside := plain && '\0' !in name && StaysInside(Split(name));
      && (r == Err(EmptyName) <==> name == "")
      && (r == Err(AbsoluteName) <==> name != "" && name[0] == '/')
      && (r == Err(NulInName) <==> plain && '\0' in name)
      && (r == Err(ParentTraversal) <==> plain && '\0' !in name && !StaysInside(Split(name)))
      && (r == Err(LinkEntry) <==> inside && (typ == Symlink || typ == HardLink))
      && (r == Err(SpecialEntry) <==> inside && (typ == BlockDevice || typ == CharDevice || typ == Fifo))
  {
    if name != "" && name[0] != '/' {
      CleanPartsShape(false, Split(name));
      TraversalTest(CleanParts(false, Split(name)));
      StackTracksWalk(Split(name));
    }
  }

  // ---- paths a backup accepts

  datatype PathError = EmptyPath | ControlCharacter | NotAbsolute | RootPath | Unclean(suggestion: string) | FlagLikePart

  predicate IsControl(c: char) { c as int < 0x20 || 0x7F <= c as int < 0xA0 }

  function TrimRightSlashes(p: string): string {
    if p == "" || p[|p| - 1] != '/' then p else TrimRightSlashes(p[..|p| - 1])
  }

  function TrimOneSlash(p: string): string {
    if HasPrefix(p, "/") then p[1..] else p
  }

  function ValidatePath(p: string): Result<(), PathError> {
    if p == "" then Err(EmptyPath)
    else if exists i :: 0 <= i < |p| && IsControl(p[i]) then Err(ControlCharacter)
    else if !IsAbs(p) then Err(NotAbsolute)
    else if p == "/" then Err(RootPath)
    else if Clean(p) != TrimRightSlashes(p) then Err(Unclean(Clean(p)))
    else if exists i :: 0 <= i < |Split(p)| && HasPrefix(Split(p)[i], "-") then Err(FlagLikePart)
    else Ok(())
  }

  function Slashes(n: nat): string {
    if n == 0 then "" else Slashes(n - 1) + "/"
  }

  /** What an accepted path looks like: clean components, none flag-like, and any trailing slashes. */
  ghost predicate PlainPath(p: string, cs: seq<string>, n: nat) {
    && cs != []
    && (forall i :: 0 <= i < |cs| ==> CleanPart(cs[i]) && cs[i][0] != '-')
    && p == "/" + Join(cs) + Slashes(n)
    && Printable(p)
  }

  /** No C0 control, no DEL and no C1 control. */
  ghost predicate Printable(p: string) {
    forall i :: 0 <= i < |p| ==> 0x20 <= p[i] as int < 0x7F || p[i] as int >= 0xA0
  }

  lemma {:induction false} TrimmedShape(p: string) returns (n: nat)
    ensures p == TrimRightSlashes(p) + Slashes(n)
    ensures TrimRightSlashes(p) != "" ==> TrimRightSlashes(p)[|TrimRightSlashes(p)| - 1] != '/'
  {
    if p == "" || p[|p| - 1] != '/' {
      n := 0;
    } else {
      var k := TrimmedShape(p[..|p| - 1]);
      n := k + 1;
      assert p == p[..|p| - 1] + "/";
    }
  }

  lemma {:induction false} TrimAppended(body: string, n: nat)
    requires body != "" && body[|body| - 1] != '/'
    ensures TrimRightSlashes(body + Slashes(n)) == body
  {
    var p := body + Slashes(n);
    if n > 0 {
      assert p == body + Slashes(n - 1) + "/";
      assert p[..|p| - 1] == body + Slashes(n - 1);
      TrimAppended(body, n - 1);
    }
  }

  function Blanks(n: nat): (bs: seq<string>)
    ensures |bs| == n && forall i :: 0 <= i < n ==> bs[i] == ""
  {
    seq(n, i => "")
  }

  lemma {:induction false} SplitSlashes(body: string, n: nat)
    ensures Split(body + Slashes(n)) == Split(body) + Blanks(n)
  {
    if n == 0 {
      assert body + Slashes(0) == body;
    } else {
      SplitSlashes(body, n - 1);
      SplitAtSlash(body + Slashes(n - 1), "");
      assert body + Slashes(n) == body + Slashes(n - 1) + "/" + "";
      assert Blanks(n) == Blanks(n - 1) + [""];
    }
  }

  lemma {:induction false} JoinEnds(cs: seq<string>)
    requires cs != [] && forall i :: 0 <= i < |cs| ==> Part(cs[i])
    ensures var s := Join(cs); s != "" && Part(cs[0]) && s[0] == cs[0][0] && s[0] != '/' && s[|s| - 1] != '/'
  {
    assert Part(cs[0]);
    if |cs| > 1 {
      JoinEnds(cs[1..]);
    }
  }

  /** Components of a plain path and of the operand made from it. */
  lemma {:induction false} PlainSplit(p: string, cs: seq<string>, n: nat)
    requires PlainPath(p, cs, n)
    ensures Split(p) == [""] + (cs + Blanks(n))
    ensures Split(TrimOneSlash(p)) == cs + Blanks(n)
    ensures CleanParts(true, Split(p)) == cs && CleanParts(false, Split(TrimOneSlash(p))) == cs
  {
    var body := Join(cs) + Slashes(n);
    assert p == "" + "/" + body && p[1..] == body;
    SplitAtSlash("", body);
    SplitSlashes(Join(cs), n);
    SplitJoin(cs);
    CleanPartsDropsLeadingBlank(true, cs + Blanks(n));
    CleanPartsSkipsBlanks(true, cs, Blanks(n));
    CleanPartsSkipsBlanks(false, cs, Blanks(n));
    CleanPartsIdentity(true, cs);
    CleanPartsIdentity(false, cs);
  }

  lemma {:induction false} PlainPathsValidate(p: string, cs: seq<string>, n: nat)
    requires PlainPath(p, cs, n)
    ensures ValidatePath(p).Ok?
  {
    PlainPathIsClean(p, cs, n);
    PlainPathHasNoFlag(p, cs, n);
  }

  lemma {:induction false} PlainPathIsClean(p: string, cs: seq<string>, n: nat)
    requires PlainPath(p, cs, n)
    ensures IsAbs(p) && p != "/" && Clean(p) == TrimRightSlashes(p)
  {
    PlainSplit(p, cs, n);
    JoinEnds(cs);
    TrimAppended("/" + Join(cs), n);
  }

  lemma {:induction false} PlainPathHasNoFlag(p: string, cs: seq<string>, n: nat)
    requires PlainPath(p, cs, n)
    ensures forall i :: 0 <= i < |Split(p)| ==> !HasPrefix(Split(p)[i], "-")
  {
    PlainSplit(p, cs, n);
    forall i | 0 <= i < |Split(p)| ensures !HasPrefix(Split(p)[i], "-") {
      if 1 <= i <= |cs| {
        assert Split(p)[i] == cs[i - 1];
      }
    }
  }

  lemma {:induction false} ValidPathsArePlain(p: string) returns (cs: seq<string>, n: nat)
    requires ValidatePath(p).Ok?
    ensures PlainPath(p, cs, n)
  {
    cs := CleanParts(true, Split(p));
    CleanPartsShape(true, Split(p));
    n := TrimmedShape(p);
    assert p == "/" + Join(cs) + Slashes(n);
    var body := Join(cs) + Slashes(n);
    assert p == "" + "/" + body;
    SplitAtSlash("", body);
    SplitSlashes(Join(cs), n);
    SplitJoin(cs);
    forall i | 0 <= i < |cs| ensures CleanPart(cs[i]) && cs[i][0] != '-' {
      assert Split(p)[i + 1] == cs[i];
    }
  }

  /** Validation accepts exactly the plain paths, trailing slashes in any number. */
  lemma {:induction false} ValidPathShape(p: string)
    ensures ValidatePath(p).Ok? <==> exists cs, n :: PlainPath(p, cs, n)
  {
    if ValidatePath(p).Ok? {
      var cs, n := ValidPathsArePlain(p);
    }
    forall cs, n | PlainPath(p, cs, n) ensures ValidatePath(p).Ok? {
      PlainPathsValidate(p, cs, n);
    }
  }

  /** Which fault of a refused path is named: the first one in this order. */
  lemma {:induction false} PathFaultNamed(p: string)
    ensures var r := ValidatePath(p);
      && (r == Err(EmptyPath) <==> p == "")
      && (r == Err(ControlCharacter) <==> p != "" && !Printable(p))
      && (r == Err(NotAbsolute) <==> p != "" && Printable(p) && p[0] != '/')
      && (r == Err(RootPath) <==> p == "/")
      && (r.Err? && r.error.Unclean? ==> r.error.suggestion == Clean(p))
  {
  }

  // ---- operands

  lemma {:induction false} DownwardWalk(cs: seq<string>)
    requires forall i :: 0 <= i < |cs| ==> cs[i] != ".."
    ensures Depth(cs) >= 0
  {
    if cs != [] {
      DownwardWalk(cs[..|cs| - 1]);
    }
  }

  lemma {:induction false} PlainWalk(cs: seq<string>, n: nat)
    requires forall i :: 0 <= i < |cs| ==> CleanPart(cs[i])
    ensures StaysInside(cs + Blanks(n))
  {
    forall k | 0 <= k <= |cs + Blanks(n)| ensures Depth((cs + Blanks(n))[..k]) >= 0 {
      DownwardWalk((cs + Blanks(n))[..k]);
    }
  }

  lemma {:induction false} OperandText(p: string, cs: seq<string>, n: nat)
    requires PlainPath(p, cs, n)
    ensures var op := TrimOneSlash(p); op != "" && op[0] != '/' && op[0] != '-' && '\0' !in op
  {
    JoinEnds(cs);
    var op := TrimOneSlash(p);
    assert op == Join(cs) + Slashes(n);
    forall i | 0 <= i < |op| ensures op[i] != '\0' {
      assert p[i + 1] == op[i];
      assert !IsControl(p[i + 1]);
    }
  }

  lemma {:induction false} OperandAccepted(p: string, cs: seq<string>, n: nat, typ: EntryType)
    requires PlainPath(p, cs, n) && (typ == Regular || typ == Directory)
    ensures CheckTarEntry(TrimOneSlash(p), typ).Ok?
  {
    OperandText(p, cs, n);
    assert StaysInside(Split(TrimOneSlash(p))) by {
      PlainSplit(p, cs, n);
      PlainWalk(cs, n);
    }
    AcceptedNamesStayInside(TrimOneSlash(p), typ);
  }

  /**
   * Every operand made from an accepted path is a non-empty relative name that no
   * tool can read as a flag, passes the restore name check, and extracted under
   * "/" lands on the very path that was backed up.
   */
  lemma {:induction false} OperandIsSafe(p: string)
    requires ValidatePath(p).Ok?
    ensures var op := TrimOneSlash(p);
            && SafeOperand(op) && CheckTarEntry(op, Directory).Ok?
            && CleanParts(false, Split(op)) == CleanParts(true, Split(p))
  {
    var cs, n := ValidPathsArePlain(p);
    PlainSplit(p, cs, n);
    OperandText(p, cs, n);
    OperandAccepted(p, cs, n, Regular);
    OperandAccepted(p, cs, n, Directory);
  }

  function Operands(paths: seq<string>): seq<string> {
    if paths == [] then []
    else Operands(paths[..|paths| - 1]) + [TrimOneSlash(paths[|paths| - 1])]
  }

  /** The `docker exec ... tar` argument list, built path by path. */
  method TarCreateArgs(container: string, paths: seq<string>) returns (args: seq<string>)
    ensures args == ["exec", container, "tar", "-czf", "-", "-C", "/", "--"] + Operands(paths)
  {
    args := ["exec", container, "tar", "-czf", "-", "-C", "/", "--"];
    ghost var head := args;
    var i := 0;
    while i < |paths|
      invariant 0 <= i <= |paths|
      invariant args == head + Operands(paths[..i])
    {
      assert paths[..i + 1][..i] == paths[..i];
      args := args + [TrimOneSlash(paths[i])];
      i := i + 1;
    }
    assert paths[..|paths|] == paths;
  }

  /** A non-empty relative name that is not flag-like and that a restore would accept. */
  ghost predicate SafeOperand(op: string) {
    op != "" && op[0] != '/' && op[0] != '-' && CheckTarEntry(op, Regular).Ok?
  }

  lemma {:induction false} OperandsAt(paths: seq<string>, i: nat)
    requires i < |paths|
    ensures |Operands(paths)| == |paths| && Operands(paths)[i] == TrimOneSlash(paths[i])
  {
    var n := |paths| - 1;
    if n > 0 {
      OperandsAt(paths[..n], if i < n then i else 0);
    }
  }

  /** A backup hands tar one operand per path, in order, and a safe one for every accepted path. */
  lemma {:induction false} OperandsAreSafe(paths: seq<string>, i: nat)
    requires i < |paths| && ValidatePath(paths[i]).Ok?
    ensures |Operands(paths)| == |paths| && Operands(paths)[i] == TrimOneSlash(paths[i])
    ensures SafeOperand(Operands(paths)[i])
  {
    OperandsAt(paths, i);
    OperandIsSafe(paths[i]);
  }
}
