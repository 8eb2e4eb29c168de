/**
 * The restore size guard: a reader that passes at most `max` bytes through and
 * fails when its source has more, so an oversize archive is an error and never a
 * silent truncation. Sources may hand out their bytes in any chunks.
 */
module RestoreCap {
  import opened Prelude

  newtype Byte = x: int | 0 <= x < 256

  /** How a source ends after its last byte. */
  datatype End = Eof | Fault(reason: string)

  datatype ReadError = Ended(end: End) | TooLarge(max: int)

  /** What a source does with one read: bytes at most, and whether it reports its end with the last of them. */
  datatype Turn = Turn(most: nat, report: bool)

  /** A source with any chunking: `plan` fixes its next reads; after that it gives all it can. */
  datatype Source = Source(data: seq<Byte>, end: End, plan: seq<Turn>)

  datatype Chunk<+R> = Chunk(bytes: seq<Byte>, err: Option<ReadError>, rest: R)

  function Min(a: int, b: int): int { if a < b then a else b }

  function SourceRead(s: Source, want: nat): (r: Chunk<Source>)
    ensures |r.bytes| <= want && r.bytes + r.rest.data == s.data && r.rest.end == s.end
    ensures r.err.Some? ==> r.err == Some(Ended(s.end)) && r.rest.data == []
    ensures |r.rest.plan| == if s.plan == [] then 0 else |s.plan| - 1
    ensures s.plan == [] && want > 0 ==> r.bytes != [] || r.err.Some?
  {
    var turn := if s.plan == [] then Turn(want, true) else s.plan[0];
    var n := Min(Min(want, turn.most), |s.data|);
    Chunk(s.data[..n],
          if n == |s.data| && turn.report then Some(Ended(s.end)) else None,
          Source(s.data[n..], s.end, if s.plan == [] then [] else s.plan[1..]))
  }

  /** The two readers a restore may use: the source itself, or the source behind a cap. */
  datatype Reader =
    | Plain(src: Source)
    | Capped(src: Source, max: int, remaining: int)

  function NewCapReader(src: Source, max: int): Reader { Capped(src, max, max) }

  function Read(r: Reader, want: nat): (c: Chunk<Reader>)
  {
    match r
    case Plain(src) =>
      var c := SourceRead(src, want);
      Chunk(c.bytes, c.err, Plain(c.rest))
    case Capped(src, max, remaining) =>
      if remaining <= 0 then
        // At the cap: one probe byte tells a clean end from overflow.
        var c := SourceRead(src, 1);
        Chunk([], if c.bytes != [] then Some(TooLarge(max)) else c.err, Capped(c.rest, max, remaining))
      else
        var c := SourceRead(src, Min(want, remaining));
        Chunk(c.bytes, c.err, Capped(c.rest, max, remaining - |c.bytes|))
  }

  const COPY_BUFFER: nat := 32 * 1024

  /** Bytes and final error of reading until the first error, with any buffer sizes. */
  function Drain(r: Reader, sizes: seq<nat>): (seq<Byte>, ReadError)
    decreases |r.src.data| + |r.src.plan| + |sizes|
  {
    var want := if sizes == [] then COPY_BUFFER else sizes[0];
    var c := Read(r, want);
    if c.err.Some? then (c.bytes, c.err.value)
    else
      var more := Drain(c.rest, if sizes == [] then [] else sizes[1..]);
      (c.bytes + more.0, more.1)
  }

  lemma {:induction false} DrainUnfolds(r: Reader)
    ensures var c := Read(r, COPY_BUFFER);
            if c.err.Some? then Drain(r, []) == (c.bytes, c.err.value)
            else
              && Drain(r, []) == (c.bytes + Drain(c.rest, []).0, Drain(c.rest, []).1)
              && |c.rest.src.data| + |c.rest.src.plan| < |r.src.data| + |r.src.plan|
  {
  }

  /** What one more read leaves of a drain that has already put `before` aside. */
  lemma {:induction false} DrainStep(before: seq<Byte>, r: Reader, want: seq<Byte>, last: ReadError)
    requires before + Drain(r, []).0 == want && Drain(r, []).1 == last
    ensures var c := Read(r, COPY_BUFFER);
            if c.err.Some? then before + c.bytes == want && c.err.value == last
            else
              && before + c.bytes + Drain(c.rest, []).0 == want && Drain(c.rest, []).1 == last
              && |c.rest.src.data| + |c.rest.src.plan| < |r.src.data| + |r.src.plan|
  {
    DrainUnfolds(r);
    var c := Read(r, COPY_BUFFER);
    if c.err.None? {
      Regroup(before, c.bytes, Drain(c.rest, []).0);
    }
  }

  lemma {:induction false} Regroup(a: seq<Byte>, b: seq<Byte>, c: seq<Byte>)
    ensures a + b + c == a + (b + c)
  {
  }

  /** Reading through the cap is all or nothing, whatever the chunks and the buffers. */
  lemma {:induction false} CappedDrain(r: Reader, sizes: seq<nat>)
    requires r.Capped? && 0 <= r.remaining
    ensures |r.src.data| <= r.remaining ==> Drain(r, sizes) == (r.src.data, Ended(r.src.end))
    ensures |r.src.data| > r.remaining ==> Drain(r, sizes) == (r.src.data[..r.remaining], TooLarge(r.max))
    decreases |r.src.data| + |r.src.plan| + |sizes|
  {
    var want := if sizes == [] then COPY_BUFFER else sizes[0];
    var c := Read(r, want);
    if c.err.None? {
      CappedDrain(c.rest, if sizes == [] then [] else sizes[1..]);
      if r.remaining > 0 && |r.src.data| > r.remaining {
        assert r.src.data[..r.remaining] == c.bytes + c.rest.src.data[..r.remaining - |c.bytes|];
      }
    } else if r.remaining > 0 {
      assert c.bytes + [] == c.bytes;
    }
  }

  lemma {:induction false} PlainDrain(r: Reader, sizes: seq<nat>)
    requires r.Plain?
    ensures Drain(r, sizes) == (r.src.data, Ended(r.src.end))
    decreases |r.src.data| + |r.src.plan| + |sizes|
  {
    var want := if sizes == [] then COPY_BUFFER else sizes[0];
    var c := Read(r, want);
    if c.err.None? {
      PlainDrain(c.rest, if sizes == [] then [] else sizes[1..]);
    } else {
      assert c.bytes + [] == c.bytes;
    }
  }

  const DEFAULT_MAX_DECOMPRESSED: int := 8 * 1024 * 1024 * 1024

  /** The byte cap for a configured maximum: none when negative, eight GiB when zero. */
  function RestoreLimit(max: int): Option<int> {
    if max < 0 then None else if max == 0 then Some(DEFAULT_MAX_DECOMPRESSED) else Some(max)
  }

  function LimitedGzip(src: Source, max: int): Reader {
    match RestoreLimit(max)
    case None => Plain(src)
    case Some(limit) => NewCapReader(src, limit)
  }

  /** What a configured maximum lets through: everything when negative, eight GiB when zero, else that many bytes. */
  predicate Fits(size: nat, max: int) {
    max < 0 || size <= if max == 0 then 8_589_934_592 else max
  }

  /**
   * A limited stream ends cleanly exactly when its source does and fits the cap;
   * then every byte came through. An oversize source passes exactly the capped
   * prefix and then fails, and a clean end is never reported for it.
   */
  lemma {:induction false} LimitedStream(src: Source, max: int, sizes: seq<nat>)
    ensures var d := Drain(LimitedGzip(src, max), sizes);
            && (d.1 == Ended(Eof) <==> src.end == Eof && Fits(|src.data|, max))
            && (Fits(|src.data|, max) ==> d == (src.data, Ended(src.end)))
            && (!Fits(|src.data|, max) ==>
                  var cap := if max == 0 then 8_589_934_592 else max;
                  0 <= cap <= |src.data| && d == (src.data[..cap], TooLarge(cap)))
  {
    var r := LimitedGzip(src, max);
    if r.Plain? {
      PlainDrain(r, sizes);
    } else {
      CappedDrain(r, sizes);
    }
  }

  // ---- the readers and the spool as the objects they are

  class SourceReader {
    var src: Source

    constructor (src: Source)
      ensures this.src == src
    {
      this.src := src;
    }

    method ReadChunk(want: nat) returns (bytes: seq<Byte>, err: Option<ReadError>)
      modifies this
      ensures Chunk(bytes, err, src) == SourceRead(old(src), want)
    {
      var c := SourceRead(src, want);
      bytes, err, src := c.bytes, c.err, c.rest;
    }
  }

  class CapReader {
    const under: SourceReader
    const max: int
    var remaining: int

    ghost function Abs(): Reader
      reads this, under
    {
      Capped(under.src, max, remaining)
    }

    constructor (under: SourceReader, max: int)
      ensures this.under == under && Abs() == NewCapReader(under.src, max)
    {
      this.under := under;
      this.max := max;
      this.remaining := max;
    }

    method ReadChunk(want: nat) returns (bytes: seq<Byte>, err: Option<ReadError>)
      modifies this, under
      ensures Chunk(bytes, err, Abs()) == Read(old(Abs()), want)
    {
      if remaining <= 0 {
        bytes, err := under.ReadChunk(1);
        if bytes != [] {
          err := Some(TooLarge(max));
        }
        bytes := [];
        return;
      }
      bytes, err := under.ReadChunk(if want > remaining then remaining else want);
      remaining := remaining - |bytes|;
    }
  }

  class SpoolFile {
    var contents: seq<Byte>

    constructor ()
      ensures contents == []
    {
      contents := [];
    }

    /** `io.Copy` from a bare source: everything up to its end. */
    method CopyPlain(under: SourceReader) returns (err: ReadError)
      modifies this, under
      ensures (contents, err) == (old(contents) + old(under.src).data, Ended(old(under.src).end))
    {
      PlainDrain(Plain(under.src), []);
      ghost var all := Drain(Plain(under.src), []);
      var got: Option<ReadError> := None;
      while got.None?
        invariant got.None? ==> contents + Drain(Plain(under.src), []).0 == old(contents) + all.0
                                && Drain(Plain(under.src), []).1 == all.1
        invariant got.Some? ==> contents == old(contents) + all.0 && got.value == all.1
        decreases if got.None? then 1 else 0, |under.src.data| + |under.src.plan|
      {
        var bytes;
        DrainStep(contents, Plain(under.src), old(contents) + all.0, all.1);
        bytes, got := under.ReadChunk(COPY_BUFFER);
        contents := contents + bytes;
      }
      err := got.value;
    }

    /** `io.Copy` from a capped source: its bytes up to the cap, then its end or the overflow error. */
    method CopyCapped(under: SourceReader, max: int) returns (err: ReadError)
      requires 0 <= max
      modifies this, under
      ensures var size := |old(under.src).data|;
              (contents, err) ==
              if size <= max then (old(contents) + old(under.src).data, Ended(old(under.src).end))
              else (old(contents) + old(under.src).data[..max], TooLarge(max))
    {
      var capped := new CapReader(under, max);
      CappedDrain(capped.Abs(), []);
      ghost var all := Drain(capped.Abs(), []);
      var got: Option<ReadError> := None;
      while got.None?
        invariant capped.under == under
        invariant got.None? ==> contents + Drain(capped.Abs(), []).0 == old(contents) + all.0
                                && Drain(capped.Abs(), []).1 == all.1
        invariant got.Some? ==> contents == old(contents) + all.0 && got.value == all.1
        decreases if got.None? then 1 else 0, |under.src.data| + |under.src.plan|
      {
        var bytes;
        DrainStep(contents, capped.Abs(), old(contents) + all.0, all.1);
        bytes, got := capped.ReadChunk(COPY_BUFFER);
        contents := contents + bytes;
      }
      err := got.value;
    }

    /** Copies a reader into the spool, refusing more than the cap allows. */
    method Fill(under: SourceReader, max: int) returns (err: Option<ReadError>)
      requires contents == []
      modifies this, under
      ensures err.None? <==> old(under.src).end == Eof && Fits(|old(under.src).data|, max)
      ensures err.None? ==> contents == old(under.src).data
      ensures !Fits(|old(under.src).data|, max) ==>
                var cap := if max == 0 then 8_589_934_592 else max;
                0 <= cap <= |old(under.src).data| && err == Some(TooLarge(cap)) && contents == old(under.src).data[..cap]
    {
      var limit := RestoreLimit(max);
      var last;
      if limit.None? {
        last := CopyPlain(under);
      } else {
        last := CopyCapped(under, limit.value);
      }
      err := if last == Ended(Eof) then None else Some(last);
    }
  }
}
