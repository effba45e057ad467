/** The reader that drains a child's pipe without ever holding more than its limits. */
module BoundedReader {
  import opened Wrappers

  newtype Byte = x: int | 0 <= x < 256

  const NEWLINE: Byte := 10
  const MAX_READY_BYTES: nat := 4_096

  function Least(a: nat, b: nat): nat { if a < b then a else b }

  /** At most the first `n` bytes. */
  function Cut(s: seq<Byte>, n: nat): seq<Byte> { if |s| <= n then s else s[..n] }

  /** The bytes before the first newline, or all of them. */
  function FirstLine(s: seq<Byte>): seq<Byte> {
    if s == [] || s[0] == NEWLINE then [] else [s[0]] + FirstLine(s[1..])
  }

  /** Everything read before the pipe closed: an empty read is its end. */
  function Stream(chunks: seq<seq<Byte>>): seq<Byte> {
    if chunks == [] || chunks[0] == [] then [] else chunks[0] + Stream(chunks[1..])
  }

  /** What the supervisor can see of a reader. */
  datatype Evidence = Evidence(
    data: seq<Byte>, overflow: bool, lines: seq<seq<Byte>>, incomplete: bool, highWater: nat)

  function ReadyLimit(limit: nat): nat { Least(limit, MAX_READY_BYTES) }

  /** The first line is settled: it ended, or it outgrew what may be kept of it. */
  predicate Settled(limit: nat, s: seq<Byte>) { NEWLINE in s || |FirstLine(s)| > ReadyLimit(limit) }

  /** The evidence a stream leaves, however it was cut into reads. */
  function Drained(limit: nat, readiness: bool, s: seq<Byte>): Evidence {
    Evidence(
      Cut(s, limit),
      |s| > limit || (readiness && |FirstLine(s)| > ReadyLimit(limit)),
      if readiness then [Cut(FirstLine(s), ReadyLimit(limit))] else [],
      readiness && NEWLINE !in s && |s| <= ReadyLimit(limit),
      if readiness then Least(|FirstLine(s)|, ReadyLimit(limit)) else 0)
  }

  // ---- lines and prefixes ----------------------------------------------------------------------

  lemma {:induction false} FirstLineWhole(s: seq<Byte>)
    ensures FirstLine(s) <= s && NEWLINE !in FirstLine(s)
    ensures FirstLine(s) == s <==> NEWLINE !in s
    ensures NEWLINE in s ==> |FirstLine(s)| < |s| && s[|FirstLine(s)|] == NEWLINE
  {
    if s != [] && s[0] != NEWLINE { FirstLineWhole(s[1..]); }
  }

  lemma {:induction false} FirstLineMore(s: seq<Byte>, more: seq<Byte>)
    ensures FirstLine(s + more) == if NEWLINE in s then FirstLine(s) else s + FirstLine(more)
  {
    if s == [] {
      assert s + more == more;
    } else if s[0] != NEWLINE {
      FirstLineMore(s[1..], more);
      assert (s + more)[1..] == s[1..] + more;
    }
  }

  lemma CutMore(s: seq<Byte>, more: seq<Byte>, n: nat)
    ensures Cut(s + more, n) == Cut(s, n) + Cut(more, if |s| <= n then n - |s| else 0)
  {}

  /** Where `find` sees the first newline. */
  function Find(s: seq<Byte>): (r: Option<nat>)
    ensures r.None? <==> NEWLINE !in s
    ensures r.Some? ==> r.value < |s| && s[r.value] == NEWLINE && NEWLINE !in s[..r.value]
  {
    if s == [] then None
    else if s[0] == NEWLINE then Some(0)
    else
      var r := Find(s[1..]);
      if r.None? then None
      else
        assert s[..r.value + 1] == [s[0]] + s[1..][..r.value];
        Some(r.value + 1)
  }

  lemma FoundLine(s: seq<Byte>)
    ensures (if Find(s).None? then s else s[..Find(s).value]) == FirstLine(s)
  {
    FirstLineWhole(s);
    if Find(s).Some? {
      var n := Find(s).value;
      FirstLineMore(s[..n], s[n..]);
      assert s == s[..n] + s[n..];
    }
  }

  class Reader {
    const limit: nat
    const readiness: bool
    var data: seq<Byte>
    var overflow: bool
    var eof: bool
    var incomplete: bool
    var lines: seq<seq<Byte>>
    var highWater: nat

    constructor (limit: nat, readiness: bool)
      ensures this.limit == limit && this.readiness == readiness
      ensures Evident() == Evidence([], false, [], false, 0) && !eof
    {
      this.limit, this.readiness := limit, readiness;
      data, overflow, eof, incomplete, lines, highWater := [], false, false, false, [], 0;
    }

    ghost function Evident(): Evidence
      reads this
    {
      Evidence(data, overflow, lines, incomplete, highWater)
    }

    /** The bytes `s` have been read, and `pending` holds what is kept of an unsettled first line. */
    ghost predicate Reading(s: seq<Byte>, pending: seq<Byte>, seen: bool)
      reads this
    {
      && data == Cut(s, limit) && !incomplete
      && (overflow <==> |s| > limit || (readiness && |FirstLine(s)| > ReadyLimit(limit)))
      && (seen <==> readiness && Settled(limit, s))
      && lines == (if seen then [Cut(FirstLine(s), ReadyLimit(limit))] else [])
      && (readiness && !seen ==> pending == s)
      && highWater == (if readiness then Least(|FirstLine(s)|, ReadyLimit(limit)) else 0)
    }

    /** One chunk of an unsettled first line, of which all of `before` is kept. */
    method TakeLine(chunk: seq<Byte>, before: seq<Byte>) returns (pending: seq<Byte>, seen: bool)
      requires readiness && !Settled(limit, before) && lines == []
      requires highWater == Least(|FirstLine(before)|, ReadyLimit(limit))
      modifies this`overflow, this`lines, this`highWater
      ensures overflow <==> old(overflow) || |FirstLine(before + chunk)| > ReadyLimit(limit)
      ensures seen <==> Settled(limit, before + chunk)
      ensures lines == (if seen then [Cut(FirstLine(before + chunk), ReadyLimit(limit))] else [])
      ensures !seen ==> pending == before + chunk
      ensures highWater == Least(|FirstLine(before + chunk)|, ReadyLimit(limit))
    {
      FoundLine(chunk);
      UnsettledMore(limit, before, chunk);
      var lineEnd := Find(chunk);
      var linePart := if lineEnd.None? then chunk else chunk[..lineEnd.value];
      var room := ReadyLimit(limit) - |before|;
      pending := before + Cut(linePart, room);
      assert pending == Cut(FirstLine(before + chunk), ReadyLimit(limit));
      assert |linePart| > room <==> |FirstLine(before + chunk)| > ReadyLimit(limit);
      assert |linePart| <= room && lineEnd.None? ==> pending == before + chunk;
      highWater := if highWater < |pending| then |pending| else highWater;
      seen := false;
      if |linePart| > room {
        overflow, seen, lines, pending := true, true, lines + [pending], [];
      } else if lineEnd.Some? {
        seen, lines, pending := true, lines + [pending], [];
      }
    }

    /** One chunk. */
    method Take(ghost s: seq<Byte>, chunk: seq<Byte>, before: seq<Byte>, was: bool)
      returns (pending: seq<Byte>, seen: bool)
      requires Reading(s, before, was)
      modifies this`data, this`overflow, this`lines, this`highWater
      ensures Reading(s + chunk, pending, seen)
    {
      var room := limit - |data|;
      CutMore(s, chunk, limit);
      if room > 0 { data := data + Cut(chunk, room); }
      if |chunk| > room { overflow := true; }
      pending, seen := before, was;
      SettledMore(limit, s, chunk);
      if readiness && !was {
        pending, seen := TakeLine(chunk, before);
      }
    }

    /** The reads up to the end of the pipe. */
    method ReadAll(chunks: seq<seq<Byte>>) returns (pending: seq<Byte>, seen: bool)
      requires Evident() == Evidence([], false, [], false, 0)
      modifies this`data, this`overflow, this`lines, this`highWater
      ensures Reading(Stream(chunks), pending, seen)
    {
      pending, seen := [], false;
      var n := 0;
      ghost var s: seq<Byte> := [];
      while n < |chunks| && chunks[n] != []
        invariant n <= |chunks| && Reading(s, pending, seen)
        invariant s + Stream(chunks[n..]) == Stream(chunks)
      {
        StreamMore(chunks, n, s);
        pending, seen := Take(s, chunks[n], pending, seen);
        s := s + chunks[n];
        n := n + 1;
      }
      assert s == Stream(chunks);
    }

    /** The whole run: one readiness item, and evidence that depends on the stream alone. */
    method Run(chunks: seq<seq<Byte>>)
      requires Evident() == Evidence([], false, [], false, 0)
      modifies this
      ensures Evident() == Drained(limit, readiness, Stream(chunks)) && eof
    {
      var pending, seen := ReadAll(chunks);
      FirstLineWhole(Stream(chunks));
      if readiness && !seen {
        incomplete := true;
        lines := lines + [pending];
      }
      eof := true;
    }
  }

  /** What a chunk adds to an unsettled first line. */
  lemma UnsettledMore(limit: nat, before: seq<Byte>, chunk: seq<Byte>)
    requires !Settled(limit, before)
    ensures FirstLine(before) == before && |before| <= ReadyLimit(limit)
    ensures FirstLine(before + chunk) == before + FirstLine(chunk)
    ensures Cut(before + FirstLine(chunk), ReadyLimit(limit)) == before + Cut(FirstLine(chunk), ReadyLimit(limit) - |before|)
    ensures NEWLINE in before + chunk <==> NEWLINE in chunk
    ensures NEWLINE !in chunk ==> FirstLine(chunk) == chunk
  {
    FirstLineWhole(before);
    FirstLineMore(before, chunk);
    FirstLineWhole(chunk);
    CutMore(before, FirstLine(chunk), ReadyLimit(limit));
  }

  lemma StreamMore(chunks: seq<seq<Byte>>, n: nat, s: seq<Byte>)
    requires n < |chunks| && chunks[n] != []
    ensures s + Stream(chunks[n..]) == s + chunks[n] + Stream(chunks[n + 1..])
  {
    assert chunks[n..][0] == chunks[n] && chunks[n..][1..] == chunks[n + 1..];
  }

  /** Once settled, a first line stays as it was kept. */
  lemma SettledMore(limit: nat, s: seq<Byte>, more: seq<Byte>)
    ensures Settled(limit, s) ==>
              && Settled(limit, s + more)
              && Cut(FirstLine(s + more), ReadyLimit(limit)) == Cut(FirstLine(s), ReadyLimit(limit))
              && (|FirstLine(s + more)| > ReadyLimit(limit) <==> |FirstLine(s)| > ReadyLimit(limit))
              && Least(|FirstLine(s + more)|, ReadyLimit(limit)) == Least(|FirstLine(s)|, ReadyLimit(limit))
  {
    FirstLineWhole(s);
    FirstLineMore(s, more);
  }

  /** The line the text starts with, up to its newline or its end. */
  predicate IsFirstLine(line: seq<Byte>, s: seq<Byte>) {
    NEWLINE !in line && (line == s || line + [NEWLINE] <= s)
  }

  lemma FirstLineExact(line: seq<Byte>, s: seq<Byte>)
    ensures IsFirstLine(line, s) <==> line == FirstLine(s)
  {
    FirstLineWhole(s);
    if NEWLINE in s { LineEnds(FirstLine(s), s); }
    if line + [NEWLINE] <= s && NEWLINE !in line { LineStarts(line, s); }
  }

  lemma LineEnds(line: seq<Byte>, s: seq<Byte>)
    requires line <= s && |line| < |s| && s[|line|] == NEWLINE
    ensures line + [NEWLINE] <= s
  {}

  lemma LineStarts(line: seq<Byte>, s: seq<Byte>)
    requires NEWLINE !in line && line + [NEWLINE] <= s
    ensures FirstLine(s) == line
  {
    var rest := s[|line|..];
    assert s == line + rest && rest[0] == NEWLINE;
    FirstLineMore(line, rest);
  }

  /** Nothing kept exceeds its limit and nothing is dropped that fits in it; overflow is reported
      exactly when something was dropped, of the stream or of its first line, and a readiness item is
      incomplete exactly when it is the whole stream without a newline. */
  lemma DrainedExact(limit: nat, readiness: bool, s: seq<Byte>)
    ensures var e, ready := Drained(limit, readiness, s), if limit < 4_096 then limit else 4_096;
            && |e.data| <= limit && e.data <= s && (e.data == s || |e.data| == limit)
            && (e.overflow <==> e.data != s || (readiness && !IsFirstLine(e.lines[0], s)))
            && (readiness ==>
                  && |e.lines| == 1 && |e.lines[0]| == e.highWater <= ready
                  && e.lines[0] <= s && NEWLINE !in e.lines[0]
                  && (IsFirstLine(e.lines[0], s) || |e.lines[0]| == ready)
                  && (e.incomplete <==> e.lines[0] == s))
            && (!readiness ==> e.lines == [] && !e.incomplete && e.highWater == 0)
  {
    FirstLineWhole(s);
    if readiness { FirstLineExact(Cut(FirstLine(s), ReadyLimit(limit)), s); }
  }
}
