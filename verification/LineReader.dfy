/**
 `read_output`: splitting a byte stream into lines while it arrives in arbitrary chunks.
 */
module LineReader {

  type Byte = x: int | 0 <= x < 256
  const NEWLINE: Byte := 10
  const LINE_LIMIT: nat := 512
  const CHUNK_LIMIT: nat := 4096

  type Line = seq<Byte>

  // ----- the stream as a whole -----

  function Concat(chunks: seq<seq<Byte>>): seq<Byte> {
    if chunks == [] then [] else chunks[0] + Concat(chunks[1..])
  }

  /** The complete lines of `s`, and what follows the last newline. */
  function Split(s: seq<Byte>): (seq<Line>, Line) {
    if s == [] then ([], [])
    else
      var (lines, tail) := Split(s[..|s| - 1]);
      var last := s[|s| - 1];
      if last == NEWLINE then (lines + [tail], []) else (lines, tail + [last])
  }

  /** The lines of a stream; an unterminated last line counts when it is not empty. */
  function Lines(s: seq<Byte>): seq<Line> {
    var (lines, tail) := Split(s);
    if tail == [] then lines else lines + [tail]
  }

  predicate Short(line: Line) {
    |line| <= LINE_LIMIT
  }

  ghost predicate AllShort(lines: seq<Line>) {
    forall line :: line in lines ==> Short(line)
  }

  function OnlyShort(lines: seq<Line>): seq<Line> {
    if lines == [] then []
    else OnlyShort(lines[..|lines| - 1]) + if Short(lines[|lines| - 1]) then [lines[|lines| - 1]] else []
  }

  /** Continue splitting after `tail` was left over. */
  lemma {:induction false} SplitAppend(a: seq<Byte>, b: seq<Byte>)
    ensures var (lines, tail) := Split(a);
            var (more, rest) := Split(tail + b);
            Split(a + b) == (lines + more, rest)
    decreases |b|
  {
    var (lines, tail) := Split(a);
    if b == [] {
      assert a + b == a && tail + b == tail;
      TailHasNoNewline(a);
      SplitNoNewline(tail);
      assert lines + [] == lines;
    } else {
      var c := b[..|b| - 1];
      assert (a + b)[..|a + b| - 1] == a + c && (tail + b)[..|tail + b| - 1] == tail + c;
      SplitAppend(a, c);
      var (more, rest) := Split(tail + c);
      assert lines + (more + [rest]) == (lines + more) + [rest];
    }
  }

  lemma {:induction false} TailHasNoNewline(s: seq<Byte>)
    ensures NEWLINE !in Split(s).1
  {
    if s != [] {
      TailHasNoNewline(s[..|s| - 1]);
    }
  }

  lemma {:induction false} SplitNoNewline(s: seq<Byte>)
    requires NEWLINE !in s
    ensures Split(s) == ([], s)
  {
    if s != [] {
      SplitNoNewline(s[..|s| - 1]);
      assert s[..|s| - 1] + [s[|s| - 1]] == s;
    }
  }

  lemma {:induction false} SplitAtNewline(a: seq<Byte>, b: seq<Byte>)
    requires NEWLINE !in a
    ensures Split(a + [NEWLINE] + b) == ([a] + Split(b).0, Split(b).1)
  {
    SplitNoNewline(a);
    assert (a + [NEWLINE])[..|a|] == a;
    assert [] + [a] == [a];
    assert Split(a + [NEWLINE]) == ([a], []);
    SplitAppend(a + [NEWLINE], b);
    assert [] + b == b;
  }

  // ----- one chunk, and the whole reader -----

  /** What is kept after the complete lines of a chunk were taken out. */
  function Kept(tail: Line): Line {
    if |tail| > LINE_LIMIT then [] else tail
  }

  datatype Reader = Reader(pending: Line, observed: seq<Line>, forwarded: seq<Byte>)

  function Fed(r: Reader, chunk: seq<Byte>): Reader {
    var (lines, tail) := Split(r.pending + chunk);
    Reader(Kept(tail), r.observed + OnlyShort(lines), r.forwarded + chunk)
  }

  function FedAll(r: Reader, chunks: seq<seq<Byte>>): Reader
    decreases |chunks|
  {
    if chunks == [] then r else Fed(FedAll(r, chunks[..|chunks| - 1]), chunks[|chunks| - 1])
  }

  /** The most that is ever pending: what was kept of the chunks before, with the next chunk added. */
  ghost function Peak(chunks: seq<seq<Byte>>): nat
    decreases |chunks|
  {
    if chunks == [] then 0
    else
      var n := |chunks| - 1;
      var before, held := Peak(chunks[..n]), |FedAll(EMPTY, chunks[..n]).pending| + |chunks[n]|;
      if held > before then held else before
  }

  function Closed(r: Reader): Reader {
    if r.pending == [] then r else r.(observed := r.observed + [r.pending])
  }

  const EMPTY := Reader([], [], [])

  /** First newline in `s`, or its length. */
  method FindNewline(s: seq<Byte>) returns (at: nat)
    ensures at <= |s| && NEWLINE !in s[..at] && (at < |s| ==> s[at] == NEWLINE)
  {
    at := 0;
    while at < |s| && s[at] != NEWLINE
      invariant at <= |s| && NEWLINE !in s[..at]
    {
      at := at + 1;
    }
  }

  /** The reading loop over the chunks the descriptor delivers. */
  method ReadOutput(chunks: seq<seq<Byte>>) returns (observed: seq<Line>, forwarded: seq<Byte>, ghost peak: nat)
    requires forall chunk :: chunk in chunks ==> 0 < |chunk| <= CHUNK_LIMIT
    ensures var r := Closed(FedAll(EMPTY, chunks)); observed == r.observed && forwarded == r.forwarded
    ensures peak == Peak(chunks) <= LINE_LIMIT + CHUNK_LIMIT
  {
    var pending: Line := [];
    observed, forwarded, peak := [], [], 0;
    var next := 0;
    while next < |chunks|
      invariant next <= |chunks|
      invariant Reader(pending, observed, forwarded) == FedAll(EMPTY, chunks[..next])
      invariant |pending| <= LINE_LIMIT
      invariant peak == Peak(chunks[..next]) <= LINE_LIMIT + CHUNK_LIMIT
    {
      var chunk := chunks[next];
      assert chunk in chunks;
      ghost var held;
      pending, observed, forwarded, held := ReadChunk(pending, observed, forwarded, chunk);
      peak := if held > peak then held else peak;
      OneChunkMore(chunks, next);
      next := next + 1;
    }
    assert chunks[..|chunks|] == chunks;
    if pending != [] {
      observed := observed + [pending];
    }
  }

  lemma {:induction false} OneChunkMore(chunks: seq<seq<Byte>>, next: nat)
    requires next < |chunks|
    ensures FedAll(EMPTY, chunks[..next + 1]) == Fed(FedAll(EMPTY, chunks[..next]), chunks[next])
    ensures var before, held := Peak(chunks[..next]), |FedAll(EMPTY, chunks[..next]).pending| + |chunks[next]|;
            Peak(chunks[..next + 1]) == if held > before then held else before
  {
    assert chunks[..next + 1][..next] == chunks[..next];
  }

  /** One chunk; `held` is the most that was pending meanwhile. */
  method ReadChunk(pending: Line, observed: seq<Line>, forwarded: seq<Byte>, chunk: seq<Byte>)
    returns (pending': Line, observed': seq<Line>, forwarded': seq<Byte>, ghost held: nat)
    ensures Reader(pending', observed', forwarded') == Fed(Reader(pending, observed, forwarded), chunk)
    ensures held == |pending| + |chunk| && |pending'| <= LINE_LIMIT
  {
    forwarded' := forwarded + chunk;
    pending' := pending + chunk;
    held := |pending'|;
    observed', pending' := TakeLines(pending', observed);
    if |pending'| > LINE_LIMIT {
      pending' := [];
    }
  }

  /** The inner loop: observe and drop complete lines from the front. */
  method TakeLines(buffer: seq<Byte>, before: seq<Line>) returns (observed: seq<Line>, pending: Line)
    ensures observed == before + OnlyShort(Split(buffer).0)
    ensures pending == Split(buffer).1
  {
    observed, pending := before, buffer;
    ghost var taken: seq<Line> := [];
    var at: nat := FindNewline(pending);
    assert taken + Split(pending).0 == Split(pending).0;
    while at < |pending|
      invariant at <= |pending| && NEWLINE !in pending[..at] && (at < |pending| ==> pending[at] == NEWLINE)
      invariant Split(buffer) == (taken + Split(pending).0, Split(pending).1)
      invariant observed == before + OnlyShort(taken)
      decreases |pending|
    {
      var line := pending[..at];
      LineTaken(taken, pending, at);
      pending := pending[at + 1..];
      if |line| <= LINE_LIMIT {
        observed := observed + [line];
      }
      taken := taken + [line];
      at := FindNewline(pending);
    }
    assert pending[..|pending|] == pending;
    SplitNoNewline(pending);
    assert taken + [] == taken;
  }

  lemma {:induction false} LineTaken(taken: seq<Line>, pending: seq<Byte>, at: nat)
    requires at < |pending| && NEWLINE !in pending[..at] && pending[at] == NEWLINE
    ensures var line, rest := pending[..at], pending[at + 1..];
            && (taken + Split(pending).0, Split(pending).1) == ((taken + [line]) + Split(rest).0, Split(rest).1)
            && OnlyShort(taken + [line]) == OnlyShort(taken) + if Short(line) then [line] else []
  {
    var line, rest := pending[..at], pending[at + 1..];
    assert pending == line + [NEWLINE] + rest;
    SplitAtNewline(line, rest);
    assert (taken + [line])[..|taken|] == taken;
    assert (taken + [line]) + Split(rest).0 == taken + ([line] + Split(rest).0);
  }

  // ----- chunking does not matter -----

  lemma {:induction false} ConcatLast(chunks: seq<seq<Byte>>)
    requires chunks != []
    ensures Concat(chunks) == Concat(chunks[..|chunks| - 1]) + chunks[|chunks| - 1]
  {
    if |chunks| > 1 {
      ConcatLast(chunks[1..]);
      assert chunks[1..][..|chunks| - 2] == chunks[..|chunks| - 1][1..];
    }
  }

  /** Forwarded output is the input, whatever it is. */
  lemma {:induction false} ForwardsEverything(chunks: seq<seq<Byte>>)
    ensures FedAll(EMPTY, chunks).forwarded == Concat(chunks)
    decreases |chunks|
  {
    if chunks != [] {
      ForwardsEverything(chunks[..|chunks| - 1]);
      ConcatLast(chunks);
    }
  }

  lemma {:induction false} OnlyShortKeepsAll(lines: seq<Line>)
    requires AllShort(lines)
    ensures OnlyShort(lines) == lines
    decreases |lines|
  {
    if lines != [] {
      var rest := lines[..|lines| - 1];
      assert forall line :: line in rest ==> line in lines;
      OnlyShortKeepsAll(rest);
      assert rest + [lines[|lines| - 1]] == lines;
    }
  }

  lemma {:induction false} OnlyShortIsShort(lines: seq<Line>)
    ensures AllShort(OnlyShort(lines))
    decreases |lines|
  {
    if lines != [] {
      OnlyShortIsShort(lines[..|lines| - 1]);
    }
  }

  /** A prefix of a stream of short lines has short lines and a short unfinished line. */
  lemma {:induction false} PrefixIsShort(a: seq<Byte>, b: seq<Byte>)
    requires AllShort(Lines(a + b))
    ensures AllShort(Split(a).0) && Short(Split(a).1)
    decreases |b|
  {
    if b == [] {
      assert a + b == a;
      LinesShort(a);
    } else {
      var (lines, tail) := Split(a);
      assert a + b == (a + [b[0]]) + b[1..];
      PrefixIsShort(a + [b[0]], b[1..]);
      assert (a + [b[0]])[..|a|] == a;
      var next := Split(a + [b[0]]);
      if b[0] == NEWLINE {
        assert next.0[|lines|] == tail && tail in next.0;
        assert forall line :: line in lines ==> line in next.0;
      }
    }
  }

  lemma {:induction false} LinesShort(s: seq<Byte>)
    requires AllShort(Lines(s))
    ensures AllShort(Split(s).0) && Short(Split(s).1)
  {
    var (lines, tail) := Split(s);
    assert forall line :: line in lines ==> line in Lines(s);
    if tail != [] {
      assert Lines(s)[|lines|] == tail;
    }
  }

  lemma {:induction false} ReadsPrefix(chunks: seq<seq<Byte>>, rest: seq<Byte>)
    requires AllShort(Lines(Concat(chunks) + rest))
    ensures var r := FedAll(EMPTY, chunks); (r.observed, r.pending) == Split(Concat(chunks))
    decreases |chunks|
  {
    if chunks != [] {
      var before, chunk := chunks[..|chunks| - 1], chunks[|chunks| - 1];
      ConcatLast(chunks);
      assert Concat(chunks) + rest == Concat(before) + (chunk + rest);
      ReadsPrefix(before, chunk + rest);
      PrefixIsShort(Concat(chunks), rest);
      SplitAppend(Concat(before), chunk);
      var (lines, tail) := Split(Concat(before));
      var more := Split(tail + chunk).0;
      assert forall line :: line in more ==> line in lines + more;
      OnlyShortKeepsAll(more);
    }
  }

  /** However a stream is cut, the reader observes exactly its lines, in order, if and only if no
      line is longer than the limit. */
  lemma {:induction false} ChunkingIsInvisible(chunks: seq<seq<Byte>>)
    ensures Closed(FedAll(EMPTY, chunks)).observed == Lines(Concat(chunks)) <==> AllShort(Lines(Concat(chunks)))
  {
    if AllShort(Lines(Concat(chunks))) {
      assert Concat(chunks) + [] == Concat(chunks);
      ReadsPrefix(chunks, []);
    }
    ObservedIsShort(chunks);
  }

  lemma {:induction false} ObservedIsShort(chunks: seq<seq<Byte>>)
    ensures AllShort(FedAll(EMPTY, chunks).observed) && Short(FedAll(EMPTY, chunks).pending)
    decreases |chunks|
  {
    if chunks != [] {
      ObservedIsShort(chunks[..|chunks| - 1]);
      var r := FedAll(EMPTY, chunks[..|chunks| - 1]);
      OnlyShortIsShort(Split(r.pending + chunks[|chunks| - 1]).0);
    }
  }
}
