/**
 Line buffering as a function of the chunks written: which segments reach the patterns, what
 stays held, and what the captured stream is.
 */
module Stream {
  import opened Redaction

  function Concat(chunks: seq<Bytes>): Bytes {
    if chunks == [] then [] else Concat(chunks[..|chunks| - 1]) + chunks[|chunks| - 1]
  }

  lemma {:induction false} ConcatAppend(a: seq<Bytes>, b: seq<Bytes>)
    ensures Concat(a + b) == Concat(a) + Concat(b)
  {
    if b == [] {
      assert a + b == a;
    } else {
      var n := |b| - 1;
      assert (a + b)[..|a + b| - 1] == a + b[..n];
      ConcatAppend(a, b[..n]);
    }
  }

  lemma {:induction false} ConcatOne(x: Bytes)
    ensures Concat([x]) == x
  {
    assert [x][..0] == [];
  }

  /** Length of the longest prefix of `b` that ends in a newline; 0 when there is none. */
  function LineEnd(b: Bytes): (k: nat)
    ensures k <= |b|
    ensures k == 0 || b[k - 1] == NEWLINE
    ensures NEWLINE !in b[k..]
  {
    if b == [] || b[|b| - 1] == NEWLINE then |b|
    else
      var k := LineEnd(b[..|b| - 1]);
      assert b[k..] == b[..|b| - 1][k..] + [b[|b| - 1]];
      k
  }

  lemma {:induction false} LineEndIs(b: Bytes, k: nat)
    requires k <= |b| && (k == 0 || b[k - 1] == NEWLINE)
    requires forall i | k <= i < |b| :: b[i] != NEWLINE
    ensures LineEnd(b) == k
  {
    var e := LineEnd(b);
    assert forall i | e <= i < |b| :: b[i] == b[e..][i - e];
  }

  /** What the patterns were given, in order, and the partial line still held. */
  datatype Fed = Fed(segments: seq<Bytes>, held: Bytes)

  /** The complete lines of `b`, as one segment. */
  function Lines(b: Bytes): seq<Bytes> {
    if LineEnd(b) > 0 then [b[..LineEnd(b)]] else []
  }

  predicate Forced(rest: Bytes, maxBuffer: int) {
    maxBuffer > 0 && |rest| >= maxBuffer
  }

  /** The effect of one write on a held partial line. */
  function Feed(held: Bytes, p: Bytes, maxBuffer: int): Fed {
    var b := held + p;
    var rest := b[LineEnd(b)..];
    if Forced(rest, maxBuffer) then Fed(Lines(b) + [rest], []) else Fed(Lines(b), rest)
  }

  function FeedAll(chunks: seq<Bytes>, maxBuffer: int): Fed {
    if chunks == [] then Fed([], [])
    else
      var before := FeedAll(chunks[..|chunks| - 1], maxBuffer);
      var after := Feed(before.held, chunks[|chunks| - 1], maxBuffer);
      Fed(before.segments + after.segments, after.held)
  }

  /** Every segment the patterns see once the writer has been closed. */
  function Segments(chunks: seq<Bytes>, maxBuffer: int): seq<Bytes> {
    var f := FeedAll(chunks, maxBuffer);
    if f.held == [] then f.segments else f.segments + [f.held]
  }

  function MapRedact(f: Replacer, segments: seq<Bytes>): (r: seq<Bytes>)
    ensures |r| == |segments|
    ensures forall i | 0 <= i < |r| :: r[i] == f(segments[i])
  {
    seq(|segments|, i requires 0 <= i < |segments| => f(segments[i]))
  }

  lemma {:induction false} MapRedactAppend(f: Replacer, a: seq<Bytes>, b: seq<Bytes>)
    ensures MapRedact(f, a + b) == MapRedact(f, a) + MapRedact(f, b)
  {
  }

  /** One write forwards the complete lines, then the rest when the bound forces it out. */
  lemma {:induction false} FeedForwards(f: Replacer, held: Bytes, p: Bytes, maxBuffer: int)
    ensures var b := held + p;
            var rest := b[LineEnd(b)..];
            MapRedact(f, Feed(held, p, maxBuffer).segments)
            == (if LineEnd(b) > 0 then [f(b[..LineEnd(b)])] else [])
               + (if Forced(rest, maxBuffer) then [f(rest)] else [])
  {
  }

  /** All bytes that leave the redactor. */
  function Emitted(f: Replacer, segments: seq<Bytes>): Bytes {
    Concat(MapRedact(f, segments))
  }

  lemma {:induction false} EmittedAppend(f: Replacer, a: seq<Bytes>, b: seq<Bytes>)
    ensures Emitted(f, a + b) == Emitted(f, a) + Emitted(f, b)
  {
    MapRedactAppend(f, a, b);
    ConcatAppend(MapRedact(f, a), MapRedact(f, b));
  }

  lemma {:induction false} EmittedOne(f: Replacer, x: Bytes)
    ensures Emitted(f, [x]) == f(x)
  {
    assert MapRedact(f, [x]) == [f(x)];
    ConcatOne(f(x));
  }

  // ----- Conservation, for every engine and every bound -----

  lemma {:induction false} FeedConserves(held: Bytes, p: Bytes, maxBuffer: int)
    ensures var f := Feed(held, p, maxBuffer); Concat(f.segments) + f.held == held + p
  {
    var b := held + p;
    var k := LineEnd(b);
    assert b == b[..k] + b[k..];
    ConcatOne(b[..k]);
    assert Concat(Lines(b)) == b[..k];
    ConcatAppend(Lines(b), [b[k..]]);
    ConcatOne(b[k..]);
  }

  /** Nothing is lost, duplicated or reordered: segments then held bytes are the bytes written. */
  lemma {:induction false} Conservation(chunks: seq<Bytes>, maxBuffer: int)
    ensures var f := FeedAll(chunks, maxBuffer); Concat(f.segments) + f.held == Concat(chunks)
  {
    if chunks == [] {
    } else {
      var n := |chunks| - 1;
      var before := FeedAll(chunks[..n], maxBuffer);
      var after := Feed(before.held, chunks[n], maxBuffer);
      Conservation(chunks[..n], maxBuffer);
      FeedConserves(before.held, chunks[n], maxBuffer);
      ConcatAppend(before.segments, after.segments);
      AppendAssoc(Concat(before.segments), Concat(after.segments), after.held);
      AppendAssoc(Concat(before.segments), before.held, chunks[n]);
    }
  }

  lemma {:induction false} ConservationClosed(chunks: seq<Bytes>, maxBuffer: int)
    ensures Concat(Segments(chunks, maxBuffer)) == Concat(chunks)
  {
    var f := FeedAll(chunks, maxBuffer);
    Conservation(chunks, maxBuffer);
    ConcatAppend(f.segments, [f.held]);
    ConcatOne(f.held);
  }

  /** A segment ends a line, or is one unfinished line that reached the bound; what is held stays small. */
  ghost predicate SegmentOk(s: Bytes, maxBuffer: int) {
    s != [] && (EndsInNewline(s) || (Forced(s, maxBuffer) && NEWLINE !in s))
  }

  ghost predicate HeldOk(held: Bytes, maxBuffer: int) {
    NEWLINE !in held && !Forced(held, maxBuffer)
  }

  lemma {:induction false} SegmentShape(chunks: seq<Bytes>, maxBuffer: int)
    ensures var f := FeedAll(chunks, maxBuffer);
            HeldOk(f.held, maxBuffer) && forall s | s in f.segments :: SegmentOk(s, maxBuffer)
  {
    if chunks == [] {
    } else {
      var n := |chunks| - 1;
      SegmentShape(chunks[..n], maxBuffer);
      var held := FeedAll(chunks[..n], maxBuffer).held;
      var after := Feed(held, chunks[n], maxBuffer);
      forall s | s in after.segments
        ensures SegmentOk(s, maxBuffer)
      {
      }
    }
  }

  /** The buffer never exceeds the bound by more than the chunk being written. */
  lemma {:induction false} PeakBuffer(chunks: seq<Bytes>, p: Bytes, maxBuffer: int)
    requires maxBuffer > 0
    ensures |FeedAll(chunks, maxBuffer).held + p| <= maxBuffer - 1 + |p|
  {
    SegmentShape(chunks, maxBuffer);
  }

  // ----- Streaming equals batch -----

  /**
   Every window of `maxBuffer` bytes that stops short of the end of the stream contains a newline:
   no line outgrows the buffer, except that the last, unterminated one may fill it exactly.
   */
  ghost predicate FlushSafe(stream: Bytes, maxBuffer: int) {
    maxBuffer > 0 ==> forall i | 0 <= i < |stream| - maxBuffer :: Broken(stream, i, maxBuffer)
  }

  predicate Broken(stream: Bytes, i: nat, n: nat)
    requires i + n <= |stream|
  {
    NEWLINE in stream[i..i + n]
  }

  ghost predicate SplitIndependent(stream: Bytes, maxBuffer: int) {
    forall f: Replacer, chunks: seq<Bytes> | Faithful(f) && Concat(chunks) == stream ::
      Emitted(f, Segments(chunks, maxBuffer)) == f(stream)
  }

  lemma {:induction false} FeedEmitted(f: Replacer, held: Bytes, p: Bytes, maxBuffer: int)
    requires Faithful(f)
    ensures var g := Feed(held, p, maxBuffer); Emitted(f, g.segments) + f(g.held) == f(held + p)
  {
    var b := held + p;
    var k := LineEnd(b);
    FaithfulOfEmpty(f);
    assert b == b[..k] + b[k..];
    EmittedOne(f, b[..k]);
    assert Emitted(f, Lines(b)) + f(b[k..]) == f(b) by {
      if k > 0 {
        assert EndsInNewline(b[..k]);
        assert LocalAt(f, b[..k], b[k..]);
      } else {
        assert b[k..] == b;
        assert Emitted(f, []) == [];
      }
    }
    EmittedAppend(f, Lines(b), [b[k..]]);
    EmittedOne(f, b[k..]);
  }

  /** Segments that all end in a newline can be redacted one at a time. */
  lemma {:induction false} EmittedOfLines(f: Replacer, segments: seq<Bytes>)
    requires Faithful(f) && forall s | s in segments :: EndsInNewline(s)
    ensures Emitted(f, segments) == f(Concat(segments))
    ensures segments != [] ==> EndsInNewline(Concat(segments))
  {
    FaithfulOfEmpty(f);
    if segments == [] {
      assert Emitted(f, segments) == [];
    } else {
      var n := |segments| - 1;
      assert segments == segments[..n] + [segments[n]];
      EmittedOfLines(f, segments[..n]);
      EmittedAppend(f, segments[..n], [segments[n]]);
      EmittedOne(f, segments[n]);
      var front := Concat(segments[..n]);
      if n > 0 {
        assert LocalAt(f, front, segments[n]);
      } else {
        assert front == [];
        assert front + segments[n] == segments[n];
      }
    }
  }

  lemma {:induction false} ForcedOnlyAtEnd(stream: Bytes, i: nat, rest: Bytes, maxBuffer: int)
    requires FlushSafe(stream, maxBuffer) && Forced(rest, maxBuffer)
    requires i + |rest| <= |stream| && rest == stream[i..i + |rest|] && NEWLINE !in rest
    ensures i + maxBuffer >= |stream|
  {
    assert stream[i..i + maxBuffer] == rest[..maxBuffer];
    assert i + maxBuffer < |stream| ==> Broken(stream, i, maxBuffer);
  }

  /** In a safe stream a forced flush can only happen when the whole stream has been written. */
  lemma {:induction false} FedSafely(chunks: seq<Bytes>, stream: Bytes, maxBuffer: int)
    requires FlushSafe(stream, maxBuffer)
    requires Concat(chunks) <= stream
    ensures var f := FeedAll(chunks, maxBuffer);
            || (forall s | s in f.segments :: EndsInNewline(s))
            || (f.held == [] && Concat(chunks) == stream)
  {
    if chunks == [] {
    } else {
      var n := |chunks| - 1;
      var last := chunks[n];
      var before := FeedAll(chunks[..n], maxBuffer);
      var after := Feed(before.held, last, maxBuffer);
      FedSafely(chunks[..n], stream, maxBuffer);
      assert Concat(chunks) == Concat(chunks[..n]) + last;
      if forall s | s in before.segments :: EndsInNewline(s) {
        Conservation(chunks[..n], maxBuffer);
        AppendAssoc(Concat(before.segments), before.held, last);
        FedStep(Concat(before.segments), before.held, last, stream, maxBuffer);
      } else {
        assert last == [];
        assert before.held + last == [];
        assert after == Fed([], []);
      }
    }
  }

  lemma {:induction false} FedStep(lines: Bytes, held: Bytes, p: Bytes, stream: Bytes, maxBuffer: int)
    requires FlushSafe(stream, maxBuffer)
    requires lines + (held + p) <= stream
    ensures var after := Feed(held, p, maxBuffer);
            || (forall s | s in after.segments :: EndsInNewline(s))
            || (after.held == [] && lines + (held + p) == stream)
  {
    var b := held + p;
    var rest := b[LineEnd(b)..];
    if Forced(rest, maxBuffer) {
      var written := lines + b;
      var i := |written| - |rest|;
      assert rest == written[i..] == stream[i..|written|];
      ForcedOnlyAtEnd(stream, i, rest, maxBuffer);
    }
  }

  /** The invariant of a safe stream: what was emitted, then the held line, is the batch result. */
  lemma {:induction false} EmittedSafely(f: Replacer, chunks: seq<Bytes>, stream: Bytes, maxBuffer: int)
    requires Faithful(f) && FlushSafe(stream, maxBuffer)
    requires Concat(chunks) <= stream
    ensures var g := FeedAll(chunks, maxBuffer); Emitted(f, g.segments) + f(g.held) == f(Concat(chunks))
  {
    FaithfulOfEmpty(f);
    if chunks == [] {
      assert Emitted(f, []) == [];
    } else {
      var n := |chunks| - 1;
      var last := chunks[n];
      var before := FeedAll(chunks[..n], maxBuffer);
      var after := Feed(before.held, last, maxBuffer);
      FedSafely(chunks[..n], stream, maxBuffer);
      if forall s | s in before.segments :: EndsInNewline(s) {
        Conservation(chunks[..n], maxBuffer);
        AppendAssoc(Concat(before.segments), before.held, last);
        EmittedStep(f, before.segments, before.held, last, maxBuffer);
      } else {
        EmittedSafely(f, chunks[..n], stream, maxBuffer);
        assert last == [];
        assert Concat(chunks) == Concat(chunks[..n]);
        assert before.held + last == [];
        assert before.segments + after.segments == before.segments;
      }
    }
  }

  lemma {:induction false} EmittedStep(f: Replacer, lines: seq<Bytes>, held: Bytes, p: Bytes, maxBuffer: int)
    requires Faithful(f) && forall s | s in lines :: EndsInNewline(s)
    ensures var after := Feed(held, p, maxBuffer);
            Emitted(f, lines + after.segments) + f(after.held) == f(Concat(lines) + (held + p))
  {
    var after := Feed(held, p, maxBuffer);
    var front := Concat(lines);
    EmittedAppend(f, lines, after.segments);
    FeedEmitted(f, held, p, maxBuffer);
    EmittedOfLines(f, lines);
    AppendAssoc(Emitted(f, lines), Emitted(f, after.segments), f(after.held));
    if lines != [] {
      assert LocalAt(f, front, held + p);
    } else {
      FaithfulOfEmpty(f);
      assert front + (held + p) == held + p;
      assert lines + after.segments == after.segments;
    }
  }

  lemma {:induction false} StreamEqualsBatch(f: Replacer, chunks: seq<Bytes>, maxBuffer: int)
    requires Faithful(f) && FlushSafe(Concat(chunks), maxBuffer)
    ensures Emitted(f, Segments(chunks, maxBuffer)) == f(Concat(chunks))
  {
    var g := FeedAll(chunks, maxBuffer);
    EmittedSafely(f, chunks, Concat(chunks), maxBuffer);
    EmittedClosed(f, g.segments, g.held);
  }

  // ----- ... and only for safe streams: an engine that marks line starts tells splits apart -----

  function MarkFrom(x: Bytes, atStart: bool): Bytes {
    if x == [] then []
    else (if atStart then [0, x[0]] else [x[0]]) + MarkFrom(x[1..], x[0] == NEWLINE)
  }

  function MarkLines(): Replacer {
    x => MarkFrom(x, true)
  }

  lemma {:induction false} MarkFromAppend(x: Bytes, y: Bytes, atStart: bool)
    requires x != []
    ensures MarkFrom(x + y, atStart) == MarkFrom(x, atStart) + MarkFrom(y, EndsInNewline(x))
    ensures MarkFrom(x, atStart) != []
    ensures EndsInNewline(x) ==> EndsInNewline(MarkFrom(x, atStart))
  {
    var head := if atStart then [0, x[0]] else [x[0]];
    var next := x[0] == NEWLINE;
    assert MarkFrom(x + y, atStart) == head + MarkFrom(x[1..] + y, next) by {
      assert (x + y)[1..] == x[1..] + y && (x + y)[0] == x[0];
    }
    if |x| > 1 {
      MarkFromAppend(x[1..], y, next);
      AppendAssoc(head, MarkFrom(x[1..], next), MarkFrom(y, EndsInNewline(x)));
      EndsAfter(head, MarkFrom(x[1..], next));
    } else {
      assert x[1..] == [] && x[1..] + y == y;
      assert MarkFrom(x[1..], next) == [] && head + [] == head;
    }
  }

  lemma {:induction false} EndsAfter(head: Bytes, tail: Bytes)
    ensures EndsInNewline(tail) ==> EndsInNewline(head + tail)
    ensures head != [] ==> head + tail != []
  {
  }

  lemma {:induction false} MarkLinesFaithful()
    ensures Faithful(MarkLines())
  {
    var f := MarkLines();
    forall x, y | EndsInNewline(x)
      ensures LocalAt(f, x, y)
    {
      MarkFromAppend(x, y, true);
    }
    forall x | x != []
      ensures f(x) != [] && (EndsInNewline(x) ==> EndsInNewline(f(x)))
    {
      MarkFromAppend(x, [], true);
    }
  }

  /** A first write that leaves nothing held cuts the stream: both halves are redacted alone. */
  lemma {:induction false} CutStream(f: Replacer, p: Bytes, q: Bytes, maxBuffer: int)
    requires Faithful(f) && Feed([], p, maxBuffer).held == []
    ensures Emitted(f, Segments([p, q], maxBuffer)) == f(p) + f(q)
  {
    var one, two := Feed([], p, maxBuffer), Feed([], q, maxBuffer);
    FeedTwo(p, q, maxBuffer);
    EmittedClosed(f, one.segments + two.segments, two.held);
    EmittedAppend(f, one.segments, two.segments);
    AppendAssoc(Emitted(f, one.segments), Emitted(f, two.segments), f(two.held));
    FeedAlone(f, q, maxBuffer);
    assert Emitted(f, one.segments) == f(p) by {
      FaithfulOfEmpty(f);
      FeedAlone(f, p, maxBuffer);
    }
  }

  lemma {:induction false} FeedTwo(p: Bytes, q: Bytes, maxBuffer: int)
    requires Feed([], p, maxBuffer).held == []
    ensures var one, two := Feed([], p, maxBuffer), Feed([], q, maxBuffer);
            FeedAll([p, q], maxBuffer) == Fed(one.segments + two.segments, two.held)
  {
    var one := Feed([], p, maxBuffer);
    assert [p, q][..1] == [p] && [p][..0] == [];
    assert FeedAll([p], maxBuffer) == Fed([] + one.segments, []);
    assert [] + one.segments == one.segments;
  }

  lemma {:induction false} FeedAlone(f: Replacer, p: Bytes, maxBuffer: int)
    requires Faithful(f)
    ensures var g := Feed([], p, maxBuffer); Emitted(f, g.segments) + f(g.held) == f(p)
  {
    FeedEmitted(f, [], p, maxBuffer);
    assert [] + p == p;
  }

  /** Closing emits the held line, if there is one. */
  lemma {:induction false} EmittedClosed(f: Replacer, segments: seq<Bytes>, held: Bytes)
    requires Faithful(f)
    ensures Emitted(f, if held == [] then segments else segments + [held]) == Emitted(f, segments) + f(held)
  {
    FaithfulOfEmpty(f);
    EmittedAppend(f, segments, [held]);
    EmittedOne(f, held);
  }

  lemma {:induction false} LineEndBefore(p: Bytes, n: nat)
    requires n <= |p| && NEWLINE !in p[|p| - n..]
    ensures LineEnd(p) <= |p| - n
  {
    assert forall i | |p| - n <= i < |p| :: p[i] == p[|p| - n..][i - (|p| - n)];
  }

  /** A write that ends in a line of at least `maxBuffer` bytes is flushed whole. */
  lemma {:induction false} NothingHeld(p: Bytes, maxBuffer: int)
    requires 0 < maxBuffer <= |p| && NEWLINE !in p[|p| - maxBuffer..]
    ensures Feed([], p, maxBuffer).held == []
  {
    LineEndBefore(p, maxBuffer);
    assert [] + p == p;
  }

  /** Cutting a stream inside a line of at least `maxBuffer` bytes breaks that line in two. */
  lemma {:induction false} UnsafeSplit(p: Bytes, q: Bytes, maxBuffer: int)
    requires maxBuffer > 0 && |p| >= maxBuffer && q != []
    requires NEWLINE !in p[|p| - maxBuffer..]
    ensures Emitted(MarkLines(), Segments([p, q], maxBuffer)) != MarkLines()(p + q)
  {
    var f := MarkLines();
    MarkLinesFaithful();
    NothingHeld(p, maxBuffer);
    CutStream(f, p, q, maxBuffer);
    MarkFromAppend(p, q, true);
    assert p[|p| - 1] == p[|p| - maxBuffer..][maxBuffer - 1];
    assert f(p + q) == f(p) + MarkFrom(q, false);
    assert |f(q)| == |MarkFrom(q, false)| + 1;
  }

  /** The exact condition under which every faithful engine and every split give the batch result. */
  lemma {:induction false} SplitIndependentIffSafe(stream: Bytes, maxBuffer: int)
    ensures SplitIndependent(stream, maxBuffer) <==> FlushSafe(stream, maxBuffer)
  {
    if FlushSafe(stream, maxBuffer) {
      forall f: Replacer, chunks: seq<Bytes> | Faithful(f) && Concat(chunks) == stream
        ensures Emitted(f, Segments(chunks, maxBuffer)) == f(stream)
      {
        StreamEqualsBatch(f, chunks, maxBuffer);
      }
    } else {
      UnsafeWitness(stream, maxBuffer);
    }
  }

  lemma {:induction false} UnsafeWitness(stream: Bytes, maxBuffer: int)
    requires !FlushSafe(stream, maxBuffer)
    ensures !SplitIndependent(stream, maxBuffer)
  {
    var i :| 0 <= i < |stream| - maxBuffer && !Broken(stream, i, maxBuffer);
    var p, q := stream[..i + maxBuffer], stream[i + maxBuffer..];
    assert stream == p + q;
    assert p[|p| - maxBuffer..] == stream[i..i + maxBuffer];
    MarkLinesFaithful();
    UnsafeSplit(p, q, maxBuffer);
    ConcatTwo(p, q);
  }

  lemma {:induction false} ConcatTwo(p: Bytes, q: Bytes)
    ensures Concat([p, q]) == p + q
  {
    ConcatAppend([p], [q]);
    ConcatOne(p);
    ConcatOne(q);
    assert [p] + [q] == [p, q];
  }

  // ----- The cap downstream -----

  datatype Capped = Capped(buf: Bytes, truncated: bool)

  function Take(s: Bytes, n: int): Bytes {
    if n <= 0 then [] else if n < |s| then s[..n] else s
  }

  /** The effect of one write on a capped buffer. */
  function Cap(c: Capped, p: Bytes, max: int): Capped {
    if c.truncated then c
    else if |c.buf| >= max then Capped(c.buf, true)
    else if |c.buf| + |p| > max then Capped(c.buf + p[..max - |c.buf|], true)
    else Capped(c.buf + p, false)
  }

  function CapAll(writes: seq<Bytes>, max: int): Capped {
    if writes == [] then Capped([], false)
    else Cap(CapAll(writes[..|writes| - 1], max), writes[|writes| - 1], max)
  }

  /** A write marks the output truncated when the buffer is already full or the write overfills it. */
  ghost predicate Overflows(writes: seq<Bytes>, i: nat, max: int)
    requires i < |writes|
  {
    |Concat(writes[..i])| >= max || |Concat(writes[..i + 1])| > max
  }

  lemma {:induction false} CapKeepsPrefix(writes: seq<Bytes>, max: int)
    ensures CapAll(writes, max).buf == Take(Concat(writes), max)
    ensures CapAll(writes, max).truncated <==> exists i: nat | i < |writes| :: Overflows(writes, i, max)
  {
    if writes == [] {
    } else {
      var n := |writes| - 1;
      var front := writes[..n];
      CapKeepsPrefix(front, max);
      CapStep(front, writes[n], max);
      assert writes[..n + 1] == writes;
      forall i: nat | i < n
        ensures Overflows(writes, i, max) <==> Overflows(front, i, max)
      {
        assert writes[..i] == front[..i] && writes[..i + 1] == front[..i + 1];
      }
      if CapAll(front, max).truncated {
        var i: nat :| i < |front| && Overflows(front, i, max);
        assert Overflows(writes, i, max);
      } else if CapAll(writes, max).truncated {
        assert Overflows(writes, n, max);
      }
    }
  }

  lemma {:induction false} CapStep(front: seq<Bytes>, p: Bytes, max: int)
    requires var c := CapAll(front, max); c.buf == Take(Concat(front), max)
    requires CapAll(front, max).truncated <==> exists i: nat | i < |front| :: Overflows(front, i, max)
    ensures Cap(CapAll(front, max), p, max).buf == Take(Concat(front) + p, max)
    ensures !CapAll(front, max).truncated ==>
              (Cap(CapAll(front, max), p, max).truncated <==> |Concat(front)| >= max || |Concat(front) + p| > max)
  {
    var c := CapAll(front, max);
    if c.truncated {
      var i: nat :| i < |front| && Overflows(front, i, max);
      OverflowIsLong(front, i, max);
      assert Take(Concat(front) + p, max) == Take(Concat(front), max);
    } else if front != [] {
      var n := |front| - 1;
      assert front[..n + 1] == front;
      assert !Overflows(front, n, max);
    }
  }

  lemma {:induction false} OverflowIsLong(writes: seq<Bytes>, i: nat, max: int)
    requires i < |writes| && Overflows(writes, i, max)
    ensures |Concat(writes)| >= max
  {
    assert writes == writes[..i] + writes[i..] == writes[..i + 1] + writes[i + 1..];
    ConcatAppend(writes[..i], writes[i..]);
    ConcatAppend(writes[..i + 1], writes[i + 1..]);
  }

  /** With no empty write, the flag says exactly whether bytes were dropped. */
  lemma {:induction false} TruncatedIffDropped(writes: seq<Bytes>, max: nat)
    requires forall i | 0 <= i < |writes| :: writes[i] != []
    ensures CapAll(writes, max).truncated <==> |Concat(writes)| > max
  {
    CapKeepsPrefix(writes, max);
    if CapAll(writes, max).truncated {
      var i: nat :| i < |writes| && Overflows(writes, i, max);
      assert writes[..i + 1] == writes[..i] + [writes[i]];
      ConcatAppend(writes[..i], [writes[i]]);
      ConcatOne(writes[i]);
      assert writes == writes[..i + 1] + writes[i + 1..];
      ConcatAppend(writes[..i + 1], writes[i + 1..]);
    } else if |Concat(writes)| > max {
      var n := |writes| - 1;
      assert writes[..n + 1] == writes;
      assert Overflows(writes, n, max);
    }
  }

  // ----- The whole capture of one stream -----

  /** "\n...(truncated)" */
  const MARKER: Bytes := [10, 46, 46, 46, 40, 116, 114, 117, 110, 99, 97, 116, 101, 100, 41]

  /** What reaches the capped buffer; with no pattern the chunks go there directly. */
  function Writes(patterns: seq<Replacer>, chunks: seq<Bytes>, max: int): seq<Bytes> {
    if patterns == [] then chunks else MapRedact(Redactor(patterns), Segments(chunks, max))
  }

  function Captured(patterns: seq<Replacer>, chunks: seq<Bytes>, max: int): Capped {
    CapAll(Writes(patterns, chunks, max), max)
  }

  function Text(c: Capped): Bytes {
    if c.truncated then c.buf + MARKER else c.buf
  }

  /** The batch specification: redact the whole stream, keep the first `max` bytes, mark the rest. */
  function Batch(patterns: seq<Replacer>, stream: Bytes, max: int): Capped {
    Capped(Take(RedactAll(patterns, stream), max), |RedactAll(patterns, stream)| > max)
  }

  /** Faithful patterns on a flush-safe stream; without patterns, only no empty writes. */
  ghost predicate Sound(patterns: seq<Replacer>, chunks: seq<Bytes>, max: int) {
    && AllFaithful(patterns)
    && (patterns == [] ==> forall i | 0 <= i < |chunks| :: chunks[i] != [])
    && (patterns != [] ==> FlushSafe(Concat(chunks), max))
  }

  lemma {:induction false} CaptureEqualsBatch(patterns: seq<Replacer>, chunks: seq<Bytes>, max: nat)
    requires Sound(patterns, chunks, max)
    ensures Captured(patterns, chunks, max) == Batch(patterns, Concat(chunks), max)
  {
    var writes := Writes(patterns, chunks, max);
    CapKeepsPrefix(writes, max);
    if patterns != [] {
      RedactorFaithful(patterns);
      StreamEqualsBatch(Redactor(patterns), chunks, max);
      SegmentsNonempty(chunks, max);
      RedactedNonempty(patterns, Segments(chunks, max));
    }
    TruncatedIffDropped(writes, max);
  }

  lemma {:induction false} MarkerReads()
    ensures MARKER == Ascii("\n...(truncated)")
  {
  }

  /** All of the redacted stream, or its first `max` bytes and the marker. */
  function Reported(redacted: Bytes, max: nat): Bytes {
    if |redacted| <= max then redacted else redacted[..max] + Ascii("\n...(truncated)")
  }

  /** The text in the report does not depend on how the stream was written. */
  lemma {:induction false} ReportedText(patterns: seq<Replacer>, chunks: seq<Bytes>, max: nat)
    requires Sound(patterns, chunks, max)
    ensures Text(Captured(patterns, chunks, max)) == Reported(RedactAll(patterns, Concat(chunks)), max)
  {
    CaptureEqualsBatch(patterns, chunks, max);
    MarkerReads();
  }

  lemma {:induction false} SegmentsNonempty(chunks: seq<Bytes>, maxBuffer: int)
    ensures forall s | s in Segments(chunks, maxBuffer) :: s != []
  {
    SegmentShape(chunks, maxBuffer);
  }

  lemma {:induction false} RedactedNonempty(patterns: seq<Replacer>, segments: seq<Bytes>)
    requires AllFaithful(patterns) && forall s | s in segments :: s != []
    ensures forall i | 0 <= i < |segments| :: MapRedact(Redactor(patterns), segments)[i] != []
  {
    forall i | 0 <= i < |segments|
      ensures MapRedact(Redactor(patterns), segments)[i] != []
    {
      assert segments[i] in segments;
      RedactAllNonempty(patterns, segments[i]);
    }
  }

  /** How the child splits its output does not matter. */
  lemma {:induction false} SplitsAgree(patterns: seq<Replacer>, a: seq<Bytes>, b: seq<Bytes>, max: nat)
    requires Concat(a) == Concat(b) && Sound(patterns, a, max) && Sound(patterns, b, max)
    ensures Captured(patterns, a, max) == Captured(patterns, b, max)
  {
    CaptureEqualsBatch(patterns, a, max);
    CaptureEqualsBatch(patterns, b, max);
  }

  /** Whatever the patterns do, the reported text is bounded. */
  lemma {:induction false} TextBounded(patterns: seq<Replacer>, chunks: seq<Bytes>, max: nat)
    ensures |Text(Captured(patterns, chunks, max))| <= max + |MARKER|
  {
    CapKeepsPrefix(Writes(patterns, chunks, max), max);
  }
}
