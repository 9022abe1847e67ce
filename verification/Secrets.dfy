/** The capture of one stream when the patterns are literal secrets. */
module Secrets {
  import opened Redaction
  import opened LiteralPatterns
  import opened Stream

  /** In a safe stream no secret is among the captured bytes, wherever the writes and the cap cut it. */
  lemma {:induction false} SecretNeverCaptured(secrets: seq<Bytes>, k: nat, chunks: seq<Bytes>, max: nat)
    requires InLine(secrets) && k < |secrets| && Distinguishable(secrets[k])
    requires FlushSafe(Concat(chunks), max)
    ensures !Occurs(secrets[k], Captured(Literals(secrets), chunks, max).buf)
  {
    var stream := Concat(chunks);
    LiteralsFaithful(secrets);
    CaptureEqualsBatch(Literals(secrets), chunks, max);
    AllGone(secrets, k, stream);
    OccursAfterTake(secrets[k], RedactAll(Literals(secrets), stream), max);
  }

  lemma {:induction false} OccursAfterTake(lit: Bytes, x: Bytes, max: nat)
    requires lit != []
    ensures Occurs(lit, Take(x, max)) ==> Occurs(lit, x)
  {
    if Occurs(lit, Take(x, max)) {
      var i: nat :| OccursAt(lit, Take(x, max), i);
      assert Take(x, max)[i..i + |lit|] == x[i..i + |lit|];
      assert OccursAt(lit, x, i);
    }
  }

  /** The documented caveat: a line that fills the buffer is captured as it stands, secret's head included. */
  lemma {:induction false} FullBufferCapturedRaw(secret: Bytes, p: Bytes, q: Bytes)
    requires secret != [] && p != [] && NEWLINE !in p && !Occurs(secret, p)
    ensures Captured([LiteralPattern(secret)], [p, q], |p|).buf == p
  {
    var max := |p|;
    var patterns := [LiteralPattern(secret)];
    var writes := Writes(patterns, [p, q], max);
    NothingToReplace(secret, p);
    assert patterns[1..] == [];
    assert RedactAll(patterns, p) == p;
    FirstSegment(p, q, max);
    assert writes[0] == p;
    CapKeepsPrefix(writes, max);
    ConcatAppend([writes[0]], writes[1..]);
    ConcatOne(p);
    assert writes == [writes[0]] + writes[1..];
  }

  /** The head of a secret that the flush cuts in two is captured, though batch redaction would find it. */
  lemma {:induction false} StraddlingHeadCaptured(head: Bytes, tail: Bytes, before: Bytes, after: Bytes)
    requires head != [] && tail != [] && NEWLINE !in before + head
    requires !Occurs(head + tail, before + head)
    ensures Captured([LiteralPattern(head + tail)], [before + head, tail + after], |before + head|).buf == before + head
    ensures OccursAt(head + tail, Concat([before + head, tail + after]), |before|)
  {
    FullBufferCapturedRaw(head + tail, before + head, tail + after);
    ConcatTwo(before + head, tail + after);
    OccursBetween(before, head, tail, after);
  }

  lemma {:induction false} OccursBetween(before: Bytes, head: Bytes, tail: Bytes, after: Bytes)
    ensures OccursAt(head + tail, before + head + (tail + after), |before|)
  {
    assert before + head + (tail + after) == before + (head + tail + after);
  }

  lemma {:induction false} FirstSegment(p: Bytes, q: Bytes, max: nat)
    requires max == |p| > 0 && NEWLINE !in p
    ensures var s := Segments([p, q], max); s != [] && s[0] == p
  {
    assert [] + p == p;
    assert p[0..] == p;
    assert LineEnd(p) == 0 by {
      LineEndIs(p, 0);
    }
    assert Feed([], p, max) == Fed([p], []) by {
      assert Lines(p) == [] && [] + [p] == [p];
    }
    FeedTwo(p, q, max);
    var two := Feed([], q, max);
    assert ([p] + two.segments)[0] == p;
    assert ([p] + two.segments + [two.held])[0] == p;
  }

  // ----- Which splits a literal tells apart -----

  /** A cut between segments that no newline explains: the line before it has outgrown the bound. */
  ghost predicate FlushCut(stream: Bytes, cut: nat, maxBuffer: int) {
    && 0 < maxBuffer <= cut < |stream|
    && NEWLINE !in stream[cut - maxBuffer..cut]
  }

  ghost predicate ClearCuts(lit: Bytes, segments: seq<Bytes>)
    requires lit != []
  {
    forall i | 0 <= i <= |segments| :: ClearCut(lit, segments, i)
  }

  ghost predicate ClearCut(lit: Bytes, segments: seq<Bytes>, i: nat)
    requires lit != [] && i <= |segments|
  {
    var stream, cut := Concat(segments), |Concat(segments[..i])|;
    cut <= |stream| && !Straddles(lit, stream, cut)
  }

  lemma {:induction false} ConcatCut(segments: seq<Bytes>, i: nat)
    requires i <= |segments|
    ensures Concat(segments) == Concat(segments[..i]) + Concat(segments[i..])
  {
    ConcatAppend(segments[..i], segments[i..]);
    assert segments == segments[..i] + segments[i..];
  }

  lemma {:induction false} FirstCut(segments: seq<Bytes>)
    requires segments != []
    ensures Concat(segments) == segments[0] + Concat(segments[1..])
    ensures Concat(segments[..1]) == segments[0]
  {
    ConcatCut(segments, 1);
    ConcatOne(segments[0]);
    assert segments[..1] == [segments[0]];
  }

  /** Behind a clear first cut, the remaining cuts are those of the remaining stream. */
  lemma {:induction false} LaterCut(lit: Bytes, segments: seq<Bytes>, i: nat)
    requires lit != [] && 0 < i <= |segments| && ClearCut(lit, segments, 1)
    ensures ClearCut(lit, segments, i) <==> ClearCut(lit, segments[1..], i - 1)
  {
    var head, rest := segments[0], segments[1..];
    FirstCut(segments);
    ConcatCut(rest, i - 1);
    ConcatCut(segments, i);
    FirstCut(segments[..i]);
    assert segments[..i][1..] == rest[..i - 1];
    assert segments[..i][0] == head;
    StraddlesBehind(lit, head, Concat(rest), |Concat(rest[..i - 1])|);
  }

  lemma {:induction false} LaterCuts(lit: Bytes, segments: seq<Bytes>)
    requires lit != [] && segments != [] && ClearCut(lit, segments, 1)
    ensures ClearCuts(lit, segments) <==> ClearCuts(lit, segments[1..])
  {
    forall i | 0 < i <= |segments|
      ensures ClearCut(lit, segments, i) <==> ClearCut(lit, segments[1..], i - 1)
    {
      LaterCut(lit, segments, i);
    }
    StraddlesNothing(lit, Concat(segments));
    assert ClearCut(lit, segments, 0) by {
      assert segments[..0] == [];
    }
    if ClearCuts(lit, segments) {
      forall i | 0 <= i <= |segments[1..]|
        ensures ClearCut(lit, segments[1..], i)
      {
        assert ClearCut(lit, segments, i + 1);
      }
    }
  }

  /** Redacting segment by segment equals redacting the whole exactly when no match is cut. */
  lemma {:induction false} EmittedIffClear(lit: Bytes, segments: seq<Bytes>)
    requires lit != [] && lit[0] != PLACEHOLDER[0]
    ensures Emitted(LiteralPattern(lit), segments) == ReplaceLiteral(lit, Concat(segments)) <==> ClearCuts(lit, segments)
    decreases |segments|
  {
    var f := LiteralPattern(lit);
    if segments == [] {
      assert ClearCut(lit, segments, 0);
      assert Emitted(f, segments) == [];
    } else {
      var head, rest := segments[0], segments[1..];
      FirstCut(segments);
      EmittedFirst(f, segments);
      if Straddles(lit, head + Concat(rest), |head|) {
        StraddledDiffers(lit, head, Concat(rest), Emitted(f, rest));
        assert !ClearCut(lit, segments, 1);
      } else {
        UnstraddledAgrees(lit, head, Concat(rest));
        EmittedIffClear(lit, rest);
        LaterCuts(lit, segments);
        Cancel(f(head), Emitted(f, rest), ReplaceLiteral(lit, Concat(rest)));
      }
    }
  }

  lemma {:induction false} EmittedFirst(f: Replacer, segments: seq<Bytes>)
    requires segments != []
    ensures Emitted(f, segments) == f(segments[0]) + Emitted(f, segments[1..])
  {
    assert segments == [segments[0]] + segments[1..];
    EmittedAppend(f, [segments[0]], segments[1..]);
    EmittedOne(f, segments[0]);
  }

  /** Every cut between segments ends a line, ends the stream, or is a forced flush. */
  lemma {:induction false} CutsOfSegments(chunks: seq<Bytes>, maxBuffer: int, i: nat)
    requires 0 < i <= |Segments(chunks, maxBuffer)|
    ensures var stream, front := Concat(chunks), Concat(Segments(chunks, maxBuffer)[..i]);
            && front <= stream
            && (front == stream || EndsInNewline(front) || FlushCut(stream, |front|, maxBuffer))
  {
    var segments := Segments(chunks, maxBuffer);
    ConservationClosed(chunks, maxBuffer);
    ConcatCut(segments, i);
    if i == |segments| {
      assert segments[..i] == segments;
    } else {
      var front, last := Concat(segments[..i - 1]), segments[i - 1];
      InnerSegment(chunks, maxBuffer, i - 1);
      assert segments[..i][..i - 1] == segments[..i - 1];
      assert Concat(segments[..i]) == front + last;
      LastLine(front, last, Concat(segments[i..]), maxBuffer);
    }
  }

  lemma {:induction false} InnerSegment(chunks: seq<Bytes>, maxBuffer: int, i: nat)
    requires i + 1 < |Segments(chunks, maxBuffer)|
    ensures SegmentOk(Segments(chunks, maxBuffer)[i], maxBuffer)
  {
    SegmentShape(chunks, maxBuffer);
    assert Segments(chunks, maxBuffer)[i] == FeedAll(chunks, maxBuffer).segments[i];
  }

  lemma {:induction false} LastLine(front: Bytes, last: Bytes, rest: Bytes, maxBuffer: int)
    requires SegmentOk(last, maxBuffer)
    ensures var stream, cut := front + last + rest, |front + last|;
            rest == [] || EndsInNewline(front + last) || FlushCut(stream, cut, maxBuffer)
  {
    if !EndsInNewline(last) {
      var stream, cut := front + last + rest, |front + last|;
      assert stream[cut - maxBuffer..cut] == last[|last| - maxBuffer..];
    }
  }

  /** All ways of writing the stream, redacted as they come, agree with redacting the whole. */
  ghost predicate LiteralSplitsAgree(lit: Bytes, stream: Bytes, maxBuffer: int)
    requires lit != []
  {
    forall chunks: seq<Bytes> | Concat(chunks) == stream ::
      Emitted(LiteralPattern(lit), Segments(chunks, maxBuffer)) == ReplaceLiteral(lit, stream)
  }

  /** They do exactly when no match of the literal lies across a possible forced flush. */
  lemma {:induction false} LiteralSplitsAgreeIff(lit: Bytes, stream: Bytes, maxBuffer: int)
    requires lit != [] && NEWLINE !in lit && lit[0] != PLACEHOLDER[0]
    ensures LiteralSplitsAgree(lit, stream, maxBuffer)
       <==> forall cut: nat | FlushCut(stream, cut, maxBuffer) :: !Straddles(lit, stream, cut)
  {
    if cut: nat :| FlushCut(stream, cut, maxBuffer) && Straddles(lit, stream, cut) {
      FlushedAtCut(stream, cut, maxBuffer);
      assert stream == stream[..cut] + stream[cut..];
      CutMatchSeen(lit, stream[..cut], stream[cut..], maxBuffer);
    } else {
      forall chunks: seq<Bytes> | Concat(chunks) == stream
        ensures Emitted(LiteralPattern(lit), Segments(chunks, maxBuffer)) == ReplaceLiteral(lit, stream)
      {
        ConservationClosed(chunks, maxBuffer);
        EmittedIffClear(lit, Segments(chunks, maxBuffer));
        SegmentsClear(lit, chunks, maxBuffer);
      }
    }
  }

  lemma {:induction false} SegmentsClear(lit: Bytes, chunks: seq<Bytes>, maxBuffer: int)
    requires lit != [] && NEWLINE !in lit
    requires forall cut: nat | FlushCut(Concat(chunks), cut, maxBuffer) :: !Straddles(lit, Concat(chunks), cut)
    ensures ClearCuts(lit, Segments(chunks, maxBuffer))
  {
    var segments := Segments(chunks, maxBuffer);
    var stream := Concat(chunks);
    ConservationClosed(chunks, maxBuffer);
    forall i | 0 <= i <= |segments|
      ensures ClearCut(lit, segments, i)
    {
      if i == 0 {
        assert segments[..0] == [];
        StraddlesNothing(lit, stream);
      } else {
        CutsOfSegments(chunks, maxBuffer, i);
        var cut := |Concat(segments[..i])|;
        StraddlesNothing(lit, stream);
        if Straddles(lit, stream, cut) {
          StraddleInLine(lit, stream, cut);
        }
      }
    }
  }

  /** A first write that ends inside the match is flushed whole, and the match is missed. */
  lemma {:induction false} CutMatchMissed(lit: Bytes, p: Bytes, q: Bytes, maxBuffer: int)
    requires lit != [] && NEWLINE !in lit && lit[0] != PLACEHOLDER[0]
    requires Feed([], p, maxBuffer).held == [] && Straddles(lit, p + q, |p|)
    ensures Emitted(LiteralPattern(lit), Segments([p, q], maxBuffer)) != ReplaceLiteral(lit, p + q)
  {
    LiteralPatternFaithful(lit);
    CutStream(LiteralPattern(lit), p, q, maxBuffer);
    StraddledDiffers(lit, p, q, ReplaceLiteral(lit, q));
  }

  lemma {:induction false} CutMatchSeen(lit: Bytes, p: Bytes, q: Bytes, maxBuffer: int)
    requires lit != [] && NEWLINE !in lit && lit[0] != PLACEHOLDER[0]
    requires Feed([], p, maxBuffer).held == [] && Straddles(lit, p + q, |p|)
    ensures !LiteralSplitsAgree(lit, p + q, maxBuffer)
  {
    ConcatTwo(p, q);
    CutMatchMissed(lit, p, q, maxBuffer);
  }

  lemma {:induction false} FlushedAtCut(stream: Bytes, cut: nat, maxBuffer: int)
    requires FlushCut(stream, cut, maxBuffer)
    ensures Feed([], stream[..cut], maxBuffer).held == []
  {
    var p := stream[..cut];
    assert p[|p| - maxBuffer..] == stream[cut - maxBuffer..cut];
    NothingHeld(p, maxBuffer);
  }
}
