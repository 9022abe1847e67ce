/** The writers a child's output goes through, with their buffers updated in place. */
module Capture {
  import opened Redaction
  import opened Stream

  /** Keeps the first `max` bytes and discards the rest silently. */
  class CappedWriter {
    const max: int
    var buf: Bytes
    var truncated: bool
    ghost var writes: seq<Bytes>  // every write so far

    ghost predicate Valid()
      reads this
    {
      CapAll(writes, max) == Capped(buf, truncated)
    }

    constructor (max: int)
      ensures Valid() && this.max == max && writes == [] && buf == [] && !truncated
    {
      this.max := max;
      buf, truncated := [], false;
      writes := [];
    }

    method Write(p: Bytes) returns (n: nat)
      requires Valid()
      modifies this
      ensures Valid() && writes == old(writes) + [p]
      ensures n == |p|
    {
      assert (writes + [p])[..|writes|] == writes;
      writes := writes + [p];
      if truncated {
        return |p|;
      }
      var remaining := max - |buf|;
      if remaining <= 0 {
        truncated := true;
        return |p|;
      }
      if |p| > remaining {
        buf := buf + p[..remaining];
        truncated := true;
        return |p|;
      }
      buf := buf + p;
      return |p|;
    }
  }

  /** Redacts complete lines; holds the trailing partial line in `buf[..len]`. */
  class StreamingRedactWriter {
    const dst: CappedWriter
    const patterns: seq<Replacer>
    const maxBuffer: int
    var buf: array<byte>
    var len: nat
    ghost var chunks: seq<Bytes>  // every write so far

    ghost predicate Valid()
      reads this, buf, dst
    {
      && len <= buf.Length
      && dst.Valid()
      && Agrees(patterns, maxBuffer, chunks, buf[..len], dst.writes)
    }

    /** What is held and what went downstream are those of the chunks written. */
    static ghost predicate Agrees(patterns: seq<Replacer>, maxBuffer: int, chunks: seq<Bytes>,
                                  held: Bytes, writes: seq<Bytes>)
    {
      && held == FeedAll(chunks, maxBuffer).held
      && writes == MapRedact(Redactor(patterns), FeedAll(chunks, maxBuffer).segments)
    }

    constructor (dst: CappedWriter, patterns: seq<Replacer>, maxBuffer: int)
      requires dst.Valid() && dst.writes == []
      ensures Valid() && fresh(buf)
      ensures this.dst == dst && this.patterns == patterns && this.maxBuffer == maxBuffer
      ensures chunks == []
    {
      this.dst, this.patterns, this.maxBuffer := dst, patterns, maxBuffer;
      buf := new byte[0];
      len := 0;
      chunks := [];
    }

    method Write(p: Bytes) returns (n: nat)
      requires Valid()
      modifies this, buf, dst
      ensures Valid() && chunks == old(chunks) + [p]
      ensures n == |p|
      ensures buf == old(buf) || fresh(buf)
    {
      ghost var held, writes := buf[..len], dst.writes;
      Append(p);
      ForwardLines();
      ForwardPastBound();
      WriteLands(patterns, maxBuffer, chunks, p, held, writes);
      chunks := chunks + [p];
      return |p|;
    }

    /** What one more chunk adds. */
    static lemma {:induction false} WriteLands(patterns: seq<Replacer>, maxBuffer: int, chunks: seq<Bytes>, p: Bytes,
                                               held: Bytes, writes: seq<Bytes>)
      requires Agrees(patterns, maxBuffer, chunks, held, writes)
      ensures var b := held + p;
              var rest := b[LineEnd(b)..];
              Agrees(patterns, maxBuffer, chunks + [p],
                     if Forced(rest, maxBuffer) then [] else rest,
                     writes + (if LineEnd(b) > 0 then [RedactAll(patterns, b[..LineEnd(b)])] else [])
                     + (if Forced(rest, maxBuffer) then [RedactAll(patterns, rest)] else []))
    {
      var before := FeedAll(chunks, maxBuffer);
      assert (chunks + [p])[..|chunks|] == chunks;
      FeedForwards(Redactor(patterns), held, p, maxBuffer);
      MapRedactAppend(Redactor(patterns), before.segments, Feed(held, p, maxBuffer).segments);
    }

    /** What closing adds. */
    static lemma {:induction false} CloseLands(patterns: seq<Replacer>, maxBuffer: int, chunks: seq<Bytes>,
                                               held: Bytes, writes: seq<Bytes>)
      requires Agrees(patterns, maxBuffer, chunks, held, writes)
      ensures MapRedact(Redactor(patterns), Segments(chunks, maxBuffer))
           == writes + (if held == [] then [] else [RedactAll(patterns, held)])
    {
      MapRedactAppend(Redactor(patterns), FeedAll(chunks, maxBuffer).segments, [held]);
    }

    /** Forwards the complete lines and keeps the trailing partial. */
    method ForwardLines()
      requires len <= buf.Length && dst.Valid()
      modifies this`len, buf, dst
      ensures len <= buf.Length && dst.Valid()
      ensures var b := old(buf[..len]);
              && buf[..len] == b[LineEnd(b)..]
              && dst.writes == old(dst.writes)
                 + (if LineEnd(b) > 0 then [RedactAll(patterns, b[..LineEnd(b)])] else [])
    {
      ghost var b := buf[..len];
      var last := LastIndexOfNewline();
      LineEndIs(b, last + 1);
      if last >= 0 {
        Forward(last + 1);
        assert buf[..last + 1] == b[..last + 1];
        DropFirst(last + 1);
      }
    }

    /** Forces the partial line out once it has reached the bound. */
    method ForwardPastBound()
      requires len <= buf.Length && dst.Valid()
      modifies this`len, dst
      ensures len <= buf.Length && dst.Valid()
      ensures var rest := old(buf[..len]);
              && buf[..len] == (if Forced(rest, maxBuffer) then [] else rest)
              && dst.writes == old(dst.writes)
                 + (if Forced(rest, maxBuffer) then [RedactAll(patterns, rest)] else [])
    {
      if maxBuffer > 0 && len >= maxBuffer {
        Forward(len);
        len := 0;
      }
    }

    /** Redacts the first `k` held bytes and hands them downstream. */
    method Forward(k: nat)
      requires k <= len <= buf.Length && dst.Valid()
      modifies dst
      ensures dst.Valid() && dst.writes == old(dst.writes) + [RedactAll(patterns, buf[..k])]
    {
      var out := Redact(buf[..k]);
      var _ := dst.Write(out);
    }

    /** Flushes the held partial line; the patterns have then seen every byte written. */
    method Close()
      requires Valid()
      modifies this, dst
      ensures dst.Valid()
      ensures dst.writes == MapRedact(Redactor(patterns), Segments(chunks, maxBuffer))
      ensures chunks == old(chunks) && len == 0
    {
      CloseLands(patterns, maxBuffer, chunks, buf[..len], dst.writes);
      if len == 0 {
        return;
      }
      Forward(len);
      buf := new byte[0];
      len := 0;
    }

    /** Applies the patterns one after the other. */
    method Redact(b: Bytes) returns (r: Bytes)
      ensures r == RedactAll(patterns, b)
    {
      r := b;
      var i := 0;
      while i < |patterns|
        invariant 0 <= i <= |patterns|
        invariant RedactAll(patterns[i..], r) == RedactAll(patterns, b)
      {
        r := patterns[i](r);
        i := i + 1;
      }
    }

    /** Index of the last newline held, or -1. */
    method LastIndexOfNewline() returns (last: int)
      requires len <= buf.Length
      ensures -1 <= last < len
      ensures last >= 0 ==> buf[last] == NEWLINE
      ensures forall i | last < i < len :: buf[i] != NEWLINE
    {
      last := len - 1;
      while last >= 0 && buf[last] != NEWLINE
        invariant -1 <= last < len
        invariant forall i | last < i < len :: buf[i] != NEWLINE
      {
        last := last - 1;
      }
    }

    /** Appends in place when the capacity allows it, otherwise in a larger array. */
    method Append(p: Bytes)
      requires len <= buf.Length
      modifies this`buf, this`len, buf
      ensures len == old(len) + |p| && len <= buf.Length
      ensures buf[..len] == old(buf[..len]) + p
      ensures buf == old(buf) || fresh(buf)
    {
      if len + |p| > buf.Length {
        Grow(2 * buf.Length + |p|);
      }
      var i := 0;
      while i < |p|
        invariant 0 <= i <= |p| && len == old(len) && len + |p| <= buf.Length
        invariant buf[..len + i] == old(buf[..len]) + p[..i]
        invariant buf == old(buf) || fresh(buf)
      {
        buf[len + i] := p[i];
        i := i + 1;
      }
      len := len + |p|;
    }

    method Grow(capacity: nat)
      requires len <= buf.Length && len <= capacity
      modifies this`buf
      ensures buf.Length == capacity && fresh(buf)
      ensures buf[..len] == old(buf[..len])
    {
      var larger := new byte[capacity];
      var j := 0;
      while j < len
        invariant 0 <= j <= len && buf == old(buf)
        invariant larger[..j] == buf[..j]
      {
        larger[j] := buf[j];
        j := j + 1;
      }
      buf := larger;
    }

    /** Moves the bytes from `k` on to the front of the same array. */
    method DropFirst(k: nat)
      requires k <= len <= buf.Length
      modifies this`len, buf
      ensures len == old(len) - k
      ensures buf[..len] == old(buf[k..len])
    {
      var i := 0;
      while i < len - k
        invariant 0 <= i <= len - k && len == old(len)
        invariant buf[..i] == old(buf[k..k + i])
        invariant buf[k + i..len] == old(buf[k + i..len])
      {
        assert buf[k + i] == buf[k + i..len][0] == old(buf[k + i..len])[0];
        buf[i] := buf[k + i];
        i := i + 1;
      }
      len := len - k;
    }
  }

  /** A passthrough destination; `respond` decides how each write goes, failures included. */
  class Sink {
    const respond: (nat, Bytes) -> (int, bool)
    var offered: seq<Bytes>

    constructor (respond: (nat, Bytes) -> (int, bool))
      ensures this.respond == respond && offered == []
    {
      this.respond := respond;
      offered := [];
    }

    method Write(p: Bytes) returns (n: int, ok: bool)
      modifies this
      ensures offered == old(offered) + [p]
      ensures (n, ok) == respond(|old(offered)|, p)
    {
      var r := respond(|offered|, p);
      offered := offered + [p];
      return r.0, r.1;
    }

    /** Drops the error and reports the whole chunk as written. */
    method WriteSwallowingErrors(p: Bytes) returns (n: int, ok: bool)
      modifies this
      ensures offered == old(offered) + [p]
      ensures n == |p| && ok
    {
      var _, _ := Write(p);
      return |p|, true;
    }
  }

  /** One of the child's two streams: the captured branch and, when set, the passthrough branch. */
  class StreamCapture {
    const cap: CappedWriter
    const redactor: StreamingRedactWriter?
    const sink: Sink?
    ghost const patterns: seq<Replacer>
    ghost var chunks: seq<Bytes>

    ghost predicate Valid()
      reads this, cap
      reads if redactor == null then {} else {redactor, redactor.buf, redactor.dst}
    {
      && cap.Valid()
      && (redactor == null ==> patterns == [] && cap.writes == chunks)
      && (redactor != null ==>
            && patterns != []
            && redactor.Valid() && redactor.dst == cap && redactor.patterns == patterns
            && redactor.maxBuffer == cap.max && redactor.chunks == chunks)
    }

    /** The redactor sits before the cap, with its partial line bounded by the same size. */
    constructor (patterns: seq<Replacer>, max: int, sink: Sink?)
      ensures Valid() && chunks == []
      ensures this.patterns == patterns && cap.max == max && this.sink == sink
      ensures fresh(cap) && (redactor != null ==> fresh(redactor) && fresh(redactor.buf))
    {
      var c := new CappedWriter(max);
      var r: StreamingRedactWriter? := null;
      if |patterns| != 0 {
        r := new StreamingRedactWriter(c, patterns, max);
      }
      this.cap, this.redactor, this.sink := c, r, sink;
      this.patterns, this.chunks := patterns, [];
    }

    /** Both branches get the chunk, whatever the sink answers. */
    method Write(p: Bytes) returns (n: int, ok: bool)
      requires Valid()
      modifies this, cap, redactor, (if redactor == null then {} else {redactor.buf}), sink
      ensures Valid() && chunks == old(chunks) + [p]
      ensures n == |p| && ok
      ensures sink != null ==> sink.offered == old(sink.offered) + [p]
      ensures redactor != null ==> redactor.buf == old(redactor.buf) || fresh(redactor.buf)
    {
      chunks := chunks + [p];
      if redactor == null {
        n := cap.Write(p);
      } else {
        n := redactor.Write(p);
      }
      ok := true;
      if sink != null {
        if n != |p| {
          return n, false;  // a short write stops the tee
        }
        n, ok := sink.WriteSwallowingErrors(p);
      }
    }

    method Finish() returns (text: Bytes)
      requires Valid()
      modifies this, cap, redactor
      ensures text == Text(Captured(patterns, chunks, cap.max))
      ensures text == if cap.truncated then cap.buf + Ascii("\n...(truncated)") else cap.buf
      ensures chunks == old(chunks)
      ensures cap.buf == Captured(patterns, chunks, cap.max).buf
      ensures cap.truncated == Captured(patterns, chunks, cap.max).truncated
    {
      if redactor != null {
        redactor.Close();
      }
      MarkerReads();
      text := cap.buf;
      if cap.truncated {
        text := text + MARKER;
      }
    }
  }

  /** Captures one whole stream; the result depends neither on the sink nor, for a sound stream, on the chunks. */
  method CaptureStream(chunks: seq<Bytes>, patterns: seq<Replacer>, max: int, sink: Sink?) returns (text: Bytes)
    modifies sink
    ensures text == Text(Captured(patterns, chunks, max))
    ensures max >= 0 && Sound(patterns, chunks, max) ==> text == Reported(RedactAll(patterns, Concat(chunks)), max)
    ensures sink != null ==> sink.offered == old(sink.offered) + chunks
  {
    var s := new StreamCapture(patterns, max, sink);
    var i := 0;
    while i < |chunks|
      invariant 0 <= i <= |chunks|
      invariant s.Valid() && s.chunks == chunks[..i]
      invariant fresh(s.cap) && (s.redactor != null ==> fresh(s.redactor) && fresh(s.redactor.buf))
      invariant sink != null ==> sink.offered == old(sink.offered) + chunks[..i]
    {
      var _, _ := s.Write(chunks[i]);
      i := i + 1;
    }
    assert chunks[..i] == chunks;
    text := s.Finish();
    if max >= 0 && Sound(patterns, chunks, max) {
      ReportedText(patterns, chunks, max);
    }
  }
}
