/** JSON Pointer (RFC 6901): splitting, escaping and array indices. */
module JsonPointer {
  import opened Wrappers

  // ----- Splitting and joining on a separator -----

  predicate Free(s: string, sep: char) {
    sep !in s
  }

  /** `strings.Split` for a one-character separator. */
  function Split(s: string, sep: char): (parts: seq<string>)
    ensures parts != []
    ensures forall i | 0 <= i < |parts| :: Free(parts[i], sep)
  {
    if s == [] then [[]]
    else
      var rest := Split(s[1..], sep);
      if s[0] == sep then [[]] + rest else [[s[0]] + rest[0]] + rest[1..]
  }

  /** `strings.Join` for a one-character separator. */
  function Join(parts: seq<string>, sep: char): string {
    if parts == [] then []
    else if |parts| == 1 then parts[0]
    else parts[0] + [sep] + Join(parts[1..], sep)
  }

  lemma {:induction false} SplitFree(s: string, sep: char)
    requires Free(s, sep)
    ensures Split(s, sep) == [s]
  {
    if s == [] {
    } else {
      SplitFree(s[1..], sep);
      assert s == [s[0]] + s[1..];
    }
  }

  lemma {:induction false} SplitFirst(head: string, tail: string, sep: char)
    requires Free(head, sep)
    ensures Split(head + [sep] + tail, sep) == [head] + Split(tail, sep)
  {
    var s := head + [sep] + tail;
    if head == [] {
      assert s[1..] == tail;
    } else {
      assert s[1..] == head[1..] + [sep] + tail;
      SplitFirst(head[1..], tail, sep);
      var rest := Split(s[1..], sep);
      assert rest[0] == head[1..] && rest[1..] == Split(tail, sep);
      assert [s[0]] + head[1..] == head;
    }
  }

  lemma {:induction false} SplitJoin(parts: seq<string>, sep: char)
    requires parts != [] && forall i | 0 <= i < |parts| :: Free(parts[i], sep)
    ensures Split(Join(parts, sep), sep) == parts
  {
    if |parts| == 1 {
      SplitFree(parts[0], sep);
    } else {
      SplitJoin(parts[1..], sep);
      SplitFirst(parts[0], Join(parts[1..], sep), sep);
    }
  }

  lemma {:induction false} JoinSplit(s: string, sep: char)
    ensures Join(Split(s, sep), sep) == s
  {
    if s == [] {
    } else {
      var rest := Split(s[1..], sep);
      var parts := Split(s, sep);
      JoinSplit(s[1..], sep);
      assert s == [s[0]] + s[1..];
      if s[0] == sep {
        assert parts[1..] == rest;
      } else {
        assert parts[1..] == rest[1..];
      }
    }
  }

  // ----- Escaping -----

  /** `strings.ReplaceAll` of a one-character string. */
  function ReplaceChar(s: string, c: char, to: string): string {
    if s == [] then [] else (if s[0] == c then to else [s[0]]) + ReplaceChar(s[1..], c, to)
  }

  /** `strings.ReplaceAll` of a two-character string by one character. */
  function ReplacePair(s: string, a: char, b: char, to: char): string {
    if s == [] then []
    else if |s| >= 2 && s[0] == a && s[1] == b then [to] + ReplacePair(s[2..], a, b, to)
    else [s[0]] + ReplacePair(s[1..], a, b, to)
  }

  /** Two passes: "~" to "~0", then "/" to "~1". */
  function Escape(tok: string): string {
    ReplaceChar(ReplaceChar(tok, '~', "~0"), '/', "~1")
  }

  /** The order of section 4 of RFC 6901: "~1" to "/", then "~0" to "~". */
  function Unescape(tok: string): string {
    ReplacePair(ReplacePair(tok, '~', '1', '/'), '~', '0', '~')
  }

  /** Section 3 of RFC 6901: every "~" starts "~0" or "~1". */
  predicate WellEscaped(tok: string) {
    forall i | 0 <= i < |tok| && tok[i] == '~' :: i + 1 < |tok| && (tok[i + 1] == '0' || tok[i + 1] == '1')
  }

  function EscapeChar(c: char): string {
    if c == '~' then "~0" else if c == '/' then "~1" else [c]
  }

  /** The two passes amount to one map over characters. */
  lemma {:induction false} EscapeCons(tok: string)
    requires tok != []
    ensures Escape(tok) == EscapeChar(tok[0]) + Escape(tok[1..])
  {
    var rest := ReplaceChar(tok[1..], '~', "~0");
    if tok[0] == '~' {
      var once := ReplaceChar(tok, '~', "~0");
      assert once == "~0" + rest;
      assert once[0] == '~' && once[1..] == "0" + rest;
      assert once[1..][1..] == rest;
      assert ReplaceChar(once[1..], '/', "~1") == "0" + ReplaceChar(rest, '/', "~1");
    } else {
      assert ReplaceChar(tok, '~', "~0")[1..] == rest;
    }
  }

  lemma {:induction false} EscapeNil()
    ensures Escape("") == "" && Unescape("") == ""
  {
  }

  /** Decoding, one escape at a time. */
  lemma {:induction false} UnescapeCons(c: char, rest: string)
    ensures Unescape(EscapeChar(c) + rest) == [c] + Unescape(rest)
  {
    var s := EscapeChar(c) + rest;
    var pass := ReplacePair(rest, '~', '1', '/');
    if c == '~' {
      assert s[1..] == "0" + rest && s[1..][1..] == rest;
      assert ReplacePair(s[1..], '~', '1', '/') == "0" + pass;
      var once := ReplacePair(s, '~', '1', '/');
      assert once == "~" + ("0" + pass);
      assert once[2..] == pass;
    } else if c == '/' {
      assert s[2..] == rest;
      var once := ReplacePair(s, '~', '1', '/');
      assert once == "/" + pass;
      assert once[1..] == pass;
    } else {
      assert s[1..] == rest;
      var once := ReplacePair(s, '~', '1', '/');
      assert once == [c] + pass;
      assert once[1..] == pass;
    }
  }

  lemma {:induction false} UnescapeEscape(tok: string)
    ensures Unescape(Escape(tok)) == tok
    ensures Free(Escape(tok), '/') && WellEscaped(Escape(tok))
  {
    if tok == [] {
      EscapeNil();
    } else {
      var rest := Escape(tok[1..]);
      EscapeCons(tok);
      UnescapeEscape(tok[1..]);
      UnescapeCons(tok[0], rest);
      assert tok == [tok[0]] + tok[1..];
      WellEscapedCons(tok[0], rest);
    }
  }

  lemma {:induction false} WellEscapedCons(c: char, rest: string)
    requires WellEscaped(rest)
    ensures WellEscaped(EscapeChar(c) + rest)
  {
    var s := EscapeChar(c) + rest;
    var n := |EscapeChar(c)|;
    forall i | 0 <= i < |s| && s[i] == '~'
      ensures i + 1 < |s| && (s[i + 1] == '0' || s[i + 1] == '1')
    {
      if i >= n {
        assert rest[i - n] == '~';
        assert s[i + 1] == rest[i + 1 - n];
      }
    }
  }

  lemma {:induction false} EscapeInjective(a: string, b: string)
    requires Escape(a) == Escape(b)
    ensures a == b
  {
    UnescapeEscape(a);
    UnescapeEscape(b);
  }

  /** Every well-formed token is the escape of its decoding. */
  lemma {:induction false} EscapeUnescape(tok: string)
    requires WellEscaped(tok) && Free(tok, '/')
    ensures Escape(Unescape(tok)) == tok
    decreases |tok|
  {
    if tok == [] {
      EscapeNil();
    } else {
      var c := if tok[0] != '~' then tok[0] else if tok[1] == '0' then '~' else '/';
      var n := |EscapeChar(c)|;
      var rest := tok[n..];
      assert tok == EscapeChar(c) + rest;
      forall i | 0 <= i < |rest| && rest[i] == '~'
        ensures i + 1 < |rest| && (rest[i + 1] == '0' || rest[i + 1] == '1')
      {
        assert tok[n + i] == '~';
      }
      EscapeUnescape(rest);
      UnescapeCons(c, rest);
      EscapeCons([c] + Unescape(rest));
      assert ([c] + Unescape(rest))[1..] == Unescape(rest);
    }
  }

  lemma {:induction false} EscapePlain(tok: string)
    requires '~' !in tok && '/' !in tok
    ensures Escape(tok) == tok
  {
    if tok == [] {
      EscapeNil();
    } else {
      EscapeCons(tok);
      EscapePlain(tok[1..]);
      assert tok == [tok[0]] + tok[1..];
    }
  }

  // ----- Whole pointers -----

  /** Section 5 of RFC 6901: each token is preceded by "/". */
  function Render(tokens: seq<string>): string {
    if tokens == [] then [] else "/" + Escape(tokens[0]) + Render(tokens[1..])
  }

  function UnescapeEach(parts: seq<string>): (tokens: seq<string>)
    ensures |tokens| == |parts|
    ensures forall i | 0 <= i < |tokens| :: tokens[i] == Unescape(parts[i])
  {
    seq(|parts|, i requires 0 <= i < |parts| => Unescape(parts[i]))
  }

  function Parse(path: string): Option<seq<string>> {
    if path == [] then Some([])
    else if path[0] != '/' then None
    else
      var parts := Split(path[1..], '/');
      if forall i | 0 <= i < |parts| :: WellEscaped(parts[i]) then Some(UnescapeEach(parts)) else None
  }

  lemma {:induction false} ParseRender(tokens: seq<string>)
    ensures Parse(Render(tokens)) == Some(tokens)
  {
    if tokens != [] {
      SplitRender(tokens);
      var parts := Split(Render(tokens)[1..], '/');
      forall i | 0 <= i < |tokens|
        ensures WellEscaped(parts[i]) && Unescape(parts[i]) == tokens[i]
      {
        UnescapeEscape(tokens[i]);
      }
      assert UnescapeEach(parts) == tokens;
    }
  }

  function EscapeEach(tokens: seq<string>): (parts: seq<string>)
    ensures |parts| == |tokens|
    ensures forall i | 0 <= i < |tokens| :: parts[i] == Escape(tokens[i])
  {
    seq(|tokens|, i requires 0 <= i < |tokens| => Escape(tokens[i]))
  }

  lemma {:induction false} RenderIsJoin(tokens: seq<string>)
    requires tokens != []
    ensures Render(tokens) == "/" + Join(EscapeEach(tokens), '/')
  {
    var parts := EscapeEach(tokens);
    if |tokens| == 1 {
      assert tokens[1..] == [];
    } else {
      assert parts[1..] == EscapeEach(tokens[1..]);
      RenderIsJoin(tokens[1..]);
    }
  }

  lemma {:induction false} SplitRender(tokens: seq<string>)
    requires tokens != []
    ensures Render(tokens) != [] && Render(tokens)[0] == '/'
    ensures Split(Render(tokens)[1..], '/') == EscapeEach(tokens)
  {
    RenderIsJoin(tokens);
    var parts := EscapeEach(tokens);
    forall i | 0 <= i < |parts|
      ensures Free(parts[i], '/')
    {
      UnescapeEscape(tokens[i]);
    }
    SplitJoin(parts, '/');
    assert Render(tokens)[1..] == Join(parts, '/');
  }

  lemma {:induction false} RenderAppend(a: seq<string>, b: seq<string>)
    ensures Render(a + b) == Render(a) + Render(b)
  {
    if a == [] {
      assert a + b == b;
    } else {
      assert (a + b)[1..] == a[1..] + b;
      RenderAppend(a[1..], b);
    }
  }

  lemma {:induction false} RenderOne(tok: string)
    ensures Render([tok]) == "/" + Escape(tok)
  {
    assert [tok][1..] == [];
  }

  // ----- Array indices -----

  function Digit(d: nat): char
    requires d < 10
  {
    '0' + d as char
  }

  predicate IsDigit(c: char) {
    '0' <= c <= '9'
  }

  function DigitValue(c: char): (d: nat)
    requires IsDigit(c)
    ensures d < 10
  {
    (c - '0') as nat
  }

  /** `strconv.Itoa` of a non-negative number. */
  function Itoa(n: nat): string {
    if n < 10 then [Digit(n)] else Itoa(n / 10) + [Digit(n % 10)]
  }

  /** Section 4 of RFC 6901: "0", or digits without a leading zero. */
  predicate IsIndex(s: string) {
    && s != []
    && (forall i | 0 <= i < |s| :: IsDigit(s[i]))
    && (|s| > 1 ==> s[0] != '0')
  }

  function Value(s: string): nat
    requires forall i | 0 <= i < |s| :: IsDigit(s[i])
  {
    if s == [] then 0 else 10 * Value(s[..|s| - 1]) + DigitValue(s[|s| - 1])
  }

  function ParseIndex(s: string): Option<nat> {
    if IsIndex(s) then Some(Value(s)) else None
  }

  lemma {:induction false} ItoaParses(n: nat)
    ensures ParseIndex(Itoa(n)) == Some(n)
    ensures n > 0 ==> Itoa(n)[0] != '0'
  {
    var s := Itoa(n);
    if n < 10 {
      assert s[..|s| - 1] == [] && Value([]) == 0;
      assert s[0] == Digit(n) && DigitValue(s[0]) == n;
    } else {
      ItoaParses(n / 10);
      assert s[..|s| - 1] == Itoa(n / 10);
      assert s[0] == Itoa(n / 10)[0];
    }
  }

  /** An index has only one spelling. */
  lemma {:induction false} IndexCanonical(s: string)
    requires IsIndex(s)
    ensures Itoa(Value(s)) == s
    ensures s[0] != '0' ==> Value(s) > 0
  {
    var n := |s| - 1;
    if n == 0 {
      assert s[..n] == [] && Value([]) == 0;
      assert s == [s[0]];
    } else {
      IndexCanonical(s[..n]);
      var v, d := Value(s[..n]), DigitValue(s[n]);
      assert Value(s) == 10 * v + d;
      DigitsOf(v, d);
      assert s == s[..n] + [s[n]];
    }
  }

  lemma {:induction false} DigitsOf(v: nat, d: nat)
    requires v > 0 && d < 10
    ensures Itoa(10 * v + d) == Itoa(v) + [Digit(d)]
  {
    assert (10 * v + d) / 10 == v && (10 * v + d) % 10 == d;
  }

  lemma {:induction false} IndexInjective(a: string, b: string)
    requires ParseIndex(a).Some? && ParseIndex(a) == ParseIndex(b)
    ensures a == b
  {
    IndexCanonical(a);
    IndexCanonical(b);
  }

  /** Pointers and token lists are the same thing: parsing then rendering gives the pointer back. */
  lemma {:induction false} RenderParse(path: string)
    requires Parse(path).Some?
    ensures Render(Parse(path).value) == path
  {
    if path != [] {
      var parts := Split(path[1..], '/');
      RenderParts(parts);
      JoinSplit(path[1..], '/');
      assert path == "/" + path[1..];
    }
  }

  lemma {:induction false} RenderParts(parts: seq<string>)
    requires parts != []
    requires forall i | 0 <= i < |parts| :: WellEscaped(parts[i]) && Free(parts[i], '/')
    ensures Render(UnescapeEach(parts)) == "/" + Join(parts, '/')
  {
    EscapeUnescape(parts[0]);
    var tokens := UnescapeEach(parts);
    if |parts| == 1 {
      assert tokens[1..] == [];
    } else {
      assert tokens[1..] == UnescapeEach(parts[1..]);
      RenderParts(parts[1..]);
    }
  }
}
