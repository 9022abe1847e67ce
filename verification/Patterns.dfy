/** The CROND_REDACT_PATTERNS list between injector and agent. */
module Patterns {
  import opened JsonPointer

  /** `unicode.IsSpace`. */
  predicate IsSpace(c: char) {
    || '\t' <= c <= '\r' || c == ' ' || c == 0x85 as char || c == 0xA0 as char
    || c == 0x1680 as char || (0x2000 as char <= c <= 0x200a as char)
    || c == 0x2028 as char || c == 0x2029 as char || c == 0x202f as char || c == 0x205f as char
    || c == 0x3000 as char
  }

  function TrimLeft(s: string): string {
    if s != [] && IsSpace(s[0]) then TrimLeft(s[1..]) else s
  }

  function TrimRight(s: string): string {
    if s != [] && IsSpace(s[|s| - 1]) then TrimRight(s[..|s| - 1]) else s
  }

  function TrimSpace(s: string): string {
    TrimRight(TrimLeft(s))
  }

  /** Survives trimming unchanged. */
  predicate Trimmed(s: string) {
    s == [] || (!IsSpace(s[0]) && !IsSpace(s[|s| - 1]))
  }

  predicate Clean(p: string) {
    p != "" && Free(p, '\n') && Trimmed(p)
  }

  predicate AllClean(ps: seq<string>) {
    forall i | 0 <= i < |ps| :: Clean(ps[i])
  }

  lemma {:induction false} TrimLeftKeeps(s: string)
    ensures var r := TrimLeft(s); (r == [] || !IsSpace(r[0])) && (Free(s, '\n') ==> Free(r, '\n'))
  {
    if s != [] && IsSpace(s[0]) {
      TrimLeftKeeps(s[1..]);
    }
  }

  lemma {:induction false} TrimRightKeeps(s: string)
    ensures var r := TrimRight(s);
            && r <= s
            && (r == [] || !IsSpace(r[|r| - 1])) && (Free(s, '\n') ==> Free(r, '\n'))
  {
    if s != [] && IsSpace(s[|s| - 1]) {
      TrimRightKeeps(s[..|s| - 1]);
    }
  }

  lemma {:induction false} TrimSpaceTrims(s: string)
    ensures Trimmed(TrimSpace(s)) && (Free(s, '\n') ==> Free(TrimSpace(s), '\n'))
    ensures Trimmed(s) ==> TrimSpace(s) == s
  {
    TrimLeftKeeps(s);
    TrimRightKeeps(TrimLeft(s));
  }

  predicate AllSpace(s: string) {
    forall i | 0 <= i < |s| :: IsSpace(s[i])
  }

  lemma {:induction false} TrimLeftCuts(s: string) returns (a: string)
    ensures AllSpace(a) && s == a + TrimLeft(s)
  {
    if s == [] || !IsSpace(s[0]) {
      a := [];
    } else {
      var rest := TrimLeftCuts(s[1..]);
      a := [s[0]] + rest;
    }
  }

  lemma {:induction false} TrimRightCuts(s: string) returns (b: string)
    ensures AllSpace(b) && s == TrimRight(s) + b
  {
    if s == [] || !IsSpace(s[|s| - 1]) {
      b := [];
    } else {
      var n := |s| - 1;
      var rest := TrimRightCuts(s[..n]);
      b := rest + [s[n]];
      assert s == s[..n] + [s[n]];
    }
  }

  /** `p` is `line` from its first to its last character that is not space. */
  ghost predicate IsCore(line: string, p: string) {
    && p != "" && !IsSpace(p[0]) && !IsSpace(p[|p| - 1])
    && exists a, b :: Surrounds(a, b) && line == a + p + b
  }

  predicate Surrounds(a: string, b: string) {
    AllSpace(a) && AllSpace(b)
  }

  /** Trimming cuts spaces off both ends and nothing else. */
  lemma {:induction false} TrimSpaceCuts(s: string)
    ensures if AllSpace(s) then TrimSpace(s) == "" else IsCore(s, TrimSpace(s))
  {
    var a := TrimLeftCuts(s);
    var b := TrimRightCuts(TrimLeft(s));
    var p := TrimSpace(s);
    TrimSpaceTrims(s);
    assert s == a + p + b;
    assert Surrounds(a, b);
    if p == "" {
      assert s == a + b;
    } else {
      assert s[|a|] == p[0];
    }
  }

  /** Trimmed parts, without the empty ones. */
  function Keep(parts: seq<string>): seq<string> {
    if parts == [] then []
    else
      var n := |parts| - 1;
      Keep(parts[..n]) + (if TrimSpace(parts[n]) != "" then [TrimSpace(parts[n])] else [])
  }

  function ParsePatterns(v: string): seq<string> {
    Keep(Split(v, '\n'))
  }

  /** The variable overrides the configured list only when it is set and not empty. */
  function Applied(v: string, configured: seq<string>): seq<string> {
    if v == "" then configured else ParsePatterns(v)
  }

  class Config {
    var redactPatterns: seq<string>

    method ApplyRedactPatterns(v: string)
      modifies this
      ensures redactPatterns == Applied(v, old(redactPatterns))
      ensures if v == "" then redactPatterns == old(redactPatterns) else exists at :: KeepsLines(v, redactPatterns, at)
    {
      if v != "" {
        var parts := Split(v, '\n');
        var patterns: seq<string> := [];
        for i := 0 to |parts|
          invariant patterns == Keep(parts[..i])
        {
          var p := TrimSpace(parts[i]);
          assert parts[..i + 1][..i] == parts[..i];
          if p != "" {
            patterns := patterns + [p];
          }
        }
        assert parts[..|parts|] == parts;
        redactPatterns := patterns;
        ghost var at := ParsesEveryLine(v);
        assert KeepsLines(v, redactPatterns, at);
      }
    }
  }

  lemma {:induction false} KeepClean(parts: seq<string>)
    requires forall i | 0 <= i < |parts| :: Free(parts[i], '\n')
    ensures AllClean(Keep(parts))
  {
    if parts == [] {
    } else {
      var n := |parts| - 1;
      KeepClean(parts[..n]);
      TrimSpaceTrims(parts[n]);
    }
  }

  lemma {:induction false} KeepAppend(parts: seq<string>, p: string)
    ensures Keep(parts + [p]) == Keep(parts) + (if TrimSpace(p) != "" then [TrimSpace(p)] else [])
  {
    assert (parts + [p])[..|parts|] == parts;
  }

  lemma {:induction false} KeepAll(ps: seq<string>)
    requires AllClean(ps)
    ensures Keep(ps) == ps
  {
    if ps == [] {
    } else {
      var n := |ps| - 1;
      KeepAll(ps[..n]);
      assert TrimSpace(ps[n]) == ps[n] by {
        assert Clean(ps[n]);
        TrimSpaceTrims(ps[n]);
      }
      KeepAppend(ps[..n], ps[n]);
      assert ps == ps[..n] + [ps[n]];
    }
  }

  /** Whatever is parsed is a list of clean patterns. */
  lemma {:induction false} ParsedAreClean(v: string)
    ensures AllClean(ParsePatterns(v))
  {
    KeepClean(Split(v, '\n'));
  }

  /** `ps` holds, in order, the cores of the lines that are not blank; `at` says which lines these are. */
  ghost predicate KeptAs(lines: seq<string>, ps: seq<string>, at: seq<nat>) {
    && |at| == |ps|
    && (forall k | 0 <= k < |at| :: at[k] < |lines| && IsCore(lines[at[k]], ps[k]))
    && (forall j, k | 0 <= j < k < |at| :: at[j] < at[k])
    && (forall i: nat | i < |lines| :: i in at <==> !AllSpace(lines[i]))
  }

  ghost predicate KeepsLines(v: string, ps: seq<string>, at: seq<nat>) {
    KeptAs(Split(v, '\n'), ps, at)
  }

  lemma {:induction false} KeptSkip(lines: seq<string>, ps: seq<string>, at: seq<nat>, line: string)
    requires KeptAs(lines, ps, at) && AllSpace(line)
    ensures KeptAs(lines + [line], ps, at)
  {
    assert forall i | 0 <= i < |lines| :: (lines + [line])[i] == lines[i];
    assert |lines| !in at;
  }

  lemma {:induction false} KeptTake(lines: seq<string>, ps: seq<string>, at: seq<nat>, line: string, p: string)
    requires KeptAs(lines, ps, at) && !AllSpace(line) && IsCore(line, p)
    ensures KeptAs(lines + [line], ps + [p], at + [|lines|])
  {
    var more := at + [|lines|];
    assert forall i | 0 <= i < |lines| :: (lines + [line])[i] == lines[i];
    assert more[|at|] == |lines|;
    assert forall i: nat | i < |lines| :: i in more <==> i in at;
  }

  lemma {:induction false} KeptLines(parts: seq<string>) returns (at: seq<nat>)
    ensures KeptAs(parts, Keep(parts), at)
  {
    if parts == [] {
      at := [];
    } else {
      var n := |parts| - 1;
      at := KeptLines(parts[..n]);
      TrimSpaceCuts(parts[n]);
      assert parts == parts[..n] + [parts[n]];
      if AllSpace(parts[n]) {
        KeptSkip(parts[..n], Keep(parts[..n]), at, parts[n]);
        assert Keep(parts[..n]) + [] == Keep(parts[..n]);
      } else {
        KeptTake(parts[..n], Keep(parts[..n]), at, parts[n], TrimSpace(parts[n]));
        at := at + [n];
      }
    }
  }

  /** Every line of the variable that is not blank becomes one pattern, without its surrounding spaces. */
  lemma {:induction false} ParsesEveryLine(v: string) returns (at: seq<nat>)
    ensures KeepsLines(v, ParsePatterns(v), at) && Join(Split(v, '\n'), '\n') == v
  {
    JoinSplit(v, '\n');
    at := KeptLines(Split(v, '\n'));
  }

  /** A list survives join and parse exactly when every pattern is clean. */
  lemma {:induction false} RoundTripIff(ps: seq<string>)
    requires ps != []
    ensures ParsePatterns(Join(ps, '\n')) == ps <==> AllClean(ps)
  {
    if AllClean(ps) {
      SplitJoin(ps, '\n');
      KeepAll(ps);
    } else {
      ParsedAreClean(Join(ps, '\n'));
    }
  }

  lemma {:induction false} JoinEmptyIff(ps: seq<string>)
    requires ps != []
    ensures Join(ps, '\n') == "" <==> ps == [""]
  {
    if |ps| == 1 {
      assert ps == [ps[0]];
    } else {
      assert |Join(ps, '\n')| >= 1;
    }
  }

  /** The same through the environment, where an empty value counts as unset. */
  lemma {:induction false} EnvRoundTripIff(ps: seq<string>, configured: seq<string>)
    requires ps != []
    ensures Applied(Join(ps, '\n'), configured) == ps <==> AllClean(ps) || (ps == [""] && configured == ps)
  {
    RoundTripIff(ps);
    JoinEmptyIff(ps);
    if ps == [""] {
      assert !Clean(ps[0]);
    }
  }

  /** Parsing is stable: what was parsed joins and parses to itself. */
  lemma {:induction false} Reparse(v: string)
    ensures ParsePatterns(Join(ParsePatterns(v), '\n')) == ParsePatterns(v)
  {
    var ps := ParsePatterns(v);
    ParsedAreClean(v);
    if ps == [] {
      assert Split("", '\n') == [""];
      assert [""][..0] == [];
      assert TrimSpace("") == "";
      assert Keep([""]) == [];
    } else {
      RoundTripIff(ps);
    }
  }
}
