/** Literal patterns: a concrete engine that meets the hypotheses, and what it achieves. */
module LiteralPatterns {
  import opened Redaction

  /** Leftmost, non-overlapping replacement of a literal. */
  function ReplaceLiteral(lit: Bytes, x: Bytes): Bytes
    requires lit != []
  {
    if |x| < |lit| then x
    else if x[..|lit|] == lit then PLACEHOLDER + ReplaceLiteral(lit, x[|lit|..])
    else [x[0]] + ReplaceLiteral(lit, x[1..])
  }

  function LiteralPattern(lit: Bytes): Replacer
    requires lit != []
  {
    x => ReplaceLiteral(lit, x)
  }

  lemma {:induction false} ReplaceLiteralLineLocal(lit: Bytes, x: Bytes, y: Bytes)
    requires lit != [] && NEWLINE !in lit
    requires x == [] || EndsInNewline(x)
    ensures ReplaceLiteral(lit, x + y) == ReplaceLiteral(lit, x) + ReplaceLiteral(lit, y)
  {
    if x == [] {
      assert x + y == y;
      assert ReplaceLiteral(lit, x) == [];
    } else if lit <= x + y {
      MatchStaysInLine(lit, x, y);
      ReplaceLiteralLineLocal(lit, x[|lit|..], y);
      MatchLocal(lit, x, y);
    } else {
      var rest := x[1..];
      assert x == [x[0]] + rest && x + y == [x[0]] + (rest + y);
      ReplaceLiteralLineLocal(lit, rest, y);
      ShiftLocal(lit, x[0], rest, y);
    }
  }

  lemma {:induction false} ReplaceLiteralEndsLine(lit: Bytes, x: Bytes)
    requires lit != [] && NEWLINE !in lit && EndsInNewline(x)
    ensures EndsInNewline(ReplaceLiteral(lit, x))
  {
    if lit <= x {
      assert x + [] == x;
      MatchStaysInLine(lit, x, []);
      ReplaceLiteralEndsLine(lit, x[|lit|..]);
      assert ReplaceLiteral(lit, x) == PLACEHOLDER + ReplaceLiteral(lit, x[|lit|..]);
    } else if |x| > 1 {
      assert x == [x[0]] + x[1..];
      ReplaceLiteralEndsLine(lit, x[1..]);
      ShiftFirst(lit, x[0], x[1..]);
    } else {
      assert x == [NEWLINE];
      ReplaceLiteralShort(lit, x);
      assert ReplaceLiteral(lit, x[1..]) == [];
    }
  }

  lemma {:induction false} MatchAtStart(lit: Bytes, x: Bytes)
    requires lit != [] && lit <= x
    ensures ReplaceLiteral(lit, x) == PLACEHOLDER + ReplaceLiteral(lit, x[|lit|..])
  {
  }

  lemma {:induction false} MatchLocal(lit: Bytes, x: Bytes, y: Bytes)
    requires lit != [] && |lit| <= |x| && lit <= x + y
    requires var rest := x[|lit|..];
             ReplaceLiteral(lit, rest + y) == ReplaceLiteral(lit, rest) + ReplaceLiteral(lit, y)
    ensures ReplaceLiteral(lit, x + y) == ReplaceLiteral(lit, x) + ReplaceLiteral(lit, y)
    ensures ReplaceLiteral(lit, x) == PLACEHOLDER + ReplaceLiteral(lit, x[|lit|..])
  {
    assert lit <= x by {
      assert x[..|lit|] == (x + y)[..|lit|];
    }
    MatchAtStart(lit, x);
    MatchAtStart(lit, x + y);
    assert (x + y)[|lit|..] == x[|lit|..] + y;
    AppendAssoc(PLACEHOLDER, ReplaceLiteral(lit, x[|lit|..]), ReplaceLiteral(lit, y));
  }

  lemma {:induction false} ShiftLocal(lit: Bytes, b: byte, rest: Bytes, y: Bytes)
    requires lit != [] && !(lit <= [b] + (rest + y))
    requires ReplaceLiteral(lit, rest + y) == ReplaceLiteral(lit, rest) + ReplaceLiteral(lit, y)
    ensures ReplaceLiteral(lit, [b] + (rest + y)) == ReplaceLiteral(lit, [b] + rest) + ReplaceLiteral(lit, y)
    ensures ReplaceLiteral(lit, [b] + rest) == [b] + ReplaceLiteral(lit, rest)
  {
    assert [b] + (rest + y) == [b] + rest + y;
    ShiftFirst(lit, b, rest);
    ShiftFirst(lit, b, rest + y);
    AppendAssoc([b], ReplaceLiteral(lit, rest), ReplaceLiteral(lit, y));
  }

  lemma {:induction false} ShiftFirst(lit: Bytes, b: byte, rest: Bytes)
    requires lit != [] && !(lit <= [b] + rest)
    ensures ReplaceLiteral(lit, [b] + rest) == [b] + ReplaceLiteral(lit, rest)
  {
    var x := [b] + rest;
    assert x[1..] == rest;
    ReplaceLiteralShort(lit, x);
  }

  /** A newline-free literal cannot match across the end of a line. */
  lemma {:induction false} MatchStaysInLine(lit: Bytes, x: Bytes, y: Bytes)
    requires EndsInNewline(x) && lit <= x + y && NEWLINE !in lit
    ensures |lit| < |x|
  {
    assert (x + y)[|x| - 1] == NEWLINE;
    assert forall i | 0 <= i < |lit| :: lit[i] == (x + y)[i] && lit[i] != NEWLINE;
  }

  /** When the literal does not start `x`, its first byte is kept. */
  lemma {:induction false} ReplaceLiteralShort(lit: Bytes, x: Bytes)
    requires lit != [] && x != []
    requires |x| >= |lit| ==> x[..|lit|] != lit
    ensures ReplaceLiteral(lit, x) == [x[0]] + ReplaceLiteral(lit, x[1..])
  {
    if |x| < |lit| {
      assert ReplaceLiteral(lit, x) == x && ReplaceLiteral(lit, x[1..]) == x[1..];
      assert x == [x[0]] + x[1..];
    } else {
      assert ReplaceLiteral(lit, x) == [x[0]] + ReplaceLiteral(lit, x[1..]);
    }
  }

  lemma {:induction false} LiteralPatternFaithful(lit: Bytes)
    requires lit != [] && NEWLINE !in lit
    ensures Faithful(LiteralPattern(lit))
  {
    var f := LiteralPattern(lit);
    forall x, y | EndsInNewline(x)
      ensures LocalAt(f, x, y)
    {
      ReplaceLiteralLineLocal(lit, x, y);
    }
    forall x | EndsInNewline(x)
      ensures EndsInNewline(f(x))
    {
      ReplaceLiteralEndsLine(lit, x);
    }
  }

  // ----- What literal replacement achieves -----

  ghost predicate OccursAt(lit: Bytes, x: Bytes, i: nat) {
    i + |lit| <= |x| && x[i..i + |lit|] == lit
  }

  ghost predicate Occurs(lit: Bytes, x: Bytes) {
    exists i: nat :: OccursAt(lit, x, i)
  }

  /** However they are overlapped, the literal and the placeholder disagree somewhere. */
  ghost predicate Distinguishable(lit: Bytes) {
    forall s | -|PLACEHOLDER| < s < |lit| :: Clash(lit, s)
  }

  ghost predicate Clash(lit: Bytes, s: int) {
    exists k :: 0 <= k < |lit| && 0 <= k - s < |PLACEHOLDER| && lit[k] != PLACEHOLDER[k - s]
  }

  /** For instance, a literal that shares no byte with the placeholder. */
  lemma {:induction false} DisjointIsDistinguishable(lit: Bytes)
    requires lit != [] && forall b | b in lit :: b !in PLACEHOLDER
    ensures Distinguishable(lit)
  {
    forall s | -|PLACEHOLDER| < s < |lit|
      ensures Clash(lit, s)
    {
      var k := if s < 0 then 0 else s;
      assert lit[k] in lit && PLACEHOLDER[k - s] in PLACEHOLDER;
    }
  }

  /** Where the first match starts; the end of `x` when there is none. */
  function FirstMatch(lit: Bytes, x: Bytes): (j: nat)
    requires lit != []
    ensures j <= |x|
  {
    if |x| < |lit| then |x| else if x[..|lit|] == lit then 0 else 1 + FirstMatch(lit, x[1..])
  }

  lemma {:induction false} KeptUpToFirstMatch(lit: Bytes, x: Bytes)
    requires lit != []
    ensures var j, r := FirstMatch(lit, x), ReplaceLiteral(lit, x);
            && j <= |r| && r[..j] == x[..j]
            && (j == |x| ==> r == x)
            && (j < |x| ==> PLACEHOLDER <= r[j..])
  {
    if |x| < |lit| {
    } else if x[..|lit|] != lit {
      var rest := x[1..];
      var j, r := FirstMatch(lit, rest), ReplaceLiteral(lit, rest);
      KeptUpToFirstMatch(lit, rest);
      KeptStep(x[0], rest, r, j);
      assert x == [x[0]] + rest;
      assert FirstMatch(lit, x) == j + 1 && ReplaceLiteral(lit, x) == [x[0]] + r;
    }
  }

  lemma {:induction false} KeptStep(b: byte, x: Bytes, r: Bytes, j: nat)
    requires j <= |x| && j <= |r| && r[..j] == x[..j]
    ensures ([b] + r)[..j + 1] == ([b] + x)[..j + 1]
    ensures ([b] + r)[j + 1..] == r[j..]
  {
    assert ([b] + r)[..j + 1] == [b] + r[..j];
    assert ([b] + x)[..j + 1] == [b] + x[..j];
  }

  /** The literal cannot occur across a placeholder that starts at `j`. */
  lemma {:induction false} NoOccurrenceAcross(lit: Bytes, r: Bytes, i: nat, j: nat)
    requires lit != [] && Distinguishable(lit)
    requires j <= |r| && PLACEHOLDER <= r[j..]
    requires i < j + |PLACEHOLDER| && j < i + |lit|
    ensures !OccursAt(lit, r, i)
  {
    assert Clash(lit, j - i);
    var k :| 0 <= k < |lit| && 0 <= k - (j - i) < |PLACEHOLDER| && lit[k] != PLACEHOLDER[k - (j - i)];
    assert r[j..][k - (j - i)] == PLACEHOLDER[k - (j - i)] == r[i + k];
    assert i + |lit| <= |r| ==> r[i..i + |lit|][k] == r[i + k];
  }

  /** Replacing any literal, `lit` itself or another one, leaves none of `lit` at the start. */
  lemma {:induction false} NotAtStart(lit: Bytes, other: Bytes, x: Bytes)
    requires lit != [] && other != [] && Distinguishable(lit)
    requires !OccursAt(lit, x, 0)
    ensures !OccursAt(lit, ReplaceLiteral(other, x), 0)
  {
    KeptUpToFirstMatch(other, x);
    var j, r := FirstMatch(other, x), ReplaceLiteral(other, x);
    if j == |x| {
      assert r == x;
    } else if j < |lit| {
      NoOccurrenceAcross(lit, r, 0, j);
    } else if |r| >= |lit| {
      assert r[0..|lit|] == r[..j][..|lit|] == x[0..|lit|];
    }
  }

  /** A literal that cannot overlap the placeholder is gone once it has been replaced. */
  lemma {:induction false} LiteralGone(lit: Bytes, x: Bytes, i: nat)
    requires lit != [] && Distinguishable(lit)
    ensures !OccursAt(lit, ReplaceLiteral(lit, x), i)
  {
    if |x| < |lit| {
    } else if x[..|lit|] == lit {
      var rest := ReplaceLiteral(lit, x[|lit|..]);
      if i < |PLACEHOLDER| {
        NoOccurrenceAcross(lit, PLACEHOLDER + rest, i, 0);
      } else {
        LiteralGone(lit, x[|lit|..], i - |PLACEHOLDER|);
        OccursInTail(lit, PLACEHOLDER, rest, i);
      }
    } else if i == 0 {
      NotAtStart(lit, lit, x);
    } else {
      LiteralGone(lit, x[1..], i - 1);
      OccursInTail(lit, [x[0]], ReplaceLiteral(lit, x[1..]), i);
    }
  }

  /** ... and replacing another literal does not bring it back. */
  lemma {:induction false} NoNewOccurrence(lit: Bytes, other: Bytes, x: Bytes, i: nat)
    requires lit != [] && other != [] && Distinguishable(lit)
    requires !Occurs(lit, x)
    ensures !OccursAt(lit, ReplaceLiteral(other, x), i)
  {
    if |x| < |other| {
      assert ReplaceLiteral(other, x) == x;
    } else if x[..|other|] == other {
      var rest := ReplaceLiteral(other, x[|other|..]);
      if i < |PLACEHOLDER| {
        NoOccurrenceAcross(lit, PLACEHOLDER + rest, i, 0);
      } else {
        AbsentFromTail(lit, x, |other|);
        NoNewOccurrence(lit, other, x[|other|..], i - |PLACEHOLDER|);
        OccursInTail(lit, PLACEHOLDER, rest, i);
      }
    } else if i == 0 {
      NotAtStart(lit, other, x);
    } else {
      AbsentFromTail(lit, x, 1);
      NoNewOccurrence(lit, other, x[1..], i - 1);
      OccursInTail(lit, [x[0]], ReplaceLiteral(other, x[1..]), i);
    }
  }

  lemma {:induction false} AbsentFromTail(lit: Bytes, x: Bytes, n: nat)
    requires n <= |x| && !Occurs(lit, x)
    ensures !Occurs(lit, x[n..])
  {
    forall i: nat
      ensures !OccursAt(lit, x[n..], i)
    {
      assert !OccursAt(lit, x, i + n);
      assert x == x[..n] + x[n..];
      OccursInTail(lit, x[..n], x[n..], i + n);
    }
  }

  lemma {:induction false} OccursInTail(lit: Bytes, head: Bytes, tail: Bytes, i: nat)
    requires |head| <= i
    ensures OccursAt(lit, head + tail, i) <==> OccursAt(lit, tail, i - |head|)
  {
    if i + |lit| <= |head + tail| {
      assert (head + tail)[i..i + |lit|] == tail[i - |head|..i - |head| + |lit|];
    }
  }

  lemma {:induction false} NothingToReplace(lit: Bytes, x: Bytes)
    requires lit != [] && !Occurs(lit, x)
    ensures ReplaceLiteral(lit, x) == x
  {
    if |x| < |lit| {
    } else {
      assert !OccursAt(lit, x, 0);
      AbsentFromTail(lit, x, 1);
      NothingToReplace(lit, x[1..]);
      assert x == [x[0]] + x[1..];
    }
  }

  lemma {:induction false} PlaceholderReads()
    ensures PLACEHOLDER == Ascii("[REDACTED]")
  {
  }

  /** The first occurrence becomes "[REDACTED]", and replacement goes on behind it. */
  lemma {:induction false} FirstReplaced(lit: Bytes, x: Bytes, i: nat)
    requires lit != [] && OccursAt(lit, x, i) && forall j: nat | j < i :: !OccursAt(lit, x, j)
    ensures ReplaceLiteral(lit, x) == x[..i] + Ascii("[REDACTED]") + ReplaceLiteral(lit, x[i + |lit|..])
  {
    PlaceholderReads();
    FirstMatchIs(lit, x, i);
    ReplacedAtFirstMatch(lit, x, i);
    AppendAssoc(x[..i], PLACEHOLDER, ReplaceLiteral(lit, x[i + |lit|..]));
  }

  /** The placeholder for the match at `i`, and what replacement makes of the rest. */
  function Behind(lit: Bytes, x: Bytes, i: nat): Bytes
    requires lit != [] && i + |lit| <= |x|
  {
    PLACEHOLDER + ReplaceLiteral(lit, x[i + |lit|..])
  }

  lemma {:induction false} FirstMatchFits(lit: Bytes, x: Bytes)
    requires lit != [] && FirstMatch(lit, x) < |x|
    ensures FirstMatch(lit, x) + |lit| <= |x|
  {
    if x[..|lit|] == lit {
    } else {
      FirstMatchFits(lit, x[1..]);
    }
  }

  lemma {:induction false} ReplacedAtFirstMatch(lit: Bytes, x: Bytes, i: nat)
    requires lit != [] && FirstMatch(lit, x) == i && i + |lit| <= |x|
    ensures ReplaceLiteral(lit, x) == x[..i] + Behind(lit, x, i)
  {
    if x[..|lit|] == lit {
      MatchAtStart(lit, x);
      assert x[..0] + Behind(lit, x, 0) == Behind(lit, x, 0);
    } else {
      ReplaceLiteralShort(lit, x);
      ReplacedAtFirstMatch(lit, x[1..], i - 1);
      BehindTail(lit, x, i);
      PrefixedParts(x, i, Behind(lit, x, i));
    }
  }

  lemma {:induction false} BehindTail(lit: Bytes, x: Bytes, i: nat)
    requires lit != [] && 0 < i && i + |lit| <= |x|
    ensures Behind(lit, x[1..], i - 1) == Behind(lit, x, i)
  {
    assert x[1..][i - 1 + |lit|..] == x[i + |lit|..];
  }

  lemma {:induction false} FirstInTail(lit: Bytes, x: Bytes, i: nat)
    requires i > 0 && lit != [] && OccursAt(lit, x, i) && forall j: nat | j < i :: !OccursAt(lit, x, j)
    ensures OccursAt(lit, x[1..], i - 1) && forall j: nat | j < i - 1 :: !OccursAt(lit, x[1..], j)
    ensures |x| >= |lit| ==> x[..|lit|] != lit
  {
    assert !OccursAt(lit, x, 0);
    forall j: nat | j < i
      ensures OccursAt(lit, x[1..], j) <==> OccursAt(lit, x, j + 1)
    {
      TailOccurrence(lit, x, j);
    }
    assert OccursAt(lit, x[1..], i - 1) <==> OccursAt(lit, x, i);
  }

  lemma {:induction false} FirstMatchIs(lit: Bytes, x: Bytes, i: nat)
    requires lit != [] && OccursAt(lit, x, i) && forall j: nat | j < i :: !OccursAt(lit, x, j)
    ensures FirstMatch(lit, x) == i
  {
    if i == 0 {
      assert x[0..|lit|] == x[..|lit|];
    } else {
      FirstInTail(lit, x, i);
      FirstMatchIs(lit, x[1..], i - 1);
    }
  }

  lemma {:induction false} TailOccurrence(lit: Bytes, x: Bytes, j: nat)
    requires x != []
    ensures OccursAt(lit, x[1..], j) <==> OccursAt(lit, x, j + 1)
  {
    assert x == [x[0]] + x[1..];
    OccursInTail(lit, [x[0]], x[1..], j + 1);
  }

  lemma {:induction false} PrefixedParts(x: Bytes, i: nat, z: Bytes)
    requires 0 < i <= |x|
    ensures [x[0]] + (x[1..][..i - 1] + z) == x[..i] + z
  {
    assert [x[0]] + x[1..][..i - 1] == x[..i];
  }

  // ----- A list of literals -----

  /** Literals that can be configured: not empty, and within one line. */
  predicate InLine(literals: seq<Bytes>) {
    forall i | 0 <= i < |literals| :: literals[i] != [] && NEWLINE !in literals[i]
  }

  function Literals(literals: seq<Bytes>): (patterns: seq<Replacer>)
    requires InLine(literals)
    ensures |patterns| == |literals|
    ensures forall i | 0 <= i < |patterns| :: patterns[i] == LiteralPattern(literals[i])
  {
    if literals == [] then [] else [LiteralPattern(literals[0])] + Literals(literals[1..])
  }

  lemma {:induction false} LiteralsFaithful(literals: seq<Bytes>)
    requires InLine(literals)
    ensures AllFaithful(Literals(literals))
  {
    forall i | 0 <= i < |literals|
      ensures Faithful(Literals(literals)[i])
    {
      LiteralPatternFaithful(literals[i]);
    }
  }

  lemma {:induction false} RedactFirst(literals: seq<Bytes>, x: Bytes)
    requires literals != [] && InLine(literals)
    ensures RedactAll(Literals(literals), x) == RedactAll(Literals(literals[1..]), ReplaceLiteral(literals[0], x))
  {
    assert Literals(literals)[1..] == Literals(literals[1..]);
  }

  /** What is absent stays absent through any number of literals. */
  lemma {:induction false} StaysAbsent(lit: Bytes, literals: seq<Bytes>, x: Bytes)
    requires InLine(literals) && lit != [] && Distinguishable(lit)
    requires !Occurs(lit, x)
    ensures !Occurs(lit, RedactAll(Literals(literals), x))
  {
    if literals == [] {
      assert RedactAll(Literals(literals), x) == x;
    } else {
      forall i: nat
        ensures !OccursAt(lit, ReplaceLiteral(literals[0], x), i)
      {
        NoNewOccurrence(lit, literals[0], x, i);
      }
      StaysAbsent(lit, literals[1..], ReplaceLiteral(literals[0], x));
      RedactFirst(literals, x);
    }
  }

  /** None of the literals is left once all of them have been replaced in turn. */
  lemma {:induction false} AllGone(literals: seq<Bytes>, k: nat, x: Bytes)
    requires InLine(literals) && k < |literals| && Distinguishable(literals[k])
    ensures !Occurs(literals[k], RedactAll(Literals(literals), x))
  {
    RedactFirst(literals, x);
    var y := ReplaceLiteral(literals[0], x);
    if k == 0 {
      forall i: nat
        ensures !OccursAt(literals[0], y, i)
      {
        LiteralGone(literals[0], x, i);
      }
      StaysAbsent(literals[0], literals[1..], y);
    } else {
      AllGone(literals[1..], k - 1, y);
    }
  }

  // ----- Being distinguishable from the placeholder is the exact condition -----

  /** Whatever other literals are configured, in whatever order, `lit` is redacted everywhere. */
  ghost predicate AlwaysGone(lit: Bytes) {
    forall literals: seq<Bytes>, x: Bytes | InLine(literals) && lit in literals ::
      !Occurs(lit, RedactAll(Literals(literals), x))
  }

  /** A stray byte with the literal's two ends around it becomes the literal once that byte is redacted. */
  lemma {:induction false} ComesBack(lit: Bytes, stray: byte, s: int)
    requires lit != [] && NEWLINE !in lit && stray != NEWLINE && stray !in lit
    requires -|PLACEHOLDER| < s < |lit| && !Clash(lit, s)
    ensures InLine([lit, [stray]])
    ensures exists x: Bytes :: Occurs(lit, RedactAll(Literals([lit, [stray]]), x))
  {
    var before := if s > 0 then lit[..s] else [];
    var after := if s + |PLACEHOLDER| < |lit| then lit[s + |PLACEHOLDER|..] else [];
    var x := before + [stray] + after;
    StrayKept(lit, stray, before, after);
    StrayReplaced(stray, before, after);
    RedactFirst([lit, [stray]], x);
    assert [lit, [stray]][1..] == [[stray]];
    RedactFirst([[stray]], x);
    assert [[stray]][1..] == [];
    var r := RedactAll(Literals([lit, [stray]]), x);
    assert r == before + PLACEHOLDER + after;
    Assembled(lit, s, before, after);
  }

  /** The literal holds no stray byte, so it fits neither before nor after one, nor across it. */
  lemma {:induction false} StrayKept(lit: Bytes, stray: byte, before: Bytes, after: Bytes)
    requires lit != [] && stray !in lit && |before| < |lit| && |after| < |lit|
    ensures ReplaceLiteral(lit, before + [stray] + after) == before + [stray] + after
  {
    var x := before + [stray] + after;
    forall i: nat
      ensures !OccursAt(lit, x, i)
    {
      assert x[|before|] == stray;
      assert i <= |before| < i + |lit| <= |x| ==> x[i..i + |lit|][|before| - i] == stray;
    }
    NothingToReplace(lit, x);
  }

  lemma {:induction false} StrayReplaced(stray: byte, before: Bytes, after: Bytes)
    requires stray !in before && stray !in after
    ensures ReplaceLiteral([stray], before + [stray] + after) == before + PLACEHOLDER + after
  {
    var x := before + [stray] + after;
    if before == [] {
      assert x[1..] == after && x[..1] == [stray];
      StrayAbsent(stray, after);
      assert [] + PLACEHOLDER == PLACEHOLDER;
    } else {
      assert x[..1][0] != stray;
      assert x[1..] == before[1..] + [stray] + after;
      StrayReplaced(stray, before[1..], after);
      assert [before[0]] + (before[1..] + PLACEHOLDER + after) == before + PLACEHOLDER + after;
    }
  }

  lemma {:induction false} StrayAbsent(stray: byte, x: Bytes)
    requires stray !in x
    ensures ReplaceLiteral([stray], x) == x
  {
    forall i: nat
      ensures !OccursAt([stray], x, i)
    {
      assert i < |x| ==> x[i..i + 1][0] in x;
    }
    NothingToReplace([stray], x);
  }

  lemma {:induction false} Assembled(lit: Bytes, s: int, before: Bytes, after: Bytes)
    requires lit != [] && -|PLACEHOLDER| < s < |lit| && !Clash(lit, s)
    requires before == if s > 0 then lit[..s] else []
    requires after == if s + |PLACEHOLDER| < |lit| then lit[s + |PLACEHOLDER|..] else []
    ensures Occurs(lit, before + PLACEHOLDER + after)
  {
    var r := before + PLACEHOLDER + after;
    var i := if s < 0 then -s else 0;
    forall k | 0 <= k < |lit|
      ensures i + k < |r| && r[i + k] == lit[k]
    {
      assert 0 <= k - s < |PLACEHOLDER| ==> lit[k] == PLACEHOLDER[k - s];
    }
    assert r[i..i + |lit|] == lit;
    assert OccursAt(lit, r, i);
  }

  lemma {:induction false} AlwaysGoneIff(lit: Bytes, stray: byte)
    requires lit != [] && NEWLINE !in lit && stray != NEWLINE && stray !in lit
    ensures AlwaysGone(lit) <==> Distinguishable(lit)
  {
    if Distinguishable(lit) {
      forall literals: seq<Bytes>, x: Bytes | InLine(literals) && lit in literals
        ensures !Occurs(lit, RedactAll(Literals(literals), x))
      {
        var k :| 0 <= k < |literals| && literals[k] == lit;
        AllGone(literals, k, x);
      }
    } else {
      var s :| -|PLACEHOLDER| < s < |lit| && !Clash(lit, s);
      ComesBack(lit, stray, s);
      assert lit in [lit, [stray]];
    }
  }
  // ----- Cutting a text in two -----

  /** Scanning from the left, some match starts before `n` and ends behind it. */
  predicate Straddles(lit: Bytes, x: Bytes, n: nat)
    requires lit != [] && n <= |x|
  {
    if n == 0 || |x| < |lit| then false
    else if x[..|lit|] != lit then Straddles(lit, x[1..], n - 1)
    else n < |lit| || Straddles(lit, x[|lit|..], n - |lit|)
  }

  lemma {:induction false} StraddlesNothing(lit: Bytes, x: Bytes)
    requires lit != []
    ensures !Straddles(lit, x, 0) && !Straddles(lit, x, |x|)
  {
    if |x| < |lit| {
    } else if x[..|lit|] != lit {
      StraddlesNothing(lit, x[1..]);
    } else {
      StraddlesNothing(lit, x[|lit|..]);
    }
  }

  /** A match across `n` contains the byte before `n`. */
  lemma {:induction false} StraddleInLine(lit: Bytes, x: Bytes, n: nat)
    requires lit != [] && n <= |x| && Straddles(lit, x, n)
    ensures n > 0 && x[n - 1] in lit
  {
    if x[..|lit|] != lit {
      StraddleInLine(lit, x[1..], n - 1);
    } else if n < |lit| {
      assert x[n - 1] == lit[n - 1];
    } else {
      StraddleInLine(lit, x[|lit|..], n - |lit|);
    }
  }

  lemma {:induction false} StraddlesFrom(lit: Bytes, w: Bytes, k: nat, n: nat)
    requires lit != [] && k + n <= |w| && !Straddles(lit, w, k)
    ensures Straddles(lit, w, k + n) <==> Straddles(lit, w[k..], n)
    decreases |w|
  {
    if k == 0 {
      assert w[0..] == w;
    } else if |w| < |lit| {
    } else if w[..|lit|] != lit {
      assert w[1..][k - 1..] == w[k..];
      StraddlesFrom(lit, w[1..], k - 1, n);
    } else {
      assert w[|lit|..][k - |lit|..] == w[k..];
      StraddlesFrom(lit, w[|lit|..], k - |lit|, n);
    }
  }

  /** Behind a clear cut the scan of the second part is the scan of the whole. */
  lemma {:induction false} StraddlesBehind(lit: Bytes, x: Bytes, y: Bytes, n: nat)
    requires lit != [] && n <= |y| && !Straddles(lit, x + y, |x|)
    ensures Straddles(lit, x + y, |x| + n) <==> Straddles(lit, y, n)
  {
    StraddlesFrom(lit, x + y, |x|, n);
    assert (x + y)[|x|..] == y;
  }

  lemma {:induction false} UnstraddledAgrees(lit: Bytes, x: Bytes, y: Bytes)
    requires lit != [] && !Straddles(lit, x + y, |x|)
    ensures ReplaceLiteral(lit, x + y) == ReplaceLiteral(lit, x) + ReplaceLiteral(lit, y)
  {
    if x == [] {
      assert x + y == y;
      assert ReplaceLiteral(lit, x) == [];
    } else if |x + y| < |lit| {
      assert ReplaceLiteral(lit, x) == x;
    } else if (x + y)[..|lit|] != lit {
      var rest := x[1..];
      assert x == [x[0]] + rest && x + y == [x[0]] + (rest + y);
      assert (x + y)[1..] == rest + y;
      UnstraddledAgrees(lit, rest, y);
      ShiftLocal(lit, x[0], rest, y);
    } else {
      assert (x + y)[|lit|..] == x[|lit|..] + y;
      UnstraddledAgrees(lit, x[|lit|..], y);
      MatchLocal(lit, x, y);
    }
  }

  /** Cut inside a match, the first part keeps the head of the literal where the placeholder belongs. */
  lemma {:induction false} StraddledDiffers(lit: Bytes, x: Bytes, y: Bytes, z: Bytes)
    requires lit != [] && lit[0] != PLACEHOLDER[0] && Straddles(lit, x + y, |x|)
    ensures ReplaceLiteral(lit, x) + z != ReplaceLiteral(lit, x + y)
  {
    if (x + y)[..|lit|] != lit {
      var rest := x[1..];
      assert x == [x[0]] + rest && x + y == [x[0]] + (rest + y);
      assert (x + y)[1..] == rest + y;
      StraddledDiffers(lit, rest, y, z);
      StillDiffers(lit, x[0], rest, y, z);
    } else if |x| < |lit| {
      assert (ReplaceLiteral(lit, x) + z)[0] == x[0] == (x + y)[..|lit|][0];
      assert ReplaceLiteral(lit, x + y)[0] == PLACEHOLDER[0];
    } else {
      var rest := x[|lit|..];
      assert (x + y)[|lit|..] == rest + y && x[..|lit|] == (x + y)[..|lit|];
      StraddledDiffers(lit, rest, y, z);
      SamePrefix(PLACEHOLDER, ReplaceLiteral(lit, rest), z, ReplaceLiteral(lit, rest + y));
    }
  }

  lemma {:induction false} StillDiffers(lit: Bytes, b: byte, rest: Bytes, y: Bytes, z: Bytes)
    requires lit != [] && !(lit <= [b] + (rest + y))
    requires ReplaceLiteral(lit, rest) + z != ReplaceLiteral(lit, rest + y)
    ensures ReplaceLiteral(lit, [b] + rest) + z != ReplaceLiteral(lit, [b] + (rest + y))
  {
    AppendAssoc([b], rest, y);
    NoLongerPrefix(lit, [b] + rest, y);
    ShiftFirst(lit, b, rest);
    ShiftFirst(lit, b, rest + y);
    SamePrefix([b], ReplaceLiteral(lit, rest), z, ReplaceLiteral(lit, rest + y));
  }

  lemma {:induction false} NoLongerPrefix(lit: Bytes, x: Bytes, y: Bytes)
    requires !(lit <= x + y)
    ensures !(lit <= x)
  {
  }

  lemma {:induction false} SamePrefix(p: Bytes, x: Bytes, z: Bytes, w: Bytes)
    requires x + z != w
    ensures p + x + z != p + w
  {
    AppendAssoc(p, x, z);
    Cancel(p, x + z, w);
  }

  lemma {:induction false} Cancel(p: Bytes, x: Bytes, y: Bytes)
    ensures p + x == p + y <==> x == y
  {
    assert (p + x)[|p|..] == x && (p + y)[|p|..] == y;
  }
}
