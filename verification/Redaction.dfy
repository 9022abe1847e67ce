/** Byte strings, the abstract pattern engine and what it must satisfy. */
module Redaction {
  newtype byte = b: int | 0 <= b < 256

  type Bytes = seq<byte>

  /** One compiled pattern: `re.ReplaceAll(b, redactPlaceholder)` seen as a function of `b`. */
  type Replacer = Bytes -> Bytes

  const NEWLINE: byte := 10

  /** "[REDACTED]" */
  const PLACEHOLDER: Bytes := [91, 82, 69, 68, 65, 67, 84, 69, 68, 93]

  /** The bytes of a plain text. */
  function Ascii(text: string): (b: Bytes)
    requires forall i | 0 <= i < |text| :: text[i] as int < 128
    ensures |b| == |text| && forall i | 0 <= i < |b| :: b[i] as int == text[i] as int
  {
    seq(|text|, i requires 0 <= i < |text| && text[i] as int < 128 => text[i] as int as byte)
  }

  predicate EndsInNewline(x: Bytes) {
    x != [] && x[|x| - 1] == NEWLINE
  }

  // ----- What a pattern must satisfy for line buffering to be faithful -----

  ghost predicate LocalAt(f: Replacer, x: Bytes, y: Bytes) {
    f(x + y) == f(x) + f(y)
  }

  ghost predicate LineLocal(f: Replacer) {
    forall x, y | EndsInNewline(x) :: LocalAt(f, x, y)
  }

  ghost predicate NewlinePreserving(f: Replacer) {
    forall x | EndsInNewline(x) :: EndsInNewline(f(x))
  }

  ghost predicate NonemptyPreserving(f: Replacer) {
    forall x | x != [] :: f(x) != []
  }

  ghost predicate Faithful(f: Replacer) {
    LineLocal(f) && NewlinePreserving(f) && NonemptyPreserving(f)
  }

  ghost predicate AllFaithful(patterns: seq<Replacer>) {
    forall i | 0 <= i < |patterns| :: Faithful(patterns[i])
  }

  lemma {:induction false} FaithfulOfEmpty(f: Replacer)
    requires LineLocal(f)
    ensures f([]) == []
  {
    var nl := [NEWLINE];
    assert nl + [] == nl;
    assert LocalAt(f, nl, []);
  }

  // ----- Several patterns, applied one after the other -----

  function RedactAll(patterns: seq<Replacer>, b: Bytes): Bytes {
    if patterns == [] then b else RedactAll(patterns[1..], patterns[0](b))
  }

  function Redactor(patterns: seq<Replacer>): Replacer {
    b => RedactAll(patterns, b)
  }

  lemma {:induction false} RedactAllLineLocal(patterns: seq<Replacer>, x: Bytes, y: Bytes)
    requires AllFaithful(patterns) && EndsInNewline(x)
    ensures RedactAll(patterns, x + y) == RedactAll(patterns, x) + RedactAll(patterns, y)
    ensures EndsInNewline(RedactAll(patterns, x))
  {
    if patterns == [] {
    } else {
      var f := patterns[0];
      assert Faithful(f);
      assert LocalAt(f, x, y);
      RedactAllLineLocal(patterns[1..], f(x), f(y));
    }
  }

  lemma {:induction false} RedactAllNonempty(patterns: seq<Replacer>, x: Bytes)
    requires AllFaithful(patterns) && x != []
    ensures RedactAll(patterns, x) != []
  {
    if patterns == [] {
    } else {
      assert Faithful(patterns[0]);
      RedactAllNonempty(patterns[1..], patterns[0](x));
    }
  }

  /** Faithfulness survives any number of patterns. */
  lemma {:induction false} RedactorFaithful(patterns: seq<Replacer>)
    requires AllFaithful(patterns)
    ensures Faithful(Redactor(patterns))
  {
    var f := Redactor(patterns);
    forall x, y | EndsInNewline(x)
      ensures LocalAt(f, x, y)
    {
      RedactAllLineLocal(patterns, x, y);
    }
    forall x | EndsInNewline(x)
      ensures EndsInNewline(f(x))
    {
      RedactAllLineLocal(patterns, x, []);
    }
    forall x | x != []
      ensures f(x) != []
    {
      RedactAllNonempty(patterns, x);
    }
  }

  lemma {:induction false} AppendAssoc(x: Bytes, y: Bytes, z: Bytes)
    ensures (x + y) + z == x + (y + z)
  {
  }
}
