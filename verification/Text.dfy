// String helpers the compiler relies on: decimal numerals and substring replacement.

module Text {

  function Digit(n: nat): char
    requires n < 10
  {
    "0123456789"[n]
  }

  function NatToString(n: nat): (s: string)
    ensures s != []
    ensures forall c | c in s :: '0' <= c <= '9'
  {
    if n < 10 then [Digit(n)] else NatToString(n / 10) + [Digit(n % 10)]
  }

  /** The number that a decimal numeral denotes. */
  function Value(s: string): int {
    if s == "" then 0 else 10 * Value(s[..|s| - 1]) + (s[|s| - 1] as int - '0' as int)
  }

  lemma {:induction false} DecimalValue(n: nat)
    ensures Value(NatToString(n)) == n
  {
    var s := NatToString(n);
    assert s[|s| - 1] == Digit(n % 10) && Digit(n % 10) as int - '0' as int == n % 10;
    if n < 10 {
      assert s[..|s| - 1] == "";
    } else {
      assert s[..|s| - 1] == NatToString(n / 10);
      DecimalValue(n / 10);
    }
  }

  lemma NatToStringInjective(m: nat, n: nat)
    requires NatToString(m) == NatToString(n)
    ensures m == n
  {
    DecimalValue(m);
    DecimalValue(n);
  }

  /** Left-to-right, non-overlapping replacement of every occurrence of `pattern`. */
  function Replace(text: string, pattern: string, replacement: string): string
    requires pattern != ""
  {
    if |text| < |pattern| then text
    else if pattern <= text then replacement + Replace(text[|pattern|..], pattern, replacement)
    else [text[0]] + Replace(text[1..], pattern, replacement)
  }

  predicate OccursAt(text: string, pattern: string, i: nat) {
    i + |pattern| <= |text| && text[i..i + |pattern|] == pattern
  }

  lemma PutFront(c: char, x: string, y: string, z: string)
    ensures [c] + (x + y + z) == ([c] + x) + y + z
  {
  }

  /** The first occurrence of the pattern is replaced, and the replacement goes on behind it. */
  lemma {:induction false} ReplaceFirst(before: string, pattern: string, rest: string, replacement: string)
    requires pattern != "" && forall j: nat | j < |before| :: !OccursAt(before + pattern + rest, pattern, j)
    ensures Replace(before + pattern + rest, pattern, replacement) == before + replacement + Replace(rest, pattern, replacement)
    decreases before
  {
    var text := before + pattern + rest;
    if before == "" {
      assert text == pattern + rest && text[|pattern|..] == rest;
      assert replacement + Replace(rest, pattern, replacement) == "" + replacement + Replace(rest, pattern, replacement);
    } else {
      var shorter := before[1..];
      PutFront(before[0], shorter, pattern, rest);
      assert [before[0]] + shorter == before;
      assert text[0] == before[0] && text[1..] == shorter + pattern + rest;
      assert !OccursAt(text, pattern, 0);
      forall j: nat | j < |shorter|
        ensures !OccursAt(shorter + pattern + rest, pattern, j)
      {
        OneOn(text, pattern, j);
      }
      ReplaceFirst(shorter, pattern, rest, replacement);
      PutFront(before[0], shorter, replacement, Replace(rest, pattern, replacement));
    }
  }

  /** A text in which the pattern does not occur stays as it is. */
  lemma {:induction false} ReplaceNothing(text: string, pattern: string, replacement: string)
    requires pattern != "" && forall i: nat :: !OccursAt(text, pattern, i)
    ensures Replace(text, pattern, replacement) == text
    decreases |text|
  {
    if |text| >= |pattern| {
      assert !OccursAt(text, pattern, 0);
      NoneInRest(text, pattern);
      ReplaceNothing(text[1..], pattern, replacement);
    }
  }

  lemma OneOn(text: string, pattern: string, i: nat)
    requires text != ""
    ensures OccursAt(text, pattern, i + 1) <==> OccursAt(text[1..], pattern, i)
  {
    if i + 1 + |pattern| <= |text| {
      assert text[i + 1..i + 1 + |pattern|] == text[1..][i..i + |pattern|];
    }
  }

  lemma NoneInRest(text: string, pattern: string)
    requires text != "" && forall i: nat :: !OccursAt(text, pattern, i)
    ensures forall i: nat :: !OccursAt(text[1..], pattern, i)
  {
    forall i: nat
      ensures !OccursAt(text[1..], pattern, i)
    {
      OneOn(text, pattern, i);
    }
  }

  /** Without the first character of the pattern there is nothing to replace. */
  lemma {:induction false} NothingToReplace(text: string, pattern: string, replacement: string)
    requires pattern != "" && pattern[0] !in text
    ensures Replace(text, pattern, replacement) == text
    decreases |text|
  {
    if |text| >= |pattern| {
      assert text[0] in text;
      NothingToReplace(text[1..], pattern, replacement);
    }
  }

  function SubstituteIter(text: string, n: nat): string {
    Replace(text, "{iter}", NatToString(n))
  }
}
