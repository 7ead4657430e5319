/** Prefix, suffix and infix tests on strings, and the lemmas that take strings apart. */
module Strings {
  import opened Options

  predicate StartsWith(s: string, prefix: string)
  {
    |prefix| <= |s| && s[..|prefix|] == prefix
  }

  predicate OccursAt(s: string, part: string, i: int)
  {
    0 <= i <= |s| - |part| && s[i..i + |part|] == part
  }

  ghost predicate Contains(s: string, part: string)
  {
    exists i :: OccursAt(s, part, i)
  }

  /** `s` without the given prefix, if it has it. */
  function DropPrefix(s: string, prefix: string): Option<string>
  {
    if StartsWith(s, prefix) then Some(s[|prefix|..]) else None
  }

  /** `s` between double quotes. */
  function Quoted(s: string): string
  {
    "\"" + s + "\""
  }

  /** The text between an opening and a closing double quote, if `s` is quoted. */
  function Unquote(s: string): Option<string>
  {
    if |s| >= 2 && s[0] == '"' && s[|s| - 1] == '"' then Some(s[1..|s| - 1]) else None
  }

  lemma DropPrefixOf(prefix: string, rest: string)
    ensures DropPrefix(prefix + rest, prefix) == Some(rest)
  {
    assert (prefix + rest)[..|prefix|] == prefix;
    assert (prefix + rest)[|prefix|..] == rest;
  }

  lemma DropPrefixSound(s: string, prefix: string)
    requires DropPrefix(s, prefix).Some?
    ensures s == prefix + DropPrefix(s, prefix).value
  {
    assert s == s[..|prefix|] + s[|prefix|..];
  }

  lemma UnquoteOf(s: string)
    ensures Unquote(Quoted(s)) == Some(s)
  {
    assert Quoted(s)[1..|Quoted(s)| - 1] == s;
  }

  lemma UnquoteSound(s: string)
    requires Unquote(s).Some?
    ensures s == Quoted(Unquote(s).value)
  {
    assert s == [s[0]] + s[1..|s| - 1] + [s[|s| - 1]];
  }

  /** Concatenation regrouped, for strings whose parts are bound to names. */
  lemma Regroup(a: string, b: string, c: string, d: string)
    ensures a + b + c + d == a + (b + c + d)
    ensures a + b + c + d == a + b + (c + d)
  {
  }

  lemma Regroup5(a: string, b: string, c: string, d: string, e: string)
    ensures a + b + c + d + e == a + (b + (c + (d + e)))
  {
  }

  predicate EndsWith(s: string, suffix: string)
  {
    |suffix| <= |s| && s[|s| - |suffix|..] == suffix
  }

  lemma EndsWithOf(front: string, suffix: string)
    ensures EndsWith(front + suffix, suffix)
  {
    assert (front + suffix)[|front|..] == suffix;
  }

  lemma OccursBetween(a: string, part: string, b: string)
    ensures OccursAt(a + part + b, part, |a|)
  {
    assert (a + part + b)[|a|..|a| + |part|] == part;
  }
}
