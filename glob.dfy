/**
 * The part of Go's filepath.Match that target Name patterns use
 * (internal/checker/checker.go:223): literal characters, `*` (any run of
 * non-separator characters), `?` (one non-separator character) and `\`
 * escapes. Character classes `[...]` are outside this model: a pattern
 * containing an unescaped `[` is reported as a bad pattern.
 */
module Glob {

  const Separator: char := '/'

  /** Result of filepath.Match: whether it matched, or ErrBadPattern. */
  datatype MatchResult = Matched(ok: bool) | BadPattern

  /** The pattern is well formed: no dangling `\` at its end, no character class. */
  predicate WellFormed(p: string)
    decreases |p|
  {
    if p == [] then true
    else if p[0] == '\\' then |p| >= 2 && WellFormed(p[2..])
    else if p[0] == '[' then false
    else WellFormed(p[1..])
  }

  /** Pattern `p` matches the whole of `n`. */
  predicate Matches(p: string, n: string)
    decreases |p| + |n|
  {
    if p == [] then n == []
    else if p[0] == '*' then
      Matches(p[1..], n) || (n != [] && n[0] != Separator && Matches(p, n[1..]))
    else if p[0] == '?' then
      n != [] && n[0] != Separator && Matches(p[1..], n[1..])
    else if p[0] == '\\' && |p| >= 2 then
      n != [] && n[0] == p[1] && Matches(p[2..], n[1..])
    else
      n != [] && n[0] == p[0] && Matches(p[1..], n[1..])
  }

  /** filepath.Match(pattern, name). */
  function Match(pattern: string, name: string): (r: MatchResult)
    ensures r == BadPattern <==> !WellFormed(pattern)
    ensures r == Matched(true) ==> Matches(pattern, name)
  {
    if !WellFormed(pattern) then BadPattern else Matched(Matches(pattern, name))
  }

  /** No wildcard, escape or class character. */
  predicate Literal(p: string)
  {
    forall i | 0 <= i < |p| :: p[i] != '*' && p[i] != '?' && p[i] != '\\' && p[i] != '['
  }

  lemma LiteralTail(p: string)
    requires Literal(p) && p != []
    ensures Literal(p[1..])
  {
    forall i | 0 <= i < |p[1..]|
      ensures p[1..][i] != '*' && p[1..][i] != '?' && p[1..][i] != '\\' && p[1..][i] != '['
    {
      assert p[1..][i] == p[i + 1];
    }
  }

  /** A pattern without special characters matches exactly itself. */
  lemma {:induction false} LiteralMatchesItself(p: string, n: string)
    requires Literal(p)
    ensures Match(p, n) == Matched(n == p)
  {
    LiteralWellFormed(p);
    LiteralMatches(p, n);
  }

  lemma {:induction false} LiteralWellFormed(p: string)
    requires Literal(p)
    ensures WellFormed(p)
  {
    if p != [] {
      LiteralTail(p);
      LiteralWellFormed(p[1..]);
    }
  }

  lemma {:induction false} LiteralMatches(p: string, n: string)
    requires Literal(p)
    ensures Matches(p, n) <==> n == p
    decreases |p|
  {
    if p != [] {
      assert p[0] != '*' && p[0] != '?' && p[0] != '\\';
      LiteralTail(p);
      if n != [] {
        LiteralMatches(p[1..], n[1..]);
        if n[0] == p[0] && n[1..] == p[1..] {
          assert n == [n[0]] + n[1..] && p == [p[0]] + p[1..];
        }
      }
    }
  }

  /** A lone `*` matches exactly the names without a separator. */
  lemma {:induction false} StarMatches(n: string)
    ensures Matches("*", n) <==> Separator !in n
    decreases |n|
  {
    assert "*"[1..] == [];
    if n != [] {
      StarMatches(n[1..]);
      assert n == [n[0]] + n[1..];
    }
  }

  /** `lit*`, for a literal prefix `lit`, matches the names that start with `lit`
      and have no separator after it. */
  lemma {:induction false} PrefixStarMatches(lit: string, n: string)
    requires Literal(lit)
    ensures Matches(lit + "*", n) <==> |lit| <= |n| && n[..|lit|] == lit && Separator !in n[|lit|..]
    decreases |lit|
  {
    if lit == [] {
      assert lit + "*" == "*";
      StarMatches(n);
    } else {
      var p := lit + "*";
      assert p[0] == lit[0] && p[1..] == lit[1..] + "*";
      LiteralTail(lit);
      assert lit[0] != '*' && lit[0] != '?' && lit[0] != '\\';
      if n != [] {
        PrefixStarMatches(lit[1..], n[1..]);
        if |lit| <= |n| {
          assert n[..|lit|] == [n[0]] + n[1..][..|lit| - 1];
          assert lit == [lit[0]] + lit[1..];
          assert n[|lit|..] == n[1..][|lit| - 1..];
        }
      }
    }
  }

  /** `lit*` is always well formed, so Match never reports a bad pattern for it. */
  lemma {:induction false} PrefixStarMatch(lit: string, n: string)
    requires Literal(lit)
    ensures Match(lit + "*", n) == Matched(|lit| <= |n| && n[..|lit|] == lit && Separator !in n[|lit|..])
    decreases |lit|
  {
    PrefixStarWellFormed(lit);
    PrefixStarMatches(lit, n);
  }

  lemma {:induction false} PrefixStarWellFormed(lit: string)
    requires Literal(lit)
    ensures WellFormed(lit + "*")
    decreases |lit|
  {
    if lit == [] {
      assert lit + "*" == "*" && "*"[1..] == [];
    } else {
      assert (lit + "*")[1..] == lit[1..] + "*";
      LiteralTail(lit);
      PrefixStarWellFormed(lit[1..]);
    }
  }

  /** The Name-pattern example of the documentation: "dev-*" selects "dev-instance-01"
      and rejects "prod-instance-01". */
  lemma DevPatternExample(pattern: string, dev: string, prod: string)
    requires pattern == "dev-*" && dev == "dev-instance-01" && prod == "prod-instance-01"
    ensures Match(pattern, dev) == Matched(true)
    ensures Match(pattern, prod) == Matched(false)
  {
    var lit := "dev-";
    assert Literal(lit);
    assert lit + "*" == pattern;
    DevSelected(lit, dev);
    ProdRejected(lit, prod);
  }

  lemma DevSelected(lit: string, dev: string)
    requires lit == "dev-" && dev == "dev-instance-01"
    ensures Literal(lit) && Match(lit + "*", dev) == Matched(true)
  {
    assert Literal(lit);
    PrefixStarMatch(lit, dev);
    assert dev[..4] == lit;
    assert Separator !in dev[4..] by {
      assert dev[4..] == "instance-01";
    }
  }

  lemma ProdRejected(lit: string, prod: string)
    requires lit == "dev-" && prod == "prod-instance-01"
    ensures Literal(lit) && Match(lit + "*", prod) == Matched(false)
  {
    assert Literal(lit);
    PrefixStarMatch(lit, prod);
    assert prod[..4] != lit by { assert prod[..4][0] == 'p'; }
  }
}
