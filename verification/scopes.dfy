/** Scopes of an OAuth server and of its applications, the scope string
    carried by a request, and the containment check that validation runs. */
module Scopes {
  import opened Wrappers

  type Scope = string

  /** The server capability the request consults: its default scopes and its
      optional scopes. */
  datatype Server = Server(defaultScopes: seq<Scope>, optionalScopes: seq<Scope>)

  /** The scopes a server knows: its default and its optional scopes. */
  function ServerScopes(server: Server): (r: seq<Scope>)
    ensures forall s :: s in r <==> s in server.defaultScopes || s in server.optionalScopes
  {
    server.defaultScopes + server.optionalScopes
  }

  /** The separator between scopes in a scope string. */
  predicate IsSeparator(c: char) {
    c == ' '
  }

  /** A scope as it can appear in a scope string: non-empty, no separator. */
  predicate IsScopeToken(s: string) {
    |s| > 0 && forall i :: 0 <= i < |s| ==> !IsSeparator(s[i])
  }

  /** Number of leading characters of `s` that belong to the first token. */
  function TokenLength(s: string): (n: nat)
    ensures n <= |s|
    ensures forall i :: 0 <= i < n ==> !IsSeparator(s[i])
    ensures n < |s| ==> IsSeparator(s[n])
  {
    if |s| == 0 || IsSeparator(s[0]) then 0 else 1 + TokenLength(s[1..])
  }

  /** A string made only of separators (the empty string included). */
  predicate IsBlank(s: string) {
    forall i :: 0 <= i < |s| ==> IsSeparator(s[i])
  }

  /** The characters of `s` that are not separators, in their order. */
  function StripSeparators(s: string): (r: string)
    ensures forall i :: 0 <= i < |r| ==> !IsSeparator(r[i])
    ensures |r| == 0 <==> IsBlank(s)
    decreases |s|
  {
    if |s| == 0 then ""
    else if IsSeparator(s[0]) then StripSeparators(s[1..])
    else [s[0]] + StripSeparators(s[1..])
  }

  /** The strings of `xs` written one after the other. */
  function Concat(xs: seq<string>): string
    decreases |xs|
  {
    if |xs| == 0 then "" else xs[0] + Concat(xs[1..])
  }

  lemma {:induction false} StripSeparatorsAppend(a: string, b: string)
    ensures StripSeparators(a + b) == StripSeparators(a) + StripSeparators(b)
    decreases |a|
  {
    if |a| > 0 {
      assert (a + b)[0] == a[0] && (a + b)[1..] == a[1..] + b;
      StripSeparatorsAppend(a[1..], b);
    } else {
      assert a + b == b;
    }
  }

  lemma {:induction false} StripSeparatorsOfToken(x: string)
    requires forall i :: 0 <= i < |x| ==> !IsSeparator(x[i])
    ensures StripSeparators(x) == x
    decreases |x|
  {
    if |x| > 0 {
      StripSeparatorsOfToken(x[1..]);
      assert [x[0]] + x[1..] == x;
    }
  }

  /** Splits a scope string into its scopes: the maximal runs of
      non-separator characters, in order. A blank string has no scopes. */
  function Words(s: string): (r: seq<Scope>)
    ensures forall i :: 0 <= i < |r| ==> IsScopeToken(r[i])
    ensures |r| == 0 <==> IsBlank(s)
    ensures Concat(r) == StripSeparators(s)
    decreases |s|
  {
    if |s| == 0 then []
    else if IsSeparator(s[0]) then Words(s[1..])
    else
      var n := TokenLength(s);
      var rest := Words(s[n..]);
      assert s == s[..n] + s[n..];
      StripSeparatorsAppend(s[..n], s[n..]);
      StripSeparatorsOfToken(s[..n]);
      assert ([s[..n]] + rest)[1..] == rest;
      [s[..n]] + rest
  }

  /** The scope string of a list of scopes, as the grant prints them: the
      scopes joined by one space. Without the spaces it is the scopes
      written one after the other, and it is blank exactly when there are no
      scopes. */
  function ScopeString(xs: seq<Scope>): (r: string)
    ensures (forall i :: 0 <= i < |xs| ==> IsScopeToken(xs[i])) ==>
            StripSeparators(r) == Concat(xs) && (IsBlank(r) <==> |xs| == 0)
    decreases |xs|
  {
    if |xs| == 0 then ""
    else if |xs| == 1 then
      assert (forall i :: 0 <= i < |xs| ==> IsScopeToken(xs[i])) ==>
             StripSeparators(xs[0]) == Concat(xs) && !IsBlank(xs[0]) by {
        if forall i :: 0 <= i < |xs| ==> IsScopeToken(xs[i]) {
          assert IsScopeToken(xs[0]);
          assert !IsSeparator(xs[0][0]);
          StripSeparatorsOfToken(xs[0]);
          assert xs[0] + "" == xs[0];
        }
      }
      xs[0]
    else
      var rest := ScopeString(xs[1..]);
      assert (forall i :: 0 <= i < |xs| ==> IsScopeToken(xs[i])) ==>
             StripSeparators(xs[0] + " " + rest) == Concat(xs) && !IsBlank(xs[0] + " " + rest) by {
        if forall i :: 0 <= i < |xs| ==> IsScopeToken(xs[i]) {
          assert IsScopeToken(xs[0]);
          assert forall i :: 0 <= i < |xs[1..]| ==> IsScopeToken(xs[1..][i]);
          StripSeparatorsOfToken(xs[0]);
          StripSeparatorsAppend(xs[0], " " + rest);
          assert (" " + rest)[1..] == rest;
          assert (xs[0] + " " + rest) == xs[0] + (" " + rest);
          assert (xs[0] + " " + rest)[0] == xs[0][0];
        }
      }
      xs[0] + " " + rest
  }

  lemma {:induction false} TokenLengthOfToken(x: string, rest: string)
    requires IsScopeToken(x)
    requires |rest| == 0 || IsSeparator(rest[0])
    ensures TokenLength(x + rest) == |x|
    decreases |x|
  {
    if |x| == 1 {
      assert (x + rest)[1..] == rest;
    } else {
      assert (x + rest)[1..] == x[1..] + rest;
      TokenLengthOfToken(x[1..], rest);
    }
  }

  /** Parsing the scope string of well-formed scopes gives back the same
      scopes, in the same order. */
  lemma {:induction false} WordsOfScopeString(xs: seq<Scope>)
    requires forall i :: 0 <= i < |xs| ==> IsScopeToken(xs[i])
    ensures Words(ScopeString(xs)) == xs
    decreases |xs|
  {
    if |xs| == 0 {
    } else if |xs| == 1 {
      var s := xs[0];
      TokenLengthOfToken(s, "");
      assert s + "" == s;
      assert s[..|s|] == s;
      assert s[|s|..] == "";
    } else {
      var s := ScopeString(xs);
      var rest := ScopeString(xs[1..]);
      assert s == xs[0] + (" " + rest);
      TokenLengthOfToken(xs[0], " " + rest);
      assert s[..|xs[0]|] == xs[0];
      assert s[|xs[0]|..] == " " + rest;
      assert (" " + rest)[1..] == rest;
      WordsOfScopeString(xs[1..]);
      assert Words(s) == [xs[0]] + Words(" " + rest);
      assert [xs[0]] + xs[1..] == xs;
    }
  }

  /** Index of the first scope of `xs` that `allowed` does not hold, if any. */
  function FirstMissing(xs: seq<Scope>, allowed: seq<Scope>): (r: Option<nat>)
    ensures r.None? <==> forall i :: 0 <= i < |xs| ==> xs[i] in allowed
    ensures r.Some? ==> r.value < |xs| && xs[r.value] !in allowed
                        && forall j :: 0 <= j < r.value ==> xs[j] in allowed
    decreases |xs|
  {
    if |xs| == 0 then None
    else if xs[0] !in allowed then Some(0)
    else match FirstMissing(xs[1..], allowed)
      case None => None
      case Some(i) => Some(i + 1)
  }

  /** Whether every scope of `xs` is one of `allowed`. */
  function HasScopes(allowed: seq<Scope>, xs: seq<Scope>): (b: bool)
    ensures b <==> forall s :: s in xs ==> s in allowed
  {
    FirstMissing(xs, allowed).None?
  }
}
