// One family of programs for which the condition of the greedy matcher is exact: two
// stars with a class between them, among literals.
module GlobIrregular {
  import opened Wrappers
  import opened GlobMatch
  import opened GlobComplete

  function Literals(s: seq<char>): (ts: seq<Token>)
    ensures |ts| == |s| && forall i :: 0 <= i < |s| ==> ts[i] == Literal(s[i])
  {
    seq(|s|, i requires 0 <= i < |s| => Literal(s[i]))
  }

  // The rest from i on matches the empty value when it has stars only.
  function Empties(tokens: seq<Token>): (zero: seq<bool>)
    ensures |zero| == |tokens| + 1
    ensures forall i :: 0 <= i < |zero| ==> zero[i] == OnlyStars(tokens, i)
  {
    seq(|tokens| + 1, i requires 0 <= i <= |tokens| => OnlyStars(tokens, i))
  }

  predicate OnlyStars(tokens: seq<Token>, i: nat)
    requires i <= |tokens|
  {
    forall j :: i <= j < |tokens| ==> tokens[j].Star?
  }

  // Literals, a star, a class, a star, literals.
  function Between(u: seq<char>, c: Token, w: seq<char>): (p: Program)
    ensures WellFormed(p)
  {
    var tokens := Literals(u) + [Star, c, Star] + Literals(w);
    Program(tokens, Empties(tokens))
  }

  lemma BetweenFacts(u: seq<char>, c: Token, w: seq<char>)
    ensures var p := Between(u, c, w);
            && |p.tokens| == |u| + 3 + |w|
            && (forall i :: 0 <= i < |u| ==> p.tokens[i] == Literal(u[i]))
            && p.tokens[|u|] == Star && p.tokens[|u| + 1] == c && p.tokens[|u| + 2] == Star
            && (forall i :: 0 <= i < |w| ==> p.tokens[|u| + 3 + i] == Literal(w[i]))
            && p.zero[|p.tokens|] && (w == [] ==> p.zero[|u| + 2])
  {
  }

  // A character besides '/' that the class takes along with it.
  predicate TakesBoth(c: Token, x: char) {
    x != '/' && Accepts(c, x) && Accepts(c, '/')
  }

  // Without one the program is regular for every value.
  lemma Unmixed(u: seq<char>, c: Token, w: seq<char>, v: seq<char>)
    requires c.Class? && forall x :: !TakesBoth(c, x)
    ensures Regular(Between(u, c, w), v)
  {
    hide Between, Accepts;
    BetweenFacts(u, c, w);
    BetweenZero(u, c, w);
    MixedTakes(c, v);
  }

  lemma MixedTakes(c: Token, v: seq<char>)
    ensures Mixed(c, v) ==> exists x :: TakesBoth(c, x)
  {
    hide Accepts;
    if Mixed(c, v) {
      var x :| x in v && x != '/' && Accepts(c, x);
      assert TakesBoth(c, x);
    }
  }

  lemma BetweenZero(u: seq<char>, c: Token, w: seq<char>)
    requires c.Class?
    ensures var p := Between(u, c, w);
            && (forall i :: 0 <= i < |p.tokens| ==> !p.tokens[i].Directories?)
            && (forall i :: 0 <= i < |p.tokens| && p.tokens[i].Class? ==> p.tokens[i] == c)
            && (forall i, j :: 0 <= i <= j <= |p.tokens| && p.zero[i] ==> p.zero[j])
  {
  }

  // With one, this value has a match, and the search does not find it.
  function Missed(u: seq<char>, x: char, w: seq<char>): (v: seq<char>)
    ensures |v| == |u| + 2 + |w| && v[|u|] == x && v[|u| + 1] == '/'
    ensures (forall i :: 0 <= i < |u| ==> v[i] == u[i]) && (forall i :: 0 <= i < |w| ==> v[|u| + 2 + i] == w[i])
  {
    u + [x, '/'] + w
  }

  // Literals match their own text, one after the other.
  lemma {:induction false} LiteralsMatch(p: Program, v: seq<char>, a: nat, b: nat, n: nat)
    requires WellFormed(p) && a <= b <= |p.tokens| && n + (b - a) <= |v|
    requires forall i :: a <= i < b ==> p.tokens[i] == Literal(v[n + (i - a)])
    requires Matches(p, b, v, n + (b - a))
    ensures Matches(p, a, v, n)
    decreases b - a
  {
    if a < b {
      LiteralsMatch(p, v, a + 1, b, n + 1);
    }
  }

  lemma MissedMatches(u: seq<char>, c: Token, w: seq<char>, x: char)
    requires c.Class? && TakesBoth(c, x)
    ensures Matches(Between(u, c, w), 0, Missed(u, x, w), 0)
  {
    hide Between, Missed, Accepts;
    BetweenFacts(u, c, w);
    var p, v, n := Between(u, c, w), Missed(u, x, w), |u|;
    if w == [] {
      assert Matches(p, n + 2, v, n + 2);
    } else {
      forall i | n + 3 <= i < n + 3 + |w|
        ensures p.tokens[i] == Literal(v[n + 2 + (i - (n + 3))])
      {
        assert p.tokens[n + 3 + (i - n - 3)] == Literal(w[i - n - 3]);
      }
      LiteralsMatch(p, v, n + 3, n + 3 + |w|, n + 2);
      assert NoSlash(v, n + 2, n + 2);
      assert Matches(p, n + 2, v, n + 2);
    }
    assert Matches(p, n + 1, v, n + 1);
    assert NoSlash(v, n, n + 1) && Matches(p, n, v, n);
    LiteralsMatch(p, v, 0, n, 0);
  }

  lemma SearchNext(p: Program, v: seq<char>, c: Config, next: Config)
    requires Sane(p, v, c) && Sane(p, v, next) && Advance(p, v, c) == Continue(next, 1)
    ensures Search(p, v, c).matched == Search(p, v, next).matched
  {
    hide Advance;
  }

  lemma SearchEnds(p: Program, v: seq<char>, c: Config)
    requires Sane(p, v, c) && Advance(p, v, c).Answer?
    ensures Search(p, v, c).matched == Advance(p, v, c).matched
  {
  }

  // The search runs through the literals, and both stars begin as early as they can.
  lemma {:induction false} SearchStarts(u: seq<char>, c: Token, w: seq<char>, x: char, k: nat)
    requires c.Class? && TakesBoth(c, x) && k <= |u|
    ensures Sane(Between(u, c, w), Missed(u, x, w), Config(k, k, None, None))
    ensures !Search(Between(u, c, w), Missed(u, x, w), Config(k, k, None, None)).matched
    decreases |u| - k
  {
    hide Between, Missed, Retry, Search;
    BetweenFacts(u, c, w);
    var p, v, n := Between(u, c, w), Missed(u, x, w), |u|;
    var at := Config(k, k, None, None);
    if k < n {
      SearchStarts(u, c, w, x, k + 1);
      SearchNext(p, v, at, Config(k + 1, k + 1, None, None));
    } else {
      SearchStuck(u, c, w, x, 0);
      var first := Config(n + 1, n, None, Some(Mark(n + 1, n)));
      var taken := Config(n + 2, n + 1, None, Some(Mark(n + 1, n)));
      var second := Config(n + 3, n + 1, None, Some(Mark(n + 3, n + 1)));
      SearchNext(p, v, taken, second);
      SearchNext(p, v, first, taken);
      SearchNext(p, v, at, first);
    }
  }

  // The second star rests on the '/', so the first mismatch ends the search.
  lemma {:induction false} SearchStuck(u: seq<char>, c: Token, w: seq<char>, x: char, k: nat)
    requires c.Class? && TakesBoth(c, x) && k <= |w|
    ensures var at := Config(|u| + 3 + k, |u| + 1 + k, None, Some(Mark(|u| + 3, |u| + 1)));
            && Sane(Between(u, c, w), Missed(u, x, w), at)
            && !Search(Between(u, c, w), Missed(u, x, w), at).matched
    decreases |w| - k
  {
    hide Between, Missed, Search;
    BetweenFacts(u, c, w);
    var p, v := Between(u, c, w), Missed(u, x, w);
    var at := Config(|u| + 3 + k, |u| + 1 + k, None, Some(Mark(|u| + 3, |u| + 1)));
    if k < |w| && w[k] == v[|u| + 1 + k] {
      SearchStuck(u, c, w, x, k + 1);
      SearchNext(p, v, at, at.(pattern := at.pattern + 1, name := at.name + 1));
    } else {
      SearchEnds(p, v, at);
    }
  }

  // For this family the search decides every value exactly when the class does not take
  // both a '/' and something else.
  lemma ExactBetween(u: seq<char>, c: Token, w: seq<char>)
    requires c.Class?
    ensures (forall v :: Search(Between(u, c, w), v, START).matched <==> Matches(Between(u, c, w), 0, v, 0))
            <==> forall x :: !TakesBoth(c, x)
  {
    hide Between, Search, Matches, Accepts, Missed;
    if x :| TakesBoth(c, x) {
      SearchStarts(u, c, w, x, 0);
      MissedMatches(u, c, w, x);
    } else {
      forall v
        ensures Search(Between(u, c, w), v, START).matched <==> Matches(Between(u, c, w), 0, v, 0)
      {
        Unmixed(u, c, w, v);
        GreedyDecides(Between(u, c, w), v);
      }
    }
  }
}
