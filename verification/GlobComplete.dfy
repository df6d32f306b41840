// When the greedy matcher finds every match: no class takes both a '/' and something
// else of the value, every Directories token starts a segment, and the rest that matches
// the empty value has none.
module GlobComplete {
  import opened Wrappers
  import opened GlobMatch

  // Some token before i lets the search try more than one split.
  predicate AfterBranch(tokens: seq<Token>, i: nat)
    requires i <= |tokens|
  {
    exists b :: 0 <= b < i && (tokens[b].Star? || tokens[b].Directories?)
  }

  // A token that takes a '/' of the value.
  predicate SlashToken(t: Token, v: seq<char>) {
    '/' in v && Accepts(t, '/')
  }

  // It takes something else of the value too.
  predicate Mixed(t: Token, v: seq<char>) {
    SlashToken(t, v) && exists c :: c in v && c != '/' && Accepts(t, c)
  }

  // No class after a branching token is mixed.
  predicate UnmixedClasses(tokens: seq<Token>, v: seq<char>) {
    forall i :: 0 <= i < |tokens| && tokens[i].Class? && AfterBranch(tokens, i) ==> !Mixed(tokens[i], v)
  }

  // A Directories token is first, or follows a '/' or another one.
  predicate Aligned(tokens: seq<Token>) {
    forall i :: 0 < i < |tokens| && tokens[i].Directories? ==>
      tokens[i - 1] == Literal('/') || tokens[i - 1].Directories?
  }

  // What the table of empty rests must satisfy after a branching token: a rest of a
  // rest that matches the empty value matches it too, and has no Directories token.
  predicate ZeroClosed(p: Program)
    requires WellFormed(p)
  {
    && (forall i, j :: 0 <= i <= j <= |p.tokens| && p.zero[i] && AfterBranch(p.tokens, i) ==> p.zero[j])
    && (forall i, j :: 0 <= i <= j < |p.tokens| && p.zero[i] && AfterBranch(p.tokens, i) ==> !p.tokens[j].Directories?)
  }

  predicate Regular(p: Program, v: seq<char>) {
    WellFormed(p) && UnmixedClasses(p.tokens, v) && Aligned(p.tokens) && ZeroClosed(p)
  }

  function Slashes(v: seq<char>, from: nat, to: nat): (k: nat)
    requires from <= to <= |v|
    ensures k == 0 <==> NoSlash(v, from, to)
  {
    if from == to then 0 else Slashes(v, from, to - 1) + if v[to - 1] == '/' then 1 else 0
  }

  // The slashes of the value that the tokens from a to b consume.
  function SlashTokens(tokens: seq<Token>, v: seq<char>, a: nat, b: nat): nat
    requires a <= b <= |tokens|
  {
    if a == b then 0 else SlashTokens(tokens, v, a, b - 1) + if SlashToken(tokens[b - 1], v) then 1 else 0
  }

  lemma {:induction false} SlashesSplit(v: seq<char>, a: nat, b: nat, c: nat)
    requires a <= b <= c <= |v|
    ensures Slashes(v, a, c) == Slashes(v, a, b) + Slashes(v, b, c)
    decreases c
  {
    if b < c {
      SlashesSplit(v, a, b, c - 1);
    }
  }

  lemma {:induction false} SlashTokensSplit(tokens: seq<Token>, v: seq<char>, a: nat, b: nat, c: nat)
    requires a <= b <= c <= |tokens|
    ensures SlashTokens(tokens, v, a, c) == SlashTokens(tokens, v, a, b) + SlashTokens(tokens, v, b, c)
    decreases c
  {
    if b < c {
      SlashTokensSplit(tokens, v, a, b, c - 1);
    }
  }

  // The tokens from a to b are neither Directories nor Remainder.
  predicate Plain(tokens: seq<Token>, a: nat, b: nat)
    requires a <= b <= |tokens|
  {
    forall i :: a <= i < b ==> Single(tokens[i]) || tokens[i].Star?
  }

  lemma BranchesStay(tokens: seq<Token>, i: nat, j: nat)
    requires i <= j <= |tokens| && AfterBranch(tokens, i)
    ensures AfterBranch(tokens, j)
  {
  }

  // A match through plain tokens stops before token b only at the end of the value,
  // and consumes exactly the slashes its tokens spell out.
  lemma {:induction false} Parse(p: Program, v: seq<char>, a: nat, b: nat, n: nat) returns (i: nat, m: nat)
    requires WellFormed(p) && UnmixedClasses(p.tokens, v)
    requires a <= b <= |p.tokens| && n <= |v| && AfterBranch(p.tokens, a)
    requires Plain(p.tokens, a, b) && Matches(p, a, v, n)
    ensures a <= i <= b && n <= m <= |v| && (i < b ==> m == |v|)
    ensures Matches(p, i, v, m) && (i == a ==> m == n)
    ensures Slashes(v, n, m) == SlashTokens(p.tokens, v, a, i)
    ensures a < i && p.tokens[i - 1] == Literal('/') ==> n < m && v[m - 1] == '/'
    decreases b - a
  {
    if a == b || n == |v| {
      return a, n;
    }
    BranchesStay(p.tokens, a, a + 1);
    var k := n + 1;
    if p.tokens[a].Star? {
      k :| n <= k <= |v| && NoSlash(v, n, k) && Matches(p, a + 1, v, k);
    }
    i, m := Parse(p, v, a + 1, b, k);
    SlashesSplit(v, n, k, m);
    SlashTokensSplit(p.tokens, v, a, a + 1, i);
    assert Slashes(v, n, n) == 0 && SlashTokens(p.tokens, v, a, a) == 0;
  }

  // Single tokens consume one code point each.
  lemma {:induction false} ParseSingles(p: Program, v: seq<char>, a: nat, b: nat, n: nat) returns (i: nat)
    requires WellFormed(p) && a <= b <= |p.tokens| && n <= |v|
    requires (forall j :: a <= j < b ==> Single(p.tokens[j])) && Matches(p, a, v, n)
    ensures a <= i <= b && n + (i - a) <= |v| && (i < b ==> n + (i - a) == |v|)
    ensures Matches(p, i, v, n + (i - a))
    ensures AllAccept(p, v, a, i, n)
    decreases b - a
  {
    if a == b || n == |v| {
      return a;
    }
    i := ParseSingles(p, v, a + 1, b, n + 1);
    forall j | a <= j < i
      ensures Accepts(p.tokens[j], v[n + (j - a)])
    {
      if a < j {
        assert Accepts(p.tokens[j], v[n + 1 + (j - (a + 1))]);
      }
    }
  }

  // The tokens from a to i accept the code points from n on, one each.
  predicate AllAccept(p: Program, v: seq<char>, a: nat, i: nat, n: nat)
    requires a <= i <= |p.tokens| && n + (i - a) <= |v|
  {
    forall j :: a <= j < i ==> Accepts(p.tokens[j], v[n + (j - a)])
  }

  // If the same tokens accept the text at n and at n + k, and no slash lies between,
  // then no slash lies in either stretch.
  lemma {:induction false} ShiftedSlashFree(p: Program, v: seq<char>, a: nat, b: nat, i: nat, n: nat, k: nat)
    requires WellFormed(p) && UnmixedClasses(p.tokens, v)
    requires a <= i <= b <= |p.tokens| && AfterBranch(p.tokens, a)
    requires 0 < k && n + k + (i - a) <= |v| && n + (b - a) <= |v|
    requires AllAccept(p, v, a, b, n) && AllAccept(p, v, a, i, n + k)
    requires NoSlash(v, n, n + k)
    ensures NoSlash(v, n, n + k + (i - a))
    decreases i - a
  {
    if a < i {
      ShiftedSlashFree(p, v, a, b, i - 1, n, k);
      assert Accepts(p.tokens[i - 1], v[n + (i - 1 - a)]);
      assert Accepts(p.tokens[i - 1], v[n + k + (i - 1 - a)]);
    }
  }

  // ------------------------------------------------------- what the search keeps

  // The remembered star belongs to the present attempt: since then only single
  // tokens were matched, one code point each.
  predicate Fresh(p: Program, v: seq<char>, c: Config)
    requires Sane(p, v, c) && c.star.Some?
  {
    var s := c.star.value;
    && s.pattern <= c.pattern && c.name == s.name + (c.pattern - s.pattern)
    && 0 < s.pattern && p.tokens[s.pattern - 1].Star?
    && (forall j :: s.pattern <= j < c.pattern ==> Single(p.tokens[j]))
    && AllAccept(p, v, s.pattern, c.pattern, s.name)
    && (c.dir.Some? ==>
          && c.dir.value.pattern <= s.pattern && c.dir.value.name <= s.name
          && Plain(p.tokens, c.dir.value.pattern, s.pattern)
          && Slashes(v, c.dir.value.name, s.name) == SlashTokens(p.tokens, v, c.dir.value.pattern, s.pattern))
  }

  // The remembered Directories token was followed by plain tokens only, which
  // consumed exactly the slashes they spell out.
  predicate Level(p: Program, v: seq<char>, c: Config)
    requires Sane(p, v, c) && c.dir.Some?
  {
    var d := c.dir.value;
    && 0 < d.pattern && p.tokens[d.pattern - 1].Directories?
    && Plain(p.tokens, d.pattern, c.pattern)
    && Slashes(v, d.name, c.name) == SlashTokens(p.tokens, v, d.pattern, c.pattern)
  }

  predicate Tracked(p: Program, v: seq<char>, c: Config)
    requires Sane(p, v, c)
  {
    && (c.star.Some? ==> Stuck(v, c.star.value) || Fresh(p, v, c))
    && (c.dir.Some? ==> Level(p, v, c))
  }

  lemma RetryTracked(p: Program, v: seq<char>, c: Config)
    requires Sane(p, v, c) && Tracked(p, v, c) && c.name < |v| && Retry(p, v, c).Continue?
    requires Sane(p, v, Retry(p, v, c).next)
    ensures Tracked(p, v, Retry(p, v, c).next)
  {
  }

  lemma ForwardTracked(p: Program, v: seq<char>, c: Config)
    requires Sane(p, v, c) && Tracked(p, v, c) && UnmixedClasses(p.tokens, v)
    requires c.name < |v| && c.pattern < |p.tokens|
    requires Advance(p, v, c) != Retry(p, v, c) && Advance(p, v, c).Continue? && Sane(p, v, Advance(p, v, c).next)
    ensures Tracked(p, v, Advance(p, v, c).next)
  {
    hide Retry, Listed;
  }

  // ---------------------------------------------- what a forgotten attempt could do

  lemma SlashesGrow(v: seq<char>, a: nat, b: nat, c: nat)
    requires a <= b <= c <= |v|
    ensures Slashes(v, a, b) <= Slashes(v, a, c)
  {
    SlashesSplit(v, a, b, c);
  }

  lemma StuckHasNone(p: Program, v: seq<char>, c: Config)
    requires Sane(p, v, c) && c.star.Some? && Stuck(v, c.star.value)
    ensures !StarAlternative(p, v, c)
  {
  }

  // How a later start of the star runs through the tokens matched since.
  lemma StarRun(p: Program, v: seq<char>, c: Config) returns (i: nat, m: nat)
    requires Regular(p, v) && Sane(p, v, c) && c.star.Some? && Fresh(p, v, c) && StarAlternative(p, v, c)
    ensures c.star.value.pattern <= i <= c.pattern && c.star.value.name < m <= |v|
    ensures Matches(p, i, v, m) && NoSlash(v, c.star.value.name, m)
    ensures i == c.pattern ==> c.name < m && (c.star.value.pattern < i ==> Accepts(p.tokens[i - 1], v[m - 1]))
    ensures i < c.pattern ==> m == |v| && p.zero[i]
    ensures AfterBranch(p.tokens, i)
  {
    hide ZeroClosed, Aligned;
    var s := c.star.value;
    var start :| s.name < start <= |v| && NoSlash(v, s.name, start) && Matches(p, s.pattern, v, start);
    i := ParseSingles(p, v, s.pattern, c.pattern, start);
    m := start + (i - s.pattern);
    ShiftedSlashFree(p, v, s.pattern, c.pattern, i, s.name, start - s.name);
    if s.pattern < i {
      assert Accepts(p.tokens[i - 1], v[start + (i - 1 - s.pattern)]);
    }
  }

  // A new star makes the old one superfluous.
  lemma StarReplacesStar(p: Program, v: seq<char>, c: Config) returns (m: nat)
    requires Regular(p, v) && Sane(p, v, c) && c.star.Some? && Fresh(p, v, c) && StarAlternative(p, v, c)
    requires c.name < |v| && c.pattern < |p.tokens| && p.tokens[c.pattern].Star?
    ensures c.name <= m <= |v| && NoSlash(v, c.name, m) && Matches(p, c.pattern + 1, v, m)
  {
    hide Fresh, StarAlternative, Aligned, UnmixedClasses;
    var i, stop := StarRun(p, v, c);
    m := |v|;
    if i == c.pattern && stop < |v| {
      m :| stop <= m <= |v| && NoSlash(v, stop, m) && Matches(p, i + 1, v, m);
    }
    FreshOrder(p, v, c);
  }

  lemma FreshOrder(p: Program, v: seq<char>, c: Config)
    requires Sane(p, v, c) && c.star.Some? && Fresh(p, v, c)
    ensures c.star.value.name <= c.name && 0 < c.star.value.pattern <= c.pattern
    ensures p.tokens[c.star.value.pattern - 1].Star?
    ensures forall j :: c.star.value.pattern <= j < c.pattern ==> Single(p.tokens[j])
  {
  }

  // A Directories token after a star makes the star superfluous: nothing it could
  // still do reaches that token.
  lemma DirectoriesEndStar(p: Program, v: seq<char>, c: Config)
    requires Regular(p, v) && Sane(p, v, c) && c.star.Some? && Fresh(p, v, c)
    requires c.pattern < |p.tokens| && p.tokens[c.pattern].Directories?
    ensures !StarAlternative(p, v, c)
  {
    hide Fresh, StarAlternative, Matches, UnmixedClasses;
    if StarAlternative(p, v, c) {
      var i, m := StarRun(p, v, c);
      FreshOrder(p, v, c);
      assert false;
    }
  }

  // How a later segment start runs through the tokens matched since: past the place
  // the present attempt has reached, because it has one more '/' behind it.
  lemma DirRun(p: Program, v: seq<char>, c: Config) returns (i: nat, m: nat)
    requires Regular(p, v) && Sane(p, v, c) && c.dir.Some? && Level(p, v, c) && DirAlternative(p, v, c)
    ensures c.dir.value.pattern <= i <= c.pattern && m <= |v| && Matches(p, i, v, m)
    ensures i == c.pattern ==> c.name < m
    ensures i == c.pattern && (i == c.dir.value.pattern || p.tokens[i - 1] == Literal('/')) ==> v[m - 1] == '/'
    ensures i < c.pattern ==> m == |v| && p.zero[i]
    ensures AfterBranch(p.tokens, i)
  {
    hide ZeroClosed, Aligned;
    var d := c.dir.value;
    var start :| SegmentStart(v, d.name, start) && Matches(p, d.pattern, v, start);
    i, m := Parse(p, v, d.pattern, c.pattern, start);
    assert 0 < Slashes(v, d.name, start);
    SlashesSplit(v, d.name, start, m);
    if i == c.pattern && m <= c.name {
      SlashesGrow(v, d.name, m, c.name);
    }
  }

  // A new Directories token makes the old one superfluous.
  lemma DirectoriesReplaceDirectories(p: Program, v: seq<char>, c: Config) returns (m: nat)
    requires Regular(p, v) && Sane(p, v, c) && c.dir.Some? && Level(p, v, c) && DirAlternative(p, v, c)
    requires c.pattern < |p.tokens| && p.tokens[c.pattern].Directories?
    ensures SegmentStart(v, c.name, m) && Matches(p, c.pattern + 1, v, m)
  {
    hide DirAlternative, UnmixedClasses;
    var i, stop := DirRun(p, v, c);
    if c.dir.value.pattern < i {
      assert !p.tokens[i - 1].Directories?;
    }
    if Matches(p, i + 1, v, stop) {
      m := stop;
    } else {
      m :| SegmentStart(v, stop, m) && Matches(p, i + 1, v, m);
    }
  }

  // At the end of the value the remembered attempts know no more than the table.
  lemma EndDecides(p: Program, v: seq<char>, c: Config)
    requires Regular(p, v) && Sane(p, v, c) && Tracked(p, v, c) && c.name == |v| && Alive(p, v, c)
    ensures p.zero[c.pattern]
  {
    hide Fresh, Level, StarAlternative, DirAlternative, Aligned, UnmixedClasses;
    if StarAlternative(p, v, c) {
      StarIsSome(p, v, c);
      if Stuck(v, c.star.value) {
        StuckHasNone(p, v, c);
      } else {
        var i, m := StarRun(p, v, c);
      }
    } else if DirAlternative(p, v, c) {
      DirIsSome(p, v, c);
      var i, m := DirRun(p, v, c);
    }
  }

  lemma StarIsSome(p: Program, v: seq<char>, c: Config)
    requires Sane(p, v, c) && StarAlternative(p, v, c)
    ensures c.star.Some?
  {
  }

  lemma DirIsSome(p: Program, v: seq<char>, c: Config)
    requires Sane(p, v, c) && DirAlternative(p, v, c)
    ensures c.dir.Some?
  {
  }

  // A failed attempt goes on with the next alternative, if there is one.
  lemma RetryComplete(p: Program, v: seq<char>, c: Config)
    requires Sane(p, v, c) && c.name < |v|
    requires StarAlternative(p, v, c) || DirAlternative(p, v, c)
    ensures Retry(p, v, c).Continue?
    ensures Sane(p, v, Retry(p, v, c).next) ==> Alive(p, v, Retry(p, v, c).next)
  {
    hide Matches;
    if c.star.Some? && v[c.star.value.name] != '/' {
      if StarAlternative(p, v, c) {
        var m :| c.star.value.name < m <= |v| && NoSlash(v, c.star.value.name, m)
                 && Matches(p, c.star.value.pattern, v, m);
        assert NoSlash(v, c.star.value.name + 1, m);
      }
    } else {
      assert DirAlternative(p, v, c);
      var m :| SegmentStart(v, c.dir.value.name, m) && Matches(p, c.dir.value.pattern, v, m);
      var first := AfterSlash(v, c.dir.value.name);
      assert first.Some? && first.value <= m;
      assert first.value < m ==> SegmentStart(v, first.value, m);
    }
  }

  lemma StarComplete(p: Program, v: seq<char>, c: Config, next: Config)
    requires Regular(p, v) && Sane(p, v, c) && Tracked(p, v, c) && Alive(p, v, c)
    requires c.name < |v| && c.pattern < |p.tokens| && p.tokens[c.pattern].Star?
    requires Advance(p, v, c) == Continue(next, 1) && Sane(p, v, next)
    ensures Alive(p, v, next)
  {
    hide Fresh, Level, Retry, Aligned, UnmixedClasses, ZeroClosed;
    var m := c.name;
    if Matches(p, c.pattern, v, c.name) {
      m :| c.name <= m <= |v| && NoSlash(v, c.name, m) && Matches(p, c.pattern + 1, v, m);
    } else if StarAlternative(p, v, c) {
      if Stuck(v, c.star.value) {
        StuckHasNone(p, v, c);
      } else {
        m := StarReplacesStar(p, v, c);
      }
    }
  }

  lemma DirectoriesComplete(p: Program, v: seq<char>, c: Config, next: Config)
    requires Regular(p, v) && Sane(p, v, c) && Tracked(p, v, c) && Alive(p, v, c)
    requires c.name < |v| && c.pattern < |p.tokens| && p.tokens[c.pattern].Directories?
    requires Advance(p, v, c) == Continue(next, 1) && Sane(p, v, next)
    ensures Alive(p, v, next)
  {
    hide Fresh, Level, Retry, Aligned, UnmixedClasses, ZeroClosed;
    if StarAlternative(p, v, c) {
      if Stuck(v, c.star.value) {
        StuckHasNone(p, v, c);
      } else {
        DirectoriesEndStar(p, v, c);
      }
    }
    if DirAlternative(p, v, c) {
      var m := DirectoriesReplaceDirectories(p, v, c);
    }
  }

  lemma RoundComplete(p: Program, v: seq<char>, c: Config)
    requires Regular(p, v) && Sane(p, v, c) && Tracked(p, v, c) && Alive(p, v, c)
    ensures Advance(p, v, c).Answer? ==> Advance(p, v, c).matched
    ensures Advance(p, v, c).Continue? && Sane(p, v, Advance(p, v, c).next) ==> Alive(p, v, Advance(p, v, c).next)
  {
    hide Tracked, Regular, Retry, Accepts, StarAlternative, DirAlternative;
    if c.name == |v| {
      EndDecides(p, v, c);
    } else if c.pattern == |p.tokens| {
      RetryComplete(p, v, c);
    } else {
      match p.tokens[c.pattern]
      case Remainder =>
      case Star =>
        if Sane(p, v, Advance(p, v, c).next) { StarComplete(p, v, c, Advance(p, v, c).next); }
      case Directories =>
        if Sane(p, v, Advance(p, v, c).next) { DirectoriesComplete(p, v, c, Advance(p, v, c).next); }
      case t =>
        if Accepts(t, v[c.name]) {
          SingleComplete(p, v, c);
        } else {
          RetryComplete(p, v, c);
        }
    }
  }

  lemma SingleComplete(p: Program, v: seq<char>, c: Config)
    requires Sane(p, v, c) && Alive(p, v, c) && c.name < |v| && c.pattern < |p.tokens|
    requires Single(p.tokens[c.pattern]) && Accepts(p.tokens[c.pattern], v[c.name])
    ensures var next := c.(pattern := c.pattern + 1, name := c.name + 1);
            Sane(p, v, next) ==> Alive(p, v, next)
  {
    hide Accepts;
  }

  lemma {:induction false} SearchComplete(p: Program, v: seq<char>, c: Config)
    requires Regular(p, v) && Sane(p, v, c) && Tracked(p, v, c) && Alive(p, v, c)
    ensures Search(p, v, c).matched
    decreases DirPattern(p, c), DirName(v, c), StarPattern(p, c), StarName(v, c), |v| - c.name
  {
    hide Advance, Alive, Tracked, Regular;
    RoundComplete(p, v, c);
    if Advance(p, v, c).Continue? {
      RoundProgress(p, v, c);
      RoundTracked(p, v, c);
      SearchComplete(p, v, Advance(p, v, c).next);
    }
  }

  lemma RoundTracked(p: Program, v: seq<char>, c: Config)
    requires Regular(p, v) && Sane(p, v, c) && Tracked(p, v, c) && Advance(p, v, c).Continue?
    requires Sane(p, v, Advance(p, v, c).next)
    ensures Tracked(p, v, Advance(p, v, c).next)
  {
    hide Tracked, Retry, Accepts, Aligned, UnmixedClasses, ZeroClosed;
    if Advance(p, v, c) == Retry(p, v, c) {
      RetryTracked(p, v, c);
    } else {
      ForwardTracked(p, v, c);
    }
  }

  // The greedy search answers exactly whether some split of the value matches.
  lemma GreedyDecides(p: Program, v: seq<char>)
    requires Regular(p, v)
    ensures Search(p, v, START).matched <==> Matches(p, 0, v, 0)
  {
    assert Sane(p, v, START);
    hide Search, Matches, Regular;
    assert Alive(p, v, START) <==> Matches(p, 0, v, 0);
    if Search(p, v, START).matched {
      SearchSound(p, v, START);
    }
    if Matches(p, 0, v, 0) {
      SearchComplete(p, v, START);
    }
  }
}
