// The glob matcher (internal/action/glob.go): what a compiled pattern means, and the
// greedy search with two levels of backtracking as a function on its configurations.
// Values are sequences of code points.
module GlobMatch {
  import opened Wrappers

  datatype Token =
    | Literal(character: char)
    | Question
    | Star          // any code points but '/'
    | Directories   // any number of whole segments, each with its '/'
    | Remainder     // everything left
    | Class(negated: bool, literals: seq<char>, ranges: seq<(char, char)>)

  // zero[i] says whether the tokens from i on match the empty rest of a value.
  datatype Program = Program(tokens: seq<Token>, zero: seq<bool>)

  predicate InRange(character: char, item: (char, char)) {
    item.0 <= character <= item.1
  }

  predicate Listed(character: char, literals: seq<char>, ranges: seq<(char, char)>) {
    character in literals || exists item :: item in ranges && InRange(character, item)
  }

  predicate Accepts(t: Token, character: char) {
    match t
    case Literal(c) => c == character
    case Question => character != '/'
    case Class(negated, literals, ranges) => Listed(character, literals, ranges) != negated
    case Star => false
    case Directories => false
    case Remainder => false
  }

  predicate Single(t: Token) {
    t.Literal? || t.Question? || t.Class?
  }

  predicate NoSlash(v: seq<char>, from: nat, to: nat)
    requires from <= to <= |v|
  {
    forall k :: from <= k < to ==> v[k] != '/'
  }

  // A later position that starts a segment.
  predicate SegmentStart(v: seq<char>, from: nat, m: nat) {
    from < m <= |v| && v[m - 1] == '/'
  }

  predicate WellFormed(p: Program) {
    |p.zero| == |p.tokens| + 1
  }

  // What a program means: the tokens from i on match the value from n on, by some
  // split of the value among them.
  ghost predicate Matches(p: Program, i: nat, v: seq<char>, n: nat)
    requires WellFormed(p) && i <= |p.tokens| && n <= |v|
    decreases |p.tokens| - i
  {
    if n == |v| then p.zero[i]
    else if i == |p.tokens| then false
    else
      match p.tokens[i]
      case Remainder => true
      case Star => exists m :: n <= m <= |v| && NoSlash(v, n, m) && Matches(p, i + 1, v, m)
      case Directories =>
        || Matches(p, i + 1, v, n)
        || exists m :: SegmentStart(v, n, m) && Matches(p, i + 1, v, m)
      case _ => Accepts(p.tokens[i], v[n]) && Matches(p, i + 1, v, n + 1)
  }

  // ------------------------------------------------------------------ the search

  // Where a backtrack resumes; None is the source's index -1.
  datatype Mark = Mark(pattern: nat, name: nat)

  datatype Config = Config(pattern: nat, name: nat, dir: Option<Mark>, star: Option<Mark>)

  const START := Config(0, 0, None, None)

  // A remembered star that no longer belongs to the current attempt rests on a '/'.
  predicate Stuck(v: seq<char>, star: Mark) {
    star.name < |v| && v[star.name] == '/'
  }

  predicate Sane(p: Program, v: seq<char>, c: Config) {
    && WellFormed(p) && c.pattern <= |p.tokens| && c.name <= |v|
    && (c.dir.Some? ==> c.dir.value.pattern <= c.pattern && c.dir.value.name <= c.name)
    && (c.star.Some? ==>
          && c.star.value.pattern <= |p.tokens|
          && (|| Stuck(v, c.star.value)
              || (&& c.star.value.pattern <= c.pattern && c.star.value.name <= c.name
                  && (c.dir.Some? ==>
                        c.dir.value.pattern <= c.star.value.pattern && c.dir.value.name <= c.star.value.name))))
  }

  // The first position after a '/' at or after n, if any.
  function AfterSlash(v: seq<char>, n: nat): (m: Option<nat>)
    requires n <= |v|
    ensures m.Some? ==> n < m.value <= |v| && v[m.value - 1] == '/' && NoSlash(v, n, m.value - 1)
    ensures m.None? ==> NoSlash(v, n, |v|)
    decreases |v| - n
  {
    if n == |v| then None
    else if v[n] == '/' then Some(n + 1)
    else AfterSlash(v, n + 1)
  }

  // One round of the search: an answer or the next configuration, with its work.
  datatype Round = Answer(matched: bool, work: nat) | Continue(next: Config, work: nat)

  function Retry(p: Program, v: seq<char>, c: Config): (r: Round)
    requires Sane(p, v, c) && c.name < |v|
  {
    if c.star.Some? && v[c.star.value.name] != '/' then
      var star := Mark(c.star.value.pattern, c.star.value.name + 1);
      Continue(c.(pattern := star.pattern, name := star.name, star := Some(star)), 1)
    else if c.dir.Some? then
      match AfterSlash(v, c.dir.value.name)
      case None => Answer(false, 1 + |v| - c.dir.value.name)
      case Some(m) =>
        var dir := Mark(c.dir.value.pattern, m);
        Continue(Config(dir.pattern, m, Some(dir), c.star), 1 + m - c.dir.value.name)
    else
      Answer(false, 1)
  }

  function Advance(p: Program, v: seq<char>, c: Config): (r: Round)
    requires Sane(p, v, c)
  {
    if c.name == |v| then Answer(p.zero[c.pattern], 1)
    else if c.pattern == |p.tokens| then Retry(p, v, c)
    else
      match p.tokens[c.pattern]
      case Remainder => Answer(true, 1)
      case Directories => Continue(Config(c.pattern + 1, c.name, Some(Mark(c.pattern + 1, c.name)), None), 1)
      case Star => Continue(c.(pattern := c.pattern + 1, star := Some(Mark(c.pattern + 1, c.name))), 1)
      case t =>
        if Accepts(t, v[c.name]) then Continue(c.(pattern := c.pattern + 1, name := c.name + 1), 1)
        else Retry(p, v, c)
  }

  // The measure that every round decreases.
  function DirPattern(p: Program, c: Config): int {
    if c.dir.None? then |p.tokens| + 1 else |p.tokens| - c.dir.value.pattern
  }

  function DirName(v: seq<char>, c: Config): int {
    if c.dir.None? then 0 else |v| - c.dir.value.name
  }

  function StarPattern(p: Program, c: Config): int {
    if c.star.None? || c.pattern < c.star.value.pattern then |p.tokens| + 1 else |p.tokens| - c.star.value.pattern
  }

  function StarName(v: seq<char>, c: Config): int {
    if c.star.None? then 0 else |v| - c.star.value.name
  }

  predicate Less(p: Program, v: seq<char>, a: Config, b: Config) {
    || DirPattern(p, a) < DirPattern(p, b)
    || (&& DirPattern(p, a) == DirPattern(p, b)
        && (|| DirName(v, a) < DirName(v, b)
            || (&& DirName(v, a) == DirName(v, b)
                && (|| StarPattern(p, a) < StarPattern(p, b)
                    || (&& StarPattern(p, a) == StarPattern(p, b)
                        && (|| StarName(v, a) < StarName(v, b)
                            || (StarName(v, a) == StarName(v, b) && |v| - a.name < |v| - b.name)))))))
  }

  lemma RetryProgress(p: Program, v: seq<char>, c: Config)
    requires Sane(p, v, c) && c.name < |v| && Retry(p, v, c).Continue?
    ensures Sane(p, v, Retry(p, v, c).next) && Less(p, v, Retry(p, v, c).next, c)
  {
  }

  // Every round keeps the configuration sane and decreases the measure, so that the
  // search ends without any budget.
  lemma RoundProgress(p: Program, v: seq<char>, c: Config)
    requires Sane(p, v, c) && Advance(p, v, c).Continue?
    ensures Sane(p, v, Advance(p, v, c).next) && Less(p, v, Advance(p, v, c).next, c)
  {
    hide Retry, Accepts, WellFormed;
    if c.name < |v| && Advance(p, v, c) == Retry(p, v, c) {
      RetryProgress(p, v, c);
    }
  }

  // The whole search from a configuration: its answer and the work it takes.
  datatype Outcome = Outcome(matched: bool, work: nat)

  function Search(p: Program, v: seq<char>, c: Config): Outcome
    requires Sane(p, v, c)
    decreases DirPattern(p, c), DirName(v, c), StarPattern(p, c), StarName(v, c), |v| - c.name
  {
    match Advance(p, v, c)
    case Answer(matched, work) => Outcome(matched, work)
    case Continue(next, work) =>
      RoundProgress(p, v, c);
      var rest := Search(p, v, next);
      Outcome(rest.matched, work + rest.work)
  }

  // -------------------------------------------------- what is still to be tried

  ghost predicate StarAlternative(p: Program, v: seq<char>, c: Config)
    requires Sane(p, v, c)
  {
    c.star.Some? &&
    exists m ::
      c.star.value.name < m <= |v| && NoSlash(v, c.star.value.name, m) && Matches(p, c.star.value.pattern, v, m)
  }

  ghost predicate DirAlternative(p: Program, v: seq<char>, c: Config)
    requires Sane(p, v, c)
  {
    c.dir.Some? &&
    exists m :: SegmentStart(v, c.dir.value.name, m) && Matches(p, c.dir.value.pattern, v, m)
  }

  // The present attempt or one of the remembered ones matches.
  ghost predicate Alive(p: Program, v: seq<char>, c: Config)
    requires Sane(p, v, c)
  {
    Matches(p, c.pattern, v, c.name) || StarAlternative(p, v, c) || DirAlternative(p, v, c)
  }

  lemma RetrySound(p: Program, v: seq<char>, c: Config)
    requires Sane(p, v, c) && c.name < |v| && Retry(p, v, c).Continue?
    requires Sane(p, v, Retry(p, v, c).next) && Alive(p, v, Retry(p, v, c).next)
    ensures Alive(p, v, c)
  {
    hide Matches;
    var next := Retry(p, v, c).next;
    if c.star.Some? && v[c.star.value.name] != '/' {
      var s := c.star.value;
      if Matches(p, next.pattern, v, next.name) {
        assert NoSlash(v, s.name, s.name + 1);
      } else if StarAlternative(p, v, next) {
        var m :| s.name + 1 < m <= |v| && NoSlash(v, s.name + 1, m) && Matches(p, s.pattern, v, m);
        assert NoSlash(v, s.name, m);
      }
    } else {
      var d := c.dir.value;
      if Matches(p, next.pattern, v, next.name) {
        assert SegmentStart(v, d.name, next.name);
      } else if DirAlternative(p, v, next) {
        var m :| SegmentStart(v, next.name, m) && Matches(p, d.pattern, v, m);
        assert SegmentStart(v, d.name, m);
      }
    }
  }

  lemma RoundSound(p: Program, v: seq<char>, c: Config)
    requires Sane(p, v, c) && Advance(p, v, c).Continue?
    requires Sane(p, v, Advance(p, v, c).next) && Alive(p, v, Advance(p, v, c).next)
    ensures Alive(p, v, c)
  {
    hide Retry, Accepts, WellFormed;
    if Advance(p, v, c) == Retry(p, v, c) {
      RetrySound(p, v, c);
    } else {
      ForwardSound(p, v, c, Advance(p, v, c).next);
    }
  }

  lemma ForwardSound(p: Program, v: seq<char>, c: Config, next: Config)
    requires Sane(p, v, c) && c.name < |v| && c.pattern < |p.tokens| && Advance(p, v, c) == Continue(next, 1)
    requires Advance(p, v, c) != Retry(p, v, c)
    requires Sane(p, v, next) && Alive(p, v, next)
    ensures Alive(p, v, c)
  {
    hide Retry, Accepts, WellFormed;
    var t := p.tokens[c.pattern];
    if t.Star? {
      assert NoSlash(v, c.name, c.name);
    } else if t.Directories? {
      assert next.star.None?;
    } else {
      assert next.star == c.star && next.dir == c.dir;
    }
  }

  // A positive answer is always right: some split of the value matches.
  lemma {:induction false} SearchSound(p: Program, v: seq<char>, c: Config)
    requires Sane(p, v, c) && Search(p, v, c).matched
    ensures Alive(p, v, c)
    decreases DirPattern(p, c), DirName(v, c), StarPattern(p, c), StarName(v, c), |v| - c.name
  {
    hide Advance, Alive;
    match Advance(p, v, c)
    case Answer(_, _) => AnswerSound(p, v, c);
    case Continue(next, _) =>
      RoundProgress(p, v, c);
      SearchSound(p, v, next);
      RoundSound(p, v, c);
  }

  lemma AnswerSound(p: Program, v: seq<char>, c: Config)
    requires Sane(p, v, c) && Advance(p, v, c).Answer? && Advance(p, v, c).matched
    ensures Alive(p, v, c)
  {
  }
}
