// The matcher's loop under its work budget, the loop over the brace-expanded
// programs, and the budget itself (internal/action/glob.go).
module GlobRun {
  import opened Wrappers
  import opened GlobMatch
  import opened GlobComplete

  const POLL_INTERVAL := 64

  datatype Reason = DeadlineExceeded | Cancelled

  // What a control answers when it is asked for the n-th time: a reason to stop, or none.
  type Control = nat -> Option<Reason>

  // The units that a counter still yields: all that remain, or those before a poll that
  // gives a reason to stop.
  function Units(control: Option<Control>, remaining: nat, untilPoll: nat, polls: nat): (units: nat)
    ensures units <= remaining
    ensures control.None? ==> units == remaining
    decreases remaining
  {
    if remaining == 0 then 0
    else if control.None? || 0 < untilPoll then
      1 + Units(control, remaining - 1, if untilPoll == 0 then 0 else untilPoll - 1, polls)
    else if control.value(polls).Some? then 0
    else 1 + Units(control, remaining - 1, POLL_INTERVAL - 1, polls + 1)
  }

  ghost predicate Gives(control: Option<Control>, reason: Option<Reason>) {
    control.Some? && reason.Some? && exists n: nat :: control.value(n) == reason
  }

  // The work budget of one match (globMatchWork), with its control.
  class MatchWork {
    const control: Option<Control>
    var remaining: nat
    var untilPoll: nat
    var polls: nat              // how often the control was asked
    var stopped: Option<Reason>

    constructor (limit: nat, control: Option<Control>)
      ensures remaining == limit && this.control == control && stopped.None? && untilPoll == 0 && polls == 0
    {
      remaining, this.control, stopped, untilPoll, polls := limit, control, None, 0, 0;
    }

    function Left(): nat
      reads this
    {
      Units(control, remaining, untilPoll, polls)
    }

    // The counter has yielded some units.
    ghost predicate Spent(left: nat, before: nat, units: int)
      reads this
    {
      stopped.None? && Left() + units == left && remaining + units == before
    }

    // It cannot yield so many: too few remained, or the control stopped it.
    ghost predicate Failed(before: nat, units: int)
      reads this
    {
      if stopped.None? then before < units else Gives(control, stopped)
    }

    // Asks the control.
    method StopReason() returns (reason: Option<Reason>)
      modifies this`polls
      ensures control.None? ==> reason.None? && polls == old(polls)
      ensures control.Some? ==> reason == control.value(old(polls)) && polls == old(polls) + 1
      ensures reason.Some? ==> Gives(control, reason)
    {
      if control.None? {
        return None;
      }
      reason := control.value(polls);
      polls := polls + 1;
    }

    // One unit, unless none remains or the control is due and gives a reason to stop.
    method Take() returns (ok: bool)
      requires stopped.None?
      modifies this
      ensures ok <==> 0 < old(Left())
      ensures ok ==> Left() == old(Left()) - 1 && remaining == old(remaining) - 1 && stopped.None?
      ensures !ok ==> remaining == old(remaining) && (stopped.None? <==> remaining == 0)
      ensures stopped.Some? ==> Gives(control, stopped)
    {
      if remaining == 0 {
        return false;
      }
      if control.Some? && untilPoll == 0 {
        var reason := StopReason();
        if reason.Some? {
          stopped := reason;
          return false;
        }
        untilPoll := POLL_INTERVAL;
      }
      if 0 < untilPoll {
        untilPoll := untilPoll - 1;
      }
      remaining := remaining - 1;
      return true;
    }
  }

  lemma WorkPositive(p: Program, v: seq<char>, c: Config)
    requires Sane(p, v, c)
    ensures 1 <= Search(p, v, c).work
    ensures Advance(p, v, c).work <= Search(p, v, c).work
  {
  }

  // The search from c is what remains of the search from the start.
  ghost predicate Remaining(p: Program, v: seq<char>, c: Config, spent: nat) {
    && WellFormed(p) && Sane(p, v, c)
    && Search(p, v, START).matched == Search(p, v, c).matched
    && Search(p, v, START).work == spent + Search(p, v, c).work
  }

  lemma FirstRound(p: Program, v: seq<char>)
    requires WellFormed(p)
    ensures Sane(p, v, START) && Remaining(p, v, START, 0)
  {
  }

  lemma NextRound(p: Program, v: seq<char>, c: Config, spent: nat)
    requires Remaining(p, v, c, spent) && Advance(p, v, c).Continue?
    ensures var r := Advance(p, v, c);
            && Sane(p, v, r.next) && r.next.name <= |v| && r.next.pattern <= |p.tokens|
            && Remaining(p, v, r.next, spent + r.work)
            && Less(p, v, r.next, c)
  {
    RoundProgress(p, v, c);
  }

  lemma LastRound(p: Program, v: seq<char>, c: Config, spent: nat)
    requires Remaining(p, v, c, spent) && Advance(p, v, c).Answer?
    ensures Search(p, v, START) == Outcome(Advance(p, v, c).matched, spent + Advance(p, v, c).work)
  {
  }

  lemma RoundCost(p: Program, v: seq<char>, c: Config, spent: nat)
    requires Remaining(p, v, c, spent)
    ensures spent + Advance(p, v, c).work <= Search(p, v, START).work && 1 <= Advance(p, v, c).work
    ensures 0 <= DirPattern(p, c) && 0 <= DirName(v, c) && 0 <= StarPattern(p, c) && 0 <= StarName(v, c)
  {
    WorkPositive(p, v, c);
  }

  // The scan for the next '/' when the Directories token backtracks: one unit of
  // work for each code point.
  method SkipSegment(v: seq<char>, from: nat, work: MatchWork) returns (next: Option<nat>, complete: bool)
    requires from <= |v| && work.stopped.None?
    modifies work
    ensures var cost := if AfterSlash(v, from).None? then |v| - from else AfterSlash(v, from).value - from;
            && (complete <==> cost <= old(work.Left()))
            && (complete ==> next == AfterSlash(v, from) && work.Spent(old(work.Left()), old(work.remaining), cost))
            && (!complete ==> work.Failed(old(work.remaining), cost))
  {
    var nameIndex := from;
    while nameIndex < |v|
      invariant from <= nameIndex <= |v|
      invariant AfterSlash(v, nameIndex) == AfterSlash(v, from)
      invariant work.Spent(old(work.Left()), old(work.remaining), nameIndex - from)
    {
      var taken := work.Take();
      if !taken {
        return None, false;
      }
      nameIndex := nameIndex + 1;
      if v[nameIndex - 1] == '/' {
        return Some(nameIndex), true;
      }
    }
    return None, true;
  }

  // What follows a failed attempt: the remembered star takes one more code point, or
  // else the Directories token takes one more segment, or nothing is left to try.
  method Backtrack(ghost p: Program, v: seq<char>, ghost c: Config, directory: Option<Mark>, star: Option<Mark>,
                   work: MatchWork)
    returns (next: Option<Config>, complete: bool)
    requires Sane(p, v, c) && c.name < |v| && c.dir == directory && c.star == star && work.stopped.None?
    modifies work
    ensures complete <==> Retry(p, v, c).work - 1 <= old(work.Left())
    ensures complete ==> work.Spent(old(work.Left()), old(work.remaining), Retry(p, v, c).work - 1)
    ensures complete ==> Retry(p, v, c) == match next
                                          case None => Answer(false, Retry(p, v, c).work)
                                          case Some(n) => Continue(n, Retry(p, v, c).work)
    ensures !complete ==> work.Failed(old(work.remaining), Retry(p, v, c).work - 1)
  {
    if star.Some? && v[star.value.name] != '/' {
      var moved := Mark(star.value.pattern, star.value.name + 1);
      return Some(Config(moved.pattern, moved.name, directory, Some(moved))), true;
    }
    if directory.None? {
      return None, true;
    }
    var segment, enough := SkipSegment(v, directory.value.name, work);
    if !enough || segment.None? {
      return None, enough;
    }
    var moved := Mark(directory.value.pattern, segment.value);
    return Some(Config(moved.pattern, moved.name, Some(moved), star)), true;
  }

  // The search under a shared work budget (match): it gives the search's own answer, or
  // stops exactly when the counter yields less than the work the search takes, because
  // too little remains or because the control gives a reason.
  method Match(p: Program, v: seq<char>, work: MatchWork) returns (matched: bool, complete: bool)
    requires WellFormed(p) && work.stopped.None?
    modifies work
    ensures complete <==> Search(p, v, START).work <= old(work.Left())
    ensures complete ==> matched == Search(p, v, START).matched
    ensures complete ==> work.Spent(old(work.Left()), old(work.remaining), Search(p, v, START).work)
    ensures !complete ==> !matched && work.Failed(old(work.remaining), Search(p, v, START).work)
  {
    hide Search, Sane, Accepts, AfterSlash, Advance, Retry, Remaining, DirPattern, DirName, StarPattern, StarName,
         MatchWork.Left, Gives;
    var patternIndex, nameIndex := 0, 0;
    var directory: Option<Mark>, star: Option<Mark> := None, None;
    ghost var spent: nat := 0;
    FirstRound(p, v);
    while nameIndex < |v|
      invariant 0 <= patternIndex <= |p.tokens| && 0 <= nameIndex <= |v|
      invariant Sane(p, v, Config(patternIndex, nameIndex, directory, star))
      invariant Remaining(p, v, Config(patternIndex, nameIndex, directory, star), spent)
      invariant work.Spent(old(work.Left()), old(work.remaining), spent)
      decreases DirPattern(p, Config(patternIndex, nameIndex, directory, star)),
                DirName(v, Config(patternIndex, nameIndex, directory, star)),
                StarPattern(p, Config(patternIndex, nameIndex, directory, star)),
                StarName(v, Config(patternIndex, nameIndex, directory, star)), |v| - nameIndex
    {
      ghost var c := Config(patternIndex, nameIndex, directory, star);
      RoundCost(p, v, c, spent);
      Shape(p, v, c);
      var taken := work.Take();
      if !taken {
        return false, false;
      }
      var stepped := false;
      if patternIndex < |p.tokens| {
        var token := p.tokens[patternIndex];
        match token {
          case Remainder =>
            LastRound(p, v, c, spent);
            return true, true;
          case Directories =>
            stepped, patternIndex := true, patternIndex + 1;
            directory, star := Some(Mark(patternIndex, nameIndex)), None;
          case Star =>
            stepped, patternIndex := true, patternIndex + 1;
            star := Some(Mark(patternIndex, nameIndex));
          case _ =>
            if Accepts(token, v[nameIndex]) {
              stepped, patternIndex, nameIndex := true, patternIndex + 1, nameIndex + 1;
            }
        }
      }
      if !stepped {
        var next, enough := Backtrack(p, v, c, directory, star, work);
        if !enough {
          return false, false;
        }
        if next.None? {
          LastRound(p, v, c, spent);
          return false, true;
        }
        patternIndex, nameIndex := next.value.pattern, next.value.name;
        directory, star := next.value.dir, next.value.star;
      }
      NextRound(p, v, c, spent);
      assert Advance(p, v, c).next == Config(patternIndex, nameIndex, directory, star);
      spent := spent + Advance(p, v, c).work;
    }
    ghost var c := Config(patternIndex, nameIndex, directory, star);
    RoundCost(p, v, c, spent);
    ShapeEnd(p, v, c);
    var taken := work.Take();
    if !taken {
      return false, false;
    }
    LastRound(p, v, c, spent);
    return p.zero[patternIndex], true;
  }

  // One round, spelled out for the loop.
  lemma Shape(p: Program, v: seq<char>, c: Config)
    requires Sane(p, v, c) && c.name < |v|
    ensures 1 <= Retry(p, v, c).work
    ensures var forward :=
              c.pattern < |p.tokens| && (!Single(p.tokens[c.pattern]) || Accepts(p.tokens[c.pattern], v[c.name]));
            Advance(p, v, c) ==
            if !forward then Retry(p, v, c)
            else
              match p.tokens[c.pattern]
              case Remainder => Answer(true, 1)
              case Directories => Continue(Config(c.pattern + 1, c.name, Some(Mark(c.pattern + 1, c.name)), None), 1)
              case Star => Continue(c.(pattern := c.pattern + 1, star := Some(Mark(c.pattern + 1, c.name))), 1)
              case _ => Continue(c.(pattern := c.pattern + 1, name := c.name + 1), 1)
    ensures c.pattern < |p.tokens| && p.tokens[c.pattern].Remainder? ==> Advance(p, v, c) == Answer(true, 1)
  {
  }

  lemma ShapeEnd(p: Program, v: seq<char>, c: Config)
    requires Sane(p, v, c) && c.name == |v|
    ensures Advance(p, v, c) == Answer(p.zero[c.pattern], 1)
  {
  }

  // ------------------------------------------------------- all programs of a pattern

  // The programs in turn, up to the first that matches.
  function SearchAll(programs: seq<Program>, v: seq<char>): Outcome
    requires forall i :: 0 <= i < |programs| ==> WellFormed(programs[i])
  {
    if programs == [] then Outcome(false, 0)
    else
      var first := Search(programs[0], v, START);
      if first.matched then first
      else
        var rest := SearchAll(programs[1..], v);
        Outcome(rest.matched, first.work + rest.work)
  }

  ghost predicate Denotes(programs: seq<Program>, v: seq<char>)
    requires forall i :: 0 <= i < |programs| ==> WellFormed(programs[i])
  {
    exists i :: 0 <= i < |programs| && Matches(programs[i], 0, v, 0)
  }

  lemma {:induction false} SearchAllSound(programs: seq<Program>, v: seq<char>)
    requires forall i :: 0 <= i < |programs| ==> WellFormed(programs[i])
    requires SearchAll(programs, v).matched
    ensures Denotes(programs, v)
  {
    hide Search, Matches;
    if Search(programs[0], v, START).matched {
      SearchSound(programs[0], v, START);
      StartMeans(programs[0], v);
    } else {
      SearchAllSound(programs[1..], v);
      var i :| 0 <= i < |programs[1..]| && Matches(programs[1..][i], 0, v, 0);
      assert Matches(programs[i + 1], 0, v, 0);
    }
  }

  lemma StartMeans(p: Program, v: seq<char>)
    requires WellFormed(p)
    ensures Alive(p, v, START) <==> Matches(p, 0, v, 0)
  {
    hide Matches;
  }

  lemma {:induction false} SearchAllComplete(programs: seq<Program>, v: seq<char>, i: nat)
    requires forall j :: 0 <= j < |programs| ==> WellFormed(programs[j])
    requires forall j :: 0 <= j < |programs| ==> Regular(programs[j], v)
    requires i < |programs| && Matches(programs[i], 0, v, 0)
    ensures SearchAll(programs, v).matched
  {
    hide Search, Matches;
    if !Search(programs[0], v, START).matched {
      GreedyDecides(programs[0], v);
      SearchAllComplete(programs[1..], v, i - 1);
    }
  }

  // Matching a value under a work limit and a control (matchWithWork). A complete answer
  // depends on neither: it is the search's, a complete match is a real one, and on
  // regular programs a complete miss is too. It is complete unless the limit does not
  // cover the whole search or the control gives a reason to stop, which is returned.
  method MatchWithWork(programs: seq<Program>, v: seq<char>, limit: nat, control: Option<Control>)
    returns (matched: bool, complete: bool, reason: Option<Reason>)
    requires forall i :: 0 <= i < |programs| ==> WellFormed(programs[i])
    ensures complete ==>
              && reason.None? && SearchAll(programs, v).work <= limit
              && matched == SearchAll(programs, v).matched
    ensures !complete ==>
              && !matched
              && if reason.None? then limit < SearchAll(programs, v).work else Gives(control, reason)
    ensures matched ==> Denotes(programs, v)
    ensures complete && (forall i :: 0 <= i < |programs| ==> Regular(programs[i], v)) ==>
              (matched <==> Denotes(programs, v))
  {
    hide Search, Regular, Matches, Denotes, MatchWork.Left, Gives;
    var work := new MatchWork(limit, control);
    var index := 0;
    MeaningOf(programs, v);
    while index < |programs|
      invariant 0 <= index <= |programs| && fresh(work) && work.control == control && work.stopped.None?
      invariant SearchAll(programs, v).matched == SearchAll(programs[index..], v).matched
      invariant SearchAll(programs, v).work == limit - work.remaining + SearchAll(programs[index..], v).work
      invariant work.remaining <= limit
    {
      assert programs[index..][1..] == programs[index + 1..];
      assert programs[index..][0] == programs[index];
      reason := work.StopReason();
      if reason.Some? {
        return false, false, reason;
      }
      matched, complete := Match(programs[index], v, work);
      if !complete {
        return false, false, work.stopped;
      }
      if matched {
        reason := work.StopReason();
        if reason.Some? {
          return false, false, reason;
        }
        return true, true, None;
      }
      index := index + 1;
    }
    reason := work.StopReason();
    if reason.Some? {
      return false, false, reason;
    }
    return false, true, None;
  }

  lemma MeaningOf(programs: seq<Program>, v: seq<char>)
    requires forall i :: 0 <= i < |programs| ==> WellFormed(programs[i])
    ensures SearchAll(programs, v).matched ==> Denotes(programs, v)
    ensures (forall i :: 0 <= i < |programs| ==> Regular(programs[i], v)) && Denotes(programs, v) ==>
              SearchAll(programs, v).matched
  {
    hide Search, Regular, Matches, SearchAll;
    if SearchAll(programs, v).matched {
      SearchAllSound(programs, v);
    }
    if (forall i :: 0 <= i < |programs| ==> Regular(programs[i], v)) && Denotes(programs, v) {
      var i :| 0 <= i < |programs| && Matches(programs[i], 0, v, 0);
      SearchAllComplete(programs, v, i);
    }
  }

  // --------------------------------------------------------------- the work budget

  const WORK_PER_STATE := 4

  function TotalWork(tokenCounts: seq<nat>, valueBytes: nat): nat {
    if tokenCounts == [] then 0
    else
      var last := |tokenCounts| - 1;
      TotalWork(tokenCounts[..last], valueBytes) + (valueBytes + tokenCounts[last] + 1) * WORK_PER_STATE
  }

  lemma {:induction false} TotalWorkGrows(tokenCounts: seq<nat>, valueBytes: nat, n: nat)
    requires n <= |tokenCounts|
    ensures TotalWork(tokenCounts[..n], valueBytes) <= TotalWork(tokenCounts, valueBytes)
    decreases |tokenCounts|
  {
    var last := |tokenCounts| - 1;
    if n == |tokenCounts| {
      assert tokenCounts[..n] == tokenCounts;
    } else {
      TotalWorkGrows(tokenCounts[..last], valueBytes, n);
      assert tokenCounts[..last][..n] == tokenCounts[..n];
    }
  }

  // The budget of one match (matchWorkLimit): four units for each state of each
  // program, cut off at the workLimit without ever exceeding it on the way.
  method MatchWorkLimit(tokenCounts: seq<nat>, valueBytes: nat, workLimit: nat) returns (total: nat)
    ensures var wanted := TotalWork(tokenCounts, valueBytes);
            total == if wanted < workLimit then wanted else workLimit
  {
    if workLimit == 0 {
      return 0;
    }
    total := 0;
    for index := 0 to |tokenCounts|
      invariant total == TotalWork(tokenCounts[..index], valueBytes) < workLimit
    {
      var states := valueBytes + tokenCounts[index] + 1;
      assert tokenCounts[..index + 1][..index] == tokenCounts[..index];
      TotalWorkGrows(tokenCounts, valueBytes, index + 1);
      if workLimit / WORK_PER_STATE < states {
        return workLimit;
      }
      var programWork := states * WORK_PER_STATE;
      if workLimit - total <= programWork {
        return workLimit;
      }
      total := total + programWork;
    }
    assert tokenCounts[..|tokenCounts|] == tokenCounts;
  }
}
