// Programs outside the conditions of GlobComplete on which the greedy matcher misses
// a match: each drops one condition only.
module GlobExamples {
  import opened GlobMatch
  import opened GlobComplete

  // The pattern *[a/]*b.
  const CLASS_PROGRAM := Program([Star, Class(false, ['a', '/'], []), Star, Literal('b')],
                                 [false, false, false, false, true])

  lemma ClassWithSlashMissesMatch()
    ensures Aligned(CLASS_PROGRAM.tokens) && ZeroClosed(CLASS_PROGRAM)
    ensures Matches(CLASS_PROGRAM, 0, "a/b", 0) && !Search(CLASS_PROGRAM, "a/b", START).matched
  {
    ClassProgramMatches();
    ClassProgramMisses();
  }

  lemma ClassProgramMisses()
    ensures !Search(CLASS_PROGRAM, "a/b", START).matched
  {
  }

  lemma ClassProgramMatches()
    ensures Matches(CLASS_PROGRAM, 0, "a/b", 0)
  {
    var p, v := CLASS_PROGRAM, "a/b";
    assert Matches(p, 4, v, 3) && Matches(p, 3, v, 2);
    assert NoSlash(v, 2, 2) && Matches(p, 2, v, 2);
    assert '/' in ['a', '/'];
    assert Matches(p, 1, v, 1);
    assert NoSlash(v, 0, 1) && Matches(p, 0, v, 0);
  }

  // The pattern **/a/**/, whose last two tokens match the empty rest.
  const TRAILING_PROGRAM := Program([Directories, Literal('a'), Literal('/'), Directories],
                                    [false, false, true, true, true])

  lemma TrailingDirectoriesMissMatch()
    ensures Aligned(TRAILING_PROGRAM.tokens) && UnmixedClasses(TRAILING_PROGRAM.tokens, "a/a")
    ensures Matches(TRAILING_PROGRAM, 0, "a/a", 0) && !Search(TRAILING_PROGRAM, "a/a", START).matched
  {
    var p, v := TRAILING_PROGRAM, "a/a";
    assert Matches(p, 2, v, 3) && Matches(p, 1, v, 2) && SegmentStart(v, 0, 2);
  }
}
