// A marker longer than the tail kept between reads: found or missed by how the file is read.
module MarkerExamples {
  import opened Wrappers
  import opened Marker
  import opened MarkerScan

  function Repeated(c: char, n: nat): (s: string)
    ensures |s| == n && forall i :: 0 <= i < n ==> s[i] == c
  {
    seq(n, _ => c)
  }

  // A text in pieces, and where each of them begins.
  function Assembled(parts: seq<string>): string {
    if parts == [] then "" else Assembled(parts[..|parts| - 1]) + parts[|parts| - 1]
  }

  lemma {:induction false} PartAt(parts: seq<string>, i: nat)
    requires i < |parts|
    ensures var p := |Assembled(parts[..i])|;
            && p + |parts[i]| <= |Assembled(parts)| && Assembled(parts)[p..p + |parts[i]|] == parts[i]
            && |Assembled(parts[..i + 1])| == p + |parts[i]|
    decreases |parts|
  {
    var front := parts[..|parts| - 1];
    if i < |front| {
      PartAt(front, i);
      assert front[..i] == parts[..i] && front[..i + 1] == parts[..i + 1];
    } else {
      assert parts[..i + 1] == parts && parts[..i] == front;
    }
  }

  // A marker whose version has n characters.
  function Parts(n: nat): seq<string> {
    [HEAD, Repeated('1', n), GOOS, "linux", GOARCH, "arm64", SOURCE, Repeated('a', DIGEST_LENGTH), END]
  }

  lemma PartsAt(n: nat)
    ensures var s := Assembled(Parts(n));
            && |s| == n + 135 && s[0..35] == HEAD && s[35..n + 35] == Repeated('1', n)
            && s[n + 35..n + 41] == GOOS && s[n + 41..n + 46] == "linux" && s[n + 46..n + 54] == GOARCH
            && s[n + 54..n + 59] == "arm64" && s[n + 59..n + 67] == SOURCE
            && s[n + 67..n + 131] == Repeated('a', 64) && s[n + 131..n + 135] == END
  {
    hide Assembled;
    var parts := Parts(n);
    NoParts();
    assert parts[..0] == [] && parts[..9] == parts;
    PartAt(parts, 0);
    PartAt(parts, 1);
    PartAt(parts, 2);
    PartAt(parts, 3);
    PartAt(parts, 4);
    PartAt(parts, 5);
    PartAt(parts, 6);
    PartAt(parts, 7);
    PartAt(parts, 8);
  }

  lemma NoParts()
    ensures Assembled([]) == ""
  {
  }

  lemma SliceAll(s: string, from: nat, to: nat, ok: char -> bool)
    requires from <= to <= |s| && forall i :: 0 <= i < to - from ==> ok(s[from..to][i])
    ensures All(s, from, to, ok)
  {
    forall i | from <= i < to
      ensures ok(s[i])
    {
      assert s[i] == s[from..to][i - from];
    }
  }

  lemma IsMarker(n: nat)
    requires 0 < n
    ensures |Assembled(Parts(n))| == n + 135 && MarkerAt(Assembled(Parts(n)), 0, n + 135)
  {
    hide Assembled, Parts;
    PartsAt(n);
    var s := Assembled(Parts(n));
    SliceAll(s, 35, n + 35, VersionChar);
    SliceAll(s, n + 41, n + 46, TargetChar);
    SliceAll(s, n + 54, n + 59, TargetChar);
    SliceAll(s, n + 67, n + 131, HexChar);
    assert s[35] == s[35..n + 35][0];
    assert MarkerSpan(s, 0, Bars(n + 35, n + 46, n + 59, n + 131));
  }

  // A content that is one marker and nothing else has no other.
  lemma OnlyMarker(s: string, p: nat, e: nat)
    requires MarkerAt(s, 0, |s|) && MarkerAt(s, p, e)
    ensures p == 0 && e == |s|
  {
    hide MarkerSpan;
    MarkerBounds(s, p, e);
    if p == 0 {
      SameEnd(s, 0, |s|, e);
    } else {
      NoOverlap(s, 0, |s|, p, e);
    }
  }

  // A marker that is too long is found by one read, and missed by reads of one character.
  lemma LongMarkerSplit(s: string)
    requires MarkerAt(s, 0, |s|) && MAX_MARKER < |s| <= MAX_BINARY
    ensures Joined([s]) == s && Scanned([s]) == OneMarker(s)
    ensures Joined(Singles(s)) == s && Scanned(Singles(s)) == NoMarker
  {
    hide MarkerAt, Reads, Stands, Joined, Singles;
    FoundAtOnce(s);
    OneRead(s);
    SinglesSee(s, |s|);
    assert s[..|s|] == s;
    NoneShort(s);
    if Reads(Singles(s)).Going? && Reads(Singles(s)).scan.marker != "" {
      SeenMarker(s, Reads(Singles(s)).scan);
    }
  }

  lemma NoneShort(s: string)
    requires MarkerAt(s, 0, |s|) && MAX_MARKER < |s|
    ensures !TwoShort(s) && forall p: nat :: !ShortOccurs(s, |s|, p)
  {
    hide MarkerAt;
    forall p: nat
      ensures !ShortOccurs(s, |s|, p)
    {
      if ShortOccurs(s, |s|, p) {
        var e: nat :| e <= |s| && MarkerAt(s, p, e) && e - p <= MAX_MARKER;
        OnlyMarker(s, p, e);
      }
    }
  }

  lemma SeenMarker(s: string, scan: Scan)
    requires Stands(s, |s|, scan) && scan.marker != ""
    ensures scan.seen != {}
  {
    var q := OneKnown(s, scan.seen, scan.marker);
  }

  lemma FoundAtOnce(s: string)
    requires MarkerAt(s, 0, |s|) && |s| <= MAX_BINARY
    ensures Scanned([s]) == OneMarker(s)
  {
    hide MarkerAt, FindAll;
    MarkerBounds(s, 0, |s|);
    var matches := FindAll(s, 0);
    FindAllExact(s, 0, 0, |s|);
    forall i | 0 <= i < |matches|
      ensures matches[i] == (0, |s|)
    {
      assert (matches[i].0, matches[i].1) in matches;
      FindAllExact(s, 0, matches[i].0, matches[i].1);
      OnlyMarker(s, matches[i].0, matches[i].1);
    }
    NotedSame(s, matches);
    assert matches != [] by {
      assert (0, |s|) in matches;
    }
    assert "" + s == s;
    OneRead(s);
  }

  lemma OneRead(s: string)
    ensures Reads([s]) == Read(Scan("", 0, {}, ""), s) && Joined([s]) == s
  {
    hide Read;
    assert [s][..0] == [];
    assert "" + s == s;
  }

  lemma {:induction false} NotedSame(s: string, matches: seq<(nat, nat)>)
    requires s != "" && forall i :: 0 <= i < |matches| ==> matches[i] == (0, |s|)
    ensures Noted(s, 0, matches, {}, "") == Some(if matches == [] then ({}, "") else ({0}, s))
    decreases |matches|
  {
    if matches != [] {
      NotedSame(s, matches[..|matches| - 1]);
      assert s[0..|s|] == s;
      assert {} + {0} == {0};
    }
  }

  // There is such a content: two ways of reading it give two answers.
  lemma ReadsDiffer() returns (content: string)
    ensures Scanned([content]) == OneMarker(content) && Scanned(Singles(content)) == NoMarker
    ensures Joined([content]) == content == Joined(Singles(content)) && !Bounded(content) && !TwoShort(content)
  {
    hide Scanned, Assembled, Parts;
    content := Assembled(Parts(1000));
    IsMarker(1000);
    LongMarkerSplit(content);
    NoneShort(content);
    assert !Bounded(content);
  }
}
