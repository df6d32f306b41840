// The streaming scan for the provenance marker (buildprovenance/provenance.go): the
// answer does not depend on how the file was cut into reads.
module MarkerScan {
  import opened Wrappers
  import opened Marker

  const MAX_BINARY := 0x1000_0000   // 256 << 20

  // ------------------------------------------------------------- one text at once

  // The markers of a text from left to right (what the regular expression finds).
  function FindAll(s: string, from: nat): (matches: seq<(nat, nat)>)
    requires from <= |s|
    ensures forall i :: 0 <= i < |matches| ==> from <= matches[i].0 < matches[i].1 <= |s|
    decreases |s| - from
  {
    if from == |s| then []
    else
      match Recognise(s, from)
      case None => FindAll(s, from + 1)
      case Some(b) =>
        SpanFacts(s, from, b);
        [(from, b.end + 4)] + FindAll(s, b.end + 4)
  }

  lemma SpanMarks(s: string, p: nat, b: Bars)
    requires MarkerSpan(s, p, b)
    ensures MarkerAt(s, p, b.end + 4) && p < b.end + 4 <= |s|
  {
    hide MarkerSpan;
    SpanFacts(s, p, b);
  }

  lemma MarkerBounds(s: string, p: nat, e: nat)
    requires MarkerAt(s, p, e)
    ensures p < e <= |s|
  {
    hide MarkerSpan;
    var b :| MarkerSpan(s, p, b) && e == b.end + 4;
    SpanFacts(s, p, b);
  }

  // It finds every marker, exactly once.
  lemma {:induction false} FindAllExact(s: string, from: nat, p: nat, e: nat)
    requires from <= |s|
    ensures (p, e) in FindAll(s, from) <==> from <= p && MarkerAt(s, p, e)
    decreases |s| - from
  {
    hide MarkerSpan, Recognise;
    if MarkerAt(s, p, e) {
      MarkerBounds(s, p, e);
    }
    if from < |s| {
      match Recognise(s, from)
      case None =>
        NothingHere(s, from, e);
        FindAllExact(s, from + 1, p, e);
      case Some(b) =>
        RecogniseSpan(s, from);
        SpanMarks(s, from, b);
        FindAllExact(s, b.end + 4, p, e);
        if MarkerAt(s, p, e) && from <= p {
          NoOverlap(s, from, b.end + 4, p, e);
          if p == from {
            SameEnd(s, p, b.end + 4, e);
          }
        }
    }
  }

  lemma RecogniseSpan(s: string, p: nat)
    requires Recognise(s, p).Some?
    ensures MarkerSpan(s, p, Recognise(s, p).value)
  {
  }

  lemma NothingHere(s: string, p: nat, e: nat)
    requires Recognise(s, p).None?
    ensures !MarkerAt(s, p, e)
  {
    hide MarkerSpan, Recognise;
    if MarkerAt(s, p, e) {
      var b :| MarkerSpan(s, p, b) && e == b.end + 4;
      RecogniseExact(s, p, b);
    }
  }

  lemma SameEnd(s: string, p: nat, e: nat, f: nat)
    requires MarkerAt(s, p, e) && MarkerAt(s, p, f)
    ensures e == f
  {
    hide MarkerSpan;
    var a :| MarkerSpan(s, p, a) && e == a.end + 4;
    var b :| MarkerSpan(s, p, b) && f == b.end + 4;
    OneEnd(s, p, a, b);
  }

  // ----------------------------------------------------------- windows of a text

  // A marker begins at p and lies within the first k characters.
  ghost predicate Occurs(s: string, k: nat, p: nat) {
    exists e: nat :: e <= k && MarkerAt(s, p, e)
  }

  // So does one that is no longer than the tail kept between reads allows.
  ghost predicate ShortOccurs(s: string, k: nat, p: nat) {
    exists e: nat :: e <= k && MarkerAt(s, p, e) && e - p <= MAX_MARKER
  }

  // No marker is longer.
  ghost predicate Bounded(s: string) {
    forall p: nat, e: nat :: MarkerAt(s, p, e) ==> e - p <= MAX_MARKER
  }

  // Two markers are not longer.
  ghost predicate TwoShort(s: string) {
    exists p: nat, q: nat :: p != q && ShortOccurs(s, |s|, p) && ShortOccurs(s, |s|, q)
  }

  lemma WindowMarker(s: string, base: nat, k: nat, p: nat, e: nat)
    requires base <= k <= |s| && MarkerAt(s[base..k], p, e)
    ensures MarkerAt(s, base + p, base + e) && base + e <= k
  {
    hide MarkerSpan;
    var w := s[base..k];
    var b :| MarkerSpan(w, p, b) && e == b.end + 4;
    SpanFacts(w, p, b);
    SliceOfSlice(s, base, k, p, e);
    MovedSpan(w, s, p, base + p, b);
    SpanMarks(s, base + p, Bars(base + p + (b.goos - p), base + p + (b.goarch - p), base + p + (b.source - p),
                                base + p + (b.end - p)));
  }

  lemma MarkerInWindow(s: string, base: nat, k: nat, p: nat, e: nat)
    requires base <= p && e <= k <= |s| && MarkerAt(s, p, e)
    ensures base <= k && MarkerAt(s[base..k], p - base, e - base)
  {
    hide MarkerSpan;
    MarkerBounds(s, p, e);
    var w := s[base..k];
    var b :| MarkerSpan(s, p, b) && e == b.end + 4;
    SpanFacts(s, p, b);
    var q := p - base;
    SliceOfSlice(s, base, k, q, q + (e - p));
    MovedSpan(s, w, p, q, b);
    SpanMarks(w, q, Bars(q + (b.goos - p), q + (b.goarch - p), q + (b.source - p), q + (b.end - p)));
  }

  // A short marker that more text completed begins within the tail that was kept.
  lemma NewInWindow(s: string, before: nat, k: nat, p: nat, e: nat)
    requires before <= k <= |s| && e <= k && MarkerAt(s, p, e) && e - p <= MAX_MARKER && !ShortOccurs(s, before, p)
    ensures before - (MAX_MARKER - 1) <= p
  {
    hide MarkerAt;
  }

  // -------------------------------------------------------------------- the answer

  datatype ScanResult = NoMarker | OneMarker(text: string) | AmbiguousMarkers | TooLarge

  // The answer that the whole content calls for.
  ghost predicate Answers(s: string, r: ScanResult) {
    match r
    case AmbiguousMarkers => exists p: nat, q: nat :: p != q && Occurs(s, |s|, p) && Occurs(s, |s|, q)
    case TooLarge => MAX_BINARY < |s| && forall p: nat, q: nat :: Occurs(s, |s|, p) && Occurs(s, |s|, q) ==> p == q
    case NoMarker => |s| <= MAX_BINARY && forall p: nat :: !Occurs(s, |s|, p)
    case OneMarker(text) =>
      && |s| <= MAX_BINARY
      && (forall p: nat, q: nat :: Occurs(s, |s|, p) && Occurs(s, |s|, q) ==> p == q)
      && exists p: nat, e: nat :: MarkerAt(s, p, e) && p <= e <= |s| && text == s[p..e]
  }

  // There is one answer to every content.
  lemma OneAnswer(s: string, a: ScanResult, b: ScanResult)
    requires Answers(s, a) && Answers(s, b)
    ensures a == b
  {
    hide MarkerAt;
    if a.OneMarker? {
      var p: nat, e: nat :| MarkerAt(s, p, e) && p <= e <= |s| && a.text == s[p..e];
      assert Occurs(s, |s|, p);
      if b.OneMarker? {
        var q: nat, f: nat :| MarkerAt(s, q, f) && q <= f <= |s| && b.text == s[q..f];
        assert Occurs(s, |s|, q);
        SameEnd(s, p, e, f);
      }
    }
    if b.OneMarker? {
      var q: nat, f: nat :| MarkerAt(s, q, f) && q <= f <= |s| && b.text == s[q..f];
      assert Occurs(s, |s|, q);
    }
  }

  function Joined(chunks: seq<string>): string {
    if chunks == [] then "" else Joined(chunks[..|chunks| - 1]) + chunks[|chunks| - 1]
  }

  lemma {:induction false} JoinedPrefix(chunks: seq<string>, k: nat)
    requires k <= |chunks|
    ensures |Joined(chunks[..k])| <= |Joined(chunks)| && Joined(chunks[..k]) == Joined(chunks)[..|Joined(chunks[..k])|]
    decreases |chunks|
  {
    if k == |chunks| {
      assert chunks[..k] == chunks;
    } else {
      var last := |chunks| - 1;
      JoinedPrefix(chunks[..last], k);
      assert chunks[..last][..k] == chunks[..k];
    }
  }

  lemma JoinedNext(chunks: seq<string>, k: nat)
    requires k < |chunks|
    ensures Joined(chunks[..k + 1]) == Joined(chunks[..k]) + chunks[k]
  {
    assert chunks[..k + 1][..k] == chunks[..k];
  }

  // ------------------------------------------------------- the scan as a function

  // What the matches of a window add to what was seen; None when a second marker does.
  function Noted(window: string, base: nat, matches: seq<(nat, nat)>, seen: set<nat>, marker: string)
    : Option<(set<nat>, string)>
    requires forall i :: 0 <= i < |matches| ==> matches[i].0 < matches[i].1 <= |window|
  {
    if matches == [] then Some((seen, marker))
    else
      var m := matches[|matches| - 1];
      match Noted(window, base, matches[..|matches| - 1], seen, marker)
      case None => None
      case Some((known, first)) =>
        if base + m.0 in known then Some((known, first))
        else if first != "" then None
        else Some((known + {base + m.0}, window[m.0..m.1]))
  }

  // The tail kept, where it begins in the content, and what was seen.
  datatype Scan = Scan(tail: string, base: nat, seen: set<nat>, marker: string)

  datatype Progress = Going(scan: Scan) | Ended(result: ScanResult)

  function Read(scan: Scan, chunk: string): Progress {
    if chunk == "" then Going(scan)
    else
      var window := scan.tail + chunk;
      match Noted(window, scan.base, FindAll(window, 0), scan.seen, scan.marker)
      case None => Ended(AmbiguousMarkers)
      case Some((seen, marker)) =>
        var keep := if |window| < MAX_MARKER - 1 then |window| else MAX_MARKER - 1;
        var base := scan.base + |window| - keep;
        if MAX_BINARY < base + keep then Ended(TooLarge)
        else Going(Scan(window[|window| - keep..], base, seen, marker))
  }

  function Reads(chunks: seq<string>): Progress {
    if chunks == [] then Going(Scan("", 0, {}, ""))
    else
      match Reads(chunks[..|chunks| - 1])
      case Ended(r) => Ended(r)
      case Going(scan) => Read(scan, chunks[|chunks| - 1])
  }

  function Scanned(chunks: seq<string>): ScanResult {
    match Reads(chunks)
    case Ended(r) => r
    case Going(scan) => if scan.marker == "" then NoMarker else OneMarker(scan.marker)
  }

  // ------------------------------------------------------------ what it has found

  // After the first k characters the scan has seen markers only, and every short one.
  ghost predicate Known(s: string, k: nat, seen: set<nat>, marker: string) {
    && (forall p: nat :: p in seen ==> Occurs(s, k, p))
    && (forall p: nat :: ShortOccurs(s, k, p) ==> p in seen)
    && Remembered(s, seen, marker)
  }

  ghost predicate Remembered(s: string, seen: set<nat>, marker: string) {
    && (marker == "" ==> seen == {})
    && (marker != "" ==>
          exists p: nat, e: nat :: seen == {p} && MarkerAt(s, p, e) && p <= e <= |s| && marker == s[p..e])
  }

  lemma NothingKnown(s: string)
    ensures Known(s, 0, {}, "")
  {
    hide MarkerAt;
    forall p: nat
      ensures !ShortOccurs(s, 0, p)
    {
      if ShortOccurs(s, 0, p) {
        var e: nat :| e <= 0 && MarkerAt(s, p, e);
        MarkerBounds(s, p, e);
      }
    }
  }

  lemma FirstMarker(s: string, seen: set<nat>, p: nat, e: nat)
    requires Remembered(s, seen, "") && MarkerAt(s, p, e)
    ensures p < e <= |s| && s[p..e] != "" && Remembered(s, seen + {p}, s[p..e])
  {
    hide MarkerAt;
    MarkerBounds(s, p, e);
    assert seen + {p} == {p};
  }

  lemma MatchMarks(s: string, base: nat, k: nat, matches: seq<(nat, nat)>, j: nat)
    requires base <= k <= |s| && matches == FindAll(s[base..k], 0) && j < |matches|
    ensures MarkerAt(s, base + matches[j].0, base + matches[j].1) && base + matches[j].1 <= k
    ensures matches[j].0 <= matches[j].1 <= k - base
    ensures s[base..k][matches[j].0..matches[j].1] == s[base + matches[j].0..base + matches[j].1]
  {
    hide MarkerAt, FindAll;
    var w, p, e := s[base..k], matches[j].0, matches[j].1;
    assert (p, e) in matches;
    FindAllExact(w, 0, p, e);
    WindowMarker(s, base, k, p, e);
    MarkerBounds(w, p, e);
    SliceOfSlice(s, base, k, p, e);
  }

  lemma SliceOfSlice(s: string, base: nat, k: nat, p: nat, e: nat)
    requires base <= k <= |s| && p <= e <= k - base
    ensures s[base..k][p..e] == s[base + p..base + e]
  {
    var left, right := s[base..k][p..e], s[base + p..base + e];
    forall i | 0 <= i < e - p
      ensures left[i] == right[i]
    {
      assert s[base..k][p + i] == s[base + (p + i)];
    }
    assert left == right;
  }

  // The places where the matches of a window begin, within the whole text.
  ghost predicate Listed(matches: seq<(nat, nat)>, base: nat, p: nat) {
    exists j :: 0 <= j < |matches| && p == base + matches[j].0
  }

  lemma ListedNext(matches: seq<(nat, nat)>, base: nat, p: nat)
    requires matches != []
    ensures var last := |matches| - 1;
            Listed(matches, base, p) <==> Listed(matches[..last], base, p) || p == base + matches[last].0
  {
    var last := |matches| - 1;
    if Listed(matches[..last], base, p) {
      var j :| 0 <= j < last && p == base + matches[..last][j].0;
      assert p == base + matches[j].0;
    }
    if Listed(matches, base, p) && p != base + matches[last].0 {
      var j :| 0 <= j < |matches| && p == base + matches[j].0;
      assert p == base + matches[..last][j].0;
    }
  }

  ghost predicate SeenOr(matches: seq<(nat, nat)>, base: nat, seen: set<nat>, p: nat) {
    p in seen || Listed(matches, base, p)
  }

  // The matches of a window join what was seen, unless that makes two.
  lemma {:induction false} NotedJoins(s: string, base: nat, k: nat, n: nat, seen: set<nat>, marker: string)
    requires base <= k <= |s| && n <= |FindAll(s[base..k], 0)| && Remembered(s, seen, marker)
    ensures var matches := FindAll(s[base..k], 0)[..n];
            match Noted(s[base..k], base, matches, seen, marker)
            case None =>
              exists p: nat, q: nat :: p != q && SeenOr(matches, base, seen, p) && SeenOr(matches, base, seen, q)
            case Some((known, first)) =>
              Remembered(s, known, first) && forall p: nat :: p in known <==> SeenOr(matches, base, seen, p)
    decreases n
  {
    hide MarkerAt, FindAll, Remembered, Listed;
    var all := FindAll(s[base..k], 0);
    if n == 0 {
      NothingListed(base);
    } else {
      NotedJoins(s, base, k, n - 1, seen, marker);
      assert all[..n][..n - 1] == all[..n - 1] && all[..n][n - 1] == all[n - 1];
      MatchMarks(s, base, k, all, n - 1);
      forall p: nat
        ensures Listed(all[..n], base, p) <==> Listed(all[..n - 1], base, p) || p == base + all[n - 1].0
      {
        ListedNext(all[..n], base, p);
      }
      var before, at := Noted(s[base..k], base, all[..n - 1], seen, marker), base + all[n - 1].0;
      if before.None? {
        var p: nat, q: nat :| p != q && SeenOr(all[..n - 1], base, seen, p) && SeenOr(all[..n - 1], base, seen, q);
        assert SeenOr(all[..n], base, seen, p) && SeenOr(all[..n], base, seen, q);
      } else if at !in before.value.0 {
        if before.value.1 != "" {
          var q := OneKnown(s, before.value.0, before.value.1);
          assert SeenOr(all[..n], base, seen, at) && SeenOr(all[..n], base, seen, q);
        } else {
          FirstMarker(s, before.value.0, at, base + all[n - 1].1);
        }
      }
    }
  }

  lemma OneKnown(s: string, seen: set<nat>, marker: string) returns (q: nat)
    requires Remembered(s, seen, marker) && marker != ""
    ensures seen == {q}
  {
    var p: nat, e: nat :| seen == {p} && MarkerAt(s, p, e) && p <= e <= |s| && marker == s[p..e];
    q := p;
  }

  lemma NothingListed(base: nat)
    ensures forall p: nat :: !Listed([], base, p)
  {
  }

  // A window shows markers of the whole text, and every short one it completes.
  lemma WindowShows(s: string, base: nat, before: nat, k: nat, p: nat)
    requires base <= before <= k <= |s| && (base == 0 || base + (MAX_MARKER - 1) <= before)
    ensures Listed(FindAll(s[base..k], 0), base, p) ==> Occurs(s, k, p)
    ensures ShortOccurs(s, k, p) ==> ShortOccurs(s, before, p) || Listed(FindAll(s[base..k], 0), base, p)
  {
    hide MarkerAt, FindAll;
    var w, matches := s[base..k], FindAll(s[base..k], 0);
    if ShortOccurs(s, k, p) && !ShortOccurs(s, before, p) {
      var e: nat :| e <= k && MarkerAt(s, p, e) && e - p <= MAX_MARKER;
      NewInWindow(s, before, k, p, e);
      MarkerInWindow(s, base, k, p, e);
      MarkerBounds(s, p, e);
      FindAllExact(w, 0, p - base, e - base);
      var j: nat :| 0 <= j < |matches| && matches[j] == (p - base, e - base);
    }
    if Listed(matches, base, p) {
      var j: nat :| 0 <= j < |matches| && p == base + matches[j].0;
      MatchMarks(s, base, k, matches, j);
    }
  }

  lemma WindowKnown(s: string, base: nat, before: nat, k: nat, seen: set<nat>, marker: string)
    requires base <= before <= k <= |s| && (base == 0 || base + (MAX_MARKER - 1) <= before)
    requires Known(s, before, seen, marker)
    ensures match Noted(s[base..k], base, FindAll(s[base..k], 0), seen, marker)
            case None => Answers(s, AmbiguousMarkers)
            case Some((known, first)) => Known(s, k, known, first)
  {
    hide MarkerAt, FindAll, Noted, Remembered, Listed;
    var matches := FindAll(s[base..k], 0);
    assert matches[..|matches|] == matches;
    NotedJoins(s, base, k, |matches|, seen, marker);
    forall p: nat
      ensures SeenOr(matches, base, seen, p) ==> Occurs(s, k, p) && Occurs(s, |s|, p)
      ensures ShortOccurs(s, k, p) ==> SeenOr(matches, base, seen, p)
    {
      WindowShows(s, base, before, k, p);
    }
  }

  // The scan after some reads of a content.
  ghost predicate Stands(s: string, consumed: nat, scan: Scan) {
    && consumed == scan.base + |scan.tail| <= |s| && consumed <= MAX_BINARY
    && scan.tail == s[scan.base..consumed]
    && (scan.base == 0 || |scan.tail| == MAX_MARKER - 1)
    && Known(s, consumed, scan.seen, scan.marker)
  }

  lemma ReadStands(s: string, consumed: nat, scan: Scan, chunk: string)
    requires Stands(s, consumed, scan) && consumed + |chunk| <= |s| <= MAX_BINARY + 1
    requires chunk == s[consumed..consumed + |chunk|]
    ensures match Read(scan, chunk)
            case Going(next) => Stands(s, consumed + |chunk|, next)
            case Ended(AmbiguousMarkers) => Answers(s, AmbiguousMarkers)
            case Ended(r) => r == TooLarge && MAX_BINARY < |s| && exists seen, marker :: Known(s, |s|, seen, marker)
  {
    hide FindAll, Noted, Known, Answers;
    if chunk != "" {
      var k := consumed + |chunk|;
      assert scan.tail + chunk == s[scan.base..k];
      WindowKnown(s, scan.base, consumed, k, scan.seen, scan.marker);
    }
  }

  lemma {:induction false} ReadsStand(s: string, chunks: seq<string>, n: nat)
    requires Joined(chunks) == s && |s| <= MAX_BINARY + 1 && n <= |chunks|
    ensures match Reads(chunks[..n])
            case Going(scan) => Stands(s, |Joined(chunks[..n])|, scan)
            case Ended(AmbiguousMarkers) => Answers(s, AmbiguousMarkers)
            case Ended(r) => r == TooLarge && MAX_BINARY < |s| && exists seen, marker :: Known(s, |s|, seen, marker)
    decreases n
  {
    hide Read, Known, Answers;
    if n == 0 {
      NothingKnown(s);
    } else {
      ReadsStand(s, chunks, n - 1);
      assert chunks[..n][..n - 1] == chunks[..n - 1];
      JoinedNext(chunks, n - 1);
      JoinedPrefix(chunks, n);
      JoinedPrefix(chunks, n - 1);
      var k := |Joined(chunks[..n - 1])|;
      assert chunks[n - 1] == s[k..k + |chunks[n - 1]|];
      if Reads(chunks[..n - 1]).Going? {
        ReadStands(s, k, Reads(chunks[..n - 1]).scan, chunks[n - 1]);
      }
    }
  }

  // What is known of the whole content answers for it, if every marker is short; and
  // two short ones would both be known.
  lemma WholeKnown(s: string, seen: set<nat>, marker: string)
    requires Known(s, |s|, seen, marker)
    ensures !TwoShort(s)
    ensures Bounded(s) && MAX_BINARY < |s| ==> Answers(s, TooLarge)
    ensures Bounded(s) && |s| <= MAX_BINARY ==> Answers(s, if marker == "" then NoMarker else OneMarker(marker))
  {
    hide MarkerAt;
    if Bounded(s) {
      forall p: nat
        ensures Occurs(s, |s|, p) ==> p in seen
      {
        if Occurs(s, |s|, p) {
          var e: nat :| e <= |s| && MarkerAt(s, p, e);
          assert ShortOccurs(s, |s|, p);
        }
      }
    }
  }

  // The answer does not depend on how the content was cut into reads.
  lemma ScanAnswers(chunks: seq<string>)
    requires |Joined(chunks)| <= MAX_BINARY + 1
    requires Bounded(Joined(chunks)) || TwoShort(Joined(chunks))
    ensures Answers(Joined(chunks), Scanned(chunks))
  {
    hide Known, Answers, Bounded, TwoShort;
    var s := Joined(chunks);
    assert chunks[..|chunks|] == chunks;
    ReadsStand(s, chunks, |chunks|);
    if Reads(chunks).Going? {
      WholeKnown(s, Reads(chunks).scan.seen, Reads(chunks).scan.marker);
    } else if Reads(chunks).result == TooLarge {
      var seen, marker :| Known(s, |s|, seen, marker);
      WholeKnown(s, seen, marker);
    }
  }

  // ---------------------------------------------------------- the condition is exact

  // The content in reads of one character each.
  function Singles(s: string): (chunks: seq<string>)
    ensures Joined(chunks) == s
  {
    if s == "" then [] else Singles(s[..|s| - 1]) + [[s[|s| - 1]]]
  }

  // A window that is no longer than a marker may be shows short markers only.
  lemma ShortWindow(s: string, base: nat, k: nat, p: nat)
    requires base <= k <= |s| && k - base <= MAX_MARKER && Listed(FindAll(s[base..k], 0), base, p)
    ensures ShortOccurs(s, k, p)
  {
    hide MarkerAt, FindAll;
    var matches := FindAll(s[base..k], 0);
    var j: nat :| 0 <= j < |matches| && p == base + matches[j].0;
    MatchMarks(s, base, k, matches, j);
  }

  ghost predicate OnlyShort(s: string, k: nat, seen: set<nat>) {
    forall p: nat :: p in seen ==> ShortOccurs(s, k, p)
  }

  lemma SingleRead(s: string, k: nat, scan: Scan)
    requires k < |s| <= MAX_BINARY && Stands(s, k, scan) && OnlyShort(s, k, scan.seen) && |scan.tail| < MAX_MARKER
    ensures match Read(scan, [s[k]])
            case Going(next) => Stands(s, k + 1, next) && OnlyShort(s, k + 1, next.seen) && |next.tail| < MAX_MARKER
            case Ended(_) => TwoShort(s)
  {
    hide FindAll, Noted, Known, OnlyShort, TwoShort;
    assert scan.tail + [s[k]] == s[scan.base..k + 1];
    SingleNoted(s, k, scan);
    ReadStands(s, k, scan, [s[k]]);
  }

  lemma SingleNoted(s: string, k: nat, scan: Scan)
    requires k < |s| && Stands(s, k, scan) && OnlyShort(s, k, scan.seen) && |scan.tail| < MAX_MARKER
    ensures match Noted(s[scan.base..k + 1], scan.base, FindAll(s[scan.base..k + 1], 0), scan.seen, scan.marker)
            case None => TwoShort(s)
            case Some((known, _)) => OnlyShort(s, k + 1, known)
  {
    hide FindAll, Noted, Known, Listed, ShortOccurs;
    var base, matches := scan.base, FindAll(s[scan.base..k + 1], 0);
    assert matches[..|matches|] == matches;
    KnownRemembers(s, k, scan);
    NotedJoins(s, base, k + 1, |matches|, scan.seen, scan.marker);
    forall p: nat
      ensures SeenOr(matches, base, scan.seen, p) ==> ShortOccurs(s, k + 1, p) && ShortOccurs(s, |s|, p)
    {
      if Listed(matches, base, p) {
        ShortWindow(s, base, k + 1, p);
      }
      ShortStays(s, k, k + 1, p);
      ShortStays(s, k + 1, |s|, p);
    }
  }

  lemma ShortStays(s: string, k: nat, n: nat, p: nat)
    requires k <= n
    ensures ShortOccurs(s, k, p) ==> ShortOccurs(s, n, p)
  {
    hide MarkerAt;
  }

  lemma KnownRemembers(s: string, k: nat, scan: Scan)
    requires Known(s, k, scan.seen, scan.marker)
    ensures Remembered(s, scan.seen, scan.marker)
  {
  }

  lemma {:induction false} SinglesSee(s: string, n: nat)
    requires n <= |s| <= MAX_BINARY
    ensures match Reads(Singles(s[..n]))
            case Going(scan) => Stands(s, n, scan) && OnlyShort(s, n, scan.seen) && |scan.tail| < MAX_MARKER
            case Ended(_) => TwoShort(s)
    decreases n
  {
    hide Read, Stands, TwoShort, OnlyShort;
    if n == 0 {
      SeesNothing(s);
    } else {
      SinglesSee(s, n - 1);
      var chunks := Singles(s[..n]);
      assert s[..n][..n - 1] == s[..n - 1];
      assert chunks[..|chunks| - 1] == Singles(s[..n - 1]);
      if Reads(Singles(s[..n - 1])).Going? {
        SingleRead(s, n - 1, Reads(Singles(s[..n - 1])).scan);
      }
    }
  }

  lemma SeesNothing(s: string)
    requires |s| <= MAX_BINARY
    ensures Stands(s, 0, Scan("", 0, {}, "")) && OnlyShort(s, 0, {})
  {
    hide Known;
    NothingKnown(s);
  }

  // Reads of one character miss every long marker.
  lemma SinglesMiss(s: string)
    requires |s| <= MAX_BINARY && !Bounded(s) && !TwoShort(s)
    ensures !Answers(s, Scanned(Singles(s)))
  {
    hide MarkerAt, Reads, Singles, Answers;
    assert s[..|s|] == s;
    SinglesSee(s, |s|);
    var scan := Reads(Singles(s)).scan;
    var p: nat, e: nat :| MarkerAt(s, p, e) && MAX_MARKER < e - p;
    MarkerBounds(s, p, e);
    if scan.marker == "" {
      NotNone(s, p, e);
    } else {
      var q := OneKnown(s, scan.seen, scan.marker);
      assert q in scan.seen && ShortOccurs(s, |s|, q);
      var f: nat :| f <= |s| && MarkerAt(s, q, f) && f - q <= MAX_MARKER;
      if p == q {
        SameEnd(s, p, e, f);
      }
      NotOne(s, p, e, q, f, scan.marker);
    }
  }

  lemma NotNone(s: string, p: nat, e: nat)
    requires MarkerAt(s, p, e) && e <= |s|
    ensures !Answers(s, NoMarker)
  {
    hide MarkerAt;
    assert Occurs(s, |s|, p);
  }

  lemma NotOne(s: string, p: nat, e: nat, q: nat, f: nat, text: string)
    requires MarkerAt(s, p, e) && e <= |s| && MarkerAt(s, q, f) && f <= |s| && p != q
    ensures !Answers(s, OneMarker(text))
  {
    hide MarkerAt;
    assert Occurs(s, |s|, p) && Occurs(s, |s|, q);
  }

  // Of a file within the size limit every cutting into reads gives the right answer
  // exactly when no marker is too long, or two of them are not.
  lemma ScanExact(s: string)
    requires |s| <= MAX_BINARY
    ensures (forall chunks :: Joined(chunks) == s ==> Answers(s, Scanned(chunks))) <==> Bounded(s) || TwoShort(s)
  {
    hide Answers, Bounded, TwoShort, Scanned;
    if Bounded(s) || TwoShort(s) {
      forall chunks | Joined(chunks) == s
        ensures Answers(s, Scanned(chunks))
      {
        ScanAnswers(chunks);
      }
    } else {
      SinglesMiss(s);
      assert Joined(Singles(s)) == s;
    }
  }

  // ------------------------------------------------------------------- as it runs

  lemma {:induction false} NotedStays(window: string, base: nat, matches: seq<(nat, nat)>, n: nat, seen: set<nat>,
                                      marker: string)
    requires forall i :: 0 <= i < |matches| ==> matches[i].0 < matches[i].1 <= |window|
    requires n <= |matches| && Noted(window, base, matches[..n], seen, marker).None?
    ensures Noted(window, base, matches, seen, marker).None?
    decreases |matches|
  {
    if n == |matches| {
      assert matches[..n] == matches;
    } else {
      var front := matches[..|matches| - 1];
      assert front[..n] == matches[..n];
      NotedStays(window, base, front, n, seen, marker);
    }
  }

  lemma {:induction false} EndedStays(chunks: seq<string>, n: nat)
    requires n <= |chunks| && Reads(chunks[..n]).Ended?
    ensures Reads(chunks) == Reads(chunks[..n])
    decreases |chunks|
  {
    hide Read;
    if n == |chunks| {
      assert chunks[..n] == chunks;
    } else {
      var front := chunks[..|chunks| - 1];
      assert front[..n] == chunks[..n];
      EndedStays(front, n);
    }
  }

  // The matches in one window, against what earlier windows found.
  method ScanWindow(window: string, base: nat, seenBefore: set<nat>, markerBefore: string)
    returns (seen: set<nat>, marker: string, ambiguous: bool)
    ensures var noted := Noted(window, base, FindAll(window, 0), seenBefore, markerBefore);
            if ambiguous then noted.None? else noted == Some((seen, marker))
  {
    hide FindAll;
    seen, marker := seenBefore, markerBefore;
    var matches := FindAll(window, 0);
    for i := 0 to |matches|
      invariant Noted(window, base, matches[..i], seenBefore, markerBefore) == Some((seen, marker))
    {
      var position := base + matches[i].0;
      assert matches[..i + 1][..i] == matches[..i] && matches[..i + 1][i] == matches[i];
      if position !in seen {
        if marker != "" {
          NotedStays(window, base, matches, i + 1, seenBefore, markerBefore);
          return seen, marker, true;
        }
        seen, marker := seen + {position}, window[matches[i].0..matches[i].1];
      }
    }
    assert matches[..|matches|] == matches;
    return seen, marker, false;
  }

  lemma ReadsNext(chunks: seq<string>, n: nat, scan: Scan)
    requires n < |chunks| && Reads(chunks[..n]) == Going(scan)
    ensures Reads(chunks[..n + 1]) == Read(scan, chunks[n])
    ensures Read(scan, chunks[n]).Ended? ==> Scanned(chunks) == Read(scan, chunks[n]).result
  {
    hide Read;
    assert chunks[..n + 1][..n] == chunks[..n];
    if Read(scan, chunks[n]).Ended? {
      EndedStays(chunks, n + 1);
    }
  }

  // The scan over the reads of a file (scanBinaryMarker). The reads are what the limit
  // of one byte above the maximum lets through.
  method ScanBinaryMarker(chunks: seq<string>) returns (r: ScanResult)
    requires |Joined(chunks)| <= MAX_BINARY + 1
    ensures r == Scanned(chunks)
    ensures Bounded(Joined(chunks)) || TwoShort(Joined(chunks)) ==> Answers(Joined(chunks), r)
  {
    hide FindAll, Noted, Bounded, TwoShort, Answers, Joined, Reads, Scanned;
    var tail, seen, marker, consumed: nat := "", {}, "", 0;
    if Bounded(Joined(chunks)) || TwoShort(Joined(chunks)) {
      ScanAnswers(chunks);
    }
    NothingRead(chunks);
    for index := 0 to |chunks|
      invariant |tail| <= consumed && Reads(chunks[..index]) == Going(Scan(tail, consumed - |tail|, seen, marker))
    {
      var chunk := chunks[index];
      ReadsNext(chunks, index, Scan(tail, consumed - |tail|, seen, marker));
      if |chunk| > 0 {
        var window := tail + chunk;
        var base := consumed - |tail|;
        var ambiguous;
        seen, marker, ambiguous := ScanWindow(window, base, seen, marker);
        if ambiguous {
          return AmbiguousMarkers;
        }
        var keep := if |window| < MAX_MARKER - 1 then |window| else MAX_MARKER - 1;
        tail := window[|window| - keep..];
        consumed := consumed + |chunk|;
        if MAX_BINARY < consumed {
          return TooLarge;
        }
      }
    }
    WholeRead(chunks, Scan(tail, consumed - |tail|, seen, marker));
    if marker == "" {
      return NoMarker;
    }
    return OneMarker(marker);
  }

  lemma NothingRead(chunks: seq<string>)
    ensures Reads(chunks[..0]) == Going(Scan("", 0, {}, ""))
  {
  }

  lemma WholeRead(chunks: seq<string>, scan: Scan)
    requires Reads(chunks[..|chunks|]) == Going(scan)
    ensures Scanned(chunks) == if scan.marker == "" then NoMarker else OneMarker(scan.marker)
  {
    hide Reads;
    assert chunks[..|chunks|] == chunks;
  }
}
