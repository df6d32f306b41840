// The build provenance marker and where it occurs in a text (buildprovenance/provenance.go).
module Marker {
  import opened Wrappers

  const HEAD := "reconc-build-provenance-v1|version="
  const GOOS := "|goos="
  const GOARCH := "|goarch="
  const SOURCE := "|source="
  const END := "|end"
  const DIGEST_LENGTH := 64
  const MAX_MARKER := 1024

  predicate Lower(c: char) { 'a' <= c <= 'z' }
  predicate Decimal(c: char) { '0' <= c <= '9' }
  predicate Alphanumeric(c: char) { Decimal(c) || Lower(c) || 'A' <= c <= 'Z' }
  predicate VersionChar(c: char) { Alphanumeric(c) || c == '.' || c == '+' || c == '-' }
  predicate TargetChar(c: char) { Decimal(c) || Lower(c) }
  predicate HexChar(c: char) { Decimal(c) || 'a' <= c <= 'f' }

  predicate LiteralAt(s: string, p: nat, literal: string) {
    p + |literal| <= |s| && s[p..p + |literal|] == literal
  }

  predicate All(s: string, from: nat, to: nat, ok: char -> bool) {
    from <= to <= |s| && forall i :: from <= i < to ==> ok(s[i])
  }

  // The bars of a marker after its prefix: before goos, goarch, source and end.
  datatype Bars = Bars(goos: nat, goarch: nat, source: nat, end: nat)

  // A marker begins at p, with its bars at the given places.
  predicate MarkerSpan(s: string, p: nat, b: Bars) {
    && LiteralAt(s, p, HEAD)
    && p + 35 < b.goos && All(s, p + 35, b.goos, VersionChar) && Alphanumeric(s[p + 35]) && LiteralAt(s, b.goos, GOOS)
    && b.goos + 6 < b.goarch && All(s, b.goos + 6, b.goarch, TargetChar) && LiteralAt(s, b.goarch, GOARCH)
    && b.goarch + 8 < b.source && All(s, b.goarch + 8, b.source, TargetChar) && LiteralAt(s, b.source, SOURCE)
    && b.end == b.source + 8 + DIGEST_LENGTH && All(s, b.source + 8, b.end, HexChar) && LiteralAt(s, b.end, END)
  }

  // A marker stands at p in the text and ends before e.
  ghost predicate MarkerAt(s: string, p: nat, e: nat) {
    exists b :: MarkerSpan(s, p, b) && e == b.end + 4
  }

  // What the pieces of a marker say about single characters.
  lemma SpanFacts(s: string, p: nat, b: Bars)
    requires MarkerSpan(s, p, b)
    ensures p + 35 < b.goos && b.goos + 6 < b.goarch && b.goarch + 8 < b.source
    ensures b.source + 8 < b.end && b.end + 4 <= |s|
    ensures s[p] == 'r' && s[p + 26] == '|' && s[p + 27] == 'v'
    ensures s[b.goos] == '|' && s[b.goos + 1] == 'g' && s[b.goarch] == '|' && s[b.goarch + 1] == 'g'
    ensures s[b.source] == '|' && s[b.source + 1] == 's'
    ensures s[b.end] == '|' && s[b.end + 1] == 'e' && s[b.end + 2] == 'n' && s[b.end + 3] == 'd'
  {
    HeadChars(s, p);
    assert s[b.goos] == s[b.goos..b.goos + 6][0] && s[b.goos + 1] == s[b.goos..b.goos + 6][1];
    assert s[b.goarch] == s[b.goarch..b.goarch + 8][0] && s[b.goarch + 1] == s[b.goarch..b.goarch + 8][1];
    assert s[b.source] == s[b.source..b.source + 8][0] && s[b.source + 1] == s[b.source..b.source + 8][1];
    EndChars(s, b.end);
  }

  lemma HeadChars(s: string, p: nat)
    requires LiteralAt(s, p, HEAD)
    ensures s[p] == 'r' && s[p + 26] == '|' && s[p + 27] == 'v'
    ensures forall i :: p <= i < p + 35 && s[i] == '|' ==> i == p + 26
  {
    assert forall i :: p <= i < p + 35 ==> s[i] == HEAD[i - p];
    forall i | p <= i < p + 35 && s[i] == '|'
      ensures i == p + 26
    {
      HeadBar(i - p);
    }
  }

  lemma HeadBar(i: nat)
    requires i < 35
    ensures HEAD[i] == '|' <==> i == 26
  {
  }

  lemma EndChars(s: string, p: nat)
    requires LiteralAt(s, p, END)
    ensures s[p] == '|' && s[p + 1] == 'e' && s[p + 2] == 'n' && s[p + 3] == 'd'
  {
    assert forall i :: p <= i < p + 4 ==> s[i] == END[i - p];
  }

  // After its prefix a marker has no other bars.
  lemma SpanBars(s: string, p: nat, b: Bars, i: nat)
    requires MarkerSpan(s, p, b) && p + 35 <= i < b.end + 4 && i < |s| && s[i] == '|'
    ensures i == b.goos || i == b.goarch || i == b.source || i == b.end
  {
    NoBarInside(s, b.goos, GOOS);
    NoBarInside(s, b.goarch, GOARCH);
    NoBarInside(s, b.source, SOURCE);
    EndChars(s, b.end);
  }

  lemma NoBarInside(s: string, p: nat, literal: string)
    requires literal == GOOS || literal == GOARCH || literal == SOURCE
    requires LiteralAt(s, p, literal)
    ensures forall i :: p < i < p + |literal| ==> s[i] != '|'
  {
    assert forall i :: p <= i < p + |literal| ==> s[i] == literal[i - p];
    LiteralBars();
  }

  lemma LiteralBars()
    ensures forall i :: 0 < i < |GOOS| ==> GOOS[i] != '|'
    ensures forall i :: 0 < i < |GOARCH| ==> GOARCH[i] != '|'
    ensures forall i :: 0 < i < |SOURCE| ==> SOURCE[i] != '|'
  {
  }

  // No marker begins inside another.
  lemma NoOverlap(s: string, p: nat, e: nat, q: nat, f: nat)
    requires MarkerAt(s, p, e) && MarkerAt(s, q, f)
    ensures !(p < q < e)
  {
    hide MarkerSpan;
    var a :| MarkerSpan(s, p, a) && e == a.end + 4;
    var b :| MarkerSpan(s, q, b) && f == b.end + 4;
    if p < q < e {
      SpanFacts(s, p, a);
      SpanFacts(s, q, b);
      if q + 26 < e {
        SecondBar(s, p, a, q);
      } else if q <= a.end {
        PrefixBars(s, q, b, a.end);
      }
      assert false;
    }
  }

  lemma PrefixBars(s: string, p: nat, b: Bars, i: nat)
    requires MarkerSpan(s, p, b) && p <= i < p + 35 && i < |s| && s[i] == '|'
    ensures i == p + 26
  {
    HeadChars(s, p);
  }

  lemma SecondBar(s: string, p: nat, a: Bars, q: nat)
    requires MarkerSpan(s, p, a) && p < q && q + 26 < a.end + 4 && q + 26 < |s| && s[q + 26] == '|'
    ensures q + 27 < a.end + 4 && s[q + 27] != 'v'
  {
    hide MarkerSpan;
    SpanFacts(s, p, a);
    if q + 26 < p + 35 {
      PrefixBars(s, p, a, q + 26);
    } else {
      SpanBars(s, p, a, q + 26);
    }
  }

  // At one place stands at most one marker.
  lemma OneEnd(s: string, p: nat, a: Bars, b: Bars)
    requires MarkerSpan(s, p, a) && MarkerSpan(s, p, b)
    ensures a == b
  {
    StretchEnd(s, p + 35, a.goos, b.goos, VersionChar);
    SpanFacts(s, p, a);
    SpanFacts(s, p, b);
    StretchEnd(s, a.goos + 6, a.goarch, b.goarch, TargetChar);
    StretchEnd(s, a.goarch + 8, a.source, b.source, TargetChar);
  }

  lemma StretchEnd(s: string, from: nat, a: nat, b: nat, ok: char -> bool)
    requires All(s, from, a, ok) && All(s, from, b, ok) && a < |s| && b < |s|
    ensures !ok(s[a]) && !ok(s[b]) ==> a == b
  {
  }

  // ------------------------------------------------------------------ recognising

  // The end of the run of accepted characters from p on.
  function RunEnd(s: string, p: nat, ok: char -> bool): (e: nat)
    requires p <= |s|
    ensures All(s, p, e, ok) && (e < |s| ==> !ok(s[e]))
    decreases |s| - p
  {
    if p == |s| || !ok(s[p]) then p else RunEnd(s, p + 1, ok)
  }

  // The bars of the marker at p, if one stands there.
  function Recognise(s: string, p: nat): (b: Option<Bars>)
    ensures b.Some? ==> MarkerSpan(s, p, b.value)
  {
    if !LiteralAt(s, p, HEAD) then None
    else
      var goos := RunEnd(s, p + 35, VersionChar);
      if goos == p + 35 || !Alphanumeric(s[p + 35]) || !LiteralAt(s, goos, GOOS) then None
      else
        var goarch := RunEnd(s, goos + 6, TargetChar);
        if goarch == goos + 6 || !LiteralAt(s, goarch, GOARCH) then None
        else
          var source := RunEnd(s, goarch + 8, TargetChar);
          var end := source + 8 + DIGEST_LENGTH;
          if source == goarch + 8 || !LiteralAt(s, source, SOURCE) then None
          else if !All(s, source + 8, end, HexChar) || !LiteralAt(s, end, END) then None
          else Some(Bars(goos, goarch, source, end))
  }

  // Recognition finds the marker that stands at a place, and nothing else.
  lemma RecogniseExact(s: string, p: nat, b: Bars)
    requires MarkerSpan(s, p, b)
    ensures Recognise(s, p) == Some(b)
  {
    hide LiteralAt, All, RunEnd;
    SpanFacts(s, p, b);
    RunIs(s, p + 35, b.goos, VersionChar);
    RunIs(s, b.goos + 6, b.goarch, TargetChar);
    RunIs(s, b.goarch + 8, b.source, TargetChar);
  }

  lemma RunIs(s: string, p: nat, e: nat, ok: char -> bool)
    requires All(s, p, e, ok) && e < |s| && !ok(s[e])
    ensures RunEnd(s, p, ok) == e
  {
  }

  // A marker lies within its own stretch of text: cutting the text around it, or
  // placing it elsewhere, changes nothing.
  lemma MovedSpan(s: string, t: string, p: nat, q: nat, b: Bars)
    requires MarkerSpan(s, p, b) && b.end + 4 <= |s|
    requires q + (b.end + 4 - p) <= |t| && s[p..b.end + 4] == t[q..q + (b.end + 4 - p)]
    ensures p <= b.goos && p <= b.goarch && p <= b.source && p <= b.end
    ensures MarkerSpan(t, q, Bars(q + (b.goos - p), q + (b.goarch - p), q + (b.source - p), q + (b.end - p)))
  {
    hide LiteralAt, All, SameText;
    SpanFacts(s, p, b);
    MovedChars(s, t, p, q, b.end + 4 - p);
    var moved := Bars(q + (b.goos - p), q + (b.goarch - p), q + (b.source - p), q + (b.end - p));
    MovedLiterals(s, t, p, q, b, moved);
    MovedFields(s, t, p, q, b, moved);
  }

  predicate Moves(p: nat, q: nat, b: Bars, moved: Bars) {
    && p + 35 < b.goos && b.goos + 6 < b.goarch && b.goarch + 8 < b.source && b.source + 8 < b.end
    && moved.goos - q == b.goos - p && moved.goarch - q == b.goarch - p
    && moved.source - q == b.source - p && moved.end - q == b.end - p
  }

  lemma MovedLiterals(s: string, t: string, p: nat, q: nat, b: Bars, moved: Bars)
    requires MarkerSpan(s, p, b) && Moves(p, q, b, moved) && SameText(s, t, p, q, b.end + 4 - p)
    ensures LiteralAt(t, q, HEAD) && LiteralAt(t, moved.goos, GOOS) && LiteralAt(t, moved.goarch, GOARCH)
    ensures LiteralAt(t, moved.source, SOURCE) && LiteralAt(t, moved.end, END)
  {
    hide LiteralAt, All, SameText;
    var n := b.end + 4 - p;
    MovedLiteral(s, t, p, q, n, p, q, HEAD);
    MovedLiteral(s, t, p, q, n, b.goos, moved.goos, GOOS);
    MovedLiteral(s, t, p, q, n, b.goarch, moved.goarch, GOARCH);
    MovedLiteral(s, t, p, q, n, b.source, moved.source, SOURCE);
    MovedLiteral(s, t, p, q, n, b.end, moved.end, END);
  }

  lemma MovedFields(s: string, t: string, p: nat, q: nat, b: Bars, moved: Bars)
    requires MarkerSpan(s, p, b) && Moves(p, q, b, moved) && SameText(s, t, p, q, b.end + 4 - p)
    ensures All(t, q + 35, moved.goos, VersionChar) && q + 35 < |t| && Alphanumeric(t[q + 35])
    ensures All(t, moved.goos + 6, moved.goarch, TargetChar) && All(t, moved.goarch + 8, moved.source, TargetChar)
    ensures All(t, moved.source + 8, moved.end, HexChar)
  {
    hide LiteralAt, SameText;
    var n := b.end + 4 - p;
    MovedAll(s, t, p, q, n, p + 35, b.goos, q + 35, moved.goos, VersionChar);
    MovedAll(s, t, p, q, n, p + 35, p + 36, q + 35, q + 36, Alphanumeric);
    MovedAll(s, t, p, q, n, b.goos + 6, b.goarch, moved.goos + 6, moved.goarch, TargetChar);
    MovedAll(s, t, p, q, n, b.goarch + 8, b.source, moved.goarch + 8, moved.source, TargetChar);
    MovedAll(s, t, p, q, n, b.source + 8, b.end, moved.source + 8, moved.end, HexChar);
    FirstAlphanumeric(t, q + 35);
  }

  lemma FirstAlphanumeric(t: string, i: nat)
    requires All(t, i, i + 1, Alphanumeric)
    ensures i < |t| && Alphanumeric(t[i])
  {
  }

  predicate SameText(s: string, t: string, p: nat, q: nat, n: nat) {
    p + n <= |s| && q + n <= |t| && forall i :: p <= i < p + n ==> s[i] == t[q + (i - p)]
  }

  lemma MovedChars(s: string, t: string, p: nat, q: nat, n: nat)
    requires p + n <= |s| && q + n <= |t| && s[p..p + n] == t[q..q + n]
    ensures SameText(s, t, p, q, n)
  {
    forall i | p <= i < p + n
      ensures s[i] == t[q + (i - p)]
    {
      assert s[p..p + n][i - p] == t[q..q + n][i - p];
    }
  }

  lemma MovedAll(s: string, t: string, p: nat, q: nat, n: nat, from: nat, to: nat, from': nat, to': nat,
                  ok: char -> bool)
    requires p <= from && to <= p + n && from' == q + (from - p) && to' == q + (to - p)
    requires SameText(s, t, p, q, n)
    requires All(s, from, to, ok)
    ensures All(t, from', to', ok)
  {
    forall j | from' <= j < to'
      ensures ok(t[j])
    {
      assert s[p + (j - q)] == t[q + ((p + (j - q)) - p)];
    }
  }

  lemma MovedLiteral(s: string, t: string, p: nat, q: nat, n: nat, at: nat, moved: nat, literal: string)
    requires p <= at && at + |literal| <= p + n && moved == q + (at - p)
    requires SameText(s, t, p, q, n)
    requires LiteralAt(s, at, literal)
    ensures LiteralAt(t, moved, literal)
  {
    forall k | 0 <= k < |literal|
      ensures t[moved..moved + |literal|][k] == literal[k]
    {
      assert s[at + k] == t[q + (at + k - p)];
      assert s[at..at + |literal|][k] == s[at + k];
    }
    assert t[moved..moved + |literal|] == literal;
  }
}
