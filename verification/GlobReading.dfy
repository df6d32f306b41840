// The grammar of a brace-free pattern is unambiguous (internal/action/glob.go): a
// pattern has one reading, unless a class in it is never closed, and then it has none.
module GlobReading {
  import opened Wrappers
  import opened GlobMatch
  import opened GlobCompile

  // More text after the ']' changes nothing.
  lemma {:induction false} BodyExtends(s: seq<char>, t: seq<char>, last: char, literals: seq<char>,
                                       ranges: seq<(char, char)>)
    requires s <= t && BodyOf(s, last, literals, ranges).Some?
    ensures BodyOf(t, last, literals, ranges) == BodyOf(s, last, literals, ranges)
    decreases |s|
  {
    hide BodyOf;
    BodyNotEmpty(s, last, literals, ranges);
    if s[0] == ']' {
      BodyCloses(s, last, literals, ranges);
      BodyCloses(t, last, literals, ranges);
    } else {
      BodyStep(s, last, literals, ranges);
      BodyStep(t, last, literals, ranges);
      LoneCharacter(s, last, literals, ranges);
      if last < MAX_RUNE && s[0] == '-' && s[1] != ']' {
        var at := if s[1] == '\\' then 2 else 1;
        BodyExtends(s[at + 1..], t[at + 1..], MAX_RUNE, literals,
                    if last <= s[at] then ranges + [(last, s[at])] else ranges);
      } else {
        var at := if s[0] == '\\' then 1 else 0;
        BodyExtends(s[at + 1..], t[at + 1..], s[at], literals + [s[at]], ranges);
      }
    }
  }

  lemma LoneCharacter(s: seq<char>, last: char, literals: seq<char>, ranges: seq<(char, char)>)
    requires s != [] && s[0] != ']' && BodyOf(s, last, literals, ranges).Some?
    ensures 1 < |s|
  {
  }

  lemma ClassExtends(s: seq<char>, t: seq<char>)
    requires s <= t && ClassOf(s).Some?
    ensures ClassOf(t) == ClassOf(s)
  {
    hide BodyOf;
    var negated := s != [] && (s[0] == '!' || s[0] == '^');
    var skip := if negated then 1 else 0;
    assert s != [];
    BodyExtends(s[skip..], t[skip..], MAX_RUNE, [], []);
  }

  // A token's text decides the token, by its first characters.
  lemma PieceShape(p: Piece, open: bool, s: seq<char>)
    requires p.text <= s && Reads(p, open, s[|p.text|..]) && !p.token.Class?
    ensures s != [] && s[0] != '['
    ensures p == if s[0] == '*' then
                   if |s| == 1 || s[1] != '*' then Piece(Star, s[..1])
                   else if open && |s| == 2 then Piece(Remainder, s[..2])
                   else if open && s[2] == '/' then Piece(Directories, s[..3])
                   else Piece(Star, s[..2])
                 else if s[0] == '?' then Piece(Question, s[..1])
                 else if s[0] == '\\' then
                   if |s| == 1 then Piece(Literal(REPLACEMENT), s[..1]) else Piece(Literal(s[1]), s[..2])
                 else Piece(Literal(s[0]), s[..1])
  {
    var n, rest := |p.text|, s[|p.text|..];
    assert p.text == s[..n];
    assert rest != [] ==> rest[0] == s[n];
    assert forall i :: 0 <= i < n ==> p.text[i] == s[i];
  }

  lemma ClassShape(p: Piece, open: bool, s: seq<char>)
    requires p.text <= s && Reads(p, open, s[|p.text|..]) && p.token.Class?
    ensures s != [] && s[0] == '[' && ClassOf(s[1..]).Some?
    ensures p == Piece(ClassOf(s[1..]).value.0, s[..ClassOf(s[1..]).value.1 + 1])
  {
    hide ClassOf;
    ClassExtends(p.text[1..], s[1..]);
  }

  // The text at a place is read as one token only.
  lemma PieceUnique(a: Piece, b: Piece, open: bool, s: seq<char>)
    requires a.text <= s && Reads(a, open, s[|a.text|..])
    requires b.text <= s && Reads(b, open, s[|b.text|..])
    ensures a == b && a.text != []
  {
    hide ClassOf, Reads;
    ReadsFacts(a, open, s[|a.text|..]);
    if a.token.Class? {
      ClassShape(a, open, s);
    } else {
      PieceShape(a, open, s);
    }
    if b.token.Class? {
      ClassShape(b, open, s);
    } else {
      PieceShape(b, open, s);
    }
  }

  // What is read up to a piece, the piece and the text it is read from.
  lemma PieceAt(pieces: seq<Piece>, pattern: seq<char>, i: nat)
    requires ReadAll(pieces, pattern) && Joined(pieces) <= pattern && i < |pieces|
    ensures var n := |Joined(pieces[..i])|;
            && n <= |pattern| && pieces[i].text <= pattern[n..]
            && Reads(pieces[i], SegmentOpen(pieces[..i]), pattern[n..][|pieces[i].text|..])
  {
    hide Reads, SegmentOpen, Joined;
    assert ReadAt(pieces, pattern, i);
    JoinedNext(pieces, i);
    JoinedBegins(pieces, i + 1);
    var n := |Joined(pieces[..i])|;
    assert pattern[n..][|pieces[i].text|..] == pattern[|Joined(pieces[..i + 1])|..];
    assert Joined(pieces[..i + 1]) <= pattern;
    assert Joined(pieces[..i + 1])[n..] == pieces[i].text;
    assert pattern[..n + |pieces[i].text|][n..] == pieces[i].text;
  }

  lemma {:induction false} JoinedBegins(pieces: seq<Piece>, n: nat)
    requires n <= |pieces|
    ensures Joined(pieces[..n]) <= Joined(pieces)
    decreases |pieces|
  {
    if n == |pieces| {
      assert pieces[..n] == pieces;
    } else {
      JoinedBegins(pieces[..|pieces| - 1], n);
      assert pieces[..|pieces| - 1][..n] == pieces[..n];
    }
  }

  // Two readings agree as far as both go.
  lemma {:induction false} ReadingsAgree(a: seq<Piece>, b: seq<Piece>, pattern: seq<char>, n: nat)
    requires ReadAll(a, pattern) && Joined(a) <= pattern && ReadAll(b, pattern) && Joined(b) <= pattern
    requires n <= |a| && n <= |b|
    ensures a[..n] == b[..n]
    decreases n
  {
    hide ReadAll, Reads, SegmentOpen, Joined;
    if 0 < n {
      ReadingsAgree(a, b, pattern, n - 1);
      PieceAt(a, pattern, n - 1);
      PieceAt(b, pattern, n - 1);
      PieceUnique(a[n - 1], b[n - 1], SegmentOpen(a[..n - 1]), pattern[|Joined(a[..n - 1])|..]);
      assert a[..n] == a[..n - 1] + [a[n - 1]] && b[..n] == b[..n - 1] + [b[n - 1]];
    }
  }

  // A reading cannot go on from where a shorter one already spells as much text.
  lemma ReadingGrows(a: seq<Piece>, pattern: seq<char>, n: nat)
    requires ReadAll(a, pattern) && Joined(a) <= pattern && n < |a|
    ensures |Joined(a[..n])| < |Joined(a)|
  {
    hide ReadAll, Reads, SegmentOpen, Joined;
    PieceAt(a, pattern, n);
    PieceUnique(a[n], a[n], SegmentOpen(a[..n]), pattern[|Joined(a[..n])|..]);
    JoinedNext(a, n);
    JoinedBegins(a, n + 1);
  }

  // A pattern has at most one reading, so that its program is the only one.
  lemma ReadingUnique(a: seq<Piece>, b: seq<Piece>, pattern: seq<char>)
    requires ReadAll(a, pattern) && Joined(a) == pattern
    requires ReadAll(b, pattern) && Joined(b) == pattern
    ensures a == b
  {
    hide ReadAll, Joined;
    var n := if |a| <= |b| then |a| else |b|;
    ReadingsAgree(a, b, pattern, n);
    assert |a| == n ==> a[..n] == a;
    assert |b| == n ==> b[..n] == b;
    if n < |a| {
      ReadingGrows(a, pattern, n);
    }
    if n < |b| {
      ReadingGrows(b, pattern, n);
    }
  }

  // A pattern with a class that is never closed has no reading.
  lemma UnclosedUnread(pattern: seq<char>, pieces: seq<Piece>)
    requires Unclosed(pattern) && ReadAll(pieces, pattern)
    ensures Joined(pieces) != pattern
  {
    hide ReadAll, Reads, Joined, ClassOf, SegmentOpen;
    var stop :| StopsAt(stop, pattern);
    if Joined(pieces) == pattern {
      if |pieces| <= |stop| {
        ReadingsAgree(pieces, stop, pattern, |pieces|);
        assert pieces[..|pieces|] == pieces;
        JoinedBegins(stop, |pieces|);
      } else {
        var n := |stop|;
        ReadingsAgree(pieces, stop, pattern, n);
        assert stop[..n] == stop;
        PieceAt(pieces, pattern, n);
        var at := |Joined(stop)|;
        assert pattern[at..][0] == '[' && pattern[at..][1..] == pattern[at + 1..];
        if pieces[n].token.Class? {
          ClassShape(pieces[n], SegmentOpen(stop), pattern[at..]);
        } else {
          PieceShape(pieces[n], SegmentOpen(stop), pattern[at..]);
        }
      }
    }
  }
}
