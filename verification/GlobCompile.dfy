// Compiling a brace-free pattern into a program (internal/action/glob.go). What the
// doublestar library answers for the empty value is a parameter.
module GlobCompile {
  import opened Wrappers
  import opened GlobMatch
  import opened GlobComplete

  type EmptyMatch = seq<char> -> bool

  const MAX_RUNE := '\U{10FFFF}'
  const REPLACEMENT := '\U{FFFD}'

  // A token with the text it was read from.
  datatype Piece = Piece(token: Token, text: seq<char>)

  function Joined(pieces: seq<Piece>): seq<char> {
    if pieces == [] then [] else Joined(pieces[..|pieces| - 1]) + pieces[|pieces| - 1].text
  }

  function Tokens(pieces: seq<Piece>): (ts: seq<Token>)
    ensures |ts| == |pieces| && forall i :: 0 <= i < |ts| ==> ts[i] == pieces[i].token
  {
    if pieces == [] then [] else Tokens(pieces[..|pieces| - 1]) + [pieces[|pieces| - 1].token]
  }

  // Where the next token may be one of the whole-segment tokens.
  predicate SegmentOpen(pieces: seq<Piece>) {
    pieces == [] || pieces[|pieces| - 1].token == Literal('/') || pieces[|pieces| - 1].token.Directories?
  }

  predicate Special(c: char) {
    c == '*' || c == '?' || c == '[' || c == '\\'
  }

  // What the text of a token is, in the segment state and before the text it stands in.
  predicate Reads(piece: Piece, open: bool, rest: seq<char>) {
    var text := piece.text;
    match piece.token
    case Literal(c) =>
      || (text == [c] && !Special(c)) || text == ['\\', c]
      || (text == ['\\'] && rest == [] && c == REPLACEMENT)
    case Question => text == "?"
    case Star => (text == "*" && !(rest != [] && rest[0] == '*'))
                 || (text == "**" && !(open && (rest == [] || rest[0] == '/')))
    case Directories => text == "**/" && open
    case Remainder => text == "**" && open && rest == []
    case Class(_, _, _) => 2 <= |text| && text[0] == '[' && text[|text| - 1] == ']'
                           && ClassOf(text[1..]) == Some((piece.token, |text| - 1))
  }

  predicate ReadAt(pieces: seq<Piece>, pattern: seq<char>, i: nat)
    requires i < |pieces|
  {
    && |Joined(pieces[..i + 1])| <= |pattern|
    && Reads(pieces[i], SegmentOpen(pieces[..i]), pattern[|Joined(pieces[..i + 1])|..])
  }

  // What is read up to here is followed by a class that is never closed.
  predicate StopsAt(pieces: seq<Piece>, pattern: seq<char>) {
    && ReadAll(pieces, pattern) && |Joined(pieces)| < |pattern| && Joined(pieces) == pattern[..|Joined(pieces)|]
    && pattern[|Joined(pieces)|] == '[' && ClassOf(pattern[|Joined(pieces)| + 1..]).None?
  }

  ghost predicate Unclosed(pattern: seq<char>) {
    exists pieces :: StopsAt(pieces, pattern)
  }

  // Every token is the one its text and place call for.
  predicate ReadAll(pieces: seq<Piece>, pattern: seq<char>) {
    forall i :: 0 <= i < |pieces| ==> ReadAt(pieces, pattern, i)
  }

  // ------------------------------------------------------------ character classes

  datatype ClassBody = ClassBody(literals: seq<char>, ranges: seq<(char, char)>, read: nat)

  // The body of a class up to its ']': an escape takes the next character as it is,
  // and a '-' between two characters makes a range.
  function BodyOf(s: seq<char>, last: char, literals: seq<char>, ranges: seq<(char, char)>): (b: Option<ClassBody>)
    ensures b.Some? ==> 1 <= b.value.read <= |s| && s[b.value.read - 1] == ']'
    decreases |s|
  {
    if s == [] then None
    else if s[0] == ']' then Some(ClassBody(literals, ranges, 1))
    else if last < MAX_RUNE && s[0] == '-' && 1 < |s| && s[1] != ']' then
      var at := if s[1] == '\\' then 2 else 1;
      if |s| <= at then None
      else
        Shift(BodyOf(s[at + 1..], MAX_RUNE, literals, if last <= s[at] then ranges + [(last, s[at])] else ranges),
              at + 1)
    else
      var at := if s[0] == '\\' then 1 else 0;
      if |s| <= at then None
      else Shift(BodyOf(s[at + 1..], s[at], literals + [s[at]], ranges), at + 1)
  }

  function Shift(b: Option<ClassBody>, n: nat): Option<ClassBody> {
    if b.None? then None else Some(b.value.(read := b.value.read + n))
  }

  // The class after its '[', with the length of its text.
  function ClassOf(s: seq<char>): (c: Option<(Token, nat)>)
    ensures c.Some? ==> 1 <= c.value.1 <= |s| && s[c.value.1 - 1] == ']' && c.value.0.Class?
  {
    var negated := s != [] && (s[0] == '!' || s[0] == '^');
    var skip := if negated then 1 else 0;
    match BodyOf(s[skip..], MAX_RUNE, [], [])
    case None => None
    case Some(b) => Some((Class(negated, b.literals, b.ranges), b.read + skip))
  }

  // A class reads no further than its ']'.
  lemma {:induction false} BodyPrefix(s: seq<char>, n: nat, last: char, literals: seq<char>, ranges: seq<(char, char)>)
    requires BodyOf(s, last, literals, ranges).Some? && n == BodyOf(s, last, literals, ranges).value.read
    ensures BodyOf(s[..n], last, literals, ranges) == BodyOf(s, last, literals, ranges)
    decreases |s|
  {
    hide BodyOf;
    BodyNotEmpty(s, last, literals, ranges);
    if s[0] == ']' {
      BodyCloses(s, last, literals, ranges);
      BodyCloses(s[..n], last, literals, ranges);
    } else {
      BodyStep(s, last, literals, ranges);
      BodyStep(s[..n], last, literals, ranges);
      if last < MAX_RUNE && s[0] == '-' && 1 < |s| && s[1] != ']' {
        var at := if s[1] == '\\' then 2 else 1;
        BodyPrefix(s[at + 1..], n - (at + 1), MAX_RUNE, literals,
                   if last <= s[at] then ranges + [(last, s[at])] else ranges);
        assert s[at + 1..][..n - (at + 1)] == s[..n][at + 1..];
      } else {
        var at := if s[0] == '\\' then 1 else 0;
        BodyPrefix(s[at + 1..], n - (at + 1), s[at], literals + [s[at]], ranges);
        assert s[at + 1..][..n - (at + 1)] == s[..n][at + 1..];
      }
    }
  }

  lemma BodyNotEmpty(s: seq<char>, last: char, literals: seq<char>, ranges: seq<(char, char)>)
    ensures BodyOf(s, last, literals, ranges).Some? ==> s != []
  {
  }

  lemma BodyCloses(s: seq<char>, last: char, literals: seq<char>, ranges: seq<(char, char)>)
    requires s != [] && s[0] == ']'
    ensures BodyOf(s, last, literals, ranges) == Some(ClassBody(literals, ranges, 1))
  {
  }

  // One character of a class body, or one range.
  lemma BodyStep(s: seq<char>, last: char, literals: seq<char>, ranges: seq<(char, char)>)
    requires s != [] && s[0] != ']'
    ensures var range := last < MAX_RUNE && s[0] == '-' && 1 < |s| && s[1] != ']';
            var at := if range then (if s[1] == '\\' then 2 else 1) else (if s[0] == '\\' then 1 else 0);
            BodyOf(s, last, literals, ranges) ==
            if |s| <= at then None
            else if range then
              Shift(BodyOf(s[at + 1..], MAX_RUNE, literals,
                           if last <= s[at] then ranges + [(last, s[at])] else ranges), at + 1)
            else
              Shift(BodyOf(s[at + 1..], s[at], literals + [s[at]], ranges), at + 1)
  {
  }

  lemma ClassPrefix(s: seq<char>)
    requires ClassOf(s).Some?
    ensures ClassOf(s[..ClassOf(s).value.1]) == ClassOf(s)
  {
    var negated := s != [] && (s[0] == '!' || s[0] == '^');
    var skip := if negated then 1 else 0;
    var n := ClassOf(s).value.1;
    BodyPrefix(s[skip..], n - skip, MAX_RUNE, [], []);
    assert s[skip..][..n - skip] == s[..n][skip..];
  }

  predicate Plain(c: char) {
    c != ']' && c != '-' && c != '\\' && c != '!' && c != '^'
  }

  // A class of plain characters accepts exactly these.
  lemma {:induction false} PlainBody(cs: seq<char>, last: char, literals: seq<char>)
    requires forall i :: 0 <= i < |cs| ==> Plain(cs[i])
    ensures BodyOf(cs + "]", last, literals, []) == Some(ClassBody(literals + cs, [], |cs| + 1))
    decreases |cs|
  {
    if cs != [] {
      PlainBody(cs[1..], cs[0], literals + [cs[0]]);
      assert (cs + "]")[1..] == cs[1..] + "]";
      assert literals + [cs[0]] + cs[1..] == literals + cs;
    } else {
      assert literals + cs == literals;
    }
  }

  lemma PlainClassAccepts(cs: seq<char>, c: char)
    requires forall i :: 0 <= i < |cs| ==> Plain(cs[i])
    ensures ClassOf(cs + "]").Some? && ClassOf("!" + cs + "]").Some?
    ensures Accepts(ClassOf(cs + "]").value.0, c) <==> c in cs
    ensures Accepts(ClassOf("!" + cs + "]").value.0, c) <==> c !in cs
  {
    hide BodyOf, Accepts;
    PlainBody(cs, MAX_RUNE, []);
    assert [] + cs == cs;
    assert (cs + "]")[0..] == cs + "]";
    assert ("!" + cs + "]")[1..] == cs + "]";
    AcceptsListed(false, cs, c);
    AcceptsListed(true, cs, c);
  }

  lemma AcceptsListed(negated: bool, cs: seq<char>, c: char)
    ensures Accepts(Class(negated, cs, []), c) <==> (c in cs) != negated
  {
  }

  // A class of one range accepts exactly the range; the lower end is accepted even
  // when the range is empty.
  lemma RangeClassAccepts(low: char, high: char, c: char)
    requires Plain(low) && low < MAX_RUNE && Plain(high)
    ensures ClassOf([low, '-', high, ']']).Some?
    ensures Accepts(ClassOf([low, '-', high, ']']).value.0, c) <==> c == low || low <= c <= high
  {
    var s := [low, '-', high, ']'];
    var t := ['-', high, ']'];
    assert s[0..] == s && s[1..] == t && t[2..] == [']'];
    assert [] + [low] == [low] && [] + [(low, high)] == [(low, high)];
    var ranges := if low <= high then [(low, high)] else [];
    assert BodyOf([']'], MAX_RUNE, [low], ranges) == Some(ClassBody([low], ranges, 1));
    assert BodyOf(t, low, [low], []) == Some(ClassBody([low], ranges, 3));
    assert low <= high ==> (low, high) in ranges;
  }

  // One character of a class body, or one range, at its place in the pattern.
  lemma BodyAt(pattern: seq<char>, i: nat, last: char, literals: seq<char>, ranges: seq<(char, char)>)
    requires i < |pattern| && pattern[i] != ']'
    ensures var range := last < MAX_RUNE && pattern[i] == '-' && i + 1 < |pattern| && pattern[i + 1] != ']';
            var at := if range then (if pattern[i + 1] == '\\' then i + 2 else i + 1)
                      else (if pattern[i] == '\\' then i + 1 else i);
            BodyOf(pattern[i..], last, literals, ranges) ==
            if |pattern| <= at then None
            else if range then
              Shift(BodyOf(pattern[at + 1..], MAX_RUNE, literals,
                           if last <= pattern[at] then ranges + [(last, pattern[at])] else ranges), at + 1 - i)
            else
              Shift(BodyOf(pattern[at + 1..], pattern[at], literals + [pattern[at]], ranges), at + 1 - i)
  {
    var s := pattern[i..];
    assert 1 < |s| ==> s[1] == pattern[i + 1];
    assert s[1..] == pattern[i + 1..];
    assert 2 <= |s| ==> s[2..] == pattern[i + 2..];
    assert 3 <= |s| ==> s[3..] == pattern[i + 3..];
  }

  lemma BodyEnd(pattern: seq<char>, i: nat, last: char, literals: seq<char>, ranges: seq<(char, char)>)
    requires i <= |pattern| && (i == |pattern| || pattern[i] == ']')
    ensures BodyOf(pattern[i..], last, literals, ranges)
         == if i == |pattern| then None else Some(ClassBody(literals, ranges, 1))
  {
  }

  // Reading a class in place (compileGlobClass): the end of its body, then the class.
  method CompileBody(pattern: seq<char>, from: nat) returns (body: Option<ClassBody>)
    requires from <= |pattern|
    ensures body == BodyOf(pattern[from..], MAX_RUNE, [], [])
  {
    hide BodyOf;
    var index, last := from, MAX_RUNE;
    var literals: seq<char>, ranges: seq<(char, char)> := [], [];
    ghost var whole := BodyOf(pattern[from..], MAX_RUNE, [], []);
    while index < |pattern| && pattern[index] != ']'
      invariant from <= index <= |pattern|
      invariant whole == Shift(BodyOf(pattern[index..], last, literals, ranges), index - from)
      decreases |pattern| - index
    {
      BodyAt(pattern, index, last, literals, ranges);
      var character := pattern[index];
      index := index + 1;
      if last < MAX_RUNE && character == '-' && index < |pattern| && pattern[index] != ']' {
        if pattern[index] == '\\' {
          index := index + 1;
        }
        if index == |pattern| {
          return None;
        }
        if last <= pattern[index] {
          ranges := ranges + [(last, pattern[index])];
        }
        last := MAX_RUNE;
      } else {
        if character == '\\' {
          if index == |pattern| {
            return None;
          }
          character := pattern[index];
          index := index + 1;
        }
        literals := literals + [character];
        last := character;
        continue;
      }
      index := index + 1;
    }
    BodyEnd(pattern, index, last, literals, ranges);
    if index == |pattern| {
      return None;
    }
    return Some(ClassBody(literals, ranges, index + 1 - from));
  }

  method CompileClass(pattern: seq<char>, start: nat) returns (read: Option<(Token, nat)>)
    requires start < |pattern| && pattern[start] == '['
    ensures read == match ClassOf(pattern[start + 1..])
                    case None => None
                    case Some(c) => Some((c.0, start + 1 + c.1))
  {
    hide BodyOf;
    var negated := start + 1 < |pattern| && (pattern[start + 1] == '!' || pattern[start + 1] == '^');
    var from := if negated then start + 2 else start + 1;
    assert pattern[start + 1..][from - start - 1..] == pattern[from..];
    var body := CompileBody(pattern, from);
    if body.None? {
      return None;
    }
    return Some((Class(negated, body.value.literals, body.value.ranges), from + body.value.read));
  }

  // ------------------------------------------------------------------- programs

  // One token at its place. None is a class that is never closed.
  method CompileToken(pattern: seq<char>, index: nat, open: bool) returns (piece: Option<Piece>)
    requires index < |pattern|
    ensures piece.None? ==> pattern[index] == '[' && ClassOf(pattern[index + 1..]).None?
    ensures piece.Some? ==>
              && 1 <= |piece.value.text| <= |pattern| - index
              && piece.value.text == pattern[index..index + |piece.value.text|]
              && Reads(piece.value, open, pattern[index + |piece.value.text|..])
  {
    hide ClassOf;
    var c := pattern[index];
    if c == '*' {
      if index + 1 < |pattern| && pattern[index + 1] == '*' {
        if open && index + 2 == |pattern| {
          return Some(Piece(Remainder, pattern[index..index + 2]));
        }
        if open && index + 2 < |pattern| && pattern[index + 2] == '/' {
          return Some(Piece(Directories, pattern[index..index + 3]));
        }
        return Some(Piece(Star, pattern[index..index + 2]));
      }
      return Some(Piece(Star, pattern[index..index + 1]));
    }
    if c == '?' {
      return Some(Piece(Question, pattern[index..index + 1]));
    }
    if c == '[' {
      var read := CompileClass(pattern, index);
      if read.None? {
        return None;
      }
      ClassPiece(pattern, index, read.value.0, read.value.1);
      return Some(Piece(read.value.0, pattern[index..read.value.1]));
    }
    if c == '\\' {
      if index + 1 == |pattern| {
        return Some(Piece(Literal(REPLACEMENT), pattern[index..index + 1]));
      }
      return Some(Piece(Literal(pattern[index + 1]), pattern[index..index + 2]));
    }
    return Some(Piece(Literal(c), pattern[index..index + 1]));
  }

  lemma ClassPiece(pattern: seq<char>, index: nat, token: Token, next: nat)
    requires index < |pattern| && pattern[index] == '[' && ClassOf(pattern[index + 1..]).Some?
    requires ClassOf(pattern[index + 1..]).value == (token, next - index - 1) && index < next <= |pattern|
    ensures Reads(Piece(token, pattern[index..next]), true, pattern[next..])
    ensures Reads(Piece(token, pattern[index..next]), false, pattern[next..])
  {
    hide ClassOf;
    ClassEnds(pattern[index + 1..]);
    ClassPrefix(pattern[index + 1..]);
    assert pattern[index..next][1..] == pattern[index + 1..][..next - index - 1];
  }

  lemma ClassEnds(s: seq<char>)
    requires ClassOf(s).Some?
    ensures ClassOf(s).value.0.Class? && 1 <= ClassOf(s).value.1 <= |s| && s[ClassOf(s).value.1 - 1] == ']'
  {
  }

  datatype Compiled = Compiled(program: Program, pieces: seq<Piece>)

  // zero[i] is the library's answer for the text from token i on, and true at the end.
  predicate ZeroTable(zero: seq<bool>, pieces: seq<Piece>, pattern: seq<char>, emptyMatch: EmptyMatch) {
    && |zero| == |pieces| + 1 && zero[|pieces|]
    && forall i :: 0 <= i < |pieces| ==>
         |Joined(pieces[..i])| <= |pattern| && zero[i] == emptyMatch(pattern[|Joined(pieces[..i])|..])
  }

  lemma ReadOneMore(pieces: seq<Piece>, piece: Piece, pattern: seq<char>)
    requires ReadAll(pieces, pattern)
    requires |Joined(pieces)| + |piece.text| <= |pattern|
    requires Reads(piece, SegmentOpen(pieces), pattern[|Joined(pieces)| + |piece.text|..])
    ensures ReadAll(pieces + [piece], pattern) && Joined(pieces + [piece]) == Joined(pieces) + piece.text
    ensures Tokens(pieces + [piece]) == Tokens(pieces) + [piece.token]
  {
    hide Reads, SegmentOpen, Joined, ReadAt;
    var more := pieces + [piece];
    assert more[..|pieces|] == pieces && more[..|pieces| + 1] == more;
    JoinedOne(pieces, piece);
    forall i | 0 <= i < |more|
      ensures ReadAt(more, pattern, i)
    {
      if i < |pieces| {
        assert more[..i] == pieces[..i] && more[..i + 1] == pieces[..i + 1];
        assert ReadAt(pieces, pattern, i);
        ReadSame(pieces, more, pattern, i);
      } else {
        ReadLast(pieces, piece, pattern);
      }
    }
  }

  lemma JoinedOne(pieces: seq<Piece>, piece: Piece)
    ensures Joined(pieces + [piece]) == Joined(pieces) + piece.text
    ensures Tokens(pieces + [piece]) == Tokens(pieces) + [piece.token]
  {
    assert (pieces + [piece])[..|pieces|] == pieces;
  }

  lemma ReadSame(a: seq<Piece>, b: seq<Piece>, pattern: seq<char>, i: nat)
    requires i < |a| && i < |b| && a[i] == b[i] && a[..i] == b[..i] && a[..i + 1] == b[..i + 1]
    requires ReadAt(a, pattern, i)
    ensures ReadAt(b, pattern, i)
  {
    hide Reads, SegmentOpen, Joined;
  }

  lemma ReadLast(pieces: seq<Piece>, piece: Piece, pattern: seq<char>)
    requires |Joined(pieces)| + |piece.text| <= |pattern|
    requires Reads(piece, SegmentOpen(pieces), pattern[|Joined(pieces)| + |piece.text|..])
    ensures ReadAt(pieces + [piece], pattern, |pieces|)
  {
    hide Reads, SegmentOpen, Joined;
    var more := pieces + [piece];
    assert more[..|pieces|] == pieces && more[..|pieces| + 1] == more;
    JoinedOne(pieces, piece);
  }

  // Whatever the grammar reads is aligned, and nothing follows a Remainder.
  lemma ReadAligned(pieces: seq<Piece>, pattern: seq<char>)
    requires ReadAll(pieces, pattern) && Joined(pieces) == pattern
    ensures Aligned(Tokens(pieces))
    ensures forall i :: 0 <= i < |pieces| - 1 ==> !pieces[i].token.Remainder?
  {
    hide ReadAll, ReadAt, Reads, Joined;
    forall i | 0 < i < |pieces| && pieces[i].token.Directories?
      ensures pieces[i - 1].token == Literal('/') || pieces[i - 1].token.Directories?
    {
      DirectoriesOpen(pieces, pattern, i);
    }
    forall i | 0 <= i < |pieces| - 1
      ensures !pieces[i].token.Remainder?
    {
      RemainderEnds(pieces, pattern, i);
    }
  }

  lemma DirectoriesOpen(pieces: seq<Piece>, pattern: seq<char>, i: nat)
    requires ReadAll(pieces, pattern) && 0 < i < |pieces| && pieces[i].token.Directories?
    ensures pieces[i - 1].token == Literal('/') || pieces[i - 1].token.Directories?
  {
    hide ClassOf, Joined;
    assert ReadAt(pieces, pattern, i);
    assert pieces[..i][i - 1] == pieces[i - 1];
  }

  lemma RemainderEnds(pieces: seq<Piece>, pattern: seq<char>, i: nat)
    requires ReadAll(pieces, pattern) && Joined(pieces) == pattern && i < |pieces| - 1
    ensures !pieces[i].token.Remainder?
  {
    hide Reads, SegmentOpen, Joined;
    assert ReadAt(pieces, pattern, i) && ReadAt(pieces, pattern, i + 1);
    ReadsFacts(pieces[i], SegmentOpen(pieces[..i]), pattern[|Joined(pieces[..i + 1])|..]);
    ReadsFacts(pieces[i + 1], SegmentOpen(pieces[..i + 1]), pattern[|Joined(pieces[..i + 2])|..]);
    JoinedNext(pieces, i + 1);
    JoinedGrows(pieces, i + 2);
  }

  lemma ReadsFacts(piece: Piece, open: bool, rest: seq<char>)
    requires Reads(piece, open, rest)
    ensures 0 < |piece.text|
    ensures piece.token.Remainder? ==> rest == []
  {
    hide ClassOf;
  }

  lemma JoinedNext(pieces: seq<Piece>, i: nat)
    requires i < |pieces|
    ensures Joined(pieces[..i + 1]) == Joined(pieces[..i]) + pieces[i].text
  {
    assert pieces[..i + 1][..i] == pieces[..i];
  }

  lemma {:induction false} JoinedGrows(pieces: seq<Piece>, n: nat)
    requires n <= |pieces|
    ensures |Joined(pieces[..n])| <= |Joined(pieces)|
    decreases |pieces|
  {
    if n == |pieces| {
      assert pieces[..n] == pieces;
    } else {
      JoinedGrows(pieces[..|pieces| - 1], n);
      assert pieces[..|pieces| - 1][..n] == pieces[..n];
    }
  }

  // Compiling a pattern (compileGlobProgram): the tokens spell the whole pattern, each
  // is the one its place calls for, and the program has the shape the search needs.
  method CompileProgram(pattern: seq<char>, emptyMatch: EmptyMatch) returns (out: Option<Compiled>)
    ensures out.None? ==> Unclosed(pattern)
    ensures out.Some? ==>
              var c := out.value;
              && WellFormed(c.program) && c.program.tokens == Tokens(c.pieces)
              && Joined(c.pieces) == pattern && ReadAll(c.pieces, pattern)
              && ZeroTable(c.program.zero, c.pieces, pattern, emptyMatch)
              && Aligned(c.program.tokens)
  {
    hide *;
    NothingRead(pattern);
    var pieces: seq<Piece>, tokens: seq<Token>, index, startOfSegment := [], [], 0, true;
    while index < |pattern|
      invariant index <= |pattern| && Joined(pieces) == pattern[..index]
      invariant tokens == Tokens(pieces) && ReadAll(pieces, pattern)
      invariant startOfSegment == SegmentOpen(pieces)
      decreases |pattern| - index
    {
      var piece := CompileToken(pattern, index, startOfSegment);
      if piece.None? {
        StopsUnclosed(pieces, pattern, index);
        return None;
      }
      PieceRead(pieces, piece.value, pattern, index);
      pieces, tokens := pieces + [piece.value], tokens + [piece.value.token];
      index := index + |piece.value.text|;
      startOfSegment := piece.value.token == Literal('/') || piece.value.token.Directories?;
    }
    assert pattern[..index] == pattern;
    var zero := ZerosOf(pieces, pattern, emptyMatch);
    ReadAligned(pieces, pattern);
    ProgramFormed(pieces, zero, pattern, emptyMatch);
    return Some(Compiled(Program(tokens, zero), pieces));
  }

  lemma StopsUnclosed(pieces: seq<Piece>, pattern: seq<char>, index: nat)
    requires index < |pattern| && ReadAll(pieces, pattern) && Joined(pieces) == pattern[..index]
    requires pattern[index] == '[' && ClassOf(pattern[index + 1..]).None?
    ensures Unclosed(pattern)
  {
    hide ReadAll, ClassOf, Joined;
    assert StopsAt(pieces, pattern);
  }

  lemma NothingRead(pattern: seq<char>)
    ensures ReadAll([], pattern) && Joined([]) == [] && Tokens([]) == [] && SegmentOpen([])
  {
  }

  lemma PieceRead(pieces: seq<Piece>, piece: Piece, pattern: seq<char>, index: nat)
    requires ReadAll(pieces, pattern) && index + |piece.text| <= |pattern| && Joined(pieces) == pattern[..index]
    requires piece.text == pattern[index..index + |piece.text|]
    requires Reads(piece, SegmentOpen(pieces), pattern[index + |piece.text|..])
    ensures ReadAll(pieces + [piece], pattern) && Joined(pieces + [piece]) == pattern[..index + |piece.text|]
    ensures Tokens(pieces + [piece]) == Tokens(pieces) + [piece.token]
    ensures SegmentOpen(pieces + [piece]) == (piece.token == Literal('/') || piece.token.Directories?)
  {
    hide Reads, ReadAll, Joined;
    ReadOneMore(pieces, piece, pattern);
  }

  lemma ProgramFormed(pieces: seq<Piece>, zero: seq<bool>, pattern: seq<char>, emptyMatch: EmptyMatch)
    requires ZeroTable(zero, pieces, pattern, emptyMatch)
    ensures WellFormed(Program(Tokens(pieces), zero))
  {
    hide Joined;
  }

  method ZerosOf(pieces: seq<Piece>, pattern: seq<char>, emptyMatch: EmptyMatch) returns (zero: seq<bool>)
    requires Joined(pieces) == pattern
    ensures ZeroTable(zero, pieces, pattern, emptyMatch)
  {
    zero := [];
    for index := 0 to |pieces|
      invariant |zero| == index
      invariant forall i :: 0 <= i < index ==>
                  |Joined(pieces[..i])| <= |pattern| && zero[i] == emptyMatch(pattern[|Joined(pieces[..i])|..])
    {
      JoinedGrows(pieces, index);
      zero := zero + [emptyMatch(pattern[|Joined(pieces[..index])|..])];
    }
    zero := zero + [true];
  }
}
