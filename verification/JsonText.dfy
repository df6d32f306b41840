// JSON texts as the token decoder behind internal/action/value.go reads them: the
// tokens of RFC 8259 and its grammar of separators. Texts are code points, so a lone
// surrogate can only come from an escape, and is refused.
module JsonText {
  import opened Wrappers
  import opened Decimal
  import opened JsonValue
  import opened JsonRead
  import opened JsonLimits
  import opened JsonCodec
  import DecimalParse

  // --------------------------------------------------------------------- strings

  function HexValue(c: char): (n: Option<nat>)
    ensures n.Some? ==> n.value < 16
  {
    if '0' <= c <= '9' then Some(c as int - '0' as int)
    else if 'a' <= c <= 'f' then Some(c as int - 'a' as int + 10)
    else if 'A' <= c <= 'F' then Some(c as int - 'A' as int + 10)
    else None
  }

  // The UTF-16 unit that four hexadecimal digits write.
  function CodeUnit(s: string): (n: Option<nat>)
    ensures n.Some? ==> n.value < 0x10000 && 4 <= |s|
  {
    if |s| < 4 || HexValue(s[0]).None? || HexValue(s[1]).None? || HexValue(s[2]).None? || HexValue(s[3]).None? then None
    else
      Some(4096 * HexValue(s[0]).value + 256 * HexValue(s[1]).value + 16 * HexValue(s[2]).value + HexValue(s[3]).value)
  }

  // The code point after "\u", which may need a second unit, and the text after it.
  function UnicodeEscape(s: string): (r: Option<(char, string)>)
    ensures r.Some? ==> |r.value.1| < |s|
  {
    var unit := CodeUnit(s);
    if unit.None? then None
    else if unit.value < 0xD800 || 0xE000 <= unit.value then Some((unit.value as char, s[4..]))
    else
      var low := if 6 <= |s| && s[4] == '\\' && s[5] == 'u' then CodeUnit(s[6..]) else None;
      if 0xDC00 <= unit.value || low.None? || low.value < 0xDC00 || 0xE000 <= low.value then None
      else Some(((0x10000 + (unit.value - 0xD800) * 0x400 + (low.value - 0xDC00)) as char, s[10..]))
  }

  // The code point after a backslash.
  function Unescape(s: string): (r: Option<(char, string)>)
    ensures r.Some? ==> |r.value.1| < |s|
  {
    if s == "" then None
    else
      match s[0]
      case '"' => Some(('"', s[1..]))
      case '\\' => Some(('\\', s[1..]))
      case '/' => Some(('/', s[1..]))
      case 'b' => Some(('\U{8}', s[1..]))
      case 'f' => Some(('\U{C}', s[1..]))
      case 'n' => Some(('\n', s[1..]))
      case 'r' => Some(('\r', s[1..]))
      case 't' => Some(('\t', s[1..]))
      case 'u' => UnicodeEscape(s[1..])
      case _ => None
  }

  function CodePoint(s: string): (r: Option<(char, string)>)
    ensures r.Some? ==> |r.value.1| < |s|
  {
    if s == "" || s[0] < ' ' then None
    else if s[0] == '\\' then Unescape(s[1..])
    else Some((s[0], s[1..]))
  }

  // The string up to the closing quote, and the text after the quote.
  function Content(s: string): (r: Option<(string, string)>)
    ensures r.Some? ==> |r.value.1| < |s|
  {
    if s != "" && s[0] == '"' then Some(("", s[1..]))
    else
      match CodePoint(s)
      case None => None
      case Some((c, left)) =>
        match Content(left)
        case None => None
        case Some((text, rest)) => Some(([c] + text, rest))
  }

  lemma HexReads(n: nat)
    requires n < 16
    ensures HexValue(HexDigit(n)) == Some(n)
  {
  }

  lemma HexDigitsAdd(n: nat)
    requires n < 0x10000
    ensures 4096 * (n / 4096 % 16) + 256 * (n / 256 % 16) + 16 * (n / 16 % 16) + n % 16 == n
  {
    var q := n / 16;
    assert n == 16 * q + n % 16;
    var p := q / 16;
    assert q == 16 * p + q % 16 && n / 256 == p;
    assert p == 16 * (p / 16) + p % 16 && n / 4096 == p / 16;
  }

  lemma FourReads(a: nat, b: nat, c: nat, d: nat, rest: string)
    requires a < 16 && b < 16 && c < 16 && d < 16
    ensures CodeUnit([HexDigit(a), HexDigit(b), HexDigit(c), HexDigit(d)] + rest)
         == Some(4096 * a + 256 * b + 16 * c + d)
  {
    hide HexDigit, HexValue;
    HexReads(a);
    HexReads(b);
    HexReads(c);
    HexReads(d);
  }

  lemma UnitReads(n: nat, rest: string)
    requires n < 0x10000
    ensures CodeUnit([HexDigit(n / 4096 % 16), HexDigit(n / 256 % 16), HexDigit(n / 16 % 16), HexDigit(n % 16)] + rest)
         == Some(n)
  {
    hide HexDigit, CodeUnit;
    FourReads(n / 4096 % 16, n / 256 % 16, n / 16 % 16, n % 16, rest);
    HexDigitsAdd(n);
  }

  // Unescaping inverts the printer's escapes.
  lemma EscapedReads(c: char, rest: string)
    ensures CodePoint(Escaped(c) + rest) == Some((c, rest)) && Escaped(c)[0] != '"'
  {
    hide CodeUnit, HexDigit;
    if !ShortEscape(c) && (HtmlUnsafe(c) || c < ' ') {
      var n := c as int;
      var digits := [HexDigit(n / 4096 % 16), HexDigit(n / 256 % 16), HexDigit(n / 16 % 16), HexDigit(n % 16)];
      UnitReads(n, rest);
      assert (Escaped(c) + rest)[1..][1..] == digits + rest;
      assert (digits + rest)[4..] == rest;
    } else if ShortEscape(c) {
      assert (Escaped(c) + rest)[1..] == [EscapeLetter(c)] + rest;
    } else {
      assert (Escaped(c) + rest)[1..] == rest;
    }
  }

  lemma {:induction false} EscapedFirst(c: char, s: string)
    ensures EscapedAll([c] + s) == Escaped(c) + EscapedAll(s)
    decreases |s|
  {
    hide Escaped;
    if s == "" {
      assert [c] + s == [c] && [c][..0] == "";
    } else {
      EscapedFirst(c, s[..|s| - 1]);
      assert ([c] + s)[..|s|] == [c] + s[..|s| - 1];
    }
  }

  // The printed form of a string is read back, whatever follows it.
  lemma {:induction false} QuotedReads(s: string, rest: string)
    ensures Content(EscapedAll(s) + "\"" + rest) == Some((s, rest))
    decreases |s|
  {
    hide Escaped, CodePoint;
    if s == "" {
      assert ("\"" + rest)[1..] == rest;
      assert EscapedAll(s) + "\"" + rest == "\"" + rest;
    } else {
      assert s == [s[0]] + s[1..];
      EscapedFirst(s[0], s[1..]);
      var left := EscapedAll(s[1..]) + "\"" + rest;
      assert EscapedAll(s) + "\"" + rest == Escaped(s[0]) + left;
      EscapedReads(s[0], left);
      QuotedReads(s[1..], rest);
      ContentStep(Escaped(s[0]) + left, s[0], left, s[1..], rest);
    }
  }

  lemma ContentStep(s: string, c: char, left: string, text: string, rest: string)
    requires s != "" && s[0] != '"' && CodePoint(s) == Some((c, left)) && Content(left) == Some((text, rest))
    ensures Content(s) == Some(([c] + text, rest))
  {
    hide CodePoint;
  }

  // So no two strings have one printed form.
  lemma EscapesApart(a: string, b: string)
    requires EscapedAll(a) == EscapedAll(b)
    ensures a == b
  {
    hide EscapedAll, Content;
    QuotedReads(a, "");
    QuotedReads(b, "");
  }

  // ---------------------------------------------------------------------- tokens

  predicate Space(c: char) {
    c == ' ' || c == '\t' || c == '\n' || c == '\r'
  }

  predicate Mark(c: char) {
    c in "[]{},:"
  }

  predicate NumberChar(c: char) {
    Digit(c) || c in "+-.eE"
  }

  // How far a number reaches; whether it is one is the number parser's matter.
  function NumberRun(s: string): (n: nat)
    ensures n <= |s|
  {
    if s == "" || !NumberChar(s[0]) then 0 else 1 + NumberRun(s[1..])
  }

  function Token(s: string): (r: Option<(Piece, string)>)
    requires s != ""
    ensures r.Some? ==> |r.value.1| < |s|
  {
    if Mark(s[0]) then Some((Punct(s[0]), s[1..]))
    else if s[0] == '"' then (
      match Content(s[1..])
      case None => None
      case Some((text, rest)) => Some((Quoted(text), rest))
    )
    else if s[0] == '-' || Digit(s[0]) then Some((NumberText(s[..NumberRun(s)]), s[NumberRun(s)..]))
    else if "null" <= s then Some((Word("null"), s[4..]))
    else if "true" <= s then Some((Word("true"), s[4..]))
    else if "false" <= s then Some((Word("false"), s[5..]))
    else None
  }

  function Tokens(s: string): Option<seq<Piece>>
    decreases |s|
  {
    if s == "" then Some([])
    else if Space(s[0]) then Tokens(s[1..])
    else
      match Token(s)
      case None => None
      case Some((p, rest)) =>
        match Tokens(rest)
        case None => None
        case Some(ps) => Some([p] + ps)
  }

  // A piece whose text is one token.
  predicate Proper(p: Piece) {
    match p
    case Punct(mark) => Mark(mark)
    case Quoted(_) => true
    case NumberText(lexeme) =>
      lexeme != "" && (lexeme[0] == '-' || Digit(lexeme[0])) && forall i :: 0 <= i < |lexeme| ==> NumberChar(lexeme[i])
    case Word(word) => word in {"null", "true", "false"}
  }

  // A number ends where no character of a number follows.
  predicate Ends(p: Piece, rest: string) {
    p.NumberText? && rest != "" ==> !NumberChar(rest[0])
  }

  predicate Proceeds(ps: seq<Piece>) {
    && (forall i :: 0 <= i < |ps| ==> Proper(ps[i]))
    && (forall i :: 0 < i < |ps| && ps[i - 1].NumberText? ==> ps[i].Punct?)
  }

  lemma {:induction false} RunStops(lexeme: string, rest: string)
    requires (forall i :: 0 <= i < |lexeme| ==> NumberChar(lexeme[i])) && (rest == "" || !NumberChar(rest[0]))
    ensures NumberRun(lexeme + rest) == |lexeme|
    decreases |lexeme|
  {
    if lexeme == "" {
      assert lexeme + rest == rest;
    } else {
      assert (lexeme + rest)[1..] == lexeme[1..] + rest;
      RunStops(lexeme[1..], rest);
    }
  }

  lemma TokenReads(p: Piece, rest: string)
    requires Proper(p) && Ends(p, rest)
    ensures PieceText(p) != "" && !Space(PieceText(p)[0])
    ensures Token(PieceText(p) + rest) == Some((p, rest))
  {
    hide Content, EscapedAll, NumberRun;
    var s := PieceText(p) + rest;
    match p
    case Punct(mark) => assert s[1..] == rest;
    case Quoted(text) =>
      QuotedReads(text, rest);
      assert s[1..] == EscapedAll(text) + "\"" + rest;
    case NumberText(lexeme) =>
      RunStops(lexeme, rest);
      assert s[..|lexeme|] == lexeme && s[|lexeme|..] == rest;
    case Word(word) => WordReads(word, rest);
  }

  lemma WordReads(word: string, rest: string)
    requires word in {"null", "true", "false"}
    ensures word + rest != "" && Token(word + rest) == Some((Word(word), rest))
  {
    var s := word + rest;
    assert word <= s && s[|word|..] == rest && s[0] == word[0];
  }

  // The tokens of a rendered text are the pieces it was rendered from.
  lemma {:induction false} RenderReads(ps: seq<Piece>)
    requires Proceeds(ps)
    ensures Tokens(Render(ps)) == Some(ps)
    decreases |ps|
  {
    hide Proper, PieceText, Token, Space, NumberChar;
    if ps != [] {
      var rest := Render(ps[1..]);
      assert Proceeds(ps[1..]) by {
        assert forall i :: 0 <= i < |ps| - 1 ==> ps[1..][i] == ps[i + 1];
      }
      RenderReads(ps[1..]);
      RestEnds(ps);
      TokenReads(ps[0], rest);
      assert ps == [ps[0]] + ps[1..];
    }
  }

  lemma RestEnds(ps: seq<Piece>)
    requires Proceeds(ps) && ps != []
    ensures Ends(ps[0], Render(ps[1..]))
  {
    if 1 < |ps| {
      assert ps[1..][0] == ps[1] && Proper(ps[1]);
    }
  }

  // ------------------------------------------------------------- printed pieces

  lemma NumberProper(d: Decimal)
    requires Canonical(d)
    ensures Proper(NumberText(DecimalParse.Print(d)))
  {
    hide DecimalParse.WholeText;
    DecimalParse.PrintedLength(d);
    DecimalParse.WholeTextFacts(if d.exponent < 0 then -d.exponent else d.exponent);
  }

  lemma ProceedsConcat(a: seq<Piece>, b: seq<Piece>)
    requires Proceeds(a) && Proceeds(b)
    requires a != [] && b != [] && a[|a| - 1].NumberText? ==> b[0].Punct?
    ensures Proceeds(a + b)
  {
    hide Proper;
  }

  lemma {:induction false} PrintProceeds(v: Value)
    requires Numerals(v)
    ensures Proceeds(Print(v))
    decreases v, 1
  {
    hide Canonical, DecimalParse.Print;
    match v
    case Number(d) => NumberProper(d);
    case Array(vs) =>
      ItemsProceed(vs);
      Enclosed('[', PrintItems(vs), ']');
    case Object(ms) =>
      MembersProceed(ms);
      Enclosed('{', PrintMembers(ms), '}');
    case _ =>
  }

  lemma Enclosed(open: char, inner: seq<Piece>, close: char)
    requires Mark(open) && Mark(close) && Proceeds(inner)
    ensures Proceeds([Punct(open)] + inner + [Punct(close)])
  {
    ProceedsConcat([Punct(open)], inner);
    ProceedsConcat([Punct(open)] + inner, [Punct(close)]);
  }

  lemma {:induction false} ItemsProceed(vs: seq<Value>)
    requires forall i :: 0 <= i < |vs| ==> Numerals(vs[i])
    ensures Proceeds(PrintItems(vs))
    decreases vs, 0
  {
    hide Numerals, Print, Proceeds;
    if vs == [] {
      NothingProceeds();
    } else {
      PrintProceeds(vs[0]);
      ItemsProceed(vs[1..]);
      Separated(Print(vs[0]), |vs| == 1, PrintItems(vs[1..]));
    }
  }

  lemma NothingProceeds()
    ensures Proceeds([])
  {
  }

  lemma Separated(head: seq<Piece>, only: bool, tail: seq<Piece>)
    requires Proceeds(head) && Proceeds(tail) && (only ==> tail == [])
    ensures Proceeds(head + (if only then [] else [Punct(',')]) + tail)
  {
    var comma := if only then [] else [Punct(',')];
    ProceedsConcat(head, comma);
    ProceedsConcat(head + comma, tail);
  }

  lemma {:induction false} MembersProceed(ms: seq<Member>)
    requires forall i :: 0 <= i < |ms| ==> Numerals(ms[i].value)
    ensures Proceeds(PrintMembers(ms))
    decreases ms, 0
  {
    hide Numerals, Print, Proceeds;
    if ms == [] {
      NothingProceeds();
    } else {
      PrintProceeds(ms[0].value);
      MembersProceed(ms[1..]);
      Keyed(ms[0].name, Print(ms[0].value));
      Separated([Quoted(ms[0].name), Punct(':')] + Print(ms[0].value), |ms| == 1, PrintMembers(ms[1..]));
    }
  }

  lemma Keyed(name: string, value: seq<Piece>)
    requires Proceeds(value)
    ensures Proceeds([Quoted(name), Punct(':')] + value)
  {
    ProceedsConcat([Quoted(name), Punct(':')], value);
  }

  // ---------------------------------------------------- the grammar of separators

  // What may come next, inside the open containers.
  datatype Place = AnyValue | ValueOrClose | NameOrClose | AnyName | Colon | AfterValue

  function Put(p: Piece, left: Option<seq<Piece>>): Option<seq<Piece>> {
    if left.None? then None else Some([p] + left.value)
  }

  // The tokens of one value without its separators, if every separator is in its place.
  function Deliver(ps: seq<Piece>, open: seq<char>, place: Place): Option<seq<Piece>>
    decreases |ps|
  {
    if ps == [] then if place.AfterValue? && open == [] then Some([]) else None
    else
      var p, left, inner := ps[0], ps[1..], |open| - 1;
      if place.AfterValue? then
        if open == [] then None
        else if p == Punct(',') then Deliver(left, open, if open[inner] == '{' then AnyName else AnyValue)
        else if p == Punct(if open[inner] == '{' then '}' else ']') then
          Put(p, Deliver(left, open[..inner], AfterValue))
        else None
      else if place.Colon? then
        if p == Punct(':') then Deliver(left, open, AnyValue) else None
      else if place.AnyName? || place.NameOrClose? then
        if p.Quoted? then Put(p, Deliver(left, open, Colon))
        else if p == Punct('}') && place.NameOrClose? && open != [] then
          Put(p, Deliver(left, open[..inner], AfterValue))
        else None
      else if !p.Punct? then Put(p, Deliver(left, open, AfterValue))
      else if p.mark == '[' then Put(p, Deliver(left, open + ['['], ValueOrClose))
      else if p.mark == '{' then Put(p, Deliver(left, open + ['{'], NameOrClose))
      else if p.mark == ']' && place.ValueOrClose? && open != [] then Put(p, Deliver(left, open[..inner], AfterValue))
      else None
  }

  function Before(a: seq<Piece>, left: Option<seq<Piece>>): Option<seq<Piece>> {
    if left.None? then None else Some(a + left.value)
  }

  lemma BeforeBefore(a: seq<Piece>, b: seq<Piece>, left: Option<seq<Piece>>)
    ensures Before(a, Before(b, left)) == Before(a + b, left)
  {
    if left.Some? {
      assert a + (b + left.value) == (a + b) + left.value;
    }
  }

  predicate ForValue(place: Place) {
    place.AnyValue? || place.ValueOrClose?
  }

  // A printed value is delivered, whatever follows it in its container.
  lemma {:induction false} ValueDelivered(v: Value, left: seq<Piece>, open: seq<char>, place: Place)
    requires ForValue(place)
    ensures Deliver(Print(v) + left, open, place) == Before(Delivered(Print(v)), Deliver(left, open, AfterValue))
    decreases v, 1
  {
    hide DecimalParse.Print;
    match v
    case Null => OneDelivered(Word("null"), left, open, place);
    case Bool(flag) => OneDelivered(Word(if flag then "true" else "false"), left, open, place);
    case Number(d) => OneDelivered(NumberText(DecimalParse.Print(d)), left, open, place);
    case String(s) => OneDelivered(Quoted(s), left, open, place);
    case Array(vs) => ArrayDelivered(vs, left, open, place);
    case Object(ms) => ObjectDelivered(ms, left, open, place);
  }

  lemma OneDelivered(p: Piece, left: seq<Piece>, open: seq<char>, place: Place)
    requires ForValue(place) && !p.Punct?
    ensures Deliver([p] + left, open, place) == Before(Delivered([p]), Deliver(left, open, AfterValue))
  {
    OneToken(p, []);
    assert ([p] + left)[1..] == left && Delivered([p]) == [p];
  }

  lemma {:induction false} ArrayDelivered(vs: seq<Value>, left: seq<Piece>, open: seq<char>, place: Place)
    requires ForValue(place)
    ensures var ps := [Punct('[')] + PrintItems(vs) + [Punct(']')];
            Deliver(ps + left, open, place) == Before(Delivered(ps), Deliver(left, open, AfterValue))
    decreases vs, 1
  {
    hide Print, PrintItems, Delivered, Deliver;
    var inner, close := PrintItems(vs), [Punct(']')] + left;
    Opened('[', inner, ']', left, open, place);
    Closed('[', left, open);
    if vs == [] {
      NoItems(left, open);
    } else {
      ItemsDelivered(vs, close, open + ['['], ValueOrClose);
      BeforeBefore(Delivered(inner), [Punct(']')], Deliver(left, open, AfterValue));
    }
    BeforeBefore([Punct('[')], Delivered(inner) + [Punct(']')], Deliver(left, open, AfterValue));
  }

  lemma NoItems(left: seq<Piece>, open: seq<char>)
    ensures PrintItems([]) == [] && Delivered([]) == []
    ensures Deliver(PrintItems([]) + ([Punct(']')] + left), open + ['['], ValueOrClose)
         == Before(Delivered([]) + [Punct(']')], Deliver(left, open, AfterValue))
  {
    var close := [Punct(']')] + left;
    assert [] + close == close && close[1..] == left && (open + ['['])[..|open|] == open;
    assert [] + [Punct(']')] == [Punct(']')];
  }

  // Opening a container, and closing it after its last value.
  lemma Opened(mark: char, inner: seq<Piece>, end: char, left: seq<Piece>, open: seq<char>, place: Place)
    requires ForValue(place) && (mark == '[' || mark == '{') && end in "]}"
    ensures var ps := [Punct(mark)] + inner + [Punct(end)];
            && Delivered(ps) == [Punct(mark)] + (Delivered(inner) + [Punct(end)])
            && Deliver(ps + left, open, place)
               == Before([Punct(mark)], Deliver(inner + ([Punct(end)] + left), open + [mark],
                                                if mark == '[' then ValueOrClose else NameOrClose))
  {
    hide Delivered;
    var ps := [Punct(mark)] + inner + [Punct(end)];
    assert (ps + left)[1..] == inner + ([Punct(end)] + left);
    DeliveredConcat([Punct(mark)] + inner, [Punct(end)]);
    DeliveredConcat([Punct(mark)], inner);
    MarkDelivered(mark);
    MarkDelivered(end);
  }

  lemma MarkDelivered(mark: char)
    requires mark in "[]{}"
    ensures Delivered([Punct(mark)]) == [Punct(mark)]
  {
    OneToken(Punct(mark), []);
  }

  lemma Closed(mark: char, left: seq<Piece>, open: seq<char>)
    requires mark == '[' || mark == '{'
    ensures var end := Punct(if mark == '{' then '}' else ']');
            Deliver([end] + left, open + [mark], AfterValue) == Before([end], Deliver(left, open, AfterValue))
  {
    var end := Punct(if mark == '{' then '}' else ']');
    assert ([end] + left)[1..] == left && (open + [mark])[..|open|] == open;
  }

  lemma {:induction false} ItemsDelivered(vs: seq<Value>, left: seq<Piece>, open: seq<char>, place: Place)
    requires vs != [] && ForValue(place) && open != [] && open[|open| - 1] == '['
    ensures Deliver(PrintItems(vs) + left, open, place)
         == Before(Delivered(PrintItems(vs)), Deliver(left, open, AfterValue))
    decreases vs, 0
  {
    hide Print, Delivered, Deliver;
    var head, tail := Print(vs[0]), PrintItems(vs[1..]);
    JoinedParts(head, |vs| != 1, tail, []);
    Unjoined(Delivered(PrintItems(vs)), Delivered(head), Delivered(tail));
    if |vs| == 1 {
      ValueDelivered(vs[0], left, open, place);
      NoItems(left, open);
      assert PrintItems(vs) + left == head + left;
      assert Delivered(head) + [] == Delivered(head);
    } else {
      ValueDelivered(vs[0], [Punct(',')] + (tail + left), open, place);
      CommaSkipped(tail + left, open);
      ItemsDelivered(vs[1..], left, open, AnyValue);
      assert PrintItems(vs) + left == head + ([Punct(',')] + (tail + left));
      BeforeBefore(Delivered(head), Delivered(tail), Deliver(left, open, AfterValue));
    }
  }

  lemma Unjoined(whole: seq<Piece>, head: seq<Piece>, tail: seq<Piece>)
    requires whole + [] == head + (tail + [])
    ensures whole == head + tail
  {
    assert whole + [] == whole && tail + [] == tail;
  }

  lemma CommaSkipped(left: seq<Piece>, open: seq<char>)
    requires open != []
    ensures Deliver([Punct(',')] + left, open, AfterValue)
         == Deliver(left, open, if open[|open| - 1] == '{' then AnyName else AnyValue)
  {
    assert ([Punct(',')] + left)[1..] == left;
  }

  lemma {:induction false} ObjectDelivered(ms: seq<Member>, left: seq<Piece>, open: seq<char>, place: Place)
    requires ForValue(place)
    ensures var ps := [Punct('{')] + PrintMembers(ms) + [Punct('}')];
            Deliver(ps + left, open, place) == Before(Delivered(ps), Deliver(left, open, AfterValue))
    decreases ms, 1
  {
    hide Print, PrintMembers, Delivered, Deliver;
    var inner, close := PrintMembers(ms), [Punct('}')] + left;
    Opened('{', inner, '}', left, open, place);
    Closed('{', left, open);
    if ms == [] {
      NoMembers(left, open);
    } else {
      MembersDelivered(ms, close, open + ['{'], NameOrClose);
      BeforeBefore(Delivered(inner), [Punct('}')], Deliver(left, open, AfterValue));
    }
    BeforeBefore([Punct('{')], Delivered(inner) + [Punct('}')], Deliver(left, open, AfterValue));
  }

  lemma NoMembers(left: seq<Piece>, open: seq<char>)
    ensures PrintMembers([]) == [] && Delivered([]) == []
    ensures Deliver(PrintMembers([]) + ([Punct('}')] + left), open + ['{'], NameOrClose)
         == Before(Delivered([]) + [Punct('}')], Deliver(left, open, AfterValue))
  {
    var close := [Punct('}')] + left;
    assert [] + close == close && close[1..] == left && (open + ['{'])[..|open|] == open;
    assert [] + [Punct('}')] == [Punct('}')];
  }

  lemma NameDelivered(name: string, left: seq<Piece>, open: seq<char>, place: Place)
    requires place.AnyName? || place.NameOrClose?
    ensures Deliver([Quoted(name), Punct(':')] + left, open, place)
         == Before([Quoted(name)], Deliver(left, open, AnyValue))
  {
    var ps := [Quoted(name), Punct(':')] + left;
    assert ps[1..] == [Punct(':')] + left && ps[1..][1..] == left;
  }

  lemma {:induction false} MembersDelivered(ms: seq<Member>, left: seq<Piece>, open: seq<char>, place: Place)
    requires ms != [] && (place.AnyName? || place.NameOrClose?) && open != [] && open[|open| - 1] == '{'
    ensures Deliver(PrintMembers(ms) + left, open, place)
         == Before(Delivered(PrintMembers(ms)), Deliver(left, open, AfterValue))
    decreases ms, 0
  {
    hide Print, Delivered, Deliver;
    var m := ms[0];
    var head, tail := [Quoted(m.name), Punct(':')] + Print(m.value), PrintMembers(ms[1..]);
    JoinedParts(head, |ms| != 1, tail, []);
    Unjoined(Delivered(PrintMembers(ms)), Delivered(head), Delivered(tail));
    DeliveredConcat([Quoted(m.name), Punct(':')], Print(m.value));
    KeyToken(m.name);
    var value := Delivered(Print(m.value));
    if |ms| == 1 {
      assert PrintMembers(ms) + left == [Quoted(m.name), Punct(':')] + (Print(m.value) + left);
      NameDelivered(m.name, Print(m.value) + left, open, place);
      ValueDelivered(m.value, left, open, AnyValue);
      NoMembers(left, open);
      BeforeBefore([Quoted(m.name)], value, Deliver(left, open, AfterValue));
      assert Delivered(head) + [] == Delivered(head);
    } else {
      var more := [Punct(',')] + (tail + left);
      assert PrintMembers(ms) + left == [Quoted(m.name), Punct(':')] + (Print(m.value) + more);
      NameDelivered(m.name, Print(m.value) + more, open, place);
      ValueDelivered(m.value, more, open, AnyValue);
      CommaSkipped(tail + left, open);
      MembersDelivered(ms[1..], left, open, AnyName);
      BeforeBefore(value, Delivered(tail), Deliver(left, open, AfterValue));
      BeforeBefore([Quoted(m.name)], value + Delivered(tail), Deliver(left, open, AfterValue));
      assert [Quoted(m.name)] + (value + Delivered(tail)) == Delivered(head) + Delivered(tail);
    }
  }

  // ------------------------------------------------------------------- whole texts

  // What the decoder delivers of a whole text.
  function TextTokens(text: string): Option<seq<Piece>> {
    match Tokens(text)
    case None => None
    case Some(ps) => Deliver(ps, [], AnyValue)
  }

  // The value that a text of any length denotes within the reader's limits.
  ghost function TextValue(text: string): Option<Value> {
    match TextTokens(text)
    case None => None
    case Some(ts) =>
      match JsonRead.Read(ts, 0, 0)
      case Err(_) => None
      case Ok((v, rest, _)) => if rest == [] then Some(v) else None
  }

  // Parsing a text: accepted exactly when it has a value and is not too long.
  method ParseText(text: string) returns (r: Result<Value, JsonError>)
    ensures r.Ok? <==> 1 <= ByteLength(text) <= MAX_ARGUMENT_BYTES && TextValue(text).Some?
    ensures r.Ok? ==> TextValue(text) == Some(r.value)
  {
    hide JsonRead.Read, TextTokens, ByteLength;
    var tokens := TextTokens(text);
    if tokens.None? {
      return Err(Syntax);
    }
    r := ParseJson(ByteLength(text), tokens.value);
  }

  // The printed text of every admitted value denotes that value.
  lemma TextRoundTrip(v: Value)
    requires Admit(v, 0, 0).Ok?
    ensures Tokens(Render(Print(v))) == Some(Print(v)) && TextValue(Render(Print(v))) == Some(v)
  {
    hide Admit, Print, Proceeds, Tokens, Render, Shallow, Numerals, Delivered, JsonRead.Read;
    AdmittedShape(v, 0, 0);
    PrintProceeds(v);
    RenderReads(Print(v));
    ValueDelivered(v, [], [], AnyValue);
    assert Print(v) + [] == Print(v) && Delivered(Print(v)) + [] == Delivered(Print(v));
    ReadsBack(v, 0, 0, []);
  }

  // Printing an admitted value and parsing the text gives the value, if the text is not
  // too long to be parsed at all.
  method PrintThenRead(v: Value) returns (text: string, r: Result<Value, JsonError>)
    requires Admit(v, 0, 0).Ok?
    ensures text == Render(Print(v))
    ensures r.Ok? <==> ByteLength(text) <= MAX_ARGUMENT_BYTES
    ensures r.Ok? ==> r.value == v
  {
    hide Admit, Print, Render, Shallow, Numerals, TextValue, ByteLength;
    AdmittedShape(v, 0, 0);
    TextRoundTrip(v);
    var printed := AppendJson([], v, 0);
    assert [] + Print(v) == Print(v);
    text := Render(printed.value);
    NonEmptyText(text);
    r := ParseText(text);
  }

  lemma NonEmptyText(text: string)
    requires TextValue(text).Some?
    ensures 1 <= ByteLength(text)
  {
    hide JsonRead.Read;
  }

  // So an admitted value has a text of its own, and canonical texts are fixed points:
  // whatever a text denotes, its canonical text denotes too.
  lemma TextsApart(v: Value, w: Value)
    requires Admit(v, 0, 0).Ok? && Admit(w, 0, 0).Ok? && Render(Print(v)) == Render(Print(w))
    ensures v == w
  {
    hide Admit, Print, Render, TextValue, Tokens;
    TextRoundTrip(v);
    TextRoundTrip(w);
  }

  lemma CanonicalText(text: string)
    requires TextValue(text).Some?
    ensures Admit(TextValue(text).value, 0, 0).Ok?
    ensures TextValue(Render(Print(TextValue(text).value))) == TextValue(text)
  {
    hide Admit, Print, Render, TextTokens, JsonRead.Read;
    var v, ts := TextValue(text).value, TextTokens(text).value;
    var n := JsonRead.Read(ts, 0, 0).value.2;
    assert JsonRead.Read(ts, 0, 0) == Ok((v, [], n));
    ReaderAgrees(v);
    TextRoundTrip(v);
  }
}
