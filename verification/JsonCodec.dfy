// The printer, the size function and the reader as they run (internal/action/value.go).
module JsonCodec {
  import opened Wrappers
  import opened Decimal
  import opened JsonValue
  import opened JsonRead
  import DecimalParse

  const MAX_ARGUMENT_BYTES := 0x80_0000   // 8 << 20

  // No container lies deeper than the limit.
  predicate Shallow(v: Value, depth: nat)
    decreases v
  {
    && depth <= MAX_DEPTH
    && match v
       case Array(vs) => forall i :: 0 <= i < |vs| ==> Shallow(vs[i], depth + 1)
       case Object(ms) => forall i :: 0 <= i < |ms| ==> Shallow(ms[i].value, depth + 1)
       case _ => true
  }

  // --------------------------------------------------------------------- lengths

  lemma {:induction false} ByteLengthConcat(a: string, b: string)
    ensures ByteLength(a + b) == ByteLength(a) + ByteLength(b)
    decreases |b|
  {
    if b == "" {
      assert a + b == a;
    } else {
      assert (a + b)[..|a + b| - 1] == a + b[..|b| - 1];
      ByteLengthConcat(a, b[..|b| - 1]);
    }
  }

  lemma {:induction false} RenderConcat(a: seq<Piece>, b: seq<Piece>)
    ensures Render(a + b) == Render(a) + Render(b)
    decreases |a|
  {
    hide PieceText;
    if a == [] {
      assert a + b == b;
    } else {
      assert (a + b)[1..] == a[1..] + b;
      RenderConcat(a[1..], b);
    }
  }

  function PieceBytes(ps: seq<Piece>): nat {
    ByteLength(Render(ps))
  }

  lemma PieceBytesConcat(a: seq<Piece>, b: seq<Piece>)
    ensures PieceBytes(a + b) == PieceBytes(a) + PieceBytes(b)
  {
    RenderConcat(a, b);
    ByteLengthConcat(Render(a), Render(b));
  }

  lemma OnePieceBytes(p: Piece)
    ensures PieceBytes([p]) == ByteLength(PieceText(p))
  {
    assert [p][1..] == [] && Render([]) == "";
    assert Render([p]) == PieceText(p) + "" == PieceText(p);
  }

  predicate Ascii(s: string) {
    forall i :: 0 <= i < |s| ==> s[i] < '\U{80}'
  }

  lemma {:induction false} AsciiLength(s: string)
    requires Ascii(s)
    ensures ByteLength(s) == |s|
    decreases |s|
  {
    if s != "" {
      AsciiLength(s[..|s| - 1]);
    }
  }

  // ------------------------------------------------------------- sizes of scalars

  lemma EscapedBytes(c: char)
    ensures ByteLength(Escaped(c)) ==
            if ShortEscape(c) then 2 else if HtmlUnsafe(c) || c < ' ' then 6 else RuneLength(c)
  {
    var e := Escaped(c);
    if ShortEscape(c) || HtmlUnsafe(c) || c < ' ' {
      AsciiLength(e);
    } else {
      assert e[..0] == "";
    }
  }

  // The size of a quoted string without quoting it (quotedJSONStringSize).
  method QuotedSize(s: string) returns (total: nat)
    ensures total == ByteLength(PieceText(Quoted(s)))
  {
    hide Escaped, ByteLength;
    total := 2;
    QuotesBytes("");
    for index := 0 to |s|
      invariant total == 2 + ByteLength(EscapedAll(s[..index]))
    {
      var c := s[index];
      assert s[..index + 1][..index] == s[..index];
      ByteLengthConcat(EscapedAll(s[..index]), Escaped(c));
      EscapedBytes(c);
      var increment := RuneLength(c);
      if ShortEscape(c) {
        increment := 2;
      } else if HtmlUnsafe(c) || c < ' ' {
        increment := 6;
      }
      total := total + increment;
    }
    assert s[..|s|] == s;
    QuotesBytes(EscapedAll(s));
  }

  lemma QuotesBytes(inner: string)
    ensures ByteLength("\"" + inner + "\"") == 2 + ByteLength(inner)
    ensures ByteLength("") == 0
  {
    ByteLengthConcat("\"" + inner, "\"");
    ByteLengthConcat("\"", inner);
    AsciiLength("\"");
  }

  // The digits of an exponent, with its sign (decimalDigits).
  method DecimalDigits(value: int) returns (digits: nat)
    ensures digits == |DecimalParse.WholeText(if value < 0 then -value else value)| + if value < 0 then 1 else 0
  {
    digits := 0;
    var rest := value;
    if value < 0 {
      digits, rest := 1, -value;
    }
    ghost var sign, whole := digits, rest;
    assert whole == if value < 0 then -value else value;
    digits := digits + 1;
    while rest / 10 != 0
      invariant 0 <= rest
      invariant digits + |DecimalParse.WholeText(rest)| == sign + 1 + |DecimalParse.WholeText(whole)|
      decreases rest
    {
      rest := rest / 10;
      digits := digits + 1;
    }
    assert |DecimalParse.WholeText(rest)| == 1;
  }

  method NumberSize(d: Decimal) returns (size: nat)
    ensures size == |DecimalParse.Print(d)|
  {
    if IsZero(d) {
      return 1;
    }
    size := |d.coefficient|;
    if d.negative {
      size := size + 1;
    }
    if d.exponent != 0 {
      var digits := DecimalDigits(d.exponent);
      size := size + 1 + digits;
    }
  }

  lemma DigitsAscii(s: string)
    requires Digits(s)
    ensures Ascii(s)
  {
  }

  lemma PrintedAscii(d: Decimal)
    requires Canonical(d)
    ensures Ascii(DecimalParse.Print(d))
  {
    hide DecimalParse.WholeText, Canonical;
    CanonicalDigits(d);
    DigitsAscii(d.coefficient);
    var n := if d.exponent < 0 then -d.exponent else d.exponent;
    DecimalParse.WholeTextFacts(n);
    DigitsAscii(DecimalParse.WholeText(n));
    AsciiParts(d.negative, d.coefficient, DecimalParse.ExponentSuffix(d.exponent));
  }

  lemma CanonicalDigits(d: Decimal)
    requires Canonical(d)
    ensures Digits(d.coefficient)
  {
  }

  lemma AsciiParts(negative: bool, coefficient: string, suffix: string)
    requires Ascii(coefficient) && Ascii(suffix)
    ensures Ascii((if negative then "-" else "") + coefficient + suffix)
  {
  }

  // ------------------------------------------------------------- lists, left to right

  function CommaBefore(index: nat): seq<Piece> {
    if index == 0 then [] else [Punct(',')]
  }

  lemma {:induction false} ItemsStep(vs: seq<Value>, k: nat)
    requires k < |vs|
    ensures PrintItems(vs[..k + 1]) == PrintItems(vs[..k]) + CommaBefore(k) + Print(vs[k])
    decreases |vs|
  {
    hide Print;
    if k == 0 {
      assert vs[..1][1..] == [];
      assert vs[..0] == [];
    } else {
      var rest := vs[1..];
      ItemsStep(rest, k - 1);
      assert vs[..k + 1][1..] == rest[..k] && vs[..k][1..] == rest[..k - 1];
      if k == 1 {
        assert rest[..0] == [];
      }
    }
  }

  lemma {:induction false} MembersStep(ms: seq<Member>, k: nat)
    requires k < |ms|
    ensures PrintMembers(ms[..k + 1])
         == PrintMembers(ms[..k]) + CommaBefore(k) + ([Quoted(ms[k].name), Punct(':')] + Print(ms[k].value))
    decreases |ms|
  {
    hide Print;
    if k == 0 {
      assert ms[..1][1..] == [];
      assert ms[..0] == [];
    } else {
      var rest := ms[1..];
      MembersStep(rest, k - 1);
      assert ms[..k + 1][1..] == rest[..k] && ms[..k][1..] == rest[..k - 1];
      if k == 1 {
        assert rest[..0] == [];
      }
    }
  }

  // ------------------------------------------------------------------- the printer

  // appendJSON: the pieces of the value after what is already there.
  method AppendJson(out: seq<Piece>, v: Value, depth: nat) returns (r: Result<seq<Piece>, JsonError>)
    ensures r == if Shallow(v, depth) then Ok(out + Print(v)) else Err(TooDeep)
    decreases v, 1
  {
    hide PrintItems, PrintMembers;
    if MAX_DEPTH < depth {
      return Err(TooDeep);
    }
    match v
    case Null => return Ok(out + [Word("null")]);
    case Bool(flag) => return Ok(out + [Word(if flag then "true" else "false")]);
    case Number(d) => return Ok(out + [NumberText(DecimalParse.Print(d))]);
    case String(s) => return Ok(out + [Quoted(s)]);
    case Array(vs) =>
      r := AppendItems(out + [Punct('[')], vs, depth);
      if r.Ok? {
        assert out + [Punct('[')] + PrintItems(vs) + [Punct(']')]
               == out + ([Punct('[')] + PrintItems(vs) + [Punct(']')]);
        r := Ok(r.value + [Punct(']')]);
      }
    case Object(ms) =>
      r := AppendMembers(out + [Punct('{')], ms, depth);
      if r.Ok? {
        assert out + [Punct('{')] + PrintMembers(ms) + [Punct('}')]
               == out + ([Punct('{')] + PrintMembers(ms) + [Punct('}')]);
        r := Ok(r.value + [Punct('}')]);
      }
  }

  method AppendItems(out: seq<Piece>, vs: seq<Value>, depth: nat) returns (r: Result<seq<Piece>, JsonError>)
    ensures r == if forall i :: 0 <= i < |vs| ==>
              Shallow(vs[i], depth + 1) then Ok(out + PrintItems(vs)) else Err(TooDeep)
    decreases vs, 0
  {
    assert PrintItems(vs[..0]) == [];
    hide Print, PrintItems, Shallow;
    var text := out;
    for index := 0 to |vs|
      invariant text == out + PrintItems(vs[..index])
      invariant forall i :: 0 <= i < index ==> Shallow(vs[i], depth + 1)
    {
      ItemsStep(vs, index);
      text := text + CommaBefore(index);
      var step := AppendJson(text, vs[index], depth + 1);
      if step.Err? {
        return step;
      }
      text := step.value;
    }
    assert vs[..|vs|] == vs;
    return Ok(text);
  }

  method AppendMembers(out: seq<Piece>, ms: seq<Member>, depth: nat) returns (r: Result<seq<Piece>, JsonError>)
    ensures r == if forall i :: 0 <= i < |ms| ==> Shallow(ms[i].value, depth + 1) then Ok(out + PrintMembers(ms))
                 else Err(TooDeep)
    decreases ms, 0
  {
    assert PrintMembers(ms[..0]) == [];
    hide Print, PrintMembers, Shallow;
    var text := out;
    for index := 0 to |ms|
      invariant text == out + PrintMembers(ms[..index])
      invariant forall i :: 0 <= i < index ==> Shallow(ms[i].value, depth + 1)
    {
      MembersStep(ms, index);
      ghost var before, key := text, [Quoted(ms[index].name), Punct(':')];
      text := text + CommaBefore(index) + [Quoted(ms[index].name), Punct(':')];
      var step := AppendJson(text, ms[index].value, depth + 1);
      if step.Err? {
        return step;
      }
      Regroup(out, PrintMembers(ms[..index]), CommaBefore(index), key, Print(ms[index].value));
      text := step.value;
    }
    assert ms[..|ms|] == ms;
    return Ok(text);
  }

  lemma Regroup(a: seq<Piece>, b: seq<Piece>, c: seq<Piece>, d: seq<Piece>, e: seq<Piece>)
    ensures a + b + c + d + e == a + (b + c + (d + e))
  {
  }

  // --------------------------------------------------------------- the size function

  // CanonicalJSONSize: the bytes of the printed text, without printing it.
  method CanonicalSize(v: Value, depth: nat) returns (r: Result<nat, JsonError>)
    requires Numerals(v)
    ensures r == if Shallow(v, depth) then Ok(PieceBytes(Print(v))) else Err(TooDeep)
    decreases v, 1
  {
    hide PrintItems, PrintMembers, PieceBytes, PieceText, Canonical;
    if MAX_DEPTH < depth {
      return Err(TooDeep);
    }
    match v
    case Null =>
      WordBytes("null");
      return Ok(4);
    case Bool(flag) =>
      WordBytes(if flag then "true" else "false");
      return Ok(if flag then 4 else 5);
    case Number(d) =>
      var size := NumberSize(d);
      NumberBytes(d);
      return Ok(size);
    case String(s) =>
      var size := QuotedSize(s);
      OnePieceBytes(Quoted(s));
      return Ok(size);
    case Array(vs) =>
      r := ItemsSize(vs, depth);
      BracketBytes('[', PrintItems(vs), ']');
    case Object(ms) =>
      r := MembersSize(ms, depth);
      BracketBytes('{', PrintMembers(ms), '}');
  }

  // Every number in the value is canonical.
  predicate Numerals(v: Value)
    decreases v
  {
    match v
    case Number(d) => Canonical(d)
    case Array(vs) => forall i :: 0 <= i < |vs| ==> Numerals(vs[i])
    case Object(ms) => forall i :: 0 <= i < |ms| ==> Numerals(ms[i].value)
    case _ => true
  }

  lemma WordBytes(word: string)
    requires Ascii(word)
    ensures PieceBytes([Word(word)]) == |word|
  {
    OnePieceBytes(Word(word));
    AsciiLength(word);
  }

  lemma NumberBytes(d: Decimal)
    requires Canonical(d)
    ensures PieceBytes([NumberText(DecimalParse.Print(d))]) == |DecimalParse.Print(d)|
  {
    hide Canonical, DecimalParse.Print;
    OnePieceBytes(NumberText(DecimalParse.Print(d)));
    PrintedAscii(d);
    AsciiLength(DecimalParse.Print(d));
  }

  lemma PunctBytes(mark: char)
    requires mark < '\U{80}'
    ensures PieceBytes([Punct(mark)]) == 1
  {
    OnePieceBytes(Punct(mark));
    AsciiLength([mark]);
  }

  lemma BracketBytes(open: char, inner: seq<Piece>, close: char)
    requires open < '\U{80}' && close < '\U{80}'
    ensures PieceBytes([Punct(open)] + inner + [Punct(close)]) == 2 + PieceBytes(inner)
  {
    hide PieceBytes;
    PieceBytesConcat([Punct(open)] + inner, [Punct(close)]);
    PieceBytesConcat([Punct(open)], inner);
    PunctBytes(open);
    PunctBytes(close);
  }

  lemma CommaBytes(index: nat)
    ensures PieceBytes(CommaBefore(index)) == if index == 0 then 0 else 1
  {
    PunctBytes(',');
  }

  method ItemsSize(vs: seq<Value>, depth: nat) returns (r: Result<nat, JsonError>)
    requires forall i :: 0 <= i < |vs| ==> Numerals(vs[i])
    ensures r == if forall i :: 0 <= i < |vs| ==> Shallow(vs[i], depth + 1) then Ok(2 + PieceBytes(PrintItems(vs)))
                 else Err(TooDeep)
    decreases vs, 0
  {
    hide *;
    var total := 2;
    NoItemBytes(vs);
    for index := 0 to |vs|
      invariant total == 2 + PieceBytes(PrintItems(vs[..index]))
      invariant forall i :: 0 <= i < index ==> Shallow(vs[i], depth + 1)
    {
      ItemsStep(vs, index);
      CommaBytes(index);
      ItemBytes(PrintItems(vs[..index]), CommaBefore(index), Print(vs[index]));
      if index > 0 {
        total := total + 1;
      }
      var item := CanonicalSize(vs[index], depth + 1);
      if item.Err? {
        return item;
      }
      total := total + item.value;
    }
    assert vs[..|vs|] == vs;
    return Ok(total);
  }

  method MembersSize(ms: seq<Member>, depth: nat) returns (r: Result<nat, JsonError>)
    requires forall i :: 0 <= i < |ms| ==> Numerals(ms[i].value)
    ensures r == if forall i :: 0 <= i < |ms| ==> Shallow(ms[i].value, depth + 1)
                 then Ok(2 + PieceBytes(PrintMembers(ms))) else Err(TooDeep)
    decreases ms, 0
  {
    hide *;
    var total := 2;
    NoMemberBytes(ms);
    for index := 0 to |ms|
      invariant total == 2 + PieceBytes(PrintMembers(ms[..index]))
      invariant forall i :: 0 <= i < index ==> Shallow(ms[i].value, depth + 1)
    {
      MembersStep(ms, index);
      CommaBytes(index);
      MemberBytes(PrintMembers(ms[..index]), CommaBefore(index), ms[index].name, Print(ms[index].value));
      if index > 0 {
        total := total + 1;
      }
      var nameSize := QuotedSize(ms[index].name);
      total := total + nameSize + 1;
      var value := CanonicalSize(ms[index].value, depth + 1);
      if value.Err? {
        return value;
      }
      total := total + value.value;
    }
    assert ms[..|ms|] == ms;
    return Ok(total);
  }

  lemma NoItemBytes(vs: seq<Value>)
    ensures PieceBytes(PrintItems(vs[..0])) == 0
  {
    assert vs[..0] == [];
  }

  lemma NoMemberBytes(ms: seq<Member>)
    ensures PieceBytes(PrintMembers(ms[..0])) == 0
  {
    assert ms[..0] == [];
  }

  lemma ItemBytes(before: seq<Piece>, comma: seq<Piece>, item: seq<Piece>)
    ensures PieceBytes(before + comma + item) == PieceBytes(before) + PieceBytes(comma) + PieceBytes(item)
  {
    hide PieceBytes;
    PieceBytesConcat(before + comma, item);
    PieceBytesConcat(before, comma);
  }

  lemma MemberBytes(before: seq<Piece>, comma: seq<Piece>, name: string, value: seq<Piece>)
    ensures PieceBytes(before + comma + ([Quoted(name), Punct(':')] + value))
         == PieceBytes(before) + PieceBytes(comma) + ByteLength(PieceText(Quoted(name))) + 1 + PieceBytes(value)
  {
    hide PieceBytes, PieceText;
    var key := [Quoted(name), Punct(':')];
    PieceBytesConcat(before + comma, key + value);
    PieceBytesConcat(before, comma);
    PieceBytesConcat(key, value);
    assert key == [Quoted(name)] + [Punct(':')];
    PieceBytesConcat([Quoted(name)], [Punct(':')]);
    OnePieceBytes(Quoted(name));
    PunctBytes(':');
  }

  // ---------------------------------------------------------------- what is admitted

  lemma {:induction false} AdmittedShape(v: Value, depth: nat, items: nat)
    requires Admit(v, depth, items).Ok?
    ensures Shallow(v, depth) && Numerals(v)
    decreases v, 1
  {
    hide Canonical, ByteLength;
    match v
    case Array(vs) => AdmittedItemsShape(vs, depth, items);
    case Object(ms) => AdmittedMembersShape(ms, None, depth, items);
    case _ =>
  }

  lemma {:induction false} AdmittedItemsShape(vs: seq<Value>, depth: nat, items: nat)
    requires AdmitItems(vs, depth, items).Ok?
    ensures forall i :: 0 <= i < |vs| ==> Shallow(vs[i], depth + 1) && Numerals(vs[i])
    decreases vs, 0
  {
    hide Admit;
    if vs != [] {
      AdmittedShape(vs[0], depth + 1, items + 1);
      AdmittedItemsShape(vs[1..], depth, Admit(vs[0], depth + 1, items + 1).value);
      assert forall i :: 1 <= i < |vs| ==> vs[i] == vs[1..][i - 1];
    }
  }

  lemma {:induction false} AdmittedMembersShape(ms: seq<Member>, previous: Option<string>, depth: nat, items: nat)
    requires AdmitMembers(ms, previous, depth, items).Ok?
    ensures forall i :: 0 <= i < |ms| ==> Shallow(ms[i].value, depth + 1) && Numerals(ms[i].value)
    decreases ms, 0
  {
    hide Admit, ByteLength;
    if ms != [] {
      AdmittedShape(ms[0].value, depth + 1, items + 1);
      AdmittedMembersShape(ms[1..], Some(ms[0].name), depth, Admit(ms[0].value, depth + 1, items + 1).value);
      assert forall i :: 1 <= i < |ms| ==> ms[i] == ms[1..][i - 1];
    }
  }

  // ------------------------------------------------------------------- the reader

  // The decoder's position and the item counter (valueDecodeState).
  class Reader {
    const tokens: seq<Piece>
    var at: nat
    var items: nat

    constructor (tokens: seq<Piece>)
      ensures this.tokens == tokens && at == 0 && items == 0
    {
      this.tokens, at, items := tokens, 0, 0;
    }

    predicate Within()
      reads this
    {
      at <= |tokens|
    }

    function Left(): seq<Piece>
      reads this
      requires Within()
    {
      tokens[at..]
    }

    // The reader did what the specification says.
    ghost predicate Follows(r: Result<Value, JsonError>, spec: Reading<Value>)
      reads this
    {
      match spec
      case Err(e) => r == Err(e)
      case Ok((v, rest, n)) => r == Ok(v) && Within() && Left() == rest && items == n
    }

    method Next()
      requires Within() && Left() != []
      modifies this`at
      ensures Within() && at == old(at) + 1 && Left() == old(Left())[1..]
    {
      at := at + 1;
    }

    method Read(depth: nat) returns (r: Result<Value, JsonError>)
      requires Within()
      modifies this
      ensures Within() && old(at) <= at
      ensures Follows(r, JsonRead.Read(old(Left()), depth, old(items)))
      decreases |tokens| - at, 0
    {
      hide NumberRead, ReadItems, ReadMembers, ByteLength, Canonical;
      if MAX_DEPTH < depth {
        return Err(TooDeep);
      }
      if at == |tokens| {
        return Err(Syntax);
      }
      var token := tokens[at];
      assert Left()[0] == token;
      Next();
      match token
      case Word(w) =>
        if w == "null" {
          return Ok(Null);
        }
        if w == "true" || w == "false" {
          return Ok(Bool(w == "true"));
        }
        return Err(Syntax);
      case Quoted(s) =>
        if MAX_STRING_BYTES < ByteLength(s) {
          return Err(StringTooLong);
        }
        return Ok(String(s));
      case NumberText(lexeme) =>
        var parsed := ReadNumber(lexeme);
        if parsed.Err? {
          return Err(parsed.error);
        }
        return Ok(Number(parsed.value));
      case Punct(mark) =>
        if mark == '[' {
          r := ReadArray(depth);
        } else if mark == '{' {
          r := ReadObject(depth);
        } else {
          return Err(Syntax);
        }
    }

    method ReadArray(depth: nat) returns (r: Result<Value, JsonError>)
      requires Within()
      modifies this
      ensures Within() && old(at) <= at
      ensures Follows(r, ReadItems(old(Left()), depth, old(items), []))
      decreases |tokens| - at, 1
    {
      hide ReadItems, JsonRead.Read;
      var values: seq<Value> := [];
      ghost var whole := ReadItems(Left(), depth, items, []);
      while at < |tokens| && tokens[at] != Punct(']')
        invariant Within() && old(at) <= at
        invariant ReadItems(Left(), depth, items, values) == whole
        decreases |tokens| - at
      {
        ReadItemsUnfold(Left(), depth, items, values);
        if MAX_ITEMS <= items {
          return Err(TooManyItems);
        }
        items := items + 1;
        ReadShorter(Left(), depth + 1, items);
        ghost var before := at;
        var item := Read(depth + 1);
        if item.Err? {
          return item;
        }
        assert before < at;
        values := values + [item.value];
      }
      ReadItemsUnfold(Left(), depth, items, values);
      if at == |tokens| {
        return Err(Syntax);
      }
      Next();
      if MAX_ITEMS < |values| {
        return Err(TooManyItems);
      }
      return Ok(Array(values));
    }

    method ReadObject(depth: nat) returns (r: Result<Value, JsonError>)
      requires Within()
      modifies this
      ensures Within() && old(at) <= at
      ensures Follows(r, ReadMembers(old(Left()), depth, old(items), []))
      decreases |tokens| - at, 1
    {
      hide ReadMembers, JsonRead.Read, ObjectOf;
      var members: seq<Member> := [];
      ghost var whole := ReadMembers(Left(), depth, items, []);
      while at < |tokens| && tokens[at] != Punct('}')
        invariant Within() && old(at) <= at
        invariant ReadMembers(Left(), depth, items, members) == whole
        decreases |tokens| - at
      {
        ReadMembersUnfold(Left(), depth, items, members);
        var name := tokens[at];
        Next();
        if !name.Quoted? {
          return Err(InvalidKey);
        }
        if MAX_ITEMS <= items {
          return Err(TooManyItems);
        }
        items := items + 1;
        var value := Read(depth + 1);
        if value.Err? {
          return value;
        }
        members := members + [Member(name.text, value.value)];
      }
      ReadMembersUnfold(Left(), depth, items, members);
      if at == |tokens| {
        return Err(Syntax);
      }
      Next();
      return ObjectOf(members);
    }
  }

  lemma ReadShorter(ts: seq<Piece>, depth: nat, items: nat)
    ensures JsonRead.Read(ts, depth, items).Ok? ==> |JsonRead.Read(ts, depth, items).value.1| < |ts|
  {
  }

  lemma ReadItemsUnfold(ts: seq<Piece>, depth: nat, items: nat, values: seq<Value>)
    ensures ReadItems(ts, depth, items, values) ==
            if ts == [] then Err(Syntax)
            else if ts[0] == Punct(']') then
              if MAX_ITEMS < |values| then Err(TooManyItems) else Ok((Array(values), ts[1..], items))
            else if MAX_ITEMS <= items then Err(TooManyItems)
            else
              var step := JsonRead.Read(ts, depth + 1, items + 1);
              if step.Err? then Err(step.error)
              else ReadItems(step.value.1, depth, step.value.2, values + [step.value.0])
  {
    hide JsonRead.Read;
  }

  lemma ReadMembersUnfold(ts: seq<Piece>, depth: nat, items: nat, members: seq<Member>)
    ensures ReadMembers(ts, depth, items, members) ==
            if ts == [] then Err(Syntax)
            else if ts[0] == Punct('}') then
              if ObjectOf(members).Err? then Err(ObjectOf(members).error)
              else Ok((ObjectOf(members).value, ts[1..], items))
            else if !ts[0].Quoted? then Err(InvalidKey)
            else if MAX_ITEMS <= items then Err(TooManyItems)
            else
              var step := JsonRead.Read(ts[1..], depth + 1, items + 1);
              if step.Err? then Err(step.error)
              else ReadMembers(step.value.1, depth, step.value.2, members + [Member(ts[0].text, step.value.0)])
  {
    hide JsonRead.Read, ObjectOf;
  }

  // A number lexeme, by the parser.
  method ReadNumber(lexeme: string) returns (r: Result<Decimal, JsonError>)
    ensures r == NumberRead(lexeme)
  {
    hide Canonical, DecimalParse.Writes;
    var out := DecimalParse.ParseDecimal(lexeme);
    if out.Err? {
      return Err(InvalidNumber);
    }
    forall e | Canonical(e) && DecimalParse.Writes(lexeme, e)
      ensures e == out.value
    {
      DecimalParse.SameWritten(lexeme, out.value, e);
    }
    return Ok(out.value);
  }

  // ParseJSON on a text of the given length, as the decoder delivers its tokens.
  method ParseJson(size: nat, tokens: seq<Piece>) returns (r: Result<Value, JsonError>)
    ensures r.Ok? <==>
              && 1 <= size <= MAX_ARGUMENT_BYTES
              && JsonRead.Read(tokens, 0, 0).Ok? && JsonRead.Read(tokens, 0, 0).value.1 == []
    ensures r.Ok? ==> r.value == JsonRead.Read(tokens, 0, 0).value.0
  {
    hide JsonRead.Read;
    if size == 0 || MAX_ARGUMENT_BYTES < size {
      return Err(WrongSize);
    }
    var reader := new Reader(tokens);
    assert reader.Left() == tokens;
    r := reader.Read(0);
    if r.Ok? && reader.at != |tokens| {
      return Err(Syntax);
    }
  }
}
