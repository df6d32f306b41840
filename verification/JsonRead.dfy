// Reading JSON tokens back into values (internal/action/value.go). The token decoder
// itself is a library; it delivers the tokens without their separators.
module JsonRead {
  import opened Wrappers
  import opened Decimal
  import opened JsonValue
  import DecimalParse

  predicate Separator(p: Piece) {
    p == Punct(',') || p == Punct(':')
  }

  // What the decoder delivers of a printed value.
  function Delivered(ps: seq<Piece>): seq<Piece> {
    if ps == [] then [] else (if Separator(ps[0]) then [] else [ps[0]]) + Delivered(ps[1..])
  }

  lemma {:induction false} DeliveredConcat(a: seq<Piece>, b: seq<Piece>)
    ensures Delivered(a + b) == Delivered(a) + Delivered(b)
    decreases |a|
  {
    if a == [] {
      assert a + b == b;
    } else {
      assert (a + b)[1..] == a[1..] + b;
      DeliveredConcat(a[1..], b);
    }
  }

  // ---------------------------------------------------------------- sorted objects

  function Insert(ms: seq<Member>, m: Member): seq<Member> {
    if ms == [] || !Less(m.name, ms[|ms| - 1].name) then ms + [m]
    else Insert(ms[..|ms| - 1], m) + [ms[|ms| - 1]]
  }

  function SortMembers(ms: seq<Member>): seq<Member> {
    if ms == [] then [] else Insert(SortMembers(ms[..|ms| - 1]), ms[|ms| - 1])
  }

  predicate Ascending(ms: seq<Member>) {
    forall i :: 0 < i < |ms| ==> Less(ms[i - 1].name, ms[i].name)
  }

  predicate NamesFit(ms: seq<Member>) {
    forall i :: 0 <= i < |ms| ==> ByteLength(ms[i].name) <= MAX_STRING_BYTES
  }

  // An object of members in any order: sorted, and without repeated names.
  function ObjectOf(ms: seq<Member>): Result<Value, JsonError> {
    var sorted := SortMembers(ms);
    if MAX_ITEMS < |ms| then Err(TooManyItems)
    else if !NamesFit(sorted) then Err(StringTooLong)
    else if exists i :: 0 < i < |sorted| && sorted[i - 1].name == sorted[i].name then Err(DuplicateKey)
    else Ok(Object(sorted))
  }

  lemma {:induction false} AscendingSorted(ms: seq<Member>)
    requires Ascending(ms)
    ensures SortMembers(ms) == ms
    decreases |ms|
  {
    if ms != [] {
      var front, last := ms[..|ms| - 1], ms[|ms| - 1];
      AscendingSorted(front);
      if front != [] {
        LessAsym(front[|front| - 1].name, last.name);
      }
      assert ms == front + [last];
    }
  }

  lemma AscendingObject(ms: seq<Member>)
    requires Ascending(ms) && NamesFit(ms) && |ms| <= MAX_ITEMS
    ensures ObjectOf(ms) == Ok(Object(ms))
  {
    AscendingSorted(ms);
    forall i | 0 < i < |ms|
      ensures ms[i - 1].name != ms[i].name
    {
      LessAsym(ms[i - 1].name, ms[i].name);
    }
  }

  // ---------------------------------------------------------------------- reading

  // The canonical decimal that a number lexeme writes, if there is one.
  ghost function NumberRead(lexeme: string): Result<Decimal, JsonError> {
    if 1 <= |lexeme| <= MAX_LEXEME_BYTES && exists d :: Canonical(d) && DecimalParse.Writes(lexeme, d) then
      var d :| Canonical(d) && DecimalParse.Writes(lexeme, d);
      Ok(d)
    else Err(InvalidNumber)
  }

  type Reading<T> = Result<(T, seq<Piece>, nat), JsonError>

  // One value from the front of the tokens: the value, the tokens left, the items counted.
  ghost function Read(ts: seq<Piece>, depth: nat, items: nat): (r: Reading<Value>)
    ensures r.Ok? ==> |r.value.1| < |ts|
    decreases |ts|, 0
  {
    if MAX_DEPTH < depth then Err(TooDeep)
    else if ts == [] then Err(Syntax)
    else
      match ts[0]
      case Word(w) =>
        if w == "null" then Ok((Null, ts[1..], items))
        else if w == "true" then Ok((Bool(true), ts[1..], items))
        else if w == "false" then Ok((Bool(false), ts[1..], items))
        else Err(Syntax)
      case Quoted(s) =>
        if ByteLength(s) <= MAX_STRING_BYTES then Ok((String(s), ts[1..], items)) else Err(StringTooLong)
      case NumberText(lexeme) => (
        match NumberRead(lexeme)
        case Err(e) => Err(e)
        case Ok(d) => Ok((Number(d), ts[1..], items))
      )
      case Punct(mark) =>
        if mark == '[' then ReadItems(ts[1..], depth, items, [])
        else if mark == '{' then ReadMembers(ts[1..], depth, items, [])
        else Err(Syntax)
  }

  ghost function ReadItems(ts: seq<Piece>, depth: nat, items: nat, values: seq<Value>): (r: Reading<Value>)
    ensures r.Ok? ==> |r.value.1| < |ts|
    decreases |ts|, 1
  {
    if ts == [] then Err(Syntax)
    else if ts[0] == Punct(']') then
      if MAX_ITEMS < |values| then Err(TooManyItems) else Ok((Array(values), ts[1..], items))
    else if MAX_ITEMS <= items then Err(TooManyItems)
    else
      match Read(ts, depth + 1, items + 1)
      case Err(e) => Err(e)
      case Ok((v, rest, n)) => ReadItems(rest, depth, n, values + [v])
  }

  ghost function ReadMembers(ts: seq<Piece>, depth: nat, items: nat, members: seq<Member>): (r: Reading<Value>)
    ensures r.Ok? ==> |r.value.1| < |ts|
    decreases |ts|, 1
  {
    if ts == [] then Err(Syntax)
    else if ts[0] == Punct('}') then (
      match ObjectOf(members)
      case Err(e) => Err(e)
      case Ok(o) => Ok((o, ts[1..], items))
    )
    else if !ts[0].Quoted? then Err(InvalidKey)
    else if MAX_ITEMS <= items then Err(TooManyItems)
    else
      match Read(ts[1..], depth + 1, items + 1)
      case Err(e) => Err(e)
      case Ok((v, rest, n)) => ReadMembers(rest, depth, n, members + [Member(ts[0].text, v)])
  }

  // ------------------------------------------------------------------- round trip

  lemma NumberReadsBack(d: Decimal)
    requires Canonical(d)
    ensures NumberRead(DecimalParse.Print(d)) == Ok(d)
  {
    hide Canonical, DecimalParse.Writes, DecimalParse.Print;
    DecimalParse.PrintedLength(d);
    DecimalParse.PrintedWrites(d);
    var lexeme := DecimalParse.Print(d);
    forall e | Canonical(e) && DecimalParse.Writes(lexeme, e)
      ensures e == d
    {
      WritesOne(lexeme, d, e);
    }
  }

  lemma WritesOne(lexeme: string, d: Decimal, e: Decimal)
    requires Canonical(d) && Canonical(e) && DecimalParse.Writes(lexeme, d) && DecimalParse.Writes(lexeme, e)
    ensures d == e
  {
    DecimalParse.SameWritten(lexeme, d, e);
  }

  // Whatever is admitted is read back as it was printed, with the same item count, so
  // that the reader's own depth and item limits never refuse it.
  lemma {:induction false} ReadsBack(v: Value, depth: nat, items: nat, rest: seq<Piece>)
    requires Admit(v, depth, items).Ok?
    ensures Read(Delivered(Print(v)) + rest, depth, items) == Ok((v, rest, Admit(v, depth, items).value))
    decreases v, 1
  {
    hide NumberRead, ReadItems, ReadMembers, ByteLength, Canonical, DecimalParse.Print;
    var ts := Delivered(Print(v)) + rest;
    match v
    case Null => OneToken(Word("null"), rest);
    case Bool(flag) => OneToken(Word(if flag then "true" else "false"), rest);
    case Number(d) =>
      OneToken(NumberText(DecimalParse.Print(d)), rest);
      NumberReadsBack(d);
    case String(s) => OneToken(Quoted(s), rest);
    case Array(vs) =>
      Bracketed('[', PrintItems(vs), ']', rest);
      ItemsReadBack(vs, depth, items, [], rest);
      assert [] + vs == vs;
    case Object(ms) =>
      Bracketed('{', PrintMembers(ms), '}', rest);
      MembersReadBack(ms, None, depth, items, [], rest);
      assert [] + ms == ms;
  }

  lemma OneToken(p: Piece, rest: seq<Piece>)
    requires !Separator(p)
    ensures Delivered([p]) == [p] && (Delivered([p]) + rest)[0] == p && (Delivered([p]) + rest)[1..] == rest
  {
    assert [p][1..] == [];
    assert [p] + Delivered([]) == [p];
  }

  lemma Bracketed(open: char, inner: seq<Piece>, close: char, rest: seq<Piece>)
    requires open in "[{" && close in "]}"
    ensures var ts := Delivered([Punct(open)] + inner + [Punct(close)]) + rest;
            ts != [] && ts[0] == Punct(open) && ts[1..] == Delivered(inner) + ([Punct(close)] + rest)
  {
    DeliveredConcat([Punct(open)] + inner, [Punct(close)]);
    DeliveredConcat([Punct(open)], inner);
    OneToken(Punct(open), []);
    OneToken(Punct(close), []);
  }

  // The first token of a value closes nothing.
  lemma FirstToken(v: Value, rest: seq<Piece>)
    ensures var ts := Delivered(Print(v)) + rest;
            ts != [] && ts[0] != Punct(']') && ts[0] != Punct('}')
  {
    hide DecimalParse.Print;
    match v
    case Null => OneToken(Word("null"), rest);
    case Bool(flag) => OneToken(Word(if flag then "true" else "false"), rest);
    case Number(d) => OneToken(NumberText(DecimalParse.Print(d)), rest);
    case String(s) => OneToken(Quoted(s), rest);
    case Array(vs) => Bracketed('[', PrintItems(vs), ']', rest);
    case Object(ms) => Bracketed('{', PrintMembers(ms), '}', rest);
  }

  lemma {:induction false} AdmitGrows(v: Value, depth: nat, items: nat)
    requires Admit(v, depth, items).Ok?
    ensures items <= Admit(v, depth, items).value
    decreases v, 1
  {
    match v
    case Array(vs) => AdmitItemsGrows(vs, depth, items);
    case Object(ms) => AdmitMembersGrows(ms, None, depth, items);
    case _ =>
  }

  lemma {:induction false} AdmitItemsGrows(vs: seq<Value>, depth: nat, items: nat)
    requires AdmitItems(vs, depth, items).Ok?
    ensures items <= AdmitItems(vs, depth, items).value
    decreases vs, 0
  {
    if vs != [] {
      AdmitGrows(vs[0], depth + 1, items + 1);
      AdmitItemsGrows(vs[1..], depth, Admit(vs[0], depth + 1, items + 1).value);
    }
  }

  lemma {:induction false} AdmitMembersGrows(ms: seq<Member>, previous: Option<string>, depth: nat, items: nat)
    requires AdmitMembers(ms, previous, depth, items).Ok?
    ensures items <= AdmitMembers(ms, previous, depth, items).value
    decreases ms, 0
  {
    hide ByteLength;
    if ms != [] {
      AdmitGrows(ms[0].value, depth + 1, items + 1);
      AdmitMembersGrows(ms[1..], Some(ms[0].name), depth, Admit(ms[0].value, depth + 1, items + 1).value);
    }
  }

  // Separators vanish between the parts of a list.
  lemma JoinedParts(head: seq<Piece>, more: bool, tail: seq<Piece>, rest: seq<Piece>)
    ensures Delivered(head + (if more then [Punct(',')] else []) + tail) + rest
         == Delivered(head) + (Delivered(tail) + rest)
  {
    hide Delivered;
    var comma := if more then [Punct(',')] else [];
    DeliveredConcat(head + comma, tail);
    DeliveredConcat(head, comma);
    SeparatorVanishes(more);
    assert Delivered(head) + [] == Delivered(head);
  }

  lemma SeparatorVanishes(more: bool)
    ensures Delivered(if more then [Punct(',')] else []) == []
  {
    assert [Punct(',')][1..] == [];
  }

  lemma NoneDelivered(rest: seq<Piece>)
    ensures Delivered([]) + rest == rest
  {
  }

  lemma {:induction false} ItemsReadBack(vs: seq<Value>, depth: nat, items: nat, acc: seq<Value>, rest: seq<Piece>)
    requires AdmitItems(vs, depth, items).Ok? && |acc| <= items && |acc| <= MAX_ITEMS
    ensures ReadItems(Delivered(PrintItems(vs)) + ([Punct(']')] + rest), depth, items, acc)
         == Ok((Array(acc + vs), rest, AdmitItems(vs, depth, items).value))
    decreases vs, 0
  {
    hide Read, Admit, Print, Delivered;
    var close := [Punct(']')] + rest;
    if vs == [] {
      NoneDelivered(close);
      assert close[1..] == rest && acc + vs == acc;
    } else {
      var tail := Delivered(PrintItems(vs[1..])) + close;
      JoinedParts(Print(vs[0]), |vs| != 1, PrintItems(vs[1..]), close);
      FirstToken(vs[0], tail);
      ReadsBack(vs[0], depth + 1, items + 1, tail);
      var n := Admit(vs[0], depth + 1, items + 1).value;
      AdmitGrows(vs[0], depth + 1, items + 1);
      ItemsReadBack(vs[1..], depth, n, acc + [vs[0]], rest);
      assert acc + [vs[0]] + vs[1..] == acc + vs;
    }
  }

  // The members read so far end where the next ones go on.
  predicate Continues(acc: seq<Member>, previous: Option<string>) {
    && Ascending(acc) && NamesFit(acc)
    && (previous.None? <==> acc == [])
    && (acc != [] ==> previous == Some(acc[|acc| - 1].name))
  }

  lemma {:induction false} MembersReadBack(ms: seq<Member>, previous: Option<string>, depth: nat, items: nat,
                                           acc: seq<Member>, rest: seq<Piece>)
    requires AdmitMembers(ms, previous, depth, items).Ok? && |acc| <= items && |acc| <= MAX_ITEMS
    requires Continues(acc, previous)
    ensures ReadMembers(Delivered(PrintMembers(ms)) + ([Punct('}')] + rest), depth, items, acc)
         == Ok((Object(acc + ms), rest, AdmitMembers(ms, previous, depth, items).value))
    decreases ms, 0
  {
    hide Read, Admit, Print, Delivered, ObjectOf, ByteLength, Less;
    var close := [Punct('}')] + rest;
    if ms == [] {
      NoneDelivered(close);
      assert close[1..] == rest && acc + ms == acc;
      AscendingObject(acc);
    } else {
      var m, tail := ms[0], Delivered(PrintMembers(ms[1..])) + close;
      MemberTokens(ms, close);
      ReadsBack(m.value, depth + 1, items + 1, tail);
      var n := Admit(m.value, depth + 1, items + 1).value;
      AdmitGrows(m.value, depth + 1, items + 1);
      MembersReadBack(ms[1..], Some(m.name), depth, n, acc + [m], rest);
      assert acc + [m] + ms[1..] == acc + ms;
    }
  }

  lemma MemberTokens(ms: seq<Member>, close: seq<Piece>)
    requires ms != []
    ensures var ts := Delivered(PrintMembers(ms)) + close;
            && ts != [] && ts[0] == Quoted(ms[0].name)
            && ts[1..] == Delivered(Print(ms[0].value)) + (Delivered(PrintMembers(ms[1..])) + close)
  {
    hide Print, Delivered, PrintMembers;
    var key, value, tail := [Quoted(ms[0].name), Punct(':')], Print(ms[0].value), PrintMembers(ms[1..]);
    MembersUnfold(ms);
    JoinedParts(key + value, |ms| != 1, tail, close);
    DeliveredConcat(key, value);
    KeyToken(ms[0].name);
    Headed(Quoted(ms[0].name), Delivered(value), Delivered(tail) + close);
  }

  lemma MembersUnfold(ms: seq<Member>)
    requires ms != []
    ensures PrintMembers(ms) == ([Quoted(ms[0].name), Punct(':')] + Print(ms[0].value))
                                + (if |ms| != 1 then [Punct(',')] else []) + PrintMembers(ms[1..])
  {
    hide Print;
  }

  lemma Headed(q: Piece, a: seq<Piece>, b: seq<Piece>)
    ensures ([q] + a) + b != [] && (([q] + a) + b)[0] == q && (([q] + a) + b)[1..] == a + b
  {
  }

  lemma KeyToken(name: string)
    ensures Delivered([Quoted(name), Punct(':')]) == [Quoted(name)]
  {
    var key := [Quoted(name), Punct(':')];
    assert key[1..] == [Punct(':')] && [Punct(':')][1..] == [];
    assert Delivered([Punct(':')]) == [];
    assert [Quoted(name)] + [] == [Quoted(name)];
  }
}
