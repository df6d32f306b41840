// JSON pointers (sections 3 and 4 of RFC 6901): escaping, compiling and resolving
// (internal/action/predicate.go, pointer_eval.go and internal/actioninspect/engine.go).
module Pointer {
  import opened Wrappers
  import opened JsonValue
  import opened Decimal
  import JsonRead
  import DecimalSyntax
  import DecimalParse

  const MAX_POINTER_BYTES := 1024

  // -------------------------------------------------------------------- escaping

  function ReplaceAll(s: string, c: char, replacement: string): string {
    if s == "" then "" else (if s[0] == c then replacement else [s[0]]) + ReplaceAll(s[1..], c, replacement)
  }

  // Two replacements, one after the other (escapePointerToken).
  function Escape(token: string): string {
    ReplaceAll(ReplaceAll(token, '~', "~0"), '/', "~1")
  }

  function EscapedChar(c: char): string {
    if c == '~' then "~0" else if c == '/' then "~1" else [c]
  }

  lemma {:induction false} ReplaceConcat(a: string, b: string, c: char, r: string)
    ensures ReplaceAll(a + b, c, r) == ReplaceAll(a, c, r) + ReplaceAll(b, c, r)
    decreases |a|
  {
    if a == "" {
      assert a + b == b;
    } else {
      assert (a + b)[1..] == a[1..] + b;
      ReplaceConcat(a[1..], b, c, r);
    }
  }

  // The two replacements treat every character by itself.
  lemma EscapeNext(token: string)
    requires token != ""
    ensures Escape(token) == EscapedChar(token[0]) + Escape(token[1..])
  {
    var head := if token[0] == '~' then "~0" else [token[0]];
    var rest := ReplaceAll(token[1..], '~', "~0");
    assert ReplaceAll(token, '~', "~0") == head + rest;
    ReplaceConcat(head, rest, '/', "~1");
    assert [token[0]][1..] == "" && "~0"[1..] == "0" && "0"[1..] == "";
    assert ReplaceAll("0", '/', "~1") == "0";
    assert ReplaceAll("~0", '/', "~1") == "~0";
    assert token[0] != '~' ==> ReplaceAll([token[0]], '/', "~1") == EscapedChar(token[0]);
  }

  function Unescape(s: string): Option<string> {
    if s == "" then Some("")
    else if s[0] != '~' then Prepend(s[0], Unescape(s[1..]))
    else if |s| < 2 || (s[1] != '0' && s[1] != '1') then None
    else Prepend(if s[1] == '0' then '~' else '/', Unescape(s[2..]))
  }

  function Prepend(c: char, s: Option<string>): Option<string> {
    if s.None? then None else Some([c] + s.value)
  }

  lemma {:induction false} UnescapeEscaped(token: string)
    ensures Unescape(Escape(token)) == Some(token)
    ensures '/' !in Escape(token)
    decreases |token|
  {
    if token != "" {
      UnescapeEscaped(token[1..]);
      EscapeNext(token);
      var s := Escape(token);
      if token[0] == '~' || token[0] == '/' {
        assert s[2..] == Escape(token[1..]);
      } else {
        assert s[1..] == Escape(token[1..]);
      }
      assert token == [token[0]] + token[1..];
    }
  }

  lemma {:induction false} EscapeUnescaped(s: string)
    requires Unescape(s).Some? && '/' !in s
    ensures Escape(Unescape(s).value) == s
    decreases |s|
  {
    if s != "" {
      var token := Unescape(s).value;
      var step := if s[0] == '~' then 2 else 1;
      assert forall c :: c in s[step..] ==> c in s;
      EscapeUnescaped(s[step..]);
      EscapeNext(token);
      assert token[1..] == Unescape(s[step..]).value;
      assert s == s[..step] + s[step..];
      assert s[0] in s;
      if step == 2 {
        assert s[..2] == [s[0], s[1]];
      } else {
        assert s[..1] == [s[0]];
      }
    }
  }

  // ------------------------------------------------------------------- splitting

  function Split(s: string): (parts: seq<string>)
    ensures parts != []
  {
    if s == "" then [""]
    else if s[0] == '/' then [""] + Split(s[1..])
    else
      var rest := Split(s[1..]);
      [[s[0]] + rest[0]] + rest[1..]
  }

  function Join(parts: seq<string>): string {
    if parts == [] then "" else "/" + (parts[0] + Join(parts[1..]))
  }

  lemma {:induction false} SplitJoined(parts: seq<string>)
    requires parts != [] && forall i :: 0 <= i < |parts| ==> '/' !in parts[i]
    ensures Split(Join(parts)[1..]) == parts
    decreases |parts|
  {
    var s := Join(parts)[1..];
    assert s == parts[0] + Join(parts[1..]);
    if |parts| == 1 {
      assert s == parts[0];
      SplitPlain(parts[0]);
    } else {
      SplitJoined(parts[1..]);
      var rest := Join(parts[1..]);
      assert rest == "/" + rest[1..];
      SplitAt(parts[0], rest[1..]);
      assert parts[0] + ("/" + rest[1..]) == s;
      assert [parts[0]] + parts[1..] == parts;
    }
  }

  lemma {:induction false} SplitPlain(s: string)
    requires '/' !in s
    ensures Split(s) == [s]
    decreases |s|
  {
    if s != "" {
      assert s[0] in s && forall c :: c in s[1..] ==> c in s;
      SplitPlain(s[1..]);
      assert [s[0]] + s[1..] == s;
    }
  }

  lemma {:induction false} SplitAt(a: string, b: string)
    requires '/' !in a
    ensures Split(a + ("/" + b)) == [a] + Split(b)
    decreases |a|
  {
    var s := a + ("/" + b);
    if a == "" {
      assert s[1..] == b;
    } else {
      assert a[0] in a && forall c :: c in a[1..] ==> c in a;
      assert s[1..] == a[1..] + ("/" + b);
      SplitAt(a[1..], b);
      assert [a[0]] + a[1..] == a;
    }
  }

  lemma {:induction false} JoinSplit(s: string)
    ensures Join(Split(s)) == "/" + s
    ensures forall i :: 0 <= i < |Split(s)| ==> '/' !in Split(s)[i]
    decreases |s|
  {
    if s == "" {
      assert [""][1..] == [];
    } else {
      JoinSplit(s[1..]);
      JoinStep(s[0], s[1..], Split(s[1..]));
    }
  }

  lemma JoinStep(c: char, s: string, rest: seq<string>)
    requires rest != [] && Join(rest) == "/" + s
    ensures Join([""] + rest) == "/" + ([c] + s) || c != '/'
    ensures Join([[c] + rest[0]] + rest[1..]) == "/" + ([c] + s)
    ensures ([c] + s)[1..] == s
  {
    hide Join;
    var tail := Join(rest[1..]);
    JoinFirst("", rest);
    JoinFirst([c] + rest[0], rest[1..]);
    JoinFirst(rest[0], rest[1..]);
    assert [rest[0]] + rest[1..] == rest;
    SameRest(s, rest[0] + tail);
    Grouped(c, rest[0], tail);
    assert "" + ("/" + s) == ['/'] + s;
  }

  lemma SameRest(a: string, b: string)
    requires "/" + a == "/" + b
    ensures a == b
  {
    assert ("/" + a)[1..] == a && ("/" + b)[1..] == b;
  }

  lemma Grouped(c: char, a: string, b: string)
    ensures ([c] + a) + b == [c] + (a + b)
  {
  }

  lemma JoinFirst(first: string, rest: seq<string>)
    ensures Join([first] + rest) == "/" + (first + Join(rest))
  {
    assert ([first] + rest)[1..] == rest;
  }

  // -------------------------------------------------------------------- compiling

  function UnescapeAll(parts: seq<string>): Option<seq<string>> {
    if parts == [] then Some([])
    else
      var first, rest := Unescape(parts[0]), UnescapeAll(parts[1..]);
      if first.None? || rest.None? then None else Some([first.value] + rest.value)
  }

  function Compile(pointer: string): Option<seq<string>> {
    if MAX_POINTER_BYTES < ByteLength(pointer) then None
    else if pointer == "" then Some([])
    else if pointer[0] != '/' then None
    else UnescapeAll(Split(pointer[1..]))
  }

  function EscapeAll(tokens: seq<string>): (parts: seq<string>)
    ensures |parts| == |tokens| && forall i :: 0 <= i < |parts| ==> parts[i] == Escape(tokens[i])
  {
    if tokens == [] then [] else [Escape(tokens[0])] + EscapeAll(tokens[1..])
  }

  // The pointer of a token list.
  function PointerOf(tokens: seq<string>): string {
    Join(EscapeAll(tokens))
  }

  lemma {:induction false} UnescapeAllEscaped(tokens: seq<string>)
    ensures UnescapeAll(EscapeAll(tokens)) == Some(tokens)
    decreases |tokens|
  {
    hide Escape, Unescape;
    if tokens != [] {
      UnescapeEscaped(tokens[0]);
      UnescapeAllEscaped(tokens[1..]);
      assert tokens == [tokens[0]] + tokens[1..];
      assert EscapeAll(tokens)[1..] == EscapeAll(tokens[1..]);
    }
  }

  lemma {:induction false} EscapeAllUnescaped(parts: seq<string>)
    requires UnescapeAll(parts).Some? && forall i :: 0 <= i < |parts| ==> '/' !in parts[i]
    ensures EscapeAll(UnescapeAll(parts).value) == parts
    decreases |parts|
  {
    hide Escape, Unescape;
    if parts != [] {
      EscapeUnescaped(parts[0]);
      EscapeAllUnescaped(parts[1..]);
      var tokens := UnescapeAll(parts).value;
      assert tokens[1..] == UnescapeAll(parts[1..]).value;
      assert parts == [parts[0]] + parts[1..];
    }
  }

  // Escaping tokens and compiling the pointer gives the tokens back; and an accepted
  // pointer is the only one for its tokens.
  lemma CompileRoundTrip(tokens: seq<string>)
    requires ByteLength(PointerOf(tokens)) <= MAX_POINTER_BYTES
    ensures Compile(PointerOf(tokens)) == Some(tokens)
  {
    hide Escape, Unescape, ByteLength, UnescapeAll;
    UnescapeAllEscaped(tokens);
    if tokens != [] {
      forall i | 0 <= i < |tokens|
        ensures '/' !in EscapeAll(tokens)[i]
      {
        UnescapeEscaped(tokens[i]);
      }
      SplitJoined(EscapeAll(tokens));
      assert PointerOf(tokens)[0] == '/';
    }
  }

  lemma PointerOfCompiled(pointer: string)
    requires Compile(pointer).Some?
    ensures PointerOf(Compile(pointer).value) == pointer
  {
    hide Escape, Unescape, ByteLength;
    if pointer != "" {
      JoinSplit(pointer[1..]);
      EscapeAllUnescaped(Split(pointer[1..]));
      assert pointer == "/" + pointer[1..];
    }
  }

  // CompilePointer, with its loop over the bytes of each token.
  method CompilePointer(pointer: string) returns (out: Option<seq<string>>)
    ensures out == Compile(pointer)
  {
    hide Unescape, Split, ByteLength, UnescapeAll;
    if MAX_POINTER_BYTES < ByteLength(pointer) {
      return None;
    }
    if pointer == "" {
      return Some([]);
    }
    if pointer[0] != '/' {
      return None;
    }
    var encoded := Split(pointer[1..]);
    var tokens: seq<string> := [];
    NoTokens(encoded);
    for index := 0 to |encoded|
      invariant UnescapeAll(encoded[..index]) == Some(tokens)
    {
      var token := UnescapeToken(encoded[index]);
      OneMoreToken(encoded, index);
      if token.None? {
        return None;
      }
      tokens := tokens + [token.value];
    }
    assert encoded[..|encoded|] == encoded;
    return Some(tokens);
  }

  lemma NoTokens(parts: seq<string>)
    ensures UnescapeAll(parts[..0]) == Some([])
  {
  }

  lemma {:induction false} OneMoreToken(parts: seq<string>, k: nat)
    requires k < |parts| && UnescapeAll(parts[..k]).Some?
    ensures Unescape(parts[k]).None? ==> UnescapeAll(parts).None?
    ensures Unescape(parts[k]).Some? ==>
              UnescapeAll(parts[..k + 1]) == Some(UnescapeAll(parts[..k]).value + [Unescape(parts[k]).value])
    decreases |parts|
  {
    hide Unescape;
    var rest := parts[1..];
    if 0 < k {
      assert parts[..k][1..] == rest[..k - 1] && parts[..k + 1][1..] == rest[..k];
      OneMoreToken(rest, k - 1);
      if Unescape(parts[k]).Some? {
        var first, front, last := Unescape(parts[0]).value, UnescapeAll(rest[..k - 1]).value, Unescape(parts[k]).value;
        assert [first] + (front + [last]) == ([first] + front) + [last];
      }
    } else {
      assert parts[..1][1..] == [] && parts[..0] == [];
      if Unescape(parts[0]).Some? {
        assert [] + [Unescape(parts[0]).value] == [Unescape(parts[0]).value] + [];
      }
    }
  }

  function After(decoded: string, rest: Option<string>): Option<string> {
    if rest.None? then None else Some(decoded + rest.value)
  }

  lemma AfterStep(decoded: string, c: char, rest: Option<string>)
    ensures After(decoded, Prepend(c, rest)) == After(decoded + [c], rest)
    ensures After("", rest) == rest && (rest == Some("") ==> After(decoded, rest) == Some(decoded))
  {
    if rest.Some? {
      assert decoded + ([c] + rest.value) == (decoded + [c]) + rest.value;
      assert "" + rest.value == rest.value;
      assert decoded + "" == decoded;
    }
  }

  method UnescapeToken(token: string) returns (out: Option<string>)
    ensures out == Unescape(token)
  {
    var decoded := "";
    var offset := 0;
    assert token[0..] == token;
    AfterStep("", ' ', Unescape(token));
    while offset < |token|
      invariant offset <= |token|
      invariant Unescape(token) == After(decoded, Unescape(token[offset..]))
      decreases |token| - offset
    {
      ghost var left := token[offset..];
      if token[offset] != '~' {
        assert left[1..] == token[offset + 1..];
        AfterStep(decoded, token[offset], Unescape(left[1..]));
        decoded := decoded + [token[offset]];
        offset := offset + 1;
        continue;
      }
      if |token| <= offset + 1 || (token[offset + 1] != '0' && token[offset + 1] != '1') {
        return None;
      }
      assert left[2..] == token[offset + 2..];
      var c := if token[offset + 1] == '0' then '~' else '/';
      AfterStep(decoded, c, Unescape(left[2..]));
      decoded := decoded + [c];
      offset := offset + 2;
    }
    assert token[offset..] == "";
    AfterStep(decoded, ' ', Some(""));
    return Some(decoded);
  }

  // ------------------------------------------------------------------- resolving

  datatype Resolved = Found(value: Value) | Missing | WrongContainer | InvalidIndex

  const MAX_INT := 0x7fff_ffff_ffff_ffff

  // An array index in its only form: digits without a leading zero.
  function ArrayIndex(token: string): Option<nat> {
    if token == "" || token == "-" || (1 < |token| && token[0] == '0') || !Digits(token) then None
    else if MAX_INT < DecimalSyntax.Whole(token) then None
    else Some(DecimalSyntax.Whole(token))
  }

  // The position of a name among the members, if it is there.
  function MemberIndex(ms: seq<Member>, name: string): (k: nat)
    ensures k <= |ms| && (k < |ms| ==> ms[k].name == name)
    ensures forall i :: 0 <= i < k ==> ms[i].name != name
  {
    if ms == [] || ms[0].name == name then 0 else 1 + MemberIndex(ms[1..], name)
  }

  function Step(current: Value, token: string): Resolved {
    match current
    case Object(ms) =>
      var k := MemberIndex(ms, token);
      if k == |ms| then Missing else Found(ms[k].value)
    case Array(vs) => (
      match ArrayIndex(token)
      case None => InvalidIndex
      case Some(i) => if |vs| <= i then Missing else Found(vs[i])
    )
    case _ => WrongContainer
  }

  function Resolve(root: Value, tokens: seq<string>): Resolved {
    if tokens == [] then Found(root)
    else
      match Step(root, tokens[0])
      case Found(v) => Resolve(v, tokens[1..])
      case other => other
  }

  predicate Ascending(ms: seq<Member>) {
    forall i, j :: 0 <= i < j < |ms| ==> Less(ms[i].name, ms[j].name)
  }

  // Binary search among sorted names (Lookup).
  method Lookup(ms: seq<Member>, name: string) returns (found: Option<Value>)
    requires Ascending(ms)
    ensures found == if MemberIndex(ms, name) == |ms| then None else Some(ms[MemberIndex(ms, name)].value)
  {
    hide Less, MemberIndex;
    var low, high := 0, |ms|;
    while low < high
      invariant 0 <= low <= high <= |ms|
      invariant forall i :: 0 <= i < low ==> Less(ms[i].name, name)
      invariant forall i :: high <= i < |ms| ==> !Less(ms[i].name, name)
    {
      var middle := low + (high - low) / 2;
      if Less(ms[middle].name, name) {
        forall i | 0 <= i < middle
          ensures Less(ms[i].name, name)
        {
          LessTrans(ms[i].name, ms[middle].name, name);
        }
        low := middle + 1;
      } else {
        forall i | middle < i < |ms|
          ensures !Less(ms[i].name, name)
        {
          if Less(ms[i].name, name) {
            LessTrans(ms[middle].name, ms[i].name, name);
          }
        }
        high := middle;
      }
    }
    IndexAt(ms, name, low);
    if low == |ms| || ms[low].name != name {
      return None;
    }
    return Some(ms[low].value);
  }

  lemma IndexAt(ms: seq<Member>, name: string, low: nat)
    requires Ascending(ms) && low <= |ms|
    requires forall i :: 0 <= i < low ==> Less(ms[i].name, name)
    requires forall i :: low <= i < |ms| ==> !Less(ms[i].name, name)
    ensures low < |ms| && ms[low].name == name ==> MemberIndex(ms, name) == low
    ensures low == |ms| || ms[low].name != name ==> MemberIndex(ms, name) == |ms|
  {
    hide Less;
    forall i | 0 <= i < low
      ensures ms[i].name != name
    {
      LessAsym(ms[i].name, name);
    }
    if low < |ms| && ms[low].name != name {
      LessTotal(ms[low].name, name);
      forall i | low <= i < |ms|
        ensures ms[i].name != name
      {
      }
    }
  }

  // resolvePointerTokens
  method ResolveTokens(root: Value, tokens: seq<string>) returns (out: Resolved)
    requires Sorted(root)
    ensures out == Resolve(root, tokens)
  {
    hide Less, MemberIndex, ArrayIndex;
    var current := root;
    assert tokens[0..] == tokens;
    for index := 0 to |tokens|
      invariant Sorted(current)
      invariant Resolve(root, tokens) == Resolve(current, tokens[index..])
    {
      assert tokens[index..][1..] == tokens[index + 1..];
      match current {
        case Object(ms) =>
          var selected := Lookup(ms, tokens[index]);
          if selected.None? {
            return Missing;
          }
          current := selected.value;
        case Array(vs) =>
          var at := ArrayIndex(tokens[index]);
          if at.None? {
            return InvalidIndex;
          }
          if |vs| <= at.value {
            return Missing;
          }
          current := vs[at.value];
        case _ =>
          return WrongContainer;
      }
    }
    return Found(current);
  }

  // All objects in the value have their names in order.
  predicate Sorted(v: Value)
    decreases v
  {
    match v
    case Array(vs) => forall i :: 0 <= i < |vs| ==> Sorted(vs[i])
    case Object(ms) => Ascending(ms) && forall i :: 0 <= i < |ms| ==> Sorted(ms[i].value)
    case _ => true
  }

  // --------------------------------------------------------------- walking a value

  // The tokens of a child, as the scan appends them to the pointer.
  predicate Child(v: Value, token: string, child: Value) {
    match v
    case Array(vs) => exists i :: 0 <= i < |vs| && token == DecimalParse.WholeText(i) && child == vs[i]
    case Object(ms) => exists i :: 0 <= i < |ms| && token == ms[i].name && child == ms[i].value
    case _ => false
  }

  // The scan of a value reaches a part of it along these tokens (scanValue).
  ghost predicate Reaches(v: Value, tokens: seq<string>, part: Value) {
    if tokens == [] then part == v
    else exists child :: Child(v, tokens[0], child) && Reaches(child, tokens[1..], part)
  }

  lemma {:induction false} NoLeadingZero(n: nat)
    ensures 0 < n ==> DecimalParse.WholeText(n)[0] != '0'
    ensures n == 0 ==> DecimalParse.WholeText(n) == "0"
  {
    if 10 <= n {
      NoLeadingZero(n / 10);
    }
  }

  lemma IndexReadsBack(i: nat)
    requires i <= MAX_INT
    ensures ArrayIndex(DecimalParse.WholeText(i)) == Some(i)
  {
    hide DecimalParse.WholeText, DecimalSyntax.Whole;
    DecimalParse.WholeTextFacts(i);
    NoLeadingZero(i);
    var t := DecimalParse.WholeText(i);
    assert t[0] != '-';
  }

  lemma ChildResolves(v: Value, token: string, child: Value)
    requires Sorted(v) && Child(v, token, child) && (v.Array? ==> |v.items| <= MAX_INT)
    ensures Step(v, token) == Found(child) && Sorted(child)
  {
    hide Less, ArrayIndex, DecimalParse.WholeText;
    match v
    case Array(vs) =>
      var i :| 0 <= i < |vs| && token == DecimalParse.WholeText(i) && child == vs[i];
      IndexReadsBack(i);
    case Object(ms) =>
      var i :| 0 <= i < |ms| && token == ms[i].name && child == ms[i].value;
      var k := MemberIndex(ms, token);
      if k < i {
        LessAsym(ms[k].name, ms[i].name);
      }
  }

  // No array is longer than an index can say.
  predicate Indexable(v: Value)
    decreases v
  {
    match v
    case Array(vs) => |vs| <= MAX_INT && forall i :: 0 <= i < |vs| ==> Indexable(vs[i])
    case Object(ms) => forall i :: 0 <= i < |ms| ==> Indexable(ms[i].value)
    case _ => true
  }

  lemma {:induction false} ReachedResolves(v: Value, tokens: seq<string>, part: Value)
    requires Sorted(v) && Indexable(v) && Reaches(v, tokens, part)
    ensures Resolve(v, tokens) == Found(part)
    decreases |tokens|
  {
    hide Sorted, Child, Step;
    if tokens != [] {
      var child :| Child(v, tokens[0], child) && Reaches(child, tokens[1..], part);
      IndexableChild(v, tokens[0], child);
      ChildResolves(v, tokens[0], child);
      ReachedResolves(child, tokens[1..], part);
    }
  }

  lemma IndexableChild(v: Value, token: string, child: Value)
    requires Indexable(v) && Child(v, token, child)
    ensures Indexable(child) && (v.Array? ==> |v.items| <= MAX_INT)
  {
  }

  // The pointer that a scan builds for a part resolves to that part, as long as it is
  // within the length bound.
  lemma ScannedPointerResolves(v: Value, tokens: seq<string>, part: Value)
    requires Sorted(v) && Indexable(v) && Reaches(v, tokens, part)
    requires ByteLength(PointerOf(tokens)) <= MAX_POINTER_BYTES
    ensures Compile(PointerOf(tokens)) == Some(tokens) && Resolve(v, tokens) == Found(part)
  {
    hide Sorted, Reaches, Compile, Resolve;
    CompileRoundTrip(tokens);
    ReachedResolves(v, tokens, part);
  }

  // ---------------------------------------------------------------- admitted values

  // Admitted values have sorted objects and short arrays, so what holds of the parts
  // of sorted values holds of theirs.
  lemma {:induction false} AdmittedSorted(v: Value, depth: nat, items: nat)
    requires Admit(v, depth, items).Ok?
    ensures Sorted(v) && Indexable(v)
    decreases v, 1
  {
    hide Canonical, ByteLength, Less;
    match v
    case Array(vs) => AdmittedItems(vs, depth, items);
    case Object(ms) => AdmittedMembers(ms, None, depth, items);
    case _ =>
  }

  lemma {:induction false} AdmittedItems(vs: seq<Value>, depth: nat, items: nat)
    requires AdmitItems(vs, depth, items).Ok?
    ensures forall i :: 0 <= i < |vs| ==> Sorted(vs[i]) && Indexable(vs[i])
    ensures vs != [] ==> items + |vs| <= MAX_ITEMS
    decreases vs, 0
  {
    hide Admit, Sorted, Indexable;
    if vs != [] {
      AdmittedSorted(vs[0], depth + 1, items + 1);
      JsonRead.AdmitGrows(vs[0], depth + 1, items + 1);
      AdmittedItems(vs[1..], depth, Admit(vs[0], depth + 1, items + 1).value);
      assert forall i :: 1 <= i < |vs| ==> vs[i] == vs[1..][i - 1];
    }
  }

  lemma {:induction false} AdmittedMembers(ms: seq<Member>, previous: Option<string>, depth: nat, items: nat)
    requires AdmitMembers(ms, previous, depth, items).Ok?
    ensures Ascending(ms) && forall i :: 0 <= i < |ms| ==> Sorted(ms[i].value) && Indexable(ms[i].value)
    ensures previous.Some? ==> forall i :: 0 <= i < |ms| ==> Less(previous.value, ms[i].name)
    decreases ms, 0
  {
    hide Admit, Sorted, Indexable, ByteLength, Less;
    if ms != [] {
      var m, rest := ms[0], ms[1..];
      AdmittedSorted(m.value, depth + 1, items + 1);
      AdmittedMembers(rest, Some(m.name), depth, Admit(m.value, depth + 1, items + 1).value);
      assert forall i :: 1 <= i < |ms| ==> ms[i] == rest[i - 1];
      if previous.Some? {
        forall i | 0 <= i < |ms|
          ensures Less(previous.value, ms[i].name)
        {
          if 0 < i {
            LessTrans(previous.value, m.name, ms[i].name);
          }
        }
      }
    }
  }
}
