// Canonical JSON values: what is admitted, what is printed, and how long that is
// (internal/action/value.go and request_normalize.go). Strings are sequences of code
// points; lengths are counted in UTF-8 bytes.
module JsonValue {
  import opened Wrappers
  import opened Decimal
  import DecimalParse

  const MAX_DEPTH := 32
  const MAX_ITEMS := 65536
  const MAX_STRING_BYTES := 0x40_0000   // 4 << 20

  datatype Value =
    | Null
    | Bool(flag: bool)
    | Number(number: Decimal)
    | String(text: string)
    | Array(items: seq<Value>)
    | Object(members: seq<Member>)

  datatype Member = Member(name: string, value: Value)

  // --------------------------------------------------------------------- strings

  // The bytes of one code point in UTF-8.
  function RuneLength(c: char): nat {
    if c < '\U{80}' then 1 else if c < '\U{800}' then 2 else if c < '\U{10000}' then 3 else 4
  }

  function ByteLength(s: string): nat {
    if s == "" then 0 else ByteLength(s[..|s| - 1]) + RuneLength(s[|s| - 1])
  }

  // Code point order, which is byte order in UTF-8.
  predicate Less(a: string, b: string) {
    if b == "" then false
    else if a == "" then true
    else a[0] < b[0] || (a[0] == b[0] && Less(a[1..], b[1..]))
  }

  lemma {:induction false} LessTrans(a: string, b: string, c: string)
    requires Less(a, b) && Less(b, c)
    ensures Less(a, c)
    decreases |a|
  {
    if a != "" && a[0] == b[0] && b[0] == c[0] {
      LessTrans(a[1..], b[1..], c[1..]);
    }
  }

  lemma {:induction false} LessAsym(a: string, b: string)
    requires Less(a, b)
    ensures !Less(b, a) && a != b
    decreases |a|
  {
    if a != "" && a[0] == b[0] {
      LessAsym(a[1..], b[1..]);
    }
  }

  lemma {:induction false} LessTotal(a: string, b: string)
    ensures Less(a, b) || a == b || Less(b, a)
    decreases |a|
  {
    if a != "" && b != "" && a[0] == b[0] {
      LessTotal(a[1..], b[1..]);
      assert a == [a[0]] + a[1..] && b == [b[0]] + b[1..];
    }
  }

  // -------------------------------------------------------------------- admission

  datatype JsonError =
    | TooDeep | TooManyItems | InvalidNumber | StringTooLong | InvalidKey | DuplicateKey | Syntax | WrongSize

  // Whether a value is admitted, and the items counted so far with it.
  function Admit(v: Value, depth: nat, items: nat): Result<nat, JsonError>
    decreases v, 1
  {
    if MAX_DEPTH < depth then Err(TooDeep)
    else
      match v
      case Null => Ok(items)
      case Bool(_) => Ok(items)
      case Number(d) => if Canonical(d) then Ok(items) else Err(InvalidNumber)
      case String(s) => if ByteLength(s) <= MAX_STRING_BYTES then Ok(items) else Err(StringTooLong)
      case Array(vs) => AdmitItems(vs, depth, items)
      case Object(ms) => AdmitMembers(ms, None, depth, items)
  }

  function AdmitItems(vs: seq<Value>, depth: nat, items: nat): Result<nat, JsonError>
    decreases vs, 0
  {
    if vs == [] then Ok(items)
    else if MAX_ITEMS <= items then Err(TooManyItems)
    else
      match Admit(vs[0], depth + 1, items + 1)
      case Err(e) => Err(e)
      case Ok(n) => AdmitItems(vs[1..], depth, n)
  }

  function AdmitMembers(ms: seq<Member>, previous: Option<string>, depth: nat, items: nat): Result<nat, JsonError>
    decreases ms, 0
  {
    if ms == [] then Ok(items)
    else if MAX_STRING_BYTES < ByteLength(ms[0].name) || (previous.Some? && !Less(previous.value, ms[0].name)) then
      Err(InvalidKey)
    else if MAX_ITEMS <= items then Err(TooManyItems)
    else
      match Admit(ms[0].value, depth + 1, items + 1)
      case Err(e) => Err(e)
      case Ok(n) => AdmitMembers(ms[1..], Some(ms[0].name), depth, n)
  }

  // --------------------------------------------------------------------- printing

  // What the printer appends: punctuation, quoted strings, number texts and words.
  datatype Piece = Punct(mark: char) | Quoted(text: string) | NumberText(lexeme: string) | Word(word: string)

  function Print(v: Value): (ps: seq<Piece>)
    ensures ps != []
    decreases v, 1
  {
    match v
    case Null => [Word("null")]
    case Bool(flag) => [Word(if flag then "true" else "false")]
    case Number(d) => [NumberText(DecimalParse.Print(d))]
    case String(s) => [Quoted(s)]
    case Array(vs) => [Punct('[')] + PrintItems(vs) + [Punct(']')]
    case Object(ms) => [Punct('{')] + PrintMembers(ms) + [Punct('}')]
  }

  function PrintItems(vs: seq<Value>): seq<Piece>
    decreases vs, 0
  {
    if vs == [] then []
    else Print(vs[0]) + (if |vs| == 1 then [] else [Punct(',')]) + PrintItems(vs[1..])
  }

  function PrintMembers(ms: seq<Member>): seq<Piece>
    decreases ms, 0
  {
    if ms == [] then []
    else
      [Quoted(ms[0].name), Punct(':')] + Print(ms[0].value) + (if |ms| == 1 then [] else [Punct(',')])
      + PrintMembers(ms[1..])
  }

  predicate HtmlUnsafe(c: char) {
    c == '<' || c == '>' || c == '&' || c == '\U{2028}' || c == '\U{2029}'
  }

  predicate ShortEscape(c: char) {
    c == '"' || c == '\\' || c == '\U{8}' || c == '\U{C}' || c == '\n' || c == '\r' || c == '\t'
  }

  function HexDigit(n: nat): char
    requires n < 16
  {
    if n < 10 then '0' + n as char else 'a' + (n - 10) as char
  }

  function EscapeLetter(c: char): char {
    if c == '\U{8}' then 'b' else if c == '\U{C}' then 'f' else if c == '\n' then 'n' else if c == '\r' then 'r'
    else if c == '\t' then 't' else c
  }

  // One character inside quotes; every escaped one has a code below 0x10000.
  function Escaped(c: char): string {
    if ShortEscape(c) then ['\\', EscapeLetter(c)]
    else if HtmlUnsafe(c) || c < ' ' then
      var n := c as int;
      ['\\', 'u', HexDigit(n / 4096 % 16), HexDigit(n / 256 % 16), HexDigit(n / 16 % 16), HexDigit(n % 16)]
    else [c]
  }

  function EscapedAll(s: string): string {
    if s == "" then "" else EscapedAll(s[..|s| - 1]) + Escaped(s[|s| - 1])
  }

  function PieceText(p: Piece): string {
    match p
    case Punct(mark) => [mark]
    case Quoted(s) => "\"" + EscapedAll(s) + "\""
    case NumberText(lexeme) => lexeme
    case Word(word) => word
  }

  // The printed text.
  function Render(ps: seq<Piece>): string {
    if ps == [] then "" else PieceText(ps[0]) + Render(ps[1..])
  }
}
