/**
 JSON text (RFC 8259): the compact printer and a parser for the whole grammar.  Objects keep insertion order; a
 repeated name keeps its first place and takes the last value.
 */
module Json {
  import opened Wrappers
  import opened Decimals

  datatype Json =
    | Null
    | Bool(b: bool)
    | Int(n: int)
    | OtherNumber(text: string)
    | Str(s: string)
    | Arr(items: Items)
    | Obj(members: Members)

  datatype Items = NoItems | Item(head: Json, tail: Items)

  datatype Members = NoMembers | Member(name: string, value: Json, rest: Members)

  // ----- Printing -----

  function HexDigit(d: int): char
    requires 0 <= d < 16
  {
    if d < 10 then '0' + d as char else 'a' + (d - 10) as char
  }

  function EscapeChar(c: char): string {
    if c == '"' then "\\\""
    else if c == '\\' then "\\\\"
    else if c as int == 8 then "\\b"
    else if c as int == 9 then "\\t"
    else if c as int == 10 then "\\n"
    else if c as int == 12 then "\\f"
    else if c as int == 13 then "\\r"
    else if c as int < 0x20 then "\\u00" + [HexDigit(c as int / 16), HexDigit(c as int % 16)]
    else [c]
  }

  function Escape(s: string): string {
    if s == [] then [] else EscapeChar(s[0]) + Escape(s[1..])
  }

  function Quote(s: string): string {
    ['"'] + (Escape(s) + ['"'])
  }

  function IntText(n: int): string {
    if n < 0 then ['-'] + Digits(-n) else Digits(n)
  }

  function Print(v: Json): string {
    match v
    case Null => "null"
    case Bool(b) => if b then "true" else "false"
    case Int(n) => IntText(n)
    case OtherNumber(text) => text
    case Str(s) => Quote(s)
    case Arr(items) => ['['] + (PrintItems(items) + [']'])
    case Obj(members) => ['{'] + (PrintMembers(members) + ['}'])
  }

  function PrintItems(items: Items): string {
    match items
    case NoItems => []
    case Item(head, tail) => if tail.NoItems? then Print(head) else Print(head) + ([','] + PrintItems(tail))
  }

  function PrintMembers(ms: Members): string {
    match ms
    case NoMembers => []
    case Member(name, value, rest) =>
      Quote(name) + ([':'] + (if rest.NoMembers? then Print(value) else Print(value) + ([','] + PrintMembers(rest))))
  }

  // ----- Parsing: every function returns what it read and the text left -----

  datatype Read<T> = Read(value: T, rest: string)

  predicate IsSpace(c: char) {
    c == ' ' || c == '\t' || c == '\n' || c == '\r'
  }

  function SkipSpace(s: string): (r: string)
    ensures |r| <= |s|
  {
    if s != [] && IsSpace(s[0]) then SkipSpace(s[1..]) else s
  }

  function HexValue(c: char): (r: Option<int>)
    ensures r.Some? ==> 0 <= r.value < 16
  {
    if '0' <= c <= '9' then Some(c as int - '0' as int)
    else if 'a' <= c <= 'f' then Some(c as int - 'a' as int + 10)
    else if 'A' <= c <= 'F' then Some(c as int - 'A' as int + 10)
    else None
  }

  function Hex4(s: string): (r: Option<int>)
    ensures r.Some? ==> |s| >= 4 && 0 <= r.value < 0x1_0000
  {
    if |s| < 4 then None
    else
      match (HexValue(s[0]), HexValue(s[1]), HexValue(s[2]), HexValue(s[3]))
      case (Some(a), Some(b), Some(c), Some(d)) => Some(4096 * a + 256 * b + 16 * c + d)
      case _ => None
  }

  function ScalarOf(v: int): char
    requires 0 <= v < 0xD800 || 0xE000 <= v < 0x11_0000
  {
    v as char
  }

  /** What follows a backslash and `u`: one code unit, or a surrogate pair. */
  function ReadUnicode(s: string): (r: Option<Read<char>>)
    ensures r.Some? ==> |r.value.rest| < |s|
  {
    match Hex4(s)
    case None => None
    case Some(hi) =>
      if hi < 0xD800 || 0xE000 <= hi then Some(Read(ScalarOf(hi), s[4..]))
      else if hi >= 0xDC00 || |s| < 6 || s[4] != '\\' || s[5] != 'u' then None
      else
        match Hex4(s[6..])
        case None => None
        case Some(lo) =>
          if 0xDC00 <= lo < 0xE000 then Some(Read(ScalarOf(0x1_0000 + (hi - 0xD800) * 0x400 + (lo - 0xDC00)), s[10..])) else None
  }

  /** What follows a backslash. */
  function ReadEscape(s: string): (r: Option<Read<char>>)
    ensures r.Some? ==> |r.value.rest| < |s|
  {
    if s == [] then None
    else if s[0] == '"' || s[0] == '\\' || s[0] == '/' then Some(Read(s[0], s[1..]))
    else if s[0] == 'b' then Some(Read(8 as char, s[1..]))
    else if s[0] == 't' then Some(Read(9 as char, s[1..]))
    else if s[0] == 'n' then Some(Read(10 as char, s[1..]))
    else if s[0] == 'f' then Some(Read(12 as char, s[1..]))
    else if s[0] == 'r' then Some(Read(13 as char, s[1..]))
    else if s[0] == 'u' then ReadUnicode(s[1..])
    else None
  }

  /** The characters of a string literal up to and including its closing quote. */
  function ReadChars(s: string): (r: Option<Read<string>>)
    ensures r.Some? ==> |r.value.rest| < |s|
    decreases |s|
  {
    if s == [] || (s[0] as int) < 0x20 then None
    else if s[0] == '"' then Some(Read([], s[1..]))
    else
      match (if s[0] == '\\' then ReadEscape(s[1..]) else Some(Read(s[0], s[1..])))
      case None => None
      case Some(c) =>
        match ReadChars(c.rest)
        case None => None
        case Some(t) => Some(Read([c.value] + t.value, t.rest))
  }

  function DigitRun(s: string): (k: nat)
    ensures k <= |s| && (forall i :: 0 <= i < k ==> IsDigit(s[i])) && (k < |s| ==> !IsDigit(s[k]))
  {
    if s == [] || !IsDigit(s[0]) then 0
    else
      var k := 1 + DigitRun(s[1..]);
      assert forall i :: 1 <= i < k ==> s[i] == s[1..][i - 1];
      k
  }

  const I64_MIN := -0x8000_0000_0000_0000
  const U64_MAX := 0xFFFF_FFFF_FFFF_FFFF

  /** The length of a fraction, or `None` when one is begun and not finished. */
  function PointLength(s: string): (r: Option<nat>)
    ensures r.Some? ==> r.value <= |s|
  {
    if s == [] || s[0] != '.' then Some(0)
    else if DigitRun(s[1..]) == 0 then None else Some(1 + DigitRun(s[1..]))
  }

  /** The length of an exponent, likewise. */
  function ExponentLength(s: string): (r: Option<nat>)
    ensures r.Some? ==> r.value <= |s|
  {
    if s == [] || (s[0] != 'e' && s[0] != 'E') then Some(0)
    else
      var start := ExponentStart(s);
      if DigitRun(s[start..]) == 0 then None else Some(start + DigitRun(s[start..]))
  }

  /** Where an exponent's digits begin: after its letter and sign. */
  function ExponentStart(s: string): (k: nat)
    requires s != []
    ensures k <= |s|
  {
    if |s| > 1 && (s[1] == '+' || s[1] == '-') then 2 else 1
  }

  function FractionLength(s: string): (r: Option<nat>)
    ensures r.Some? ==> r.value <= |s|
  {
    match PointLength(s)
    case None => None
    case Some(p) =>
      match ExponentLength(s[p..])
      case None => None
      case Some(q) => Some(p + q)
  }

  /** A number of `k` digits and `f` characters of fraction and exponent. */
  function NumberOf(negative: bool, body: string, k: nat, f: nat): Read<Json>
    requires k + f <= |body| && forall i :: 0 <= i < k ==> IsDigit(body[i])
  {
    var m := Value(body[..k]);
    var n: int := if negative then 0 - m else m;
    if f == 0 && I64_MIN <= n <= U64_MAX && !(negative && n == 0)
    then Read(Int(n), body[k..])
    else Read(OtherNumber((if negative then "-" else "") + body[..k + f]), body[k + f..])
  }

  /** A number from its sign and the text after it. */
  function NumberFrom(negative: bool, body: string): (r: Option<Read<Json>>)
    ensures r.Some? ==> |r.value.rest| < |body|
  {
    var k := DigitRun(body);
    if k == 0 || (body[0] == '0' && k > 1) then None
    else
      match FractionLength(body[k..])
      case None => None
      case Some(f) => Some(NumberOf(negative, body, k, f))
  }

  function ReadNumber(s: string): (r: Option<Read<Json>>)
    ensures r.Some? ==> |r.value.rest| < |s|
  {
    if s != [] && s[0] == '-' then NumberFrom(true, s[1..]) else NumberFrom(false, s)
  }

  predicate StartsWith(s: string, p: string) {
    |p| <= |s| && s[..|p|] == p
  }

  function ReadValue(s: string): (r: Option<Read<Json>>)
    ensures r.Some? ==> |r.value.rest| < |s|
    decreases |s|, 0
  {
    var t := SkipSpace(s);
    if t == [] then None
    else if t[0] == '"' then
      match ReadChars(t[1..])
      case None => None
      case Some(x) => Some(Read(Str(x.value), x.rest))
    else if t[0] == '{' then
      var u := SkipSpace(t[1..]);
      if u != [] && u[0] == '}' then Some(Read(Obj(NoMembers), u[1..]))
      else
        match ReadMembers(u)
        case None => None
        case Some(ms) => Some(Read(Obj(Collected(NoMembers, ms.value)), ms.rest))
    else if t[0] == '[' then
      var u := SkipSpace(t[1..]);
      if u != [] && u[0] == ']' then Some(Read(Arr(NoItems), u[1..]))
      else
        match ReadItems(u)
        case None => None
        case Some(items) => Some(Read(Arr(items.value), items.rest))
    else if StartsWith(t, "null") then Some(Read(Null, t[4..]))
    else if StartsWith(t, "true") then Some(Read(Bool(true), t[4..]))
    else if StartsWith(t, "false") then Some(Read(Bool(false), t[5..]))
    else ReadNumber(t)
  }

  /** Members up to and including the closing brace. */
  function ReadMembers(s: string): (r: Option<Read<Members>>)
    ensures r.Some? ==> |r.value.rest| < |s|
    decreases |s|, 1
  {
    if s == [] || s[0] != '"' then None
    else
      match ReadChars(s[1..])
      case None => None
      case Some(name) =>
        var colon := SkipSpace(name.rest);
        if colon == [] || colon[0] != ':' then None
        else
          match ReadValue(colon[1..])
          case None => None
          case Some(v) =>
            var t := SkipSpace(v.rest);
            if t != [] && t[0] == '}' then Some(Read(Member(name.value, v.value, NoMembers), t[1..]))
            else if t != [] && t[0] == ',' then
              match ReadMembers(SkipSpace(t[1..]))
              case None => None
              case Some(more) => Some(Read(Member(name.value, v.value, more.value), more.rest))
            else None
  }

  function ReadItems(s: string): (r: Option<Read<Items>>)
    ensures r.Some? ==> |r.value.rest| < |s|
    decreases |s|, 1
  {
    match ReadValue(s)
    case None => None
    case Some(v) =>
      var t := SkipSpace(v.rest);
      if t != [] && t[0] == ']' then Some(Read(Item(v.value, NoItems), t[1..]))
      else if t != [] && t[0] == ',' then
        match ReadItems(t[1..])
        case None => None
        case Some(more) => Some(Read(Item(v.value, more.value), more.rest))
      else None
  }

  function Parse(s: string): Option<Json> {
    match ReadValue(s)
    case None => None
    case Some(v) => if SkipSpace(v.rest) == [] then Some(v.value) else None
  }

  // ----- Objects in insertion order -----

  predicate Has(ms: Members, name: string) {
    ms.Member? && (ms.name == name || Has(ms.rest, name))
  }

  function Insert(ms: Members, name: string, value: Json): Members {
    match ms
    case NoMembers => Member(name, value, NoMembers)
    case Member(n, v, rest) => if n == name then Member(n, value, rest) else Member(n, v, Insert(rest, name, value))
  }

  function Collected(into: Members, ms: Members): Members
    decreases ms
  {
    match ms
    case NoMembers => into
    case Member(name, value, rest) => Collected(Insert(into, name, value), rest)
  }

  function Append(a: Members, b: Members): Members {
    match a
    case NoMembers => b
    case Member(n, v, rest) => Member(n, v, Append(rest, b))
  }
}
