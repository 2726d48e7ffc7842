/** Whatever the printer prints, the parser reads back. */
module JsonRoundTrip {
  import opened Wrappers
  import opened Decimals
  import opened Json

  predicate DistinctNames(ms: Members) {
    ms.Member? ==> !Has(ms.rest, ms.name) && DistinctNames(ms.rest)
  }

  /** A number text that does not denote an integer in range. */
  predicate NumberText(t: string) {
    ReadNumber(t) == Some(Read(OtherNumber(t), []))
  }

  /** Values as a parser gives them: distinct names, integers in range, and number texts for all other numbers. */
  predicate Printable(v: Json) {
    match v
    case Int(n) => I64_MIN <= n <= U64_MAX
    case OtherNumber(text) => NumberText(text)
    case Arr(items) => PrintableItems(items)
    case Obj(members) => DistinctNames(members) && PrintableMembers(members)
    case _ => true
  }

  predicate PrintableItems(items: Items) {
    items.Item? ==> Printable(items.head) && PrintableItems(items.tail)
  }

  predicate PrintableMembers(ms: Members) {
    ms.Member? ==> Printable(ms.value) && PrintableMembers(ms.rest)
  }

  /** Text that may follow a value. */
  predicate Ends(rest: string) {
    rest == [] || rest[0] == ',' || rest[0] == '}' || rest[0] == ']'
  }

  // ----- Strings -----

  lemma HexReads(d: int)
    requires 0 <= d < 16
    ensures HexValue(HexDigit(d)) == Some(d)
  {
  }

  lemma ControlReads(v: int, rest: string)
    requires 0 <= v < 0x20
    ensures ReadUnicode("00" + [HexDigit(v / 16), HexDigit(v % 16)] + rest) == Some(Read(ScalarOf(v), rest))
  {
    HexReads(v / 16);
    HexReads(v % 16);
    assert HexValue('0') == Some(0);
    var t := "00" + [HexDigit(v / 16), HexDigit(v % 16)] + rest;
    assert t[4..] == rest;
    assert Hex4(t) == Some(v);
  }

  lemma EscapedReads(c: char, rest: string)
    requires |EscapeChar(c)| > 1
    ensures EscapeChar(c)[0] == '\\' && ReadEscape(EscapeChar(c)[1..] + rest) == Some(Read(c, rest))
  {
    var e := EscapeChar(c);
    var t := e[1..] + rest;
    if |e| == 2 {
      assert t[1..] == rest;
    } else {
      ControlReads(c as int, rest);
      assert t[1..] == "00" + [HexDigit(c as int / 16), HexDigit(c as int % 16)] + rest;
    }
  }

  predicate PlainChar(c: char) {
    c != '"' && c != '\\' && c as int >= 0x20
  }

  /** What one character's print must offer the reader. */
  predicate Spells(e: string, c: char, more: string) {
    || (e == [c] && PlainChar(c))
    || (|e| > 1 && e[0] == '\\' && ReadEscape(e[1..] + more) == Some(Read(c, more)))
  }

  lemma EscapeSpells(c: char, more: string)
    ensures Spells(EscapeChar(c), c, more)
  {
    if |EscapeChar(c)| > 1 {
      EscapedReads(c, more);
    }
  }

  lemma CharReads(e: string, c: char, more: string, t: string, rest: string)
    requires Spells(e, c, more) && ReadChars(more) == Some(Read(t, rest))
    ensures ReadChars(e + more) == Some(Read([c] + t, rest))
  {
    if e == [c] && PlainChar(c) {
      assert (e + more)[1..] == more;
    } else {
      assert (e + more)[1..] == e[1..] + more;
    }
  }

  lemma CharReadsBack(c: char, more: string, t: string, rest: string)
    requires ReadChars(more) == Some(Read(t, rest))
    ensures ReadChars(EscapeChar(c) + more) == Some(Read([c] + t, rest))
  {
    EscapeSpells(c, more);
    CharReads(EscapeChar(c), c, more, t, rest);
  }

  lemma EscapeSplits(s: string, tail: string)
    requires s != []
    ensures Escape(s) + tail == EscapeChar(s[0]) + (Escape(s[1..]) + tail)
  {
  }

  /** Escaped text up to its closing quote reads back as the text. */
  lemma {:induction false} EscapeReads(s: string, rest: string)
    ensures ReadChars(Escape(s) + (['"'] + rest)) == Some(Read(s, rest))
  {
    if s == [] {
      assert (Escape(s) + (['"'] + rest))[1..] == rest;
    } else {
      var more := Escape(s[1..]) + (['"'] + rest);
      EscapeReads(s[1..], rest);
      CharReadsBack(s[0], more, s[1..], rest);
      EscapeSplits(s, ['"'] + rest);
      assert s == [s[0]] + s[1..];
    }
  }

  // ----- Integers -----

  lemma {:induction false} RunOf(d: string, rest: string)
    requires (forall i :: 0 <= i < |d| ==> IsDigit(d[i])) && (rest == [] || !IsDigit(rest[0]))
    ensures DigitRun(d + rest) == |d|
  {
    if d == [] {
      assert d + rest == rest;
    } else {
      assert (d + rest)[1..] == d[1..] + rest;
      RunOf(d[1..], rest);
    }
  }

  lemma NoFraction(rest: string)
    requires Ends(rest)
    ensures FractionLength(rest) == Some(0)
  {
  }

  lemma NumberReadsBack(negative: bool, m: nat, rest: string)
    requires Ends(rest) && (if negative then 0 < m <= -I64_MIN else m <= U64_MAX)
    ensures NumberFrom(negative, Digits(m) + rest) == Some(Read(Int(if negative then 0 - m else m), rest))
  {
    var d := Digits(m);
    DigitsRead(m);
    RunOf(d, rest);
    NoFraction(rest);
    assert (d + rest)[..|d|] == d && (d + rest)[|d|..] == rest && (d + rest)[0] == d[0];
  }

  lemma SignedReads(t: string, body: string)
    requires t != [] && t[0] == '-' && t[1..] == body
    ensures ReadNumber(t) == NumberFrom(true, body)
  {
  }

  lemma UnsignedReads(t: string)
    requires t != [] && t[0] != '-'
    ensures ReadNumber(t) == NumberFrom(false, t)
  {
  }

  lemma NegativeReads(n: int, rest: string)
    requires I64_MIN <= n < 0 && Ends(rest)
    ensures ReadNumber(IntText(n) + rest) == Some(Read(Int(n), rest))
  {
    NumberReadsBack(true, -n, rest);
    SignedReads(['-'] + (Digits(-n) + rest), Digits(-n) + rest);
    assert IntText(n) + rest == ['-'] + (Digits(-n) + rest);
  }

  lemma NaturalReads(n: nat, rest: string)
    requires n <= U64_MAX && Ends(rest)
    ensures ReadNumber(Digits(n) + rest) == Some(Read(Int(n), rest))
  {
    NumberReadsBack(false, n, rest);
    assert IsDigit(Digits(n)[0]);
    UnsignedReads(Digits(n) + rest);
  }

  lemma IntReads(n: int, rest: string)
    requires I64_MIN <= n <= U64_MAX && Ends(rest)
    ensures ReadNumber(IntText(n) + rest) == Some(Read(Int(n), rest))
    ensures IntText(n) != [] && (IntText(n)[0] == '-' || IsDigit(IntText(n)[0]))
  {
    if n < 0 {
      NegativeReads(n, rest);
    } else {
      NaturalReads(n, rest);
      assert IsDigit(Digits(n)[0]);
    }
  }

  // ----- Other numbers -----

  lemma {:induction false} RunAppend(x: string, rest: string)
    requires Ends(rest)
    ensures DigitRun(x + rest) == DigitRun(x)
  {
    if x == [] {
      assert x + rest == rest;
    } else if IsDigit(x[0]) {
      assert (x + rest)[1..] == x[1..] + rest;
      RunAppend(x[1..], rest);
    }
  }

  lemma PointAppend(x: string, rest: string)
    requires Ends(rest)
    ensures PointLength(x + rest) == PointLength(x)
  {
    if x != [] {
      assert (x + rest)[1..] == x[1..] + rest;
      RunAppend(x[1..], rest);
    } else {
      assert x + rest == rest;
    }
  }

  lemma StartAppend(x: string, rest: string)
    requires Ends(rest) && x != []
    ensures ExponentStart(x + rest) == ExponentStart(x)
  {
    assert |x| > 1 ==> (x + rest)[1] == x[1];
    assert |x| == 1 && rest != [] ==> (x + rest)[1] == rest[0];
  }

  lemma ExponentAppend(x: string, rest: string)
    requires Ends(rest)
    ensures ExponentLength(x + rest) == ExponentLength(x)
  {
    if x == [] {
      assert x + rest == rest;
    } else {
      var start := ExponentStart(x);
      StartAppend(x, rest);
      assert (x + rest)[start..] == x[start..] + rest;
      RunAppend(x[start..], rest);
    }
  }

  lemma FractionAppend(x: string, rest: string)
    requires Ends(rest)
    ensures FractionLength(x + rest) == FractionLength(x)
  {
    PointAppend(x, rest);
    if PointLength(x).Some? {
      var p := PointLength(x).value;
      assert (x + rest)[p..] == x[p..] + rest;
      ExponentAppend(x[p..], rest);
    }
  }

  lemma NumberOfAppend(negative: bool, body: string, k: nat, f: nat, t: string, rest: string)
    requires k + f <= |body| && forall i :: 0 <= i < k ==> IsDigit(body[i])
    requires NumberOf(negative, body, k, f) == Read(OtherNumber(t), [])
    ensures forall i :: 0 <= i < k ==> IsDigit((body + rest)[i])
    ensures NumberOf(negative, body + rest, k, f) == Read(OtherNumber(t), rest)
  {
    assert (body + rest)[..k] == body[..k];
    assert k + f == |body|;
    assert (body + rest)[..k + f] == body == body[..k + f];
    assert (body + rest)[k + f..] == rest;
  }

  lemma NumberFromAppend(negative: bool, body: string, t: string, rest: string)
    requires Ends(rest) && NumberFrom(negative, body) == Some(Read(OtherNumber(t), []))
    ensures NumberFrom(negative, body + rest) == Some(Read(OtherNumber(t), rest))
    ensures body != [] && IsDigit(body[0])
  {
    var k := DigitRun(body);
    RunAppend(body, rest);
    assert (body + rest)[k..] == body[k..] + rest;
    FractionAppend(body[k..], rest);
    NumberOfAppend(negative, body, k, FractionLength(body[k..]).value, t, rest);
  }

  /** A number text reads back as itself. */
  lemma NumberTextReads(t: string, rest: string)
    requires NumberText(t) && Ends(rest)
    ensures t != [] && (t[0] == '-' || IsDigit(t[0]))
    ensures ReadNumber(t + rest) == Some(Read(OtherNumber(t), rest))
  {
    if t != [] && t[0] == '-' {
      NumberFromAppend(true, t[1..], t, rest);
      SignedReads(t + rest, t[1..] + rest);
    } else {
      NumberFromAppend(false, t, t, rest);
      UnsignedReads(t + rest);
    }
  }

  lemma NumberTextStarts(t: string)
    requires NumberText(t)
    ensures t != [] && (t[0] == '-' || IsDigit(t[0]))
  {
    NumberTextReads(t, []);
  }

  // ----- Objects -----

  lemma {:induction false} InsertNew(into: Members, name: string, value: Json)
    requires !Has(into, name)
    ensures Insert(into, name, value) == Append(into, Member(name, value, NoMembers))
  {
    if into.Member? {
      InsertNew(into.rest, name, value);
    }
  }

  lemma {:induction false} AppendNil(a: Members)
    ensures Append(a, NoMembers) == a
  {
    if a.Member? {
      AppendNil(a.rest);
    }
  }

  lemma {:induction false} AppendAssoc(a: Members, b: Members, c: Members)
    ensures Append(Append(a, b), c) == Append(a, Append(b, c))
  {
    if a.Member? {
      AppendAssoc(a.rest, b, c);
    }
  }

  lemma {:induction false} HasAppend(a: Members, b: Members, name: string)
    ensures Has(Append(a, b), name) <==> Has(a, name) || Has(b, name)
  {
    if a.Member? {
      HasAppend(a.rest, b, name);
    }
  }

  predicate Apart(a: Members, b: Members) {
    b.Member? ==> !Has(a, b.name) && Apart(a, b.rest)
  }

  lemma {:induction false} ApartAppend(a: Members, name: string, value: Json, b: Members)
    requires Apart(a, b) && !Has(b, name)
    ensures Apart(Append(a, Member(name, value, NoMembers)), b)
  {
    if b.Member? {
      HasAppend(a, Member(name, value, NoMembers), b.name);
      ApartAppend(a, name, value, b.rest);
    }
  }

  /** Members with distinct names are collected as they come. */
  lemma {:induction false} CollectedDistinct(into: Members, ms: Members)
    requires DistinctNames(ms) && Apart(into, ms)
    ensures Collected(into, ms) == Append(into, ms)
    decreases ms
  {
    match ms
    case NoMembers => AppendNil(into);
    case Member(name, value, rest) =>
      var one := Member(name, value, NoMembers);
      InsertNew(into, name, value);
      ApartAppend(into, name, value, rest);
      CollectedDistinct(Append(into, one), rest);
      AppendAssoc(into, one, rest);
  }

  lemma {:induction false} ApartNothing(ms: Members)
    ensures Apart(NoMembers, ms)
  {
    if ms.Member? {
      ApartNothing(ms.rest);
    }
  }

  // ----- Values -----

  /** The first character of a printed value: never a space, never a closing bracket. */
  lemma PrintStarts(v: Json)
    requires Printable(v)
    ensures Print(v) != [] && !IsSpace(Print(v)[0]) && Print(v)[0] != ']' && Print(v)[0] != '}'
  {
    if v.Int? && v.n >= 0 {
      assert IsDigit(Digits(v.n)[0]);
    }
    if v.OtherNumber? {
      NumberTextStarts(v.text);
    }
  }

  lemma NoSpace(s: string, rest: string)
    requires s != [] && !IsSpace(s[0])
    ensures SkipSpace(s + rest) == s + rest
  {
    assert (s + rest)[0] == s[0];
  }

  lemma WordReads(v: Json, rest: string)
    requires v.Null? || v.Bool?
    ensures ReadValue(Print(v) + rest) == Some(Read(v, rest))
  {
    var t := Print(v) + rest;
    NoSpace(Print(v), rest);
    assert t[..|Print(v)|] == Print(v) && t[|Print(v)|..] == rest;
    assert t[0] == Print(v)[0];
  }

  lemma StringReads(s: string, rest: string)
    ensures ReadValue(Quote(s) + rest) == Some(Read(Str(s), rest))
    ensures (Quote(s) + rest)[0] == '"' && ReadChars((Quote(s) + rest)[1..]) == Some(Read(s, rest))
  {
    var t := Quote(s) + rest;
    NoSpace(Quote(s), rest);
    EscapeReads(s, rest);
    assert t[1..] == Escape(s) + (['"'] + rest);
  }

  lemma ValueIsNumber(t: string)
    requires t != [] && (t[0] == '-' || IsDigit(t[0]))
    ensures ReadValue(t) == ReadNumber(t)
  {
    NotAWord(t);
    assert SkipSpace(t) == t;
  }

  lemma NumberReads(n: int, rest: string)
    requires I64_MIN <= n <= U64_MAX && Ends(rest)
    ensures ReadValue(IntText(n) + rest) == Some(Read(Int(n), rest))
  {
    IntReads(n, rest);
    assert (IntText(n) + rest)[0] == IntText(n)[0];
    ValueIsNumber(IntText(n) + rest);
  }

  lemma StartsHead(t: string, p: string)
    requires p != [] && StartsWith(t, p)
    ensures t[0] == p[0]
  {
    assert t[0] == t[..|p|][0];
  }

  lemma NotAWord(t: string)
    requires t != [] && (t[0] == '-' || IsDigit(t[0]))
    ensures !StartsWith(t, "null") && !StartsWith(t, "true") && !StartsWith(t, "false")
  {
    if StartsWith(t, "null") {
      StartsHead(t, "null");
    }
    if StartsWith(t, "true") {
      StartsHead(t, "true");
    }
    if StartsWith(t, "false") {
      StartsHead(t, "false");
    }
  }

  lemma OtherNumberReads(t: string, rest: string)
    requires NumberText(t) && Ends(rest)
    ensures ReadValue(t + rest) == Some(Read(OtherNumber(t), rest))
  {
    NumberTextReads(t, rest);
    assert (t + rest)[0] == t[0];
    ValueIsNumber(t + rest);
  }

  /** Every printable value reads back from its print, whatever legal text follows. */
  lemma {:induction false} ValueReads(v: Json, rest: string)
    requires Printable(v) && Ends(rest)
    ensures ReadValue(Print(v) + rest) == Some(Read(v, rest))
    decreases v, 1
  {
    match v
    case Null => WordReads(v, rest);
    case Bool(_) => WordReads(v, rest);
    case Int(n) => NumberReads(n, rest);
    case OtherNumber(t) => OtherNumberReads(t, rest);
    case Str(s) => StringReads(s, rest);
    case Arr(items) => ArrayReads(items, rest);
    case Obj(members) => ObjectReads(members, rest);
  }

  lemma ArrayStep(t: string, u: string, items: Items, rest: string)
    requires t != [] && t[0] == '[' && t[1..] == u && SkipSpace(u) == u && u != []
    requires if u[0] == ']' then items.NoItems? && u[1..] == rest else ReadItems(u) == Some(Read(items, rest))
    ensures ReadValue(t) == Some(Read(Arr(items), rest))
  {
    assert SkipSpace(t) == t;
  }

  lemma {:induction false} ArrayReads(items: Items, rest: string)
    requires PrintableItems(items)
    ensures ReadValue(Print(Arr(items)) + rest) == Some(Read(Arr(items), rest))
    decreases items, 1
  {
    var t := Print(Arr(items)) + rest;
    var u := PrintItems(items) + ([']'] + rest);
    assert t[0] == '[' && t[1..] == u;
    if items.NoItems? {
      assert u == [']'] + rest && u[1..] == rest;
    } else {
      PrintStarts(items.head);
      assert u[0] == Print(items.head)[0];
      ItemsRead(items, rest);
    }
    ArrayStep(t, u, items, rest);
  }

  lemma ItemStep(t: string, v: Json, more: string, items: Items, rest: string)
    requires ReadValue(t) == Some(Read(v, more)) && more != []
    requires (more[0] == ']' && items.NoItems? && more[1..] == rest) || (more[0] == ',' && ReadItems(more[1..]) == Some(Read(items, rest)))
    ensures ReadItems(t) == Some(Read(Item(v, items), rest))
  {
    assert SkipSpace(more) == more;
  }

  lemma {:induction false} ItemsRead(items: Items, rest: string)
    requires PrintableItems(items) && items.Item?
    ensures ReadItems(PrintItems(items) + ([']'] + rest)) == Some(Read(items, rest))
    decreases items, 0
  {
    var next := PrintItems(items.tail) + ([']'] + rest);
    var more := if items.tail.NoItems? then [']'] + rest else [','] + next;
    assert PrintItems(items) + ([']'] + rest) == Print(items.head) + more;
    ValueReads(items.head, more);
    if items.tail.Item? {
      assert more[1..] == next;
      ItemsRead(items.tail, rest);
    } else {
      assert more[1..] == rest;
    }
    ItemStep(Print(items.head) + more, items.head, more, items.tail, rest);
  }

  lemma ObjectStep(t: string, u: string, ms: Members, rest: string)
    requires t != [] && t[0] == '{' && t[1..] == u && SkipSpace(u) == u && u != []
    requires if u[0] == '}' then ms.NoMembers? && u[1..] == rest
             else ReadMembers(u) == Some(Read(ms, rest)) && Collected(NoMembers, ms) == ms
    ensures ReadValue(t) == Some(Read(Obj(ms), rest))
  {
    assert SkipSpace(t) == t;
  }

  lemma ObjectText(ms: Members, rest: string)
    ensures var t := Print(Obj(ms)) + rest;
            t[0] == '{' && t[1..] == PrintMembers(ms) + (['}'] + rest)
  {
  }

  lemma MembersStart(ms: Members, rest: string)
    requires ms.Member?
    ensures (PrintMembers(ms) + rest) != [] && (PrintMembers(ms) + rest)[0] == '"'
  {
  }

  lemma {:induction false} ObjectReads(ms: Members, rest: string)
    requires PrintableMembers(ms) && DistinctNames(ms)
    ensures ReadValue(Print(Obj(ms)) + rest) == Some(Read(Obj(ms), rest))
    decreases ms, 1
  {
    var u := PrintMembers(ms) + (['}'] + rest);
    ObjectText(ms, rest);
    if ms.NoMembers? {
      assert u == ['}'] + rest && u[1..] == rest;
    } else {
      MembersStart(ms, ['}'] + rest);
      MembersRead(ms, rest);
      ApartNothing(ms);
      CollectedDistinct(NoMembers, ms);
    }
    ObjectStep(Print(Obj(ms)) + rest, u, ms, rest);
  }

  lemma MemberStep(s: string, name: string, colon: string, v: Json, more: string, ms: Members, rest: string)
    requires s != [] && s[0] == '"' && ReadChars(s[1..]) == Some(Read(name, colon))
    requires colon != [] && colon[0] == ':' && ReadValue(colon[1..]) == Some(Read(v, more)) && more != []
    requires || (more[0] == '}' && ms.NoMembers? && more[1..] == rest)
             || (more[0] == ',' && SkipSpace(more[1..]) == more[1..] && ReadMembers(more[1..]) == Some(Read(ms, rest)))
    ensures ReadMembers(s) == Some(Read(Member(name, v, ms), rest))
  {
    assert SkipSpace(colon) == colon && SkipSpace(more) == more;
  }

  lemma {:induction false} MembersRead(ms: Members, rest: string)
    requires PrintableMembers(ms) && ms.Member?
    ensures ReadMembers(PrintMembers(ms) + (['}'] + rest)) == Some(Read(ms, rest))
    decreases ms, 0
  {
    var next := PrintMembers(ms.rest) + (['}'] + rest);
    var more := if ms.rest.NoMembers? then ['}'] + rest else [','] + next;
    var colon := [':'] + (Print(ms.value) + more);
    assert PrintMembers(ms) + (['}'] + rest) == Quote(ms.name) + colon;
    StringReads(ms.name, colon);
    assert colon[1..] == Print(ms.value) + more;
    ValueReads(ms.value, more);
    if ms.rest.Member? {
      assert more[1..] == next && next[0] == '"';
      MembersRead(ms.rest, rest);
    } else {
      assert more[1..] == rest;
    }
    MemberStep(Quote(ms.name) + colon, ms.name, colon, ms.value, more, ms.rest, rest);
  }

  /** Parsing is a left inverse of printing. */
  lemma ParsePrint(v: Json)
    requires Printable(v)
    ensures Parse(Print(v)) == Some(v)
  {
    assert Print(v) + [] == Print(v);
    ValueReads(v, []);
  }
}
