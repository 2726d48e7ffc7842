/** Typed extension attributes and their canonical durable JSON. */
module Extensions {
  import opened Wrappers
  import opened Bounds
  import opened Decimals
  import opened Json
  import opened TimeText
  import opened TimeParsing
  import B64 = Base64

  /** Syntax checks made by libraries outside this model. */
  datatype Library = Library(
    absoluteUri: string -> bool,
    uriReference: string -> bool,
    mediaType: string -> bool,
    jsonMediaType: string -> bool,
    jsonData: seq<Byte> -> Option<Json>,
    traceparent: string -> bool,
    tracestate: string -> bool)

  datatype ExtensionValue =
    | Boolean(b: bool)
    | Integer(n: int)
    | Text(s: string)
    | Binary(bytes: seq<Byte>)
    | Uri(uri: string)
    | UriReference(reference: string)
    | Timestamp(at: nat)

  datatype Attribute = Attribute(name: string, value: ExtensionValue)

  /** An extension set: attributes in strictly ascending name order. */
  type Extensions = seq<Attribute>

  const MAX_NAME := 20
  const RESERVED := ["id", "source", "type", "specversion", "subject", "time", "datacontenttype", "dataschema",
                     "data", "data_base64", "partitionkey"]

  predicate NameChar(c: char) {
    'a' <= c <= 'z' || '0' <= c <= '9'
  }

  predicate ValidName(s: string) {
    s != [] && |s| <= MAX_NAME && (forall i :: 0 <= i < |s| ==> NameChar(s[i])) && s !in RESERVED
  }

  predicate ValidValue(lib: Library, v: ExtensionValue) {
    match v
    case Boolean(_) => true
    case Integer(n) => -0x8000_0000 <= n < 0x8000_0000
    case Text(s) => ValidText(s)
    case Binary(_) => true
    case Uri(s) => s != [] && ValidText(s) && lib.absoluteUri(s)
    case UriReference(s) => s != [] && ValidText(s) && lib.uriReference(s)
    case Timestamp(t) => ValidInstant(t)
  }

  predicate Less(a: string, b: string) {
    Leq(a, b) && a != b
  }

  predicate Sorted(e: Extensions) {
    forall i, j :: 0 <= i < j < |e| ==> Less(e[i].name, e[j].name)
  }

  function Find(e: Extensions, name: string): Option<ExtensionValue> {
    if e == [] then None else if e[0].name == name then Some(e[0].value) else Find(e[1..], name)
  }

  predicate TraceValue(v: Option<ExtensionValue>, valid: string -> bool) {
    v.Some? ==> v.value.Text? && valid(v.value.s)
  }

  /** A trace state needs a trace parent, and both are valid strings. */
  predicate TraceContext(lib: Library, e: Extensions) {
    && (Find(e, "tracestate").Some? ==> Find(e, "traceparent").Some?)
    && TraceValue(Find(e, "traceparent"), lib.traceparent)
    && TraceValue(Find(e, "tracestate"), lib.tracestate)
  }

  predicate ValidAttribute(lib: Library, a: Attribute) {
    ValidName(a.name) && ValidValue(lib, a.value)
  }

  predicate ValidExtensions(lib: Library, e: Extensions) {
    Sorted(e) && (forall i :: 0 <= i < |e| ==> ValidAttribute(lib, e[i])) && TraceContext(lib, e)
  }

  /** Map insertion: in place for a known name, in order for a new one. */
  function Put(e: Extensions, a: Attribute): Extensions {
    if e == [] then [a]
    else if e[0].name == a.name then [a] + e[1..]
    else if Less(a.name, e[0].name) then [a] + e
    else [e[0]] + Put(e[1..], a)
  }

  // ----- Encoding -----

  datatype Kind = BooleanKind | IntegerKind | StringKind | BinaryKind | UriKind | ReferenceKind | TimestampKind

  function KindOf(v: ExtensionValue): Kind {
    match v
    case Boolean(_) => BooleanKind
    case Integer(_) => IntegerKind
    case Text(_) => StringKind
    case Binary(_) => BinaryKind
    case Uri(_) => UriKind
    case UriReference(_) => ReferenceKind
    case Timestamp(_) => TimestampKind
  }

  function TypeName(k: Kind): string {
    match k
    case BooleanKind => "boolean"
    case IntegerKind => "integer"
    case StringKind => "string"
    case BinaryKind => "binary"
    case UriKind => "uri"
    case ReferenceKind => "uri-reference"
    case TimestampKind => "timestamp"
  }

  function KindNamed(s: string): Option<Kind> {
    if s == "boolean" then Some(BooleanKind)
    else if s == "integer" then Some(IntegerKind)
    else if s == "string" then Some(StringKind)
    else if s == "binary" then Some(BinaryKind)
    else if s == "uri" then Some(UriKind)
    else if s == "uri-reference" then Some(ReferenceKind)
    else if s == "timestamp" then Some(TimestampKind)
    else None
  }

  function JsonOf(v: ExtensionValue): Json {
    match v
    case Boolean(b) => Bool(b)
    case Integer(n) => Int(n)
    case Text(s) => Str(s)
    case Binary(b) => Str(B64.Encode(b))
    case Uri(s) => Str(s)
    case UriReference(s) => Str(s)
    case Timestamp(t) => Str(TrimmedText(t))
  }

  function Tagged(v: ExtensionValue): Json {
    Obj(Member("type", Str(TypeName(KindOf(v))), Member("value", JsonOf(v), NoMembers)))
  }

  function MembersOf(e: Extensions): Members {
    if e == [] then NoMembers else Member(e[0].name, Tagged(e[0].value), MembersOf(e[1..]))
  }

  function Canonical(e: Extensions): string {
    Print(Obj(MembersOf(e)))
  }

  // ----- Decoding -----

  datatype DecodeError = BadJson | InvalidName | InvalidShape | InvalidValue | UnsupportedType | InvalidExtensions | NonCanonical

  function Count(ms: Members): nat {
    if ms.NoMembers? then 0 else 1 + Count(ms.rest)
  }

  function Lookup(ms: Members, name: string): Option<Json> {
    if ms.NoMembers? then None else if ms.name == name then Some(ms.value) else Lookup(ms.rest, name)
  }

  function Checked(lib: Library, v: ExtensionValue): Result<ExtensionValue, DecodeError> {
    if ValidValue(lib, v) then Ok(v) else Err(InvalidValue)
  }

  function DecodeTyped(lib: Library, kind: Kind, v: Json): Result<ExtensionValue, DecodeError> {
    match (kind, v)
    case (BooleanKind, Bool(b)) => Ok(Boolean(b))
    case (IntegerKind, Int(n)) => Checked(lib, Integer(n))
    case (StringKind, Str(s)) => Checked(lib, Text(s))
    case (BinaryKind, Str(s)) => if B64.Decode(s).Some? then Ok(Binary(B64.Decode(s).value)) else Err(InvalidValue)
    case (UriKind, Str(s)) => Checked(lib, Uri(s))
    case (ReferenceKind, Str(s)) => Checked(lib, UriReference(s))
    case (TimestampKind, Str(s)) => DecodeTimestamp(s)
    case _ => Err(InvalidValue)
  }

  /** Only the formatter's own spelling of a supported instant is accepted. */
  function DecodeTimestamp(s: string): Result<ExtensionValue, DecodeError> {
    match ParseText(s)
    case None => Err(InvalidValue)
    case Some(t) => if ValidInstant(t) && TrimmedText(t) == s then Ok(Timestamp(t)) else Err(InvalidValue)
  }

  function DecodeTagged(lib: Library, tagged: Json): Result<ExtensionValue, DecodeError> {
    if !tagged.Obj? || Count(tagged.members) != 2 then Err(InvalidShape)
    else
      match (Lookup(tagged.members, "type"), Lookup(tagged.members, "value"))
      case (Some(Str(typeName)), Some(v)) =>
        (match KindNamed(typeName)
         case None => Err(UnsupportedType)
         case Some(kind) => DecodeTyped(lib, kind, v))
      case _ => Err(InvalidShape)
  }

  function Gathered(lib: Library, into: Extensions, ms: Members): Result<Extensions, DecodeError>
    decreases ms
  {
    match ms
    case NoMembers => Ok(into)
    case Member(name, tagged, rest) =>
      if !ValidName(name) then Err(InvalidName)
      else
        match DecodeTagged(lib, tagged)
        case Err(error) => Err(error)
        case Ok(v) => Gathered(lib, Put(into, Attribute(name, v)), rest)
  }

  /** The durable text is accepted only if it is, byte for byte, what the encoder would write. */
  function Decode(lib: Library, s: string): Result<Extensions, DecodeError> {
    match Parse(s)
    case None => Err(BadJson)
    case Some(v) =>
      if !v.Obj? then Err(InvalidShape)
      else
        match Gathered(lib, [], v.members)
        case Err(error) => Err(error)
        case Ok(e) =>
          if !TraceContext(lib, e) then Err(InvalidExtensions)
          else if Canonical(e) != s then Err(NonCanonical)
          else Ok(e)
  }
}
