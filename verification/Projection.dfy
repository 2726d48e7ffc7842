/** The two renderings of an event and the size that bounds them both. */
module Projection {
  import opened Wrappers
  import opened Bounds
  import opened Json
  import opened JsonRoundTrip
  import opened TimeText
  import B64 = Base64
  import Utf8
  import opened Extensions
  import opened ExtensionCodec
  import opened CanonicalJson
  import opened Events

  const USIZE_MAX := 0xFFFF_FFFF_FFFF_FFFF

  function InstantText(t: int): string {
    if t >= 0 then TrimmedText(t) else []
  }

  // ----- Structured mode -----

  function Optional(name: string, v: Option<Json>, rest: Members): Members {
    if v.Some? then Member(name, v.value, rest) else rest
  }

  function StrOption(v: Option<string>): Option<Json> {
    if v.Some? then Some(Str(v.value)) else None
  }

  function TimeOption(v: Option<int>): Option<Json> {
    if v.Some? then Some(Str(InstantText(v.value))) else None
  }

  /** The context attributes in the order they are written; an absent one writes nothing. */
  function ContextList(e: Event): seq<(string, Option<Json>)> {
    [("specversion", Some(Str(SPEC_VERSION))), ("id", Some(Str(e.id))), ("source", Some(Str(e.source))), ("type", Some(Str(e.eventType))),
     ("subject", StrOption(e.subject)), ("time", TimeOption(e.time)), ("datacontenttype", StrOption(e.datacontenttype)),
     ("dataschema", StrOption(e.dataschema)), ("partitionkey", StrOption(e.partitionkey))]
  }

  function Present(list: seq<(string, Option<Json>)>): Members {
    if list == [] then NoMembers else Optional(list[0].0, list[0].1, Present(list[1..]))
  }

  function ContextMembers(e: Event): Members {
    Present(ContextList(e))
  }

  function ExtensionMembers(e: Extensions): Members {
    if e == [] then NoMembers else Member(e[0].name, JsonOf(e[0].value), ExtensionMembers(e[1..]))
  }

  function DataMembers(lib: Library, d: Option<EventData>): Members {
    match d
    case None => NoMembers
    case Some(JsonData(bytes)) =>
      (match lib.jsonData(bytes)
       case Some(v) => Member("data", Canon(v), NoMembers)
       case None => NoMembers)
    case Some(BinaryData(bytes)) => Member("data_base64", Str(B64.Encode(bytes)), NoMembers)
  }

  /** Every member insertion, in order. */
  function Insertions(lib: Library, e: Event): Members {
    Append(ContextMembers(e), Append(ExtensionMembers(e.extensions), DataMembers(lib, e.data)))
  }

  /** The object the insertions leave, in which a repeated name would have been overwritten. */
  function Structured(lib: Library, e: Event): Json {
    Obj(Collected(NoMembers, Insertions(lib, e)))
  }

  predicate DistinctFirsts(list: seq<(string, Option<Json>)>) {
    forall i, j :: 0 <= i < j < |list| ==> list[i].0 != list[j].0
  }

  lemma {:induction false} PresentNames(list: seq<(string, Option<Json>)>, n: string)
    requires n in Names(Present(list))
    ensures exists i :: 0 <= i < |list| && list[i].0 == n
  {
    if n != list[0].0 {
      PresentNames(list[1..], n);
      var i :| 0 <= i < |list[1..]| && list[1..][i].0 == n;
      assert list[i + 1].0 == n;
    }
  }

  lemma {:induction false} PresentDistinct(list: seq<(string, Option<Json>)>)
    requires DistinctFirsts(list)
    ensures DistinctNames(Present(list))
  {
    if list != [] {
      assert forall i :: 0 <= i < |list[1..]| ==> list[1..][i] == list[i + 1];
      PresentDistinct(list[1..]);
      FirstIsFresh(list);
    }
  }

  lemma FirstIsFresh(list: seq<(string, Option<Json>)>)
    requires DistinctFirsts(list) && list != []
    ensures !Has(Present(list[1..]), list[0].0) && Lookup(Present(list[1..]), list[0].0).None?
  {
    var n := list[0].0;
    LookupNames(Present(list[1..]), n);
    if n in Names(Present(list[1..])) {
      PresentNames(list[1..], n);
    }
  }

  /** Each listed attribute is found under its own name, or not at all when absent. */
  lemma {:induction false} PresentSays(list: seq<(string, Option<Json>)>, i: nat)
    requires DistinctFirsts(list) && i < |list|
    ensures Lookup(Present(list), list[i].0) == list[i].1
  {
    if i == 0 {
      FirstIsFresh(list);
    } else {
      assert forall j :: 0 <= j < |list[1..]| ==> list[1..][j] == list[j + 1];
      PresentSays(list[1..], i - 1);
    }
  }

  lemma ContextFirsts(e: Event)
    ensures DistinctFirsts(ContextList(e))
  {
  }

  lemma ContextReserved(e: Event, i: nat)
    requires i < 9
    ensures ContextList(e)[i].0 in RESERVED && ContextList(e)[i].0 != "data" && ContextList(e)[i].0 != "data_base64"
  {
    var at := [3, 0, 1, 2, 4, 5, 6, 7, 10];
    assert ContextList(e)[i].0 == RESERVED[at[i]];
  }

  lemma ContextDistinct(e: Event)
    ensures DistinctNames(ContextMembers(e))
    ensures forall n :: n in Names(ContextMembers(e)) ==> n in RESERVED && n != "data" && n != "data_base64"
  {
    ContextFirsts(e);
    PresentDistinct(ContextList(e));
    forall n | n in Names(ContextMembers(e)) ensures n in RESERVED && n != "data" && n != "data_base64" {
      PresentNames(ContextList(e), n);
      var i :| 0 <= i < 9 && ContextList(e)[i].0 == n;
      ContextReserved(e, i);
    }
  }

  lemma {:induction false} ExtensionsDistinct(lib: Library, e: Extensions)
    requires Sorted(e) && forall i :: 0 <= i < |e| ==> ValidAttribute(lib, e[i])
    ensures DistinctNames(ExtensionMembers(e))
    ensures forall n :: n in Names(ExtensionMembers(e)) ==> n !in RESERVED && exists x :: x in e && x.name == n
  {
    if e != [] {
      SortedTail(e);
      ExtensionsDistinct(lib, e[1..]);
      assert ValidAttribute(lib, e[0]) && e[0] in e;
      LookupNames(ExtensionMembers(e[1..]), e[0].name);
      forall n | n in Names(ExtensionMembers(e[1..])) ensures exists x :: x in e && x.name == n {
        var x :| x in e[1..] && x.name == n;
        assert x in e;
      }
    }
  }

  lemma {:induction false} AppendDistinct(a: Members, b: Members)
    requires DistinctNames(a) && DistinctNames(b) && Names(a) !! Names(b)
    ensures DistinctNames(Append(a, b)) && Names(Append(a, b)) == Names(a) + Names(b)
  {
    if a.Member? {
      AppendDistinct(a.rest, b);
      HasAppend(a.rest, b, a.name);
      LookupNames(a.rest, a.name);
      LookupNames(b, a.name);
    }
  }

  lemma ReservedHas()
    ensures "data" in RESERVED && "data_base64" in RESERVED
  {
    assert RESERVED[8] == "data" && RESERVED[9] == "data_base64";
  }

  lemma DataNames(lib: Library, d: Option<EventData>)
    ensures DistinctNames(DataMembers(lib, d)) && Names(DataMembers(lib, d)) <= {"data", "data_base64"}
  {
  }

  /** No insertion overwrites another: the object holds every member, in the order inserted, under distinct names. */
  lemma NothingOverwritten(lib: Library, e: Event)
    requires Typed(lib, e)
    ensures Structured(lib, e) == Obj(Insertions(lib, e)) && DistinctNames(Insertions(lib, e))
  {
    var c, x, d := ContextMembers(e), ExtensionMembers(e.extensions), DataMembers(lib, e.data);
    ContextDistinct(e);
    ExtensionsDistinct(lib, e.extensions);
    DataNames(lib, e.data);
    ReservedHas();
    AppendDistinct(x, d);
    AppendDistinct(c, Append(x, d));
    ApartNothing(Insertions(lib, e));
    CollectedDistinct(NoMembers, Insertions(lib, e));
  }

  lemma {:induction false} AppendPrintable(a: Members, b: Members)
    requires PrintableMembers(a) && PrintableMembers(b)
    ensures PrintableMembers(Append(a, b))
  {
    if a.Member? {
      AppendPrintable(a.rest, b);
    }
  }

  predicate AllStrings(list: seq<(string, Option<Json>)>) {
    forall i :: 0 <= i < |list| && list[i].1.Some? ==> list[i].1.value.Str?
  }

  lemma {:induction false} PresentPrintable(list: seq<(string, Option<Json>)>)
    requires AllStrings(list)
    ensures PrintableMembers(Present(list))
  {
    if list != [] {
      assert forall i :: 0 <= i < |list[1..]| ==> list[1..][i] == list[i + 1];
      PresentPrintable(list[1..]);
    }
  }

  lemma {:induction false} ExtensionsPrintable(lib: Library, e: Extensions)
    requires forall i :: 0 <= i < |e| ==> ValidAttribute(lib, e[i])
    ensures PrintableMembers(ExtensionMembers(e))
  {
    if e != [] {
      ExtensionsPrintable(lib, e[1..]);
      assert ValidAttribute(lib, e[0]);
    }
  }

  /** The structured bytes of an event read back as its object, for any JSON data a parser can give. */
  lemma StructuredParses(lib: Library, e: Event)
    requires Typed(lib, e) && PrintableMembers(DataMembers(lib, e.data))
    ensures Parse(Print(Structured(lib, e))) == Some(Structured(lib, e))
  {
    NothingOverwritten(lib, e);
    PresentPrintable(ContextList(e));
    ExtensionsPrintable(lib, e.extensions);
    AppendPrintable(ExtensionMembers(e.extensions), DataMembers(lib, e.data));
    AppendPrintable(ContextMembers(e), Append(ExtensionMembers(e.extensions), DataMembers(lib, e.data)));
    ParsePrint(Structured(lib, e));
  }

  // ----- Binary mode -----

  datatype Header = Header(name: string, value: string)

  function ExtensionText(v: ExtensionValue): string {
    match v
    case Boolean(b) => if b then "true" else "false"
    case Integer(n) => IntText(n)
    case Text(s) => s
    case Binary(b) => B64.Encode(b)
    case Uri(s) => s
    case UriReference(s) => s
    case Timestamp(t) => TrimmedText(t)
  }

  function ExtensionHeaders(e: Extensions): seq<Header> {
    if e == [] then [] else [Header(e[0].name, ExtensionText(e[0].value))] + ExtensionHeaders(e[1..])
  }

  function OptionalHeader(name: string, v: Option<string>): seq<Header> {
    if v.Some? then [Header(name, v.value)] else []
  }

  function OptionalTime(t: Option<int>): Option<string> {
    if t.Some? then Some(InstantText(t.value)) else None
  }

  function OptionalHeaders(optional: seq<(string, Option<string>)>): seq<Header> {
    if optional == [] then []
    else
      var (name, value) := optional[|optional| - 1];
      OptionalHeaders(optional[..|optional| - 1]) + OptionalHeader(name, value)
  }

  function Required(e: Event): seq<Header> {
    [Header("specversion", SPEC_VERSION), Header("id", e.id), Header("source", e.source), Header("type", e.eventType)]
  }

  function OptionalAttributes(e: Event): seq<(string, Option<string>)> {
    [("subject", e.subject), ("time", OptionalTime(e.time)), ("dataschema", e.dataschema), ("partitionkey", e.partitionkey)]
  }

  /** The attributes of the binary rendering, without the content type. */
  function Attributes(e: Event): seq<Header> {
    Required(e) + OptionalHeaders(OptionalAttributes(e)) + ExtensionHeaders(e.extensions)
  }

  lemma ExtensionHeadersAppend(e: Extensions, i: nat)
    requires i < |e|
    ensures ExtensionHeaders(e[..i + 1]) == ExtensionHeaders(e[..i]) + [Header(e[i].name, ExtensionText(e[i].value))]
    decreases i
  {
    if i == 0 {
      assert e[..1] == [e[0]] && e[..0] == [];
      assert [e[0]][1..] == [];
    } else {
      ExtensionHeadersAppend(e[1..], i - 1);
      assert e[..i + 1][1..] == e[1..][..i] && e[..i][1..] == e[1..][..i - 1];
    }
  }

  method AppendOptional(start: seq<Header>, optional: seq<(string, Option<string>)>) returns (attributes: seq<Header>)
    ensures attributes == start + OptionalHeaders(optional)
  {
    attributes := start;
    for i := 0 to |optional|
      invariant attributes == start + OptionalHeaders(optional[..i])
    {
      if optional[i].1.Some? {
        attributes := attributes + [Header(optional[i].0, optional[i].1.value)];
      }
      assert optional[..i + 1][..i] == optional[..i];
    }
    assert optional[..|optional|] == optional;
  }

  method AppendExtensions(start: seq<Header>, e: Extensions) returns (attributes: seq<Header>)
    ensures attributes == start + ExtensionHeaders(e)
  {
    attributes := start;
    for i := 0 to |e|
      invariant attributes == start + ExtensionHeaders(e[..i])
    {
      attributes := attributes + [Header(e[i].name, ExtensionText(e[i].value))];
      ExtensionHeadersAppend(e, i);
    }
    assert e[..|e|] == e;
  }

  /** Optional attributes and extensions are appended in two loops. */
  method BinaryAttributes(e: Event) returns (attributes: seq<Header>)
    ensures attributes == Attributes(e)
  {
    attributes := AppendOptional(Required(e), OptionalAttributes(e));
    attributes := AppendExtensions(attributes, e.extensions);
  }

  // ----- The two renderings agree -----

  /** The text of a scalar member. */
  function ScalarText(v: Json): string {
    match v
    case Str(s) => s
    case _ => Print(v)
  }

  lemma ExtensionTextIsScalar(v: ExtensionValue)
    ensures ExtensionText(v) == ScalarText(JsonOf(v))
  {
  }

  /** What a structured object says of an attribute. */
  predicate Says(ms: Members, h: Header) {
    Lookup(ms, h.name).Some? && ScalarText(Lookup(ms, h.name).value) == h.value
  }

  lemma {:induction false} LookupAppend(a: Members, b: Members, n: string)
    ensures Lookup(Append(a, b), n) == if Lookup(a, n).Some? then Lookup(a, n) else Lookup(b, n)
  {
    if a.Member? {
      LookupAppend(a.rest, b, n);
    }
  }

  lemma {:induction false} ExtensionSays(lib: Library, e: Extensions, i: nat)
    requires Sorted(e) && (forall j :: 0 <= j < |e| ==> ValidAttribute(lib, e[j])) && i < |e|
    ensures Lookup(ExtensionMembers(e), e[i].name) == Some(JsonOf(e[i].value))
  {
    if i > 0 {
      SortedTail(e);
      ExtensionSays(lib, e[1..], i - 1);
      assert e[i] == e[1..][i - 1] && Less(e[0].name, e[i].name);
    }
  }

  /** Every context attribute of the structured object, under its own name. */
  lemma ContextSays(e: Event)
    ensures var ms := ContextMembers(e);
            && Lookup(ms, "specversion") == Some(Str(SPEC_VERSION)) && Lookup(ms, "id") == Some(Str(e.id))
            && Lookup(ms, "source") == Some(Str(e.source)) && Lookup(ms, "type") == Some(Str(e.eventType))
            && Lookup(ms, "subject") == StrOption(e.subject) && Lookup(ms, "time") == TimeOption(e.time)
            && Lookup(ms, "datacontenttype") == StrOption(e.datacontenttype)
            && Lookup(ms, "dataschema") == StrOption(e.dataschema) && Lookup(ms, "partitionkey") == StrOption(e.partitionkey)
  {
    var list := ContextList(e);
    ContextFirsts(e);
    forall i | 0 <= i < |list| ensures Lookup(Present(list), list[i].0) == list[i].1 {
      PresentSays(list, i);
    }
    assert list[0].0 == "specversion" && list[1].0 == "id" && list[2].0 == "source" && list[3].0 == "type";
    assert list[4].0 == "subject" && list[5].0 == "time" && list[6].0 == "datacontenttype";
    assert list[7].0 == "dataschema" && list[8].0 == "partitionkey";
  }

  lemma {:induction false} OptionalHeaderAt(optional: seq<(string, Option<string>)>, h: Header) returns (i: nat)
    requires h in OptionalHeaders(optional)
    ensures i < |optional| && optional[i] == (h.name, Some(h.value))
  {
    var n := |optional| - 1;
    if h in OptionalHeaders(optional[..n]) {
      i := OptionalHeaderAt(optional[..n], h);
    } else {
      i := n;
    }
  }

  lemma RequiredSays(e: Event, h: Header)
    requires h in Required(e)
    ensures Says(ContextMembers(e), h)
  {
    ContextSays(e);
  }

  lemma OptionalSays(e: Event, h: Header)
    requires h in OptionalHeaders(OptionalAttributes(e))
    ensures Says(ContextMembers(e), h)
  {
    ContextSays(e);
    var i := OptionalHeaderAt(OptionalAttributes(e), h);
  }

  lemma {:induction false} ExtensionHeaderAt(e: Extensions, h: Header) returns (i: nat)
    requires h in ExtensionHeaders(e)
    ensures i < |e| && h == Header(e[i].name, ExtensionText(e[i].value))
  {
    if h == Header(e[0].name, ExtensionText(e[0].value)) {
      i := 0;
    } else {
      i := ExtensionHeaderAt(e[1..], h);
      i := i + 1;
    }
  }

  /** Every attribute of the binary rendering is in the structured object under the same name with the same text. */
  lemma RenderingsAgree(lib: Library, e: Event, h: Header)
    requires Typed(lib, e) && h in Attributes(e)
    ensures Says(Insertions(lib, e), h)
  {
    var c, x, d := ContextMembers(e), ExtensionMembers(e.extensions), DataMembers(lib, e.data);
    LookupAppend(c, Append(x, d), h.name);
    LookupAppend(x, d, h.name);
    if h in Required(e) {
      RequiredSays(e, h);
    } else if h in OptionalHeaders(OptionalAttributes(e)) {
      OptionalSays(e, h);
    } else {
      var i := ExtensionHeaderAt(e.extensions, h);
      ExtensionSays(lib, e.extensions, i);
      ExtensionTextIsScalar(e.extensions[i].value);
      assert ValidAttribute(lib, e.extensions[i]);
      ContextDistinct(e);
      LookupNames(c, h.name);
    }
  }

  // ----- Sizes -----

  function SaturatingAdd(a: nat, b: nat): nat {
    if a + b > USIZE_MAX then USIZE_MAX else a + b
  }

  function SaturatingTriple(a: nat): nat {
    if 3 * a > USIZE_MAX then USIZE_MAX else 3 * a
  }

  function BodySize(e: Event): nat {
    if e.data.Some? then |e.data.value.bytes| else 0
  }

  /** Name, colon, space, line end, and room for every byte of the value to be percent-encoded. */
  function Room(h: Header): nat {
    Utf8Len(h.name) + 4 + 3 * Utf8Len(h.value)
  }

  function RoomFor(hs: seq<Header>): nat {
    if hs == [] then 0 else RoomFor(hs[..|hs| - 1]) + Room(hs[|hs| - 1])
  }

  function Prefixed(hs: seq<Header>): seq<Header> {
    seq(|hs|, i requires 0 <= i < |hs| => Header("ce-" + hs[i].name, hs[i].value))
  }

  /** Every header of the binary rendering, the content type under the longer of its two possible names. */
  function Headers(e: Event): seq<Header> {
    Prefixed(Attributes(e)) + OptionalHeader("ce-datacontenttype", e.datacontenttype)
  }

  function AddContext(size: nat, h: Header): nat {
    SaturatingAdd(SaturatingAdd(SaturatingAdd(size, Utf8Len(h.name)), 4), SaturatingTriple(Utf8Len(h.value)))
  }

  lemma RoomAppend(hs: seq<Header>, h: Header)
    ensures RoomFor(hs + [h]) == RoomFor(hs) + Room(h)
  {
    assert (hs + [h])[..|hs|] == hs;
  }

  function Capped(n: nat): nat {
    if n > USIZE_MAX then USIZE_MAX else n
  }

  lemma ContextAdds(n: nat, h: Header)
    ensures AddContext(Capped(n), h) == Capped(n + Room(h))
  {
  }

  /** The running size, headers added one by one with saturating arithmetic: the exact sum unless it overflows. */
  method AddHeaders(body: nat, headers: seq<Header>) returns (size: nat)
    requires body <= USIZE_MAX
    ensures size == Capped(body + RoomFor(headers))
  {
    size := body;
    for i := 0 to |headers|
      invariant size == Capped(body + RoomFor(headers[..i]))
    {
      ContextAdds(body + RoomFor(headers[..i]), headers[i]);
      size := AddContext(size, headers[i]);
      RoomAppend(headers[..i], headers[i]);
      assert headers[..i + 1] == headers[..i] + [headers[i]];
    }
    assert headers[..|headers|] == headers;
  }

  /** Every header of an event, in the order they are added. */
  method BinaryMaterialBytes(e: Event) returns (size: nat)
    requires BodySize(e) <= USIZE_MAX
    ensures size == BinarySize(e)
  {
    var attributes := BinaryAttributes(e);
    size := AddHeaders(BodySize(e), Prefixed(attributes) + OptionalHeader("ce-datacontenttype", e.datacontenttype));
  }

  /** The size the builder checks, from both renderings. */
  method ComputePortableSize(lib: Library, e: Event) returns (size: Option<nat>)
    requires BodySize(e) <= USIZE_MAX
    ensures size == PortableSize(lib, e)
  {
    var structured := Utf8Len(Print(Structured(lib, e))) + |STRUCTURED_HEADER|;
    if structured > USIZE_MAX {
      return None;
    }
    var binary := BinaryMaterialBytes(e);
    return Some(if structured >= binary then structured else binary);
  }

  const STRUCTURED_HEADER := "Content-Type: application/cloudevents+json\r\n"

  function StructuredSize(lib: Library, e: Event): nat {
    Utf8Len(Print(Structured(lib, e))) + |STRUCTURED_HEADER|
  }

  function BinarySize(e: Event): nat {
    Capped(BodySize(e) + RoomFor(Headers(e)))
  }

  /** The larger of the two, or nothing when the structured size does not fit a machine word. */
  function PortableSize(lib: Library, e: Event): Option<nat> {
    if StructuredSize(lib, e) > USIZE_MAX then None
    else if StructuredSize(lib, e) >= BinarySize(e) then Some(StructuredSize(lib, e)) else Some(BinarySize(e))
  }

  predicate FitsIn(lib: Library, e: Event, limit: nat) {
    PortableSize(lib, e).Some? && PortableSize(lib, e).value <= limit
  }

  /** An event accepted under some limit is accepted under every larger one and under the largest. */
  lemma LargerLimitsAccept(lib: Library, e: Event, limit: nat, larger: nat)
    requires FitsIn(lib, e, limit) && limit <= larger
    ensures FitsIn(lib, e, larger) && FitsIn(lib, e, USIZE_MAX)
  {
  }

  // ----- The size bounds every rendering -----

  /** `out` is `bytes` with some of them percent-encoded. */
  ghost predicate PercentEncodes(bytes: seq<Byte>, out: seq<Byte>) {
    if bytes == [] then out == []
    else || (|out| >= 1 && out[0] == bytes[0] && PercentEncodes(bytes[1..], out[1..]))
         || (|out| >= 3 && out[0] == 37 && PercentEncodes(bytes[1..], out[3..]))
  }

  lemma {:induction false} PercentLength(bytes: seq<Byte>, out: seq<Byte>)
    requires PercentEncodes(bytes, out)
    ensures |out| <= 3 * |bytes|
  {
    if bytes != [] {
      if |out| >= 1 && out[0] == bytes[0] && PercentEncodes(bytes[1..], out[1..]) {
        PercentLength(bytes[1..], out[1..]);
      } else {
        PercentLength(bytes[1..], out[3..]);
      }
    }
  }

  /** The bytes of a list of headers whose values are encoded by `enc`. */
  function RenderedSize(hs: seq<Header>, enc: string -> seq<Byte>): nat {
    if hs == [] then 0
    else RenderedSize(hs[..|hs| - 1], enc) + Utf8Len(hs[|hs| - 1].name) + 4 + |enc(hs[|hs| - 1].value)|
  }

  /** The binary rendering under either name for the content type. */
  function BinaryHeaders(e: Event, plain: bool): seq<Header> {
    Prefixed(Attributes(e)) + OptionalHeader(if plain then "Content-Type" else "ce-datacontenttype", e.datacontenttype)
  }

  ghost predicate PercentEncoder(enc: string -> seq<Byte>) {
    forall v :: PercentEncodes(Utf8.Encode(v), enc(v))
  }

  lemma {:induction false} RenderedFits(hs: seq<Header>, enc: string -> seq<Byte>)
    requires PercentEncoder(enc)
    ensures RenderedSize(hs, enc) <= RoomFor(hs)
  {
    if hs != [] {
      RenderedFits(hs[..|hs| - 1], enc);
      var v := hs[|hs| - 1].value;
      PercentLength(Utf8.Encode(v), enc(v));
    }
  }

  lemma ShorterName(hs: seq<Header>, v: Option<string>, a: string, b: string)
    requires Utf8Len(a) <= Utf8Len(b)
    ensures RoomFor(hs + OptionalHeader(a, v)) <= RoomFor(hs + OptionalHeader(b, v))
  {
    if v.Some? {
      RoomAppend(hs, Header(a, v.value));
      RoomAppend(hs, Header(b, v.value));
    }
  }

  lemma ContentTypeNames(a: string, b: string)
    requires a == "Content-Type" && b == "ce-datacontenttype"
    ensures Utf8Len(a) <= Utf8Len(b)
  {
    AsciiLength(a);
    AsciiLength(b);
  }

  lemma {:induction false} AsciiLength(s: string)
    requires forall i :: 0 <= i < |s| ==> s[i] as int < 0x80
    ensures Utf8Len(s) == |s|
  {
    if s != [] {
      AsciiLength(s[1..]);
    }
  }

  lemma EitherName(hs: seq<Header>, v: Option<string>, a: string, b: string, plain: bool)
    requires a == "Content-Type" && b == "ce-datacontenttype"
    ensures RoomFor(hs + OptionalHeader(if plain then a else b, v)) <= RoomFor(hs + OptionalHeader(b, v))
  {
    ContentTypeNames(a, b);
    ShorterName(hs, v, a, b);
  }

  lemma HeadersFit(e: Event, enc: string -> seq<Byte>, plain: bool)
    requires PercentEncoder(enc)
    ensures RenderedSize(BinaryHeaders(e, plain), enc) <= RoomFor(Headers(e))
  {
    RenderedFits(BinaryHeaders(e, plain), enc);
    EitherName(Prefixed(Attributes(e)), e.datacontenttype, "Content-Type", "ce-datacontenttype", plain);
  }

  /**
   Short of saturation, the portable size bounds both renderings of an event: the structured bytes with their
   header, and the body with every attribute header under any percent-encoding of the values.
   */
  lemma PortableSizeBoundsBoth(lib: Library, e: Event, enc: string -> seq<Byte>, plain: bool)
    requires PortableSize(lib, e).Some? && PercentEncoder(enc)
    ensures Utf8Len(Print(Structured(lib, e))) + |STRUCTURED_HEADER| <= PortableSize(lib, e).value
    ensures PortableSize(lib, e).value < USIZE_MAX ==>
              BodySize(e) + RenderedSize(BinaryHeaders(e, plain), enc) <= PortableSize(lib, e).value
  {
    HeadersFit(e, enc, plain);
  }

  // ----- And is reached by one of them -----

  function UpperHex(d: int): Byte
    requires 0 <= d < 16
  {
    if d < 10 then 48 + d else 55 + d
  }

  /** Every byte percent-encoded. */
  function PercentAll(bytes: seq<Byte>): (out: seq<Byte>)
    ensures |out| == 3 * |bytes| && PercentEncodes(bytes, out)
  {
    if bytes == [] then []
    else
      var rest := PercentAll(bytes[1..]);
      var out := [37, UpperHex(bytes[0] / 16), UpperHex(bytes[0] % 16)] + rest;
      assert out[3..] == rest;
      out
  }

  function FullyEncoded(v: string): seq<Byte> {
    PercentAll(Utf8.Encode(v))
  }

  lemma {:induction false} FullyRendered(hs: seq<Header>)
    ensures RenderedSize(hs, FullyEncoded) == RoomFor(hs)
  {
    if hs != [] {
      FullyRendered(hs[..|hs| - 1]);
    }
  }

  /**
   The portable size is no larger than it has to be: it is the size of the structured bytes with their header, or that
   of the body with every header when every byte of every value is percent-encoded, up to saturation.  There is none
   only when the structured size, 44 bytes of header included, does not fit a machine word.
   */
  lemma PortableSizeIsReached(lib: Library, e: Event)
    ensures PortableSize(lib, e).None? <==> Utf8Len(Print(Structured(lib, e))) + 44 > 0xFFFF_FFFF_FFFF_FFFF
    ensures PercentEncoder(FullyEncoded)
    ensures PortableSize(lib, e).Some? ==>
              var binary := (if e.data.Some? then |e.data.value.bytes| else 0) + RenderedSize(BinaryHeaders(e, false), FullyEncoded);
              || PortableSize(lib, e).value == Utf8Len(Print(Structured(lib, e))) + 44
              || PortableSize(lib, e).value == (if binary > USIZE_MAX then USIZE_MAX else binary)
  {
    FullyRendered(Headers(e));
  }

  /** The headers of the binary rendering: every attribute under its prefixed name, then the content type. */
  lemma HeadersAre(e: Event, plain: bool)
    ensures var hs, listed := BinaryHeaders(e, plain), Attributes(e);
            && |hs| == |listed| + (if e.datacontenttype.Some? then 1 else 0)
            && (forall i :: 0 <= i < |listed| ==> hs[i].name == "ce-" + listed[i].name && hs[i].value == listed[i].value)
            && (e.datacontenttype.Some? ==>
                  hs[|listed|] == Header(if plain then "Content-Type" else "ce-datacontenttype", e.datacontenttype.value))
  {
  }

  // ----- Which attributes the binary rendering lists -----

  /** The text of an extension attribute. */
  predicate TextSays(v: ExtensionValue, text: string) {
    match v
    case Boolean(b) => text == (if b then "true" else "false")
    case Integer(n) => text == IntText(n)
    case Text(s) => text == s
    case Uri(s) => text == s
    case UriReference(s) => text == s
    case Binary(bytes) => B64.Decode(text) == Some(bytes)
    case Timestamp(t) => text == TrimmedText(t)
  }

  lemma ExtensionTextSays(v: ExtensionValue)
    ensures TextSays(v, ExtensionText(v))
  {
    if v.Binary? {
      B64.DecodeEncode(v.bytes);
    }
  }

  predicate Optionally(h: Header, name: string, v: Option<string>) {
    h.name == name && v == Some(h.value)
  }

  lemma {:induction false} OptionalListed(optional: seq<(string, Option<string>)>, i: nat)
    requires i < |optional| && optional[i].1.Some?
    ensures Header(optional[i].0, optional[i].1.value) in OptionalHeaders(optional)
  {
    if i < |optional| - 1 {
      OptionalListed(optional[..|optional| - 1], i);
    }
  }

  lemma OptionalsAre(e: Event, h: Header)
    ensures h in OptionalHeaders(OptionalAttributes(e)) <==>
              || Optionally(h, "subject", e.subject) || Optionally(h, "dataschema", e.dataschema)
              || Optionally(h, "partitionkey", e.partitionkey) || Optionally(h, "time", OptionalTime(e.time))
  {
    var optional := OptionalAttributes(e);
    if h in OptionalHeaders(optional) {
      var i := OptionalHeaderAt(optional, h);
    }
    forall i | 0 <= i < 4 && optional[i].1.Some? ensures Header(optional[i].0, optional[i].1.value) in OptionalHeaders(optional) {
      OptionalListed(optional, i);
    }
    assert optional[0].0 == "subject" && optional[1].0 == "time" && optional[2].0 == "dataschema" && optional[3].0 == "partitionkey";
  }

  lemma {:induction false} ExtensionListed(e: Extensions, i: nat)
    requires i < |e|
    ensures exists h :: h in ExtensionHeaders(e) && h.name == e[i].name && TextSays(e[i].value, h.value)
  {
    ExtensionTextSays(e[i].value);
    if i == 0 {
      assert Header(e[0].name, ExtensionText(e[0].value)) in ExtensionHeaders(e);
    } else {
      ExtensionListed(e[1..], i - 1);
      assert e[1..][i - 1] == e[i];
      var h :| h in ExtensionHeaders(e[1..]) && h.name == e[i].name && TextSays(e[i].value, h.value);
      assert h in ExtensionHeaders(e);
    }
  }

  /** The binary rendering lists the required attributes, the optional ones that are present, every extension, and nothing else. */
  lemma AttributesAre(e: Event, h: Header)
    ensures h in Attributes(e) ==>
              || h == Header("specversion", "1.0") || h == Header("id", e.id) || h == Header("source", e.source) || h == Header("type", e.eventType)
              || Optionally(h, "subject", e.subject) || Optionally(h, "dataschema", e.dataschema)
              || Optionally(h, "partitionkey", e.partitionkey) || Optionally(h, "time", OptionalTime(e.time))
              || exists i :: 0 <= i < |e.extensions| && h.name == e.extensions[i].name && TextSays(e.extensions[i].value, h.value)
    ensures || h == Header("specversion", "1.0") || h == Header("id", e.id) || h == Header("source", e.source) || h == Header("type", e.eventType)
            || Optionally(h, "subject", e.subject) || Optionally(h, "dataschema", e.dataschema)
            || Optionally(h, "partitionkey", e.partitionkey) || Optionally(h, "time", OptionalTime(e.time))
            ==> h in Attributes(e)
    ensures forall i :: 0 <= i < |e.extensions| ==>
              exists x :: x in Attributes(e) && x.name == e.extensions[i].name && TextSays(e.extensions[i].value, x.value)
  {
    OptionalsAre(e, h);
    if h in ExtensionHeaders(e.extensions) {
      var i := ExtensionHeaderAt(e.extensions, h);
      ExtensionTextSays(e.extensions[i].value);
    }
    var r := Required(e);
    assert r[0] == Header("specversion", "1.0") && r[1] == Header("id", e.id) && r[2] == Header("source", e.source) && r[3] == Header("type", e.eventType);
    forall i | 0 <= i < |e.extensions|
      ensures exists x :: x in Attributes(e) && x.name == e.extensions[i].name && TextSays(e.extensions[i].value, x.value)
    {
      ExtensionListed(e.extensions, i);
      var x :| x in ExtensionHeaders(e.extensions) && x.name == e.extensions[i].name && TextSays(e.extensions[i].value, x.value);
      assert x in Attributes(e);
    }
  }
}
