/** What the structured rendering says of an event, read from its printed text, and when two events render alike. */
module Renderings {
  import opened Wrappers
  import opened Bounds
  import opened Json
  import opened JsonRoundTrip
  import opened TimeText
  import opened TimeParsing
  import B64 = Base64
  import opened Extensions
  import opened ExtensionCodec
  import opened CanonicalJson
  import opened Events
  import opened Projection

  // ----- Canonical data prints, and is ordered at every depth -----

  lemma {:induction false} PrintableIsWellFormed(v: Json)
    requires Printable(v)
    ensures WellFormed(v)
    decreases v, 1
  {
    match v
    case Arr(items) => PrintableItemsWellFormed(items);
    case Obj(members) => PrintableMembersWellFormed(members);
    case _ =>
  }

  lemma {:induction false} PrintableItemsWellFormed(items: Items)
    requires PrintableItems(items)
    ensures WellFormedItems(items)
    decreases items, 0
  {
    if items.Item? {
      PrintableIsWellFormed(items.head);
      PrintableItemsWellFormed(items.tail);
    }
  }

  lemma {:induction false} PrintableMembersWellFormed(ms: Members)
    requires PrintableMembers(ms)
    ensures WellFormedMembers(ms)
    decreases ms, 0
  {
    if ms.Member? {
      PrintableIsWellFormed(ms.value);
      PrintableMembersWellFormed(ms.rest);
    }
  }

  /** Every object lists its members in ascending name order. */
  ghost predicate OrderedDeep(v: Json) {
    match v
    case Arr(items) => OrderedItems(items)
    case Obj(members) => Ordered(members) && OrderedMembers(members)
    case _ => true
  }

  ghost predicate OrderedItems(items: Items) {
    items.Item? ==> OrderedDeep(items.head) && OrderedItems(items.tail)
  }

  ghost predicate OrderedMembers(ms: Members) {
    ms.Member? ==> OrderedDeep(ms.value) && OrderedMembers(ms.rest)
  }

  lemma {:induction false} PutKeeps(ms: Members, name: string, value: Json)
    ensures OrderedMembers(ms) && OrderedDeep(value) ==> OrderedMembers(PutMember(ms, name, value))
    ensures PrintableMembers(ms) && Printable(value) ==> PrintableMembers(PutMember(ms, name, value))
  {
    if ms.Member? && ms.name != name && !Less(name, ms.name) {
      PutKeeps(ms.rest, name, value);
    }
  }

  lemma {:induction false} CanonIsOrdered(v: Json)
    ensures OrderedDeep(Canon(v)) && (Printable(v) ==> Printable(Canon(v)))
    decreases v, 1
  {
    match v
    case Arr(items) => CanonItemsOrdered(items);
    case Obj(members) =>
      CanonOrdered(members);
      OrderedDistinct(CanonMembers(members));
      SortedMembersOrdered(NoMembers, members);
    case _ =>
  }

  lemma {:induction false} CanonItemsOrdered(items: Items)
    ensures OrderedItems(CanonItems(items)) && (PrintableItems(items) ==> PrintableItems(CanonItems(items)))
    decreases items, 0
  {
    if items.Item? {
      CanonIsOrdered(items.head);
      CanonItemsOrdered(items.tail);
    }
  }

  lemma {:induction false} SortedMembersOrdered(into: Members, ms: Members)
    requires OrderedMembers(into)
    ensures OrderedMembers(SortedInto(into, ms))
    ensures PrintableMembers(into) && PrintableMembers(ms) ==> PrintableMembers(SortedInto(into, ms))
    decreases ms, 0
  {
    if ms.Member? {
      CanonIsOrdered(ms.value);
      PutKeeps(into, ms.name, Canon(ms.value));
      SortedMembersOrdered(PutMember(into, ms.name, Canon(ms.value)), ms.rest);
    }
  }

  // ----- What the printed object says -----

  /** The JSON data has distinct names and printable numbers, as anything a parser gives has. */
  predicate ParsedData(lib: Library, d: Option<EventData>) {
    d.Some? && d.value.JsonData? ==> lib.jsonData(d.value.bytes).Some? && Printable(lib.jsonData(d.value.bytes).value)
  }

  lemma DataPrintable(lib: Library, d: Option<EventData>)
    requires ParsedData(lib, d)
    ensures PrintableMembers(DataMembers(lib, d))
  {
    if d.Some? && d.value.JsonData? {
      CanonIsOrdered(lib.jsonData(d.value.bytes).value);
    }
  }

  /** The payload, as the members of a structured object carry it. */
  ghost predicate CarriesData(lib: Library, d: Option<EventData>, ms: Members) {
    match d
    case None => Lookup(ms, "data").None? && Lookup(ms, "data_base64").None?
    case Some(BinaryData(bytes)) =>
      && Lookup(ms, "data").None? && Lookup(ms, "data_base64").Some?
      && Lookup(ms, "data_base64").value.Str? && B64.Decode(Lookup(ms, "data_base64").value.s) == Some(bytes)
    case Some(JsonData(bytes)) =>
      && Lookup(ms, "data_base64").None? && Lookup(ms, "data").Some? && lib.jsonData(bytes).Some?
      && Same(lib.jsonData(bytes).value, Lookup(ms, "data").value) && OrderedDeep(Lookup(ms, "data").value)
  }

  lemma DataCarries(lib: Library, d: Option<EventData>)
    requires ParsedData(lib, d)
    ensures CarriesData(lib, d, DataMembers(lib, d))
  {
    match d
    case None =>
    case Some(BinaryData(bytes)) => B64.DecodeEncode(bytes);
    case Some(JsonData(bytes)) =>
      var v := lib.jsonData(bytes).value;
      PrintableIsWellFormed(v);
      CanonKeepsValue(v);
      CanonIsOrdered(v);
  }

  /** The value of an extension attribute in a structured object. */
  predicate CarriesExtension(v: ExtensionValue, j: Json) {
    match v
    case Boolean(b) => j == Bool(b)
    case Integer(n) => j == Int(n)
    case Text(s) => j == Str(s)
    case Uri(s) => j == Str(s)
    case UriReference(s) => j == Str(s)
    case Binary(bytes) => j.Str? && B64.Decode(j.s) == Some(bytes)
    case Timestamp(t) => j == Str(TrimmedText(t))
  }

  lemma ExtensionCarries(lib: Library, v: ExtensionValue)
    requires ValidValue(lib, v)
    ensures CarriesExtension(v, JsonOf(v))
  {
    if v.Binary? {
      B64.DecodeEncode(v.bytes);
    }
  }

  ghost predicate CarriesExtensions(e: Extensions, ms: Members) {
    forall i :: 0 <= i < |e| ==> Lookup(ms, e[i].name).Some? && CarriesExtension(e[i].value, Lookup(ms, e[i].name).value)
  }

  predicate CarriesText(v: Option<string>, j: Option<Json>) {
    match v
    case None => j.None?
    case Some(s) => j == Some(Str(s))
  }

  predicate CarriesContext(e: Event, ms: Members) {
    && Lookup(ms, "specversion") == Some(Str("1.0"))
    && Lookup(ms, "id") == Some(Str(e.id)) && Lookup(ms, "source") == Some(Str(e.source)) && Lookup(ms, "type") == Some(Str(e.eventType))
    && CarriesText(e.subject, Lookup(ms, "subject")) && CarriesText(e.datacontenttype, Lookup(ms, "datacontenttype"))
    && CarriesText(e.dataschema, Lookup(ms, "dataschema")) && CarriesText(e.partitionkey, Lookup(ms, "partitionkey"))
    && match e.time
       case None => Lookup(ms, "time").None?
       case Some(t) => t >= 0 && Lookup(ms, "time") == Some(Str(TrimmedText(t)))
  }

  const CONTEXT := ["specversion", "id", "source", "type", "subject", "time", "datacontenttype", "dataschema", "partitionkey"]

  lemma ContextNamed(e: Event, n: string)
    requires n in Names(ContextMembers(e))
    ensures n in CONTEXT
  {
    PresentNames(ContextList(e), n);
    var i :| 0 <= i < 9 && ContextList(e)[i].0 == n;
    assert CONTEXT[i] == n;
  }

  lemma ContextIsReserved(n: string)
    requires n in CONTEXT
    ensures n in RESERVED && n != "data" && n != "data_base64"
  {
    var i :| 0 <= i < 9 && CONTEXT[i] == n;
    var at := [3, 0, 1, 2, 4, 5, 6, 7, 10];
    assert RESERVED[at[i]] == n;
  }

  /** Where each name of the object is found. */
  lemma FoundIn(lib: Library, e: Event, n: string)
    requires Typed(lib, e)
    ensures n in CONTEXT ==> Lookup(Insertions(lib, e), n) == Lookup(ContextMembers(e), n)
    ensures n !in CONTEXT && n != "data" && n != "data_base64" ==> Lookup(Insertions(lib, e), n) == Lookup(ExtensionMembers(e.extensions), n)
    ensures n == "data" || n == "data_base64" ==> Lookup(Insertions(lib, e), n) == Lookup(DataMembers(lib, e.data), n)
  {
    var c, x, d := ContextMembers(e), ExtensionMembers(e.extensions), DataMembers(lib, e.data);
    LookupAppend(c, Append(x, d), n);
    LookupAppend(x, d, n);
    LookupNames(c, n);
    LookupNames(x, n);
    LookupNames(d, n);
    ReservedHas();
    ExtensionsDistinct(lib, e.extensions);
    DataNames(lib, e.data);
    if n in Names(c) {
      ContextNamed(e, n);
    }
    if n in CONTEXT {
      ContextIsReserved(n);
    }
  }

  lemma ContextCarries(e: Event)
    requires e.time.Some? ==> ValidInstant(e.time.value)
    ensures CarriesContext(e, ContextMembers(e))
  {
    ContextSays(e);
  }

  lemma ContextFound(lib: Library, e: Event)
    requires Typed(lib, e) && (e.time.Some? ==> ValidInstant(e.time.value))
    ensures CarriesContext(e, Insertions(lib, e))
  {
    ContextCarries(e);
    forall n | n in CONTEXT ensures Lookup(Insertions(lib, e), n) == Lookup(ContextMembers(e), n) {
      FoundIn(lib, e, n);
    }
    assert CONTEXT[0] == "specversion" && CONTEXT[1] == "id" && CONTEXT[2] == "source" && CONTEXT[3] == "type";
    assert CONTEXT[4] == "subject" && CONTEXT[5] == "time" && CONTEXT[6] == "datacontenttype";
    assert CONTEXT[7] == "dataschema" && CONTEXT[8] == "partitionkey";
  }

  lemma ExtensionsFound(lib: Library, e: Event)
    requires Typed(lib, e)
    ensures CarriesExtensions(e.extensions, Insertions(lib, e))
  {
    forall i | 0 <= i < |e.extensions|
      ensures var j := Lookup(Insertions(lib, e), e.extensions[i].name); j.Some? && CarriesExtension(e.extensions[i].value, j.value)
    {
      var a := e.extensions[i];
      assert ValidAttribute(lib, a);
      ExtensionSays(lib, e.extensions, i);
      ExtensionCarries(lib, a.value);
      NotReserved(a.name);
      FoundIn(lib, e, a.name);
    }
  }

  lemma NotReserved(n: string)
    requires n !in RESERVED
    ensures n !in CONTEXT && n != "data" && n != "data_base64"
  {
    ReservedHas();
    if n in CONTEXT {
      ContextIsReserved(n);
    }
  }

  lemma DataFound(lib: Library, e: Event)
    requires Typed(lib, e) && ParsedData(lib, e.data)
    ensures CarriesData(lib, e.data, Insertions(lib, e))
  {
    DataCarries(lib, e.data);
    FoundIn(lib, e, "data");
    FoundIn(lib, e, "data_base64");
  }

  lemma NothingElse(lib: Library, e: Event, n: string)
    requires Typed(lib, e) && Lookup(Insertions(lib, e), n).Some?
    ensures n in CONTEXT || n == "data" || n == "data_base64" || exists x :: x in e.extensions && x.name == n
  {
    FoundIn(lib, e, n);
    ExtensionsDistinct(lib, e.extensions);
    LookupNames(ExtensionMembers(e.extensions), n);
  }

  /**
   The printed structured rendering parses to an object that carries every context attribute, every extension and the
   payload, each under its own name, and nothing else.
   */
  lemma StructuredSays(lib: Library, e: Event)
    requires Typed(lib, e) && (e.time.Some? ==> ValidInstant(e.time.value)) && ParsedData(lib, e.data)
    ensures var doc := Parse(Print(Structured(lib, e)));
            && doc.Some? && doc.value.Obj?
            && CarriesContext(e, doc.value.members) && CarriesExtensions(e.extensions, doc.value.members)
            && CarriesData(lib, e.data, doc.value.members)
            && forall n :: Lookup(doc.value.members, n).Some? ==>
                 n in CONTEXT || n == "data" || n == "data_base64" || exists x :: x in e.extensions && x.name == n
  {
    DataPrintable(lib, e.data);
    StructuredParses(lib, e);
    NothingOverwritten(lib, e);
    ContextFound(lib, e);
    ExtensionsFound(lib, e);
    DataFound(lib, e);
    forall n | Lookup(Insertions(lib, e), n).Some?
      ensures n in CONTEXT || n == "data" || n == "data_base64" || exists x :: x in e.extensions && x.name == n
    {
      NothingElse(lib, e, n);
    }
  }

  // ----- When two events render alike -----

  predicate SameContext(e: Event, f: Event) {
    && e.id == f.id && e.source == f.source && e.eventType == f.eventType && e.subject == f.subject && e.time == f.time
    && e.datacontenttype == f.datacontenttype && e.dataschema == f.dataschema && e.partitionkey == f.partitionkey
  }

  /** Same names with the same JSON values; the attribute types are not rendered. */
  predicate SameExtensions(a: Extensions, b: Extensions) {
    |a| == |b| && forall i :: 0 <= i < |a| ==> a[i].name == b[i].name && JsonOf(a[i].value) == JsonOf(b[i].value)
  }

  predicate SameData(lib: Library, d: Option<EventData>, c: Option<EventData>) {
    match (d, c)
    case (None, None) => true
    case (Some(BinaryData(a)), Some(BinaryData(b))) => a == b
    case (Some(JsonData(a)), Some(JsonData(b))) =>
      lib.jsonData(a).Some? && lib.jsonData(b).Some? && Same(lib.jsonData(a).value, lib.jsonData(b).value)
    case _ => false
  }

  lemma DataDecides(lib: Library, d: Option<EventData>, c: Option<EventData>)
    requires ParsedData(lib, d) && ParsedData(lib, c)
    ensures DataMembers(lib, d) == DataMembers(lib, c) <==> SameData(lib, d, c)
  {
    match (d, c)
    case (Some(BinaryData(a)), Some(BinaryData(b))) =>
      B64.DecodeEncode(a);
      B64.DecodeEncode(b);
    case (Some(JsonData(a)), Some(JsonData(b))) =>
      PrintableIsWellFormed(lib.jsonData(a).value);
      PrintableIsWellFormed(lib.jsonData(b).value);
      CanonDecides(lib.jsonData(a).value, lib.jsonData(b).value);
    case _ =>
  }

  lemma {:induction false} ExtensionsDecide(a: Extensions, b: Extensions)
    ensures ExtensionMembers(a) == ExtensionMembers(b) <==> SameExtensions(a, b)
  {
    if a != [] && b != [] {
      ExtensionsDecide(a[1..], b[1..]);
      if SameExtensions(a, b) {
        assert SameExtensions(a[1..], b[1..]);
        assert a[0].name == b[0].name;
      }
      if ExtensionMembers(a) == ExtensionMembers(b) {
        forall i | 0 <= i < |a| ensures a[i].name == b[i].name && JsonOf(a[i].value) == JsonOf(b[i].value) {
          if i > 0 {
            assert a[i] == a[1..][i - 1] && b[i] == b[1..][i - 1];
          }
        }
      }
    }
  }

  lemma ContextAlike(e: Event, f: Event, a: Members, b: Members)
    requires CarriesContext(e, a) && CarriesContext(f, b) && forall n :: n in CONTEXT ==> Lookup(a, n) == Lookup(b, n)
    requires (e.time.Some? ==> ValidInstant(e.time.value)) && (f.time.Some? ==> ValidInstant(f.time.value))
    ensures SameContext(e, f)
  {
    if e.time.Some? {
      TrimmedTextReads(e.time.value);
    }
    if f.time.Some? {
      TrimmedTextReads(f.time.value);
    }
    assert CONTEXT[1] == "id" && CONTEXT[2] == "source" && CONTEXT[3] == "type" && CONTEXT[4] == "subject" && CONTEXT[5] == "time";
    assert CONTEXT[6] == "datacontenttype" && CONTEXT[7] == "dataschema" && CONTEXT[8] == "partitionkey";
  }

  lemma {:induction false} AppendCancelsLeft(c: Members, a: Members, b: Members)
    requires Append(c, a) == Append(c, b)
    ensures a == b
  {
    if c.Member? {
      AppendCancelsLeft(c.rest, a, b);
    }
  }

  lemma {:induction false} AppendCount(a: Members, b: Members)
    ensures Count(Append(a, b)) == Count(a) + Count(b)
  {
    if a.Member? {
      AppendCount(a.rest, b);
    }
  }

  lemma {:induction false} AppendCancelsRight(a: Members, b: Members, c: Members)
    requires Append(a, c) == Append(b, c)
    ensures a == b
  {
    AppendCount(a, c);
    AppendCount(b, c);
    if a.Member? && b.Member? {
      AppendCancelsRight(a.rest, b.rest, c);
    }
  }

  lemma DataByLookup(lib: Library, d: Option<EventData>, c: Option<EventData>)
    requires Lookup(DataMembers(lib, d), "data") == Lookup(DataMembers(lib, c), "data")
    requires Lookup(DataMembers(lib, d), "data_base64") == Lookup(DataMembers(lib, c), "data_base64")
    ensures DataMembers(lib, d) == DataMembers(lib, c)
  {
  }

  lemma InsertionsDecide(lib: Library, e: Event, f: Event)
    requires Typed(lib, e) && Typed(lib, f) && ParsedData(lib, e.data) && ParsedData(lib, f.data)
    requires (e.time.Some? ==> ValidInstant(e.time.value)) && (f.time.Some? ==> ValidInstant(f.time.value))
    requires Insertions(lib, e) == Insertions(lib, f)
    ensures SameContext(e, f) && SameExtensions(e.extensions, f.extensions) && SameData(lib, e.data, f.data)
  {
    var ms := Insertions(lib, e);
    ContextFound(lib, e);
    ContextFound(lib, f);
    ContextAlike(e, f, ms, ms);
    assert ContextList(e) == ContextList(f);
    AppendCancelsLeft(ContextMembers(e), Append(ExtensionMembers(e.extensions), DataMembers(lib, e.data)),
                      Append(ExtensionMembers(f.extensions), DataMembers(lib, f.data)));
    FoundIn(lib, e, "data");
    FoundIn(lib, f, "data");
    FoundIn(lib, e, "data_base64");
    FoundIn(lib, f, "data_base64");
    DataByLookup(lib, e.data, f.data);
    AppendCancelsRight(ExtensionMembers(e.extensions), ExtensionMembers(f.extensions), DataMembers(lib, e.data));
    ExtensionsDecide(e.extensions, f.extensions);
    DataDecides(lib, e.data, f.data);
  }

  lemma SameTextSameObject(lib: Library, e: Event, f: Event)
    requires Typed(lib, e) && Typed(lib, f) && ParsedData(lib, e.data) && ParsedData(lib, f.data)
    requires Print(Structured(lib, e)) == Print(Structured(lib, f))
    ensures Insertions(lib, e) == Insertions(lib, f)
  {
    DataPrintable(lib, e.data);
    DataPrintable(lib, f.data);
    StructuredParses(lib, e);
    StructuredParses(lib, f);
    NothingOverwritten(lib, e);
    NothingOverwritten(lib, f);
  }

  lemma SameContextSameMembers(e: Event, f: Event)
    requires SameContext(e, f)
    ensures ContextMembers(e) == ContextMembers(f)
  {
    assert ContextList(e) == ContextList(f);
  }

  lemma SameContentSameObject(lib: Library, e: Event, f: Event)
    requires ParsedData(lib, e.data) && ParsedData(lib, f.data)
    requires SameContext(e, f) && SameExtensions(e.extensions, f.extensions) && SameData(lib, e.data, f.data)
    ensures Structured(lib, e) == Structured(lib, f)
  {
    SameContextSameMembers(e, f);
    ExtensionsDecide(e.extensions, f.extensions);
    DataDecides(lib, e.data, f.data);
  }

  /**
   Two events have the same structured bytes exactly when every context attribute is equal, the extensions have the
   same names and JSON values, and the payloads are the same bytes or the same JSON value.
   */
  lemma StructuredDecides(lib: Library, e: Event, f: Event)
    requires Typed(lib, e) && Typed(lib, f) && ParsedData(lib, e.data) && ParsedData(lib, f.data)
    requires (e.time.Some? ==> ValidInstant(e.time.value)) && (f.time.Some? ==> ValidInstant(f.time.value))
    ensures Print(Structured(lib, e)) == Print(Structured(lib, f)) <==>
              SameContext(e, f) && SameExtensions(e.extensions, f.extensions) && SameData(lib, e.data, f.data)
  {
    if Print(Structured(lib, e)) == Print(Structured(lib, f)) {
      SameTextSameObject(lib, e, f);
      InsertionsDecide(lib, e, f);
    }
    if SameContext(e, f) && SameExtensions(e.extensions, f.extensions) && SameData(lib, e.data, f.data) {
      SameContentSameObject(lib, e, f);
    }
  }

  /** The extensions themselves are equal exactly when their types agree too. */
  lemma TypesDecide(lib: Library, a: Extensions, b: Extensions)
    requires (forall i :: 0 <= i < |a| ==> ValidAttribute(lib, a[i])) && (forall i :: 0 <= i < |b| ==> ValidAttribute(lib, b[i]))
    requires SameExtensions(a, b)
    ensures a == b <==> forall i :: 0 <= i < |a| ==> KindOf(a[i].value) == KindOf(b[i].value)
  {
    if forall i :: 0 <= i < |a| ==> KindOf(a[i].value) == KindOf(b[i].value) {
      forall i | 0 <= i < |a| ensures a[i] == b[i] {
        assert ValidAttribute(lib, a[i]) && ValidAttribute(lib, b[i]);
        TypedReads(lib, a[i].value);
        TypedReads(lib, b[i].value);
      }
    }
  }

  /** They need not: a string and a URI reference with the same text render alike. */
  lemma TypesAreNotRendered()
    ensures var a, b := [Attribute("x", Text("a"))], [Attribute("x", UriReference("a"))];
            a != b && SameExtensions(a, b)
  {
  }

  // ----- What the durable extension text says -----

  /** The type tag of a value. */
  predicate TypedAs(v: ExtensionValue, typeName: string) {
    match v
    case Boolean(_) => typeName == "boolean"
    case Integer(_) => typeName == "integer"
    case Text(_) => typeName == "string"
    case Binary(_) => typeName == "binary"
    case Uri(_) => typeName == "uri"
    case UriReference(_) => typeName == "uri-reference"
    case Timestamp(_) => typeName == "timestamp"
  }

  predicate CarriesTyped(v: ExtensionValue, j: Json) {
    && j.Obj? && Count(j.members) == 2
    && Lookup(j.members, "type").Some? && Lookup(j.members, "type").value.Str? && TypedAs(v, Lookup(j.members, "type").value.s)
    && Lookup(j.members, "value").Some? && CarriesExtension(v, Lookup(j.members, "value").value)
  }

  lemma TaggedCarries(lib: Library, v: ExtensionValue)
    requires ValidValue(lib, v)
    ensures CarriesTyped(v, Tagged(v))
  {
    ExtensionCarries(lib, v);
    TaggedFields(TypeName(KindOf(v)), JsonOf(v));
  }

  lemma {:induction false} MembersCarry(lib: Library, e: Extensions, i: nat)
    requires Sorted(e) && (forall j :: 0 <= j < |e| ==> ValidAttribute(lib, e[j])) && i < |e|
    ensures Lookup(MembersOf(e), e[i].name) == Some(Tagged(e[i].value))
  {
    if i > 0 {
      SortedTail(e);
      MembersCarry(lib, e[1..], i - 1);
      assert e[i] == e[1..][i - 1] && Less(e[0].name, e[i].name);
    }
  }

  lemma {:induction false} MembersCount(e: Extensions)
    ensures Count(MembersOf(e)) == |e|
  {
    if e != [] {
      MembersCount(e[1..]);
    }
  }

  /** The durable text parses to an object with one member per attribute, its type tag and its value. */
  lemma CanonicalSays(lib: Library, e: Extensions)
    requires ValidExtensions(lib, e)
    ensures var doc := Parse(Canonical(e));
            && doc.Some? && doc.value.Obj? && Count(doc.value.members) == |e|
            && forall i :: 0 <= i < |e| ==>
                 Lookup(doc.value.members, e[i].name).Some? && CarriesTyped(e[i].value, Lookup(doc.value.members, e[i].name).value)
  {
    SetPrintable(lib, e);
    ParsePrint(Obj(MembersOf(e)));
    MembersCount(e);
    forall i | 0 <= i < |e| ensures Lookup(MembersOf(e), e[i].name).Some? && CarriesTyped(e[i].value, Lookup(MembersOf(e), e[i].name).value) {
      assert ValidAttribute(lib, e[i]);
      MembersCarry(lib, e, i);
      TaggedCarries(lib, e[i].value);
    }
  }
}
