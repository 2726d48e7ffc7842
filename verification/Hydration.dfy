/** Events to columns and back. */
module Hydration {
  import opened Wrappers
  import opened Bounds
  import opened EventColumns
  import opened TimeText
  import opened TimeParsing
  import opened Extensions
  import opened ExtensionCodec
  import opened Events
  import opened Projection

  // ----- Building -----

  /** What the builder accepts under a size limit. */
  predicate Built(lib: Library, e: Event, limit: nat) {
    Typed(lib, e) && ValidContent(lib, e) && FitsIn(lib, e, limit)
  }

  predicate Within(s: string, max: nat) {
    1 <= Utf8Len(s) <= max && ValidText(s)
  }

  predicate WithinIf(s: Option<string>, max: nat) {
    s.Some? ==> Within(s.value, max)
  }

  lemma BoundedIs(s: string, max: nat)
    ensures ValidBounded(s, max) <==> Within(s, max)
  {
    assert s != [] ==> Utf8Len(s) >= 1;
  }

  /** The fields of an event, by the limits the core publishes. */
  predicate FieldsWithin(lib: Library, e: Event) {
    && Within(e.stream, 255) && Within(e.id, 1_024) && Within(e.source, 2_048) && Within(e.eventType, 1_024)
    && WithinIf(e.subject, 2_048) && WithinIf(e.datacontenttype, 255) && WithinIf(e.dataschema, 2_048) && WithinIf(e.partitionkey, 255)
    && lib.uriReference(e.source) && (e.datacontenttype.Some? ==> lib.mediaType(e.datacontenttype.value))
    && (e.dataschema.Some? ==> lib.absoluteUri(e.dataschema.value))
  }

  lemma FieldsAre(lib: Library, e: Event)
    ensures FieldsWithin(lib, e) <==>
              && ValidStream(e.stream) && ValidEventId(e.id) && ValidSource(lib, e.source) && ValidEventType(e.eventType)
              && (e.subject.Some? ==> ValidSubject(e.subject.value))
              && (e.datacontenttype.Some? ==> ValidContentType(lib, e.datacontenttype.value))
              && (e.dataschema.Some? ==> ValidSchemaUri(lib, e.dataschema.value))
              && (e.partitionkey.Some? ==> ValidPartitionKey(e.partitionkey.value))
  {
    forall s, max: nat ensures ValidBounded(s, max) <==> Within(s, max) {
      BoundedIs(s, max);
    }
  }

  /** The payload: a content type for any bytes, a JSON one and parsable bytes for JSON. */
  predicate DataWithin(lib: Library, e: Event) {
    match e.data
    case None => true
    case Some(BinaryData(bytes)) => bytes != [] ==> e.datacontenttype.Some?
    case Some(JsonData(bytes)) =>
      lib.jsonData(bytes).Some? && e.datacontenttype.Some? && lib.jsonMediaType(e.datacontenttype.value)
  }

  /**
   The builder accepts an event exactly when every field is within its limit, source and id together within theirs, the
   extensions form a well-formed set, the payload has its content type, and the portable size is within the limit.
   */
  lemma BuilderAccepts(lib: Library, e: Event, limit: nat)
    ensures Built(lib, e, limit) <==>
              && FieldsWithin(lib, e) && Utf8Len(e.source) + Utf8Len(e.id) <= 2_048 && (e.time.Some? ==> ValidInstant(e.time.value))
              && WellFormedSet(lib, e.extensions) && DataWithin(lib, e)
              && PortableSize(lib, e).Some? && PortableSize(lib, e).value <= limit
  {
    FieldsAre(lib, e);
    SetIs(lib, e.extensions);
  }

  // ----- Columns -----

  function DataKind(d: Option<EventData>): Option<string> {
    match d
    case None => None
    case Some(JsonData(_)) => Some("json")
    case Some(BinaryData(_)) => Some("binary")
  }

  function DataBytes(d: Option<EventData>): Option<seq<Byte>> {
    if d.None? then None else Some(d.value.bytes)
  }

  /** The values bound to the insert statement. */
  function ToColumns(e: Event): Columns {
    Columns(e.stream, SPEC_VERSION, e.id, e.source, e.eventType, e.subject, e.time, e.datacontenttype, e.dataschema,
            e.partitionkey, Canonical(e.extensions), DataKind(e.data), DataBytes(e.data))
  }

  /** Every column, by what it holds. */
  lemma ColumnsSay(lib: Library, e: Event, limit: nat)
    requires Built(lib, e, limit)
    ensures var c := ToColumns(e);
            && c.stream == e.stream && c.specversion == "1.0" && c.eventId == e.id && c.source == e.source && c.eventType == e.eventType
            && c.subject == e.subject && c.occurredAt == e.time && c.datacontenttype == e.datacontenttype
            && c.dataschema == e.dataschema && c.partitionkey == e.partitionkey && Decode(lib, c.extensions) == Ok(e.extensions)
            && match e.data
               case None => c.dataKind == None && c.data == None
               case Some(JsonData(bytes)) => c.dataKind == Some("json") && c.data == Some(bytes)
               case Some(BinaryData(bytes)) => c.dataKind == Some("binary") && c.data == Some(bytes)
  {
    DecodeEncode(lib, e.extensions);
  }

  function DataOf(lib: Library, kind: Option<string>, data: Option<seq<Byte>>): Result<Option<EventData>, Unit> {
    if kind.None? && data.None? then Ok(None)
    else if kind == Some("json") && data.Some? then
      if lib.jsonData(data.value).Some? then Ok(Some(JsonData(data.value))) else Err(Unit)
    else if kind == Some("binary") && data.Some? then Ok(Some(BinaryData(data.value)))
    else Err(Unit)
  }

  /** Rebuilds and revalidates a stored event; any disagreement is an error. */
  function Hydrate(lib: Library, c: Columns): Result<Event, Unit> {
    if c.specversion != SPEC_VERSION then Err(Unit)
    else if !(ValidStream(c.stream) && ValidEventId(c.eventId) && ValidSource(lib, c.source) && ValidEventType(c.eventType)) then Err(Unit)
    else if c.subject.Some? && !ValidSubject(c.subject.value) then Err(Unit)
    else if c.datacontenttype.Some? && !ValidContentType(lib, c.datacontenttype.value) then Err(Unit)
    else if c.dataschema.Some? && !ValidSchemaUri(lib, c.dataschema.value) then Err(Unit)
    else if c.partitionkey.Some? && !ValidPartitionKey(c.partitionkey.value) then Err(Unit)
    else
      match (Decode(lib, c.extensions), DataOf(lib, c.dataKind, c.data))
      case (Ok(extensions), Ok(data)) =>
        var e := Event(c.stream, c.eventId, c.source, c.eventType, c.subject, c.occurredAt, c.datacontenttype, c.dataschema,
                       c.partitionkey, extensions, data);
        if ValidContent(lib, e) && FitsIn(lib, e, USIZE_MAX) then Ok(e) else Err(Unit)
      case _ => Err(Unit)
  }

  lemma DataReads(lib: Library, d: Option<EventData>)
    requires d.Some? ==> ValidData(lib, d.value)
    ensures DataOf(lib, DataKind(d), DataBytes(d)) == Ok(d)
  {
  }

  lemma DataPrints(lib: Library, kind: Option<string>, data: Option<seq<Byte>>)
    requires DataOf(lib, kind, data).Ok?
    ensures var d := DataOf(lib, kind, data).value;
            DataKind(d) == kind && DataBytes(d) == data && (d.Some? ==> ValidData(lib, d.value))
  {
  }

  /** An event built under any limit comes back from its columns unchanged. */
  lemma HydrateColumns(lib: Library, e: Event, limit: nat)
    requires Built(lib, e, limit)
    ensures Hydrate(lib, ToColumns(e)) == Ok(e)
  {
    DecodeEncode(lib, e.extensions);
    DataReads(lib, e.data);
    LargerLimitsAccept(lib, e, limit, limit);
  }

  /** Columns that hydrate are exactly those of the event they hydrate to, and that event is valid. */
  lemma ColumnsHydrate(lib: Library, c: Columns)
    requires Hydrate(lib, c).Ok?
    ensures ToColumns(Hydrate(lib, c).value) == c && Built(lib, Hydrate(lib, c).value, USIZE_MAX)
  {
    EncodeDecode(lib, c.extensions);
    DataPrints(lib, c.dataKind, c.data);
  }

  lemma HydratesExactly(lib: Library, c: Columns, e: Event)
    ensures Hydrate(lib, c) == Ok(e) <==> Built(lib, e, USIZE_MAX) && ToColumns(e) == c
  {
    if Hydrate(lib, c) == Ok(e) {
      ColumnsHydrate(lib, c);
    }
    if Built(lib, e, USIZE_MAX) && ToColumns(e) == c {
      HydrateColumns(lib, e, USIZE_MAX);
    }
  }

  // ----- Duplicate detection -----

  /** The field-by-field comparison of a new event with stored columns. */
  predicate SameEvent(e: Event, c: Columns) {
    && e.stream == c.stream
    && SPEC_VERSION == c.specversion
    && e.id == c.eventId
    && e.source == c.source
    && e.eventType == c.eventType
    && e.subject == c.subject
    && e.time == c.occurredAt
    && e.datacontenttype == c.datacontenttype
    && e.dataschema == c.dataschema
    && e.partitionkey == c.partitionkey
    && Canonical(e.extensions) == c.extensions
    && DataKind(e.data) == c.dataKind
    && DataBytes(e.data) == c.data
  }

  lemma SameEventIsColumns(e: Event, c: Columns)
    ensures SameEvent(e, c) <==> ToColumns(e) == c
  {
  }

  /** Two built events compare as the same exactly when their contents are equal. */
  lemma SameEventIsEqual(lib: Library, e: Event, f: Event, limit: nat, other: nat)
    requires Built(lib, e, limit) && Built(lib, f, other)
    ensures SameEvent(e, ToColumns(f)) <==> e == f
  {
    SameEventIsColumns(e, ToColumns(f));
    HydrateColumns(lib, e, limit);
    HydrateColumns(lib, f, other);
  }

  // ----- Duplicate detection over text times -----

  function TextTime(t: Option<int>): Option<string> {
    if t.Some? && t.value >= 0 then Some(TrimmedText(t.value)) else None
  }

  /** SQLite's comparison: every column as above, but the occurrence time as the text the adapter stores. */
  predicate SameEventByText(e: Event, c: Columns, occurredAt: Option<string>) {
    SameEvent(e.(time := c.occurredAt), c) && TextTime(e.time) == occurredAt
  }

  lemma SameTextIsSameTime(a: Option<int>, b: Option<int>)
    requires (a.Some? ==> ValidInstant(a.value)) && (b.Some? ==> ValidInstant(b.value))
    ensures TextTime(a) == TextTime(b) <==> a == b
  {
    if a.Some? {
      TrimmedTextReads(a.value);
    }
    if b.Some? {
      TrimmedTextReads(b.value);
    }
  }

  /** Comparing occurrence times as text compares them as instants, so this too is equality of contents. */
  lemma SameEventByTextIsEqual(lib: Library, e: Event, f: Event, limit: nat, other: nat)
    requires Built(lib, e, limit) && Built(lib, f, other)
    ensures SameEventByText(e, ToColumns(f), TextTime(f.time)) <==> e == f
  {
    SameTextIsSameTime(e.time, f.time);
    SameEventIsEqual(lib, e, f, limit, other);
  }
}
