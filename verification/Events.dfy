/** Event content and the checks its constructors and its builder make. */
module Events {
  import opened Wrappers
  import opened Bounds
  import opened Extensions

  datatype EventData = JsonData(bytes: seq<Byte>) | BinaryData(bytes: seq<Byte>)

  datatype Event = Event(
    stream: string,
    id: string,
    source: string,
    eventType: string,
    subject: Option<string>,
    time: Option<int>,
    datacontenttype: Option<string>,
    dataschema: Option<string>,
    partitionkey: Option<string>,
    extensions: Extensions,
    data: Option<EventData>)

  const SPEC_VERSION := "1.0"
  const MAX_IDENTITY := 2_048

  // ----- Checks made by the constructors of single fields -----

  predicate ValidStream(s: string) {
    ValidBounded(s, 255)
  }

  predicate ValidEventId(s: string) {
    ValidBounded(s, 1_024)
  }

  predicate ValidSource(lib: Library, s: string) {
    ValidBounded(s, 2_048) && lib.uriReference(s)
  }

  predicate ValidEventType(s: string) {
    ValidBounded(s, 1_024)
  }

  predicate ValidSubject(s: string) {
    ValidBounded(s, 2_048)
  }

  predicate ValidContentType(lib: Library, s: string) {
    ValidBounded(s, 255) && lib.mediaType(s)
  }

  predicate ValidSchemaUri(lib: Library, s: string) {
    ValidBounded(s, 2_048) && lib.absoluteUri(s)
  }

  predicate ValidPartitionKey(s: string) {
    ValidBounded(s, 255)
  }

  predicate ValidTenant(s: string) {
    ValidBounded(s, 255)
  }

  predicate ValidData(lib: Library, d: EventData) {
    d.JsonData? ==> lib.jsonData(d.bytes).Some?
  }

  /** What the field types alone guarantee. */
  predicate Typed(lib: Library, e: Event) {
    && ValidStream(e.stream) && ValidEventId(e.id) && ValidSource(lib, e.source) && ValidEventType(e.eventType)
    && (e.subject.Some? ==> ValidSubject(e.subject.value))
    && (e.datacontenttype.Some? ==> ValidContentType(lib, e.datacontenttype.value))
    && (e.dataschema.Some? ==> ValidSchemaUri(lib, e.dataschema.value))
    && (e.partitionkey.Some? ==> ValidPartitionKey(e.partitionkey.value))
    && Sorted(e.extensions) && (forall i :: 0 <= i < |e.extensions| ==> ValidAttribute(lib, e.extensions[i]))
    && (e.data.Some? ==> ValidData(lib, e.data.value))
  }

  /** The cross-field checks of the builder, apart from the size. */
  predicate ValidContent(lib: Library, e: Event) {
    && Utf8Len(e.source) + Utf8Len(e.id) <= MAX_IDENTITY
    && (e.time.Some? ==> ValidInstant(e.time.value))
    && TraceContext(lib, e.extensions)
    && (e.data.Some? ==>
          && (e.data.value.bytes != [] ==> e.datacontenttype.Some?)
          && (e.data.value.JsonData? ==> e.datacontenttype.Some? && lib.jsonMediaType(e.datacontenttype.value)))
  }
}
