/** The immutable event table: the columns one event is stored in, and its identity. */
module EventColumns {
  import opened Wrappers
  import opened Bounds

  datatype Columns = Columns(
    stream: string,
    specversion: string,
    eventId: string,
    source: string,
    eventType: string,
    subject: Option<string>,
    occurredAt: Option<int>,
    datacontenttype: Option<string>,
    dataschema: Option<string>,
    partitionkey: Option<string>,
    extensions: string,
    dataKind: Option<string>,
    data: Option<seq<Byte>>
  )

  datatype EventRow = EventRow(tenant: string, columns: Columns, enqueuedAt: int)

  datatype Identity = Identity(tenant: string, source: string, eventId: string)

  function IdentityOf(tenant: string, columns: Columns): Identity {
    Identity(tenant, columns.source, columns.eventId)
  }

  function RowIdentity(e: EventRow): Identity {
    IdentityOf(e.tenant, e.columns)
  }
}
