/** The Azure Service Bus sender the services report events to, as the
    recency variant writes `sendEvent`: sending never fails from the
    caller's point of view, since when no sender is configured, or the
    send fails, the event is dropped. The pgvector variant's sender is
    taken to behave the same way. */
module Events {
  import opened Types

  datatype EventData =
    | SearchPerformed(query: SearchQuery, resultCount: nat, total: int)
    | ExportPerformed(format: string, recordCount: nat)

  /** An event: its type name (`job.search`, `job.export`) and its data. */
  datatype Event = Event(eventType: string, data: EventData)

  class EventBus {
    /** A sender is configured and the bus accepts messages. */
    var available: bool
    /** The events the bus has accepted, in order. */
    var delivered: seq<Event>

    constructor(available: bool)
      ensures this.available == available && delivered == []
    {
      this.available := available;
      delivered := [];
    }

    /** `sendEvent`: delivers the event when the bus is available and
        otherwise drops it; it never raises. */
    method SendEvent(e: Event)
      modifies this`delivered
      ensures delivered == if available then old(delivered) + [e] else old(delivered)
    {
      if available {
        delivered := delivered + [e];
      }
    }
  }
}
