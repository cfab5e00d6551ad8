/**
 * The Event Materializer: one event record per (index, pair) occurrence.
 * The wall clock and the random payload are parameters.
 */
module Events {

  /** The deduplication key the ingestion service uses. */
  datatype Pair = Pair(topic: string, eventId: string)

  datatype Payload = Payload(rand: int)

  datatype Event = Event(topic: string, eventId: string, timestamp: string, source: string, payload: Payload)

  /** The source tag every generated event carries. */
  const PublisherSource: string := "publisher"

  /** Upper bound (inclusive) of `random.randint(0, 10_000_000)`. */
  const RandMax: int := 10_000_000

  function Key(e: Event): Pair {
    Pair(e.topic, e.eventId)
  }

  /**
   * make_event: the record keeps the given pair as its key and carries the
   * publisher tag; only the timestamp `now` and the payload draw `rand` vary.
   */
  function MakeEvent(topic: string, eventId: string, now: string, rand: int): (e: Event)
    requires 0 <= rand <= RandMax
    ensures Key(e) == Pair(topic, eventId)
    ensures e.source == PublisherSource
    ensures e.timestamp == now && 0 <= e.payload.rand <= RandMax
  {
    Event(topic, eventId, now, PublisherSource, Payload(rand))
  }
}
