/** What a reader gets from a stream of events that were written by the codec. */
module EventPipeline {
  import opened Wrappers
  import EventCodec
  import EventStream

  /** The reader's decoder: an entry that does not deserialize is skipped. */
  function EventDecoder<J>(json: EventCodec.Json<J>): EventStream.Decoder<EventCodec.Event<J>> {
    (fields: EventCodec.Fields) =>
      match EventCodec.Deserialize(json, fields)
      case Ok(e) => Some(e)
      case Err(_) => None
  }

  /** The event survives being written and read. */
  ghost predicate Storable<J>(json: EventCodec.Json<J>, e: EventCodec.Event<J>) {
    && e.ts.Ok() && 0 <= e.ts.date.year <= 9999
    && e.hashPrev != Some([]) && EventCodec.JsonKeeps(json, e.payload)
  }

  ghost predicate Carries<J>(json: EventCodec.Json<J>, entry: EventStream.Entry, e: EventCodec.Event<J>) {
    entry.fields == EventCodec.Written(json, e) && Storable(json, e)
  }

  lemma CarriedDecodes<J>(json: EventCodec.Json<J>, entry: EventStream.Entry, e: EventCodec.Event<J>)
    requires Carries(json, entry, e)
    ensures EventDecoder(json)(entry.fields) == Some(e)
  {
    EventCodec.RoundTripIff(json, e);
  }

  lemma {:induction false} CarriedPrefix<E>(
    decode: EventStream.Decoder<E>, es: seq<EventStream.Entry>, events: seq<E>, n: nat)
    requires n <= |es| && n <= |events|
    requires forall i | 0 <= i < n :: decode(es[i].fields) == Some(events[i])
    ensures EventStream.Events(EventStream.Decoded(decode, es, 0, n)) == events[..n]
    decreases n
  {
    if n > 0 {
      CarriedPrefix(decode, es, events, n - 1);
      EventStream.EventsConcat(EventStream.Decoded(decode, es, 0, n - 1), EventStream.EventOf(decode, es[n - 1]));
      assert EventStream.Events(EventStream.EventOf(decode, es[n - 1])) == [events[n - 1]];
      assert events[..n] == events[..n - 1] + [events[n - 1]];
    }
  }

  /** Whatever the batch size, a paged read of a stream of storable events returns those events, in order. */
  lemma WrittenStreamReadsWhole<J>(
    json: EventCodec.Json<J>, es: seq<EventStream.Entry>, events: seq<EventCodec.Event<J>>, b: nat)
    requires |es| == |events| && forall i | 0 <= i < |es| :: Carries(json, es[i], events[i])
    ensures var decode := EventDecoder(json);
      EventStream.Events(EventStream.Decoded(decode, es, 0, EventStream.Stop(decode, es, b, 0))) == events
  {
    var decode := EventDecoder(json);
    forall i | 0 <= i < |es| ensures decode(es[i].fields) == Some(events[i]) {
      CarriedDecodes(json, es[i], events[i]);
    }
    forall i | 0 <= i < |es| ensures !EventStream.DeadRun(decode, es, b, i) {
      assert !EventStream.DeadAt(decode, es, i);
    }
    EventStream.StopSkips(decode, es, b, 0, |es|);
    CarriedPrefix(decode, es, events, |es|);
    assert events[..|es|] == events;
  }
}
