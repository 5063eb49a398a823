/**
 Events as fields of a Redis stream entry (axontask-shared/src/events/serialization.rs). The JSON
 text codec is an arbitrary pair of functions; what is needed of it is said where it is needed.
 */
module EventCodec {
  import opened Wrappers
  import opened Text
  import Uuid
  import Rfc3339

  type Fields = map<string, string>

  datatype Event<J> = Event(
    taskId: Uuid.Uuid,
    seqNo: I64,
    ts: Rfc3339.Time,
    kind: string,
    payload: J,
    hashPrev: Option<seq<Byte>>,
    hashCurr: seq<Byte>)

  datatype Json<!J> = Json(write: J -> string, read: string -> Option<J>)

  datatype SerializationError =
    | MissingField(field: string)
    | InvalidValue(field: string)
    | JsonError
    | UuidError
    | TimestampError
    | HexError

  /** An absent previous hash is written as the empty text. */
  function PrevText(prev: Option<seq<Byte>>): string { if prev.Some? then HexEncode(prev.value) else "" }

  /** The seven fields of an event. */
  function Written<J>(json: Json<J>, e: Event<J>): Fields {
    map[
      "task_id" := Uuid.ToText(e.taskId),
      "seq" := I64ToString(e.seqNo),
      "ts" := Rfc3339.ToText(e.ts),
      "kind" := e.kind,
      "payload" := json.write(e.payload),
      "hash_prev" := PrevText(e.hashPrev),
      "hash_curr" := HexEncode(e.hashCurr)]
  }

  method SerializeEvent<J>(json: Json<J>, event: Event<J>) returns (fields: Fields)
    ensures fields == Written(json, event)
  {
    fields := map[];
    fields := fields["task_id" := Uuid.ToText(event.taskId)];
    fields := fields["seq" := I64ToString(event.seqNo)];
    fields := fields["ts" := Rfc3339.ToText(event.ts)];
    fields := fields["kind" := event.kind];
    fields := fields["payload" := json.write(event.payload)];
    fields := fields["hash_prev" := PrevText(event.hashPrev)];
    fields := fields["hash_curr" := HexEncode(event.hashCurr)];
  }

  // ---- Reading, field by field ---------------------------------------------

  function Get(fields: Fields, name: string): Result<string, SerializationError> {
    if name in fields then Ok(fields[name]) else Err(MissingField(name))
  }

  function Else<T>(r: Option<T>, e: SerializationError): Result<T, SerializationError> {
    match r
    case Some(v) => Ok(v)
    case None => Err(e)
  }

  function ReadWith<T>(fields: Fields, name: string, parse: string -> Option<T>, e: SerializationError)
    : Result<T, SerializationError>
  {
    var text :- Get(fields, name);
    Else(parse(text), e)
  }

  /** An absent or empty field is no hash. */
  function ReadPrev(fields: Fields, hex: string -> Option<seq<Byte>>): Result<Option<seq<Byte>>, SerializationError> {
    var text := if "hash_prev" in fields then fields["hash_prev"] else "";
    if text == "" then Ok(None)
    else match hex(text)
      case Some(bytes) => Ok(Some(bytes))
      case None => Err(HexError)
  }

  /** How the text of each field is read. */
  datatype Readers<!J> = Readers(
    uuid: string -> Option<Uuid.Uuid>,
    int64: string -> Option<I64>,
    time: string -> Option<Rfc3339.Time>,
    json: string -> Option<J>,
    hex: string -> Option<seq<Byte>>)

  function TextReaders<J>(json: Json<J>): Readers<J> {
    Readers(Uuid.Parse, ParseI64, Rfc3339.Parse, json.read, HexDecode)
  }

  /** Fields are read one after the other; the first that is missing or malformed is the error. */
  function DeserializeWith<J>(readers: Readers<J>, fields: Fields): Result<Event<J>, SerializationError> {
    var taskId :- ReadWith(fields, "task_id", readers.uuid, UuidError);
    var seqNo :- ReadWith(fields, "seq", readers.int64, InvalidValue("seq"));
    var ts :- ReadWith(fields, "ts", readers.time, TimestampError);
    var kind :- Get(fields, "kind");
    var payload :- ReadWith(fields, "payload", readers.json, JsonError);
    var hashPrev :- ReadPrev(fields, readers.hex);
    var hashCurr :- ReadWith(fields, "hash_curr", readers.hex, HexError);
    Ok(Event(taskId, seqNo, ts, kind, payload, hashPrev, hashCurr))
  }

  function Deserialize<J>(json: Json<J>, fields: Fields): Result<Event<J>, SerializationError> {
    DeserializeWith(TextReaders(json), fields)
  }

  /** The field is there and reads as `v`. */
  ghost predicate Reads<T>(fields: Fields, name: string, parse: string -> Option<T>, v: T) {
    name in fields && parse(fields[name]) == Some(v)
  }

  ghost predicate PrevReads(fields: Fields, hex: string -> Option<seq<Byte>>, prev: Option<seq<Byte>>) {
    if "hash_prev" !in fields || fields["hash_prev"] == "" then prev == None
    else prev.Some? && hex(fields["hash_prev"]) == prev
  }

  ghost predicate AllRead<J>(readers: Readers<J>, fields: Fields, e: Event<J>) {
    && Reads(fields, "task_id", readers.uuid, e.taskId)
    && Reads(fields, "seq", readers.int64, e.seqNo)
    && Reads(fields, "ts", readers.time, e.ts)
    && "kind" in fields && fields["kind"] == e.kind
    && Reads(fields, "payload", readers.json, e.payload)
    && PrevReads(fields, readers.hex, e.hashPrev)
    && Reads(fields, "hash_curr", readers.hex, e.hashCurr)
  }

  /** An event comes out exactly when every field reads as that event's. */
  lemma DeserializesIff<J>(readers: Readers<J>, fields: Fields, e: Event<J>)
    ensures DeserializeWith(readers, fields) == Ok(e) <==> AllRead(readers, fields, e)
  {
  }

  /** A field reported missing is missing, and is never the previous hash; no event lacks one of the other six. */
  lemma MissingFields<J>(readers: Readers<J>, fields: Fields, name: string)
    ensures DeserializeWith(readers, fields) == Err(MissingField(name)) ==> name !in fields && Required(name)
    ensures Required(name) && name !in fields ==> DeserializeWith(readers, fields).Err?
  {
  }

  predicate Required(name: string) {
    || name == "task_id" || name == "seq" || name == "ts"
    || name == "kind" || name == "payload" || name == "hash_curr"
  }

  /** What is wrong with one field: it is missing, or it does not read. */
  function FaultOf<T>(fields: Fields, name: string, parse: string -> Option<T>, e: SerializationError)
    : Option<SerializationError>
  {
    if name !in fields then Some(MissingField(name)) else if parse(fields[name]).None? then Some(e) else None
  }

  /** The fields in the order of their reading. Only the previous hash may be absent, or empty. */
  function Fault<J>(readers: Readers<J>, fields: Fields, k: nat): Option<SerializationError>
    requires k < 7
  {
    if k == 0 then FaultOf(fields, "task_id", readers.uuid, UuidError)
    else if k == 1 then FaultOf(fields, "seq", readers.int64, InvalidValue("seq"))
    else if k == 2 then FaultOf(fields, "ts", readers.time, TimestampError)
    else if k == 3 then if "kind" in fields then None else Some(MissingField("kind"))
    else if k == 4 then FaultOf(fields, "payload", readers.json, JsonError)
    else if k == 5 then
      if "hash_prev" !in fields || fields["hash_prev"] == "" then None
      else FaultOf(fields, "hash_prev", readers.hex, HexError)
    else FaultOf(fields, "hash_curr", readers.hex, HexError)
  }

  function FirstFault<J>(readers: Readers<J>, fields: Fields, k: nat): Option<SerializationError>
    requires k <= 7
    decreases 7 - k
  {
    if k == 7 then None
    else if Fault(readers, fields, k).Some? then Fault(readers, fields, k)
    else FirstFault(readers, fields, k + 1)
  }

  /** An entry fails exactly with the first fault in that order. */
  lemma FirstFaultReported<J>(readers: Readers<J>, fields: Fields)
    ensures match DeserializeWith(readers, fields)
            case Err(e) => FirstFault(readers, fields, 0) == Some(e)
            case Ok(_) => FirstFault(readers, fields, 0) == None
  {
    FaultsFrom(readers, fields);
  }

  lemma FaultsFrom<J>(readers: Readers<J>, fields: Fields)
    ensures FirstFault(readers, fields, 0) ==
      if Fault(readers, fields, 0).Some? then Fault(readers, fields, 0)
      else if Fault(readers, fields, 1).Some? then Fault(readers, fields, 1)
      else if Fault(readers, fields, 2).Some? then Fault(readers, fields, 2)
      else if Fault(readers, fields, 3).Some? then Fault(readers, fields, 3)
      else if Fault(readers, fields, 4).Some? then Fault(readers, fields, 4)
      else if Fault(readers, fields, 5).Some? then Fault(readers, fields, 5)
      else Fault(readers, fields, 6)
  {
    assert FirstFault(readers, fields, 7) == None;
    assert FirstFault(readers, fields, 5) ==
      if Fault(readers, fields, 5).Some? then Fault(readers, fields, 5) else Fault(readers, fields, 6);
    assert FirstFault(readers, fields, 3) ==
      if Fault(readers, fields, 3).Some? then Fault(readers, fields, 3)
      else if Fault(readers, fields, 4).Some? then Fault(readers, fields, 4)
      else FirstFault(readers, fields, 5);
  }

  // ---- Round trips ---------------------------------------------------------

  ghost predicate JsonKeeps<J>(json: Json<J>, payload: J) { json.read(json.write(payload)) == Some(payload) }

  lemma PrevReadsBack(fields: Fields, prev: Option<seq<Byte>>)
    requires "hash_prev" in fields && fields["hash_prev"] == PrevText(prev)
    ensures PrevReads(fields, HexDecode, prev) <==> prev != Some([])
  {
    if prev.Some? { HexRoundTrip(prev.value); }
  }

  ghost predicate Holds(fields: Fields, name: string, text: string) { name in fields && fields[name] == text }

  ghost predicate HoldsEvent<J>(json: Json<J>, fields: Fields, e: Event<J>) {
    && Holds(fields, "task_id", Uuid.ToText(e.taskId))
    && Holds(fields, "seq", I64ToString(e.seqNo))
    && Holds(fields, "ts", Rfc3339.ToText(e.ts))
    && Holds(fields, "kind", e.kind)
    && Holds(fields, "payload", json.write(e.payload))
    && Holds(fields, "hash_prev", PrevText(e.hashPrev))
    && Holds(fields, "hash_curr", HexEncode(e.hashCurr))
  }

  lemma WrittenHolds<J>(json: Json<J>, e: Event<J>)
    ensures HoldsEvent(json, Written(json, e), e)
  {
  }

  lemma HeldReadsIff<J>(json: Json<J>, fields: Fields, e: Event<J>)
    requires e.ts.Ok() && HoldsEvent(json, fields, e)
    ensures AllRead(TextReaders(json), fields, e) <==>
      e.hashPrev != Some([]) && 0 <= e.ts.date.year <= 9999 && JsonKeeps(json, e.payload)
  {
    Uuid.RoundTrip(e.taskId);
    I64RoundTrip(e.seqNo);
    Rfc3339.RoundTripIff(e.ts);
    PrevReadsBack(fields, e.hashPrev);
    HexRoundTrip(e.hashCurr);
  }

  /**
   An event reads back from the fields written for it if and only if its previous hash is not
   present but empty, its year has four digits, and the JSON codec keeps its payload.
   */
  lemma RoundTripIff<J>(json: Json<J>, e: Event<J>)
    requires e.ts.Ok()
    ensures Deserialize(json, Written(json, e)) == Ok(e) <==>
      e.hashPrev != Some([]) && 0 <= e.ts.date.year <= 9999 && JsonKeeps(json, e.payload)
  {
    WrittenHolds(json, e);
    HeldReadsIff(json, Written(json, e), e);
    DeserializesIff(TextReaders(json), Written(json, e), e);
  }

  /** An event that was read never has an empty previous hash, and its time is valid. */
  lemma ReadIsNormal<J>(json: Json<J>, fields: Fields, e: Event<J>)
    requires Deserialize(json, fields) == Ok(e)
    ensures e.ts.Ok() && -1 <= e.ts.date.year <= 10_000 && e.hashPrev != Some([])
  {
    DeserializesIff(TextReaders(json), fields, e);
    Rfc3339.ParsedIsTime(fields["ts"]);
  }

  /**
   Whatever spelling an event was read from, writing it and reading it again gives the same event,
   unless an offset took its time out of the four-digit years.
   */
  lemma NormalForm<J>(json: Json<J>, fields: Fields, e: Event<J>)
    requires Deserialize(json, fields) == Ok(e) && JsonKeeps(json, e.payload)
    ensures Deserialize(json, Written(json, e)) == Ok(e) <==> 0 <= e.ts.date.year <= 9999
  {
    ReadIsNormal(json, fields, e);
    RoundTripIff(json, e);
  }

  ghost predicate SameField(a: Fields, b: Fields, name: string) {
    (name in a <==> name in b) && (name in a ==> a[name] == b[name])
  }

  /** Two entries that agree on the seven fields read the same, whatever else they hold. */
  lemma OtherFieldsIgnored<J>(json: Json<J>, a: Fields, b: Fields)
    requires SameField(a, b, "task_id") && SameField(a, b, "seq") && SameField(a, b, "ts") && SameField(a, b, "kind")
    requires SameField(a, b, "payload") && SameField(a, b, "hash_prev") && SameField(a, b, "hash_curr")
    ensures Deserialize(json, a) == Deserialize(json, b)
  {
    OthersIgnoredBy(TextReaders(json), a, b);
  }

  lemma SameRead<T>(a: Fields, b: Fields, name: string, parse: string -> Option<T>, e: SerializationError)
    requires SameField(a, b, name)
    ensures ReadWith(a, name, parse, e) == ReadWith(b, name, parse, e)
  {
  }

  lemma OthersIgnoredBy<J>(readers: Readers<J>, a: Fields, b: Fields)
    requires SameField(a, b, "task_id") && SameField(a, b, "seq") && SameField(a, b, "ts") && SameField(a, b, "kind")
    requires SameField(a, b, "payload") && SameField(a, b, "hash_prev") && SameField(a, b, "hash_curr")
    ensures DeserializeWith(readers, a) == DeserializeWith(readers, b)
  {
    SameRead(a, b, "task_id", readers.uuid, UuidError);
    SameRead(a, b, "seq", readers.int64, InvalidValue("seq"));
    SameRead(a, b, "ts", readers.time, TimestampError);
    SameRead(a, b, "payload", readers.json, JsonError);
    SameRead(a, b, "hash_curr", readers.hex, HexError);
    assert Get(a, "kind") == Get(b, "kind") && ReadPrev(a, readers.hex) == ReadPrev(b, readers.hex);
  }
}
