/** The counter record: its fields, its attributes on the chain, and the patch that rewrites it. */
module CounterRecords {
  import opened Basics

  datatype CounterState = Open | Closed

  /** One agreement's count for one settlement period. */
  datatype CounterRecord = CounterRecord(
    agreement: Key,
    provider: Address,
    state: CounterState,
    count: nat,
    weiPerCall: nat,
    openedBlock: nat,
    closedBlock: Option<nat>)

  /** The part of a record that rides in its JSON payload. */
  datatype Payload = Payload(count: nat, weiPerCall: nat, openedBlock: nat, closedBlock: Option<nat>)

  /** A typed attribute. The payload's JSON text stands as the document it spells. */
  datatype AttributeValue =
    | Str(text: string)
    | I32(number: int)
    | Addr(address: Address)
    | KeyValue(key: Key)
    | Bytes(document: Payload)

  type Attributes = map<string, AttributeValue>

  datatype RecordError =
    | MissingAttribute(name: string)
    | AttributeType(name: string)
    | NoPayload
    | NotThisRecord
    | Version(found: int)

  const KIND_COUNTER := "rpc.counter"
  const SCHEMA_VERSION := 1

  function StateName(state: CounterState): string {
    match state
    case Open => "open"
    case Closed => "closed"
  }

  function Encode(record: CounterRecord): Attributes {
    map[
      "kind" := Str(KIND_COUNTER),
      "v" := I32(SCHEMA_VERSION),
      "agreement" := KeyValue(record.agreement),
      "provider" := Addr(record.provider),
      "state" := Str(StateName(record.state)),
      "payload" := Bytes(Payload(record.count, record.weiPerCall, record.openedBlock, record.closedBlock))
    ]
  }

  function Decode(entity: Attributes): Result<CounterRecord, RecordError> {
    if !("kind" in entity && entity["kind"] == Str(KIND_COUNTER)) then Err(NotThisRecord)
    else if "v" !in entity then Err(MissingAttribute("v"))
    else if !entity["v"].I32? then Err(AttributeType("v"))
    else if entity["v"].number != SCHEMA_VERSION then Err(Version(entity["v"].number))
    else DecodeFields(entity)
  }

  function DecodeFields(entity: Attributes): Result<CounterRecord, RecordError> {
    if "state" !in entity then Err(MissingAttribute("state"))
    else if !entity["state"].Str? then Err(AttributeType("state"))
    else if entity["state"].text != "open" && entity["state"].text != "closed" then Err(AttributeType("state"))
    else if !("payload" in entity && entity["payload"].Bytes?) then Err(NoPayload)
    else if "agreement" !in entity then Err(MissingAttribute("agreement"))
    else if !entity["agreement"].KeyValue? then Err(AttributeType("agreement"))
    else if "provider" !in entity then Err(MissingAttribute("provider"))
    else if !entity["provider"].Addr? then Err(AttributeType("provider"))
    else
      var document := entity["payload"].document;
      Ok(CounterRecord(
           entity["agreement"].key,
           entity["provider"].address,
           if entity["state"].text == "open" then Open else Closed,
           document.count, document.weiPerCall, document.openedBlock, document.closedBlock))
  }

  /** The named attributes of these. */
  function Keep(attributes: Attributes, names: set<string>): Attributes {
    map name | name in attributes && name in names :: attributes[name]
  }

  /** What a patch to `record` sets: the payload, and the state when the record closes. */
  function PatchSet(record: CounterRecord): Attributes {
    Keep(Encode(record), match record.state case Open => {"payload"} case Closed => {"payload", "state"})
  }

  /** What the chain holds after a patch: the attributes it sets, over the ones that stand. */
  function Patched(entity: Attributes, changes: Attributes): Attributes {
    entity + changes
  }

  /** The same record with a new count. */
  function Counted(record: CounterRecord, count: nat): CounterRecord {
    record.(count := count)
  }

  /** The same record with its final count and the block it closed at. */
  function ClosedWith(record: CounterRecord, count: nat, head: nat): CounterRecord {
    record.(count := count, state := Closed, closedBlock := Some(head))
  }

  lemma EncodeDecode(record: CounterRecord)
    ensures Decode(Encode(record)) == Ok(record)
  {
    var entity := Encode(record);
    assert entity["state"].text == StateName(record.state);
    assert StateName(Open) != StateName(Closed);
  }

  /** Encoding is injective, so what settle reads back is the one record that was meant. */
  lemma EncodeInjective(left: CounterRecord, right: CounterRecord)
    ensures Encode(left) == Encode(right) <==> left == right
  {
    EncodeDecode(left);
    EncodeDecode(right);
  }

  /** A patch leaves exactly the encoding of the record it means if and only if the two records agree
      on the pointers it does not carry, and it does not try to reopen a closed record. */
  lemma PatchFrame(stored: CounterRecord, meant: CounterRecord)
    ensures Patched(Encode(stored), PatchSet(meant)) == Encode(meant)
       <==> stored.agreement == meant.agreement && stored.provider == meant.provider
            && (meant.state == Closed || stored.state == Open)
  {
    var after := Patched(Encode(stored), PatchSet(meant));
    var intended := Encode(meant);
    assert after["payload"] == intended["payload"];
    assert after["state"] == if meant.state == Closed then intended["state"] else Str(StateName(stored.state));
    assert after["agreement"] == KeyValue(stored.agreement) && after["provider"] == Addr(stored.provider);
    assert after.Keys == intended.Keys;
    assert StateName(Open) == "open" && StateName(Closed) == "closed" && |"open"| != |"closed"|;
    if stored.agreement == meant.agreement && stored.provider == meant.provider
       && (meant.state == Closed || stored.state == Open)
    {
      assert after["state"] == intended["state"];
      assert forall name | name in intended :: after[name] == intended[name];
    }
  }

  /** What a patch leaves of a record: the whole payload is replaced, a state once closed stays closed,
      and the pointers stand. */
  function PatchEffect(stored: CounterRecord, meant: CounterRecord): CounterRecord {
    meant.(agreement := stored.agreement, provider := stored.provider,
           state := if meant.state == Closed then Closed else stored.state)
  }

  /** Reading a patched record back gives the patch's effect, for every pair of records. */
  lemma PatchReadsBack(stored: CounterRecord, meant: CounterRecord)
    ensures Decode(Patched(Encode(stored), PatchSet(meant))) == Ok(PatchEffect(stored, meant))
  {
    PatchFrame(PatchEffect(stored, meant), meant);
    EncodeDecode(PatchEffect(stored, meant));
    assert Patched(Encode(stored), PatchSet(meant)) == Encode(PatchEffect(stored, meant)) by {
      var after := Patched(Encode(stored), PatchSet(meant));
      var effect := Encode(PatchEffect(stored, meant));
      assert after.Keys == effect.Keys;
      assert forall name | name in effect :: after[name] == effect[name];
    }
  }

  /** The two patches a flush makes both leave the chain with the record they mean. */
  lemma FlushPatchesStand(stored: CounterRecord, count: nat, head: nat)
    requires stored.state == Open
    ensures Patched(Encode(stored), PatchSet(Counted(stored, count))) == Encode(Counted(stored, count))
    ensures Patched(Encode(stored), PatchSet(ClosedWith(stored, count, head))) == Encode(ClosedWith(stored, count, head))
  {
    PatchFrame(stored, Counted(stored, count));
    PatchFrame(stored, ClosedWith(stored, count, head));
  }
}
