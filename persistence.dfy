/**
 * The persistence layer `N/record` as an injected sink: `record.create`,
 * `setValue` on the new record, and `save`. Every call is recorded in the
 * sink's trace; whether a call fails is decided by the caller's failure
 * injection (`failure == Some(message)` makes the call throw that message).
 */
module Persistence {
  import opened Wrappers
  import opened Json

  /** One call made on the persistence layer, failed or not. */
  datatype Call =
    | Create(recordType: string)
    | SetValue(fieldId: string, value: Option<Value>)
    | Save

  /** A committed record: its type and the field values it was saved with. */
  datatype Persisted = Persisted(recordType: string, values: map<string, Option<Value>>)

  /** How the persistence layer treats one create/set/set/save attempt. */
  datatype Fault =
    | Healthy
    | FailCreate(message: string)
    | FailSetTransId(message: string)
    | FailSetAmount(message: string)
    | FailSave(message: string)

  /** A record returned by `record.create`, not yet saved. */
  class RecordHandle {
    const recordType: string
    var values: map<string, Option<Value>>

    constructor (recordType: string)
      ensures this.recordType == recordType && values == map[]
    {
      this.recordType := recordType;
      values := map[];
    }
  }

  class Sink {
    /** Every call made, in order. */
    var calls: seq<Call>
    /** Every record persisted by a successful save, in order. */
    var committed: seq<Persisted>

    constructor ()
      ensures calls == [] && committed == []
    {
      calls := [];
      committed := [];
    }

    /** `record.create({ type })`: a fresh empty record, or null when it throws. */
    method Create(recordType: string, failure: Option<string>) returns (h: RecordHandle?)
      modifies this
      ensures calls == old(calls) + [Call.Create(recordType)] && committed == old(committed)
      ensures h != null <==> failure.None?
      ensures h != null ==> fresh(h) && h.recordType == recordType && h.values == map[]
    {
      calls := calls + [Call.Create(recordType)];
      if failure.None? {
        h := new RecordHandle(recordType);
      } else {
        h := null;
      }
    }

    /** `h.setValue({ fieldId, value })`: sets the field unless the call throws. */
    method SetValue(h: RecordHandle, fieldId: string, value: Option<Value>, failure: Option<string>)
      returns (error: Option<string>)
      modifies this, h
      ensures calls == old(calls) + [Call.SetValue(fieldId, value)] && committed == old(committed)
      ensures error == failure
      ensures h.values == if failure.None? then old(h.values)[fieldId := value] else old(h.values)
    {
      calls := calls + [Call.SetValue(fieldId, value)];
      error := failure;
      if failure.None? {
        h.values := h.values[fieldId := value];
      }
    }

    /** `h.save()`: commits a snapshot of the record unless the call throws. */
    method Save(h: RecordHandle, failure: Option<string>) returns (error: Option<string>)
      modifies this
      ensures calls == old(calls) + [Call.Save]
      ensures error == failure
      ensures committed == old(committed) + if failure.None? then [Persisted(h.recordType, h.values)] else []
    {
      calls := calls + [Call.Save];
      error := failure;
      if failure.None? {
        committed := committed + [Persisted(h.recordType, h.values)];
      }
    }
  }
}
