/**
 * The UI side of the shipping client script: the record being edited and
 * the two guarded field setters.
 */
module ShippingView {
  import opened Wrappers
  import opened Json

  const SHIP_ADDRESS: string := "shipaddress"
  const SHIPPING_RATE: string := "custbody_shipping_rate"

  /** One `setValue({ fieldId, value })` call. */
  datatype Write = Write(fieldId: string, value: Value)

  /** The field values after a sequence of writes, the last write to a field winning. */
  function Apply(fields: map<string, Value>, writes: seq<Write>): map<string, Value>
  {
    if writes == [] then fields
    else
      var w := writes[|writes| - 1];
      Apply(fields, writes[..|writes| - 1])[w.fieldId := w.value]
  }

  lemma {:induction false} ApplyAppend(fields: map<string, Value>, a: seq<Write>, b: seq<Write>)
    ensures Apply(fields, a + b) == Apply(Apply(fields, a), b)
  {
    if b != [] {
      assert (a + b)[..|a + b| - 1] == a + b[..|b| - 1];
      ApplyAppend(fields, a, b[..|b| - 1]);
    } else {
      assert a + b == a;
    }
  }

  /** Writes that never name a field leave that field as it was. */
  lemma {:induction false} ApplyUntouched(fields: map<string, Value>, writes: seq<Write>, f: string)
    requires forall i :: 0 <= i < |writes| ==> writes[i].fieldId != f
    ensures f in Apply(fields, writes) <==> f in fields
    ensures f in fields ==> Apply(fields, writes)[f] == fields[f]
  {
    if writes != [] {
      ApplyUntouched(fields, writes[..|writes| - 1], f);
    }
  }

  /** The current record in the UI: its field values, and every write made to it. */
  class CurrentRecord {
    var fields: map<string, Value>
    var writes: seq<Write>
    /** The field values when the record was opened. */
    ghost const initial: map<string, Value>

    /** The field values are the initial ones with every write applied in order. */
    ghost predicate Valid()
      reads this
    {
      fields == Apply(initial, writes)
    }

    constructor (fields: map<string, Value>)
      ensures this.fields == fields && writes == [] && initial == fields
      ensures Valid()
    {
      this.fields := fields;
      writes := [];
      initial := fields;
    }

    /** `currentRecord.getValue({ fieldId })`: undefined for a field the record lacks. */
    function GetValue(fieldId: string): (v: Option<Value>)
      reads this
      ensures v.Some? <==> fieldId in fields
      ensures v.Some? ==> v.value == fields[fieldId]
    {
      if fieldId in fields then Some(fields[fieldId]) else None
    }

    /** `currentRecord.setValue({ fieldId, value })` */
    method SetValue(fieldId: string, value: Value)
      requires Valid()
      modifies this
      ensures fields == old(fields)[fieldId := value]
      ensures writes == old(writes) + [Write(fieldId, value)]
      ensures Valid()
    {
      assert (writes + [Write(fieldId, value)])[..|writes|] == writes;
      fields := fields[fieldId := value];
      writes := writes + [Write(fieldId, value)];
    }
  }

  /** What `setShippingAddress` writes to an existing record: the address,
      unless it is null or undefined (an empty string is still written). */
  function AddressWrites(newAddress: Option<Value>): (ws: seq<Write>)
    ensures |ws| <= 1
    ensures |ws| == 1 <==> newAddress.Some? && !newAddress.value.Null?
    ensures |ws| == 1 ==> ws[0] == Write(SHIP_ADDRESS, newAddress.value)
  {
    if newAddress.Some? && !newAddress.value.Null? then [Write(SHIP_ADDRESS, newAddress.value)] else []
  }

  /** What `setShippingRate` writes to an existing record: the rate, when it is a number. */
  function RateWrites(rate: Value): (ws: seq<Write>)
    ensures |ws| <= 1
    ensures |ws| == 1 <==> rate.Num?
    ensures |ws| == 1 ==> ws[0] == Write(SHIPPING_RATE, rate)
  {
    if rate.Num? then [Write(SHIPPING_RATE, rate)] else []
  }

  /** `setShippingAddress(currentRecord, newAddress)`: nothing happens without a record. */
  method SetShippingAddress(rec: CurrentRecord?, newAddress: Option<Value>)
    requires rec != null ==> rec.Valid()
    modifies rec
    ensures rec != null ==> rec.Valid()
    ensures rec != null ==> rec.writes == old(rec.writes) + AddressWrites(newAddress)
    ensures rec != null ==> rec.fields == Apply(old(rec.fields), AddressWrites(newAddress))
  {
    if rec != null && newAddress.Some? && !newAddress.value.Null? {
      rec.SetValue(SHIP_ADDRESS, newAddress.value);
    }
  }

  /** `setShippingRate(currentRecord, rate)`: nothing happens without a record. */
  method SetShippingRate(rec: CurrentRecord?, rate: Value)
    requires rec != null ==> rec.Valid()
    modifies rec
    ensures rec != null ==> rec.Valid()
    ensures rec != null ==> rec.writes == old(rec.writes) + RateWrites(rate)
    ensures rec != null ==> rec.fields == Apply(old(rec.fields), RateWrites(rate))
  {
    if rec != null && rate.Num? {
      rec.SetValue(SHIPPING_RATE, rate);
    }
  }
}
