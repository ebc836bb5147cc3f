/**
 * The orchestration of the shipping client script: on a customer change,
 * look up the address, write it and the rate it costs, and log any error
 * instead of letting it escape to the page.
 */
module ShippingController {
  import opened Wrappers
  import opened Json
  import opened Logging
  import opened ShippingModel
  import opened ShippingView

  const ENTITY: string := "entity"
  const CUSTOMER_CHANGE_ERROR: string := "Customer Change Error"
  const FIELD_CHANGED_ERROR: string := "fieldChanged Error"
  /** The TypeError of `currentRecord.getValue` when the context carries no record. */
  const UNDEFINED_RECORD_READ: string := "Cannot read properties of undefined (reading 'getValue')"

  /** The writes `handleCustomerChange` makes to an existing record: the
      address and then its rate when the lookup succeeds, nothing when it throws. */
  function ChangeWrites(customerId: Option<Value>, query: Query): (ws: seq<Write>)
    ensures |ws| <= 2
    ensures |ws| > 0 <==> GetDefaultShippingAddress(customerId, query).Success?
    ensures forall i :: 0 <= i < |ws| ==> ws[i].fieldId == SHIP_ADDRESS || ws[i].fieldId == SHIPPING_RATE
    ensures |ws| > 0 ==>
      ws[|ws| - 1] == Write(SHIPPING_RATE, Num(CalculateShippingRate(GetDefaultShippingAddress(customerId, query).value)))
  {
    match GetDefaultShippingAddress(customerId, query)
    case Failure(_) => []
    case Success(address) => AddressWrites(address) + RateWrites(Num(CalculateShippingRate(address)))
  }

  /** What `handleCustomerChange` logs: the lookup's error message, if it threw. */
  function ChangeLog(customerId: Option<Value>, query: Query): (l: seq<Entry>)
    ensures |l| <= 1
    ensures |l| == 1 <==> GetDefaultShippingAddress(customerId, query).Failure?
    ensures |l| == 1 ==>
      l[0] == Entry(Level.Error, CUSTOMER_CHANGE_ERROR, Message(GetDefaultShippingAddress(customerId, query).error))
  {
    match GetDefaultShippingAddress(customerId, query)
    case Failure(message) => [Entry(Level.Error, CUSTOMER_CHANGE_ERROR, Message(message))]
    case Success(_) => []
  }

  /** `shippingController.handleCustomerChange(currentRecord, customerId)` */
  method HandleCustomerChange(rec: CurrentRecord?, customerId: Option<Value>, query: Query, log: Logger)
    requires rec != null ==> rec.Valid()
    modifies rec, log
    ensures rec != null ==> rec.Valid()
    ensures rec != null ==> rec.writes == old(rec.writes) + ChangeWrites(customerId, query)
    ensures rec != null ==> rec.fields == Apply(old(rec.fields), ChangeWrites(customerId, query))
    ensures log.entries == old(log.entries) + ChangeLog(customerId, query)
  {
    var lookup := GetDefaultShippingAddress(customerId, query);
    if lookup.Failure? {
      log.Error(CUSTOMER_CHANGE_ERROR, Message(lookup.error));
      return;
    }
    var newAddress := lookup.value;
    SetShippingAddress(rec, newAddress);
    var rate := CalculateShippingRate(newAddress);
    SetShippingRate(rec, Num(rate));
    if rec != null {
      ApplyAppend(old(rec.fields), AddressWrites(newAddress), RateWrites(Num(rate)));
    }
  }

  /** The client script's `fieldChanged(context)` entry point, with the
      context's record and field id passed separately. */
  method FieldChanged(rec: CurrentRecord?, fieldId: string, query: Query, log: Logger)
    requires rec != null ==> rec.Valid()
    modifies rec, log
    ensures rec != null ==> rec.Valid()
    ensures fieldId != ENTITY ==> log.entries == old(log.entries)
    ensures fieldId != ENTITY && rec != null ==> rec.writes == old(rec.writes) && rec.fields == old(rec.fields)
    ensures fieldId == ENTITY && rec == null ==>
      log.entries == old(log.entries) + [Entry(Level.Error, FIELD_CHANGED_ERROR, Message(UNDEFINED_RECORD_READ))]
    ensures fieldId == ENTITY && rec != null ==>
      && rec.writes == old(rec.writes) + ChangeWrites(old(rec.GetValue(ENTITY)), query)
      && rec.fields == Apply(old(rec.fields), ChangeWrites(old(rec.GetValue(ENTITY)), query))
      && log.entries == old(log.entries) + ChangeLog(old(rec.GetValue(ENTITY)), query)
  {
    if fieldId == ENTITY {
      if rec == null {
        log.Error(FIELD_CHANGED_ERROR, Message(UNDEFINED_RECORD_READ));
      } else {
        var customerId := rec.GetValue(ENTITY);
        HandleCustomerChange(rec, customerId, query, log);
      }
    }
  }

  // ------------------------------------------------------------------ properties

  /** A successful lookup of a present address makes exactly two writes,
      address first, then the rate of that address; nothing is logged. */
  lemma ChangeSucceeds(customerId: Option<Value>, query: Query, address: Value)
    requires GetDefaultShippingAddress(customerId, query) == Success(Some(address)) && !address.Null?
    ensures ChangeWrites(customerId, query) ==
      [Write(SHIP_ADDRESS, address), Write(SHIPPING_RATE, Num(CalculateShippingRate(Some(address))))]
    ensures ChangeLog(customerId, query) == []
  {
    var a, r := AddressWrites(Some(address)), RateWrites(Num(CalculateShippingRate(Some(address))));
    assert a == [Write(SHIP_ADDRESS, address)];
    assert r == [Write(SHIPPING_RATE, Num(CalculateShippingRate(Some(address))))];
  }

  /** A lookup that throws writes nothing and logs its message once. */
  lemma ChangeFails(customerId: Option<Value>, query: Query, message: string)
    requires GetDefaultShippingAddress(customerId, query) == Failure(message)
    ensures ChangeWrites(customerId, query) == []
    ensures ChangeLog(customerId, query) == [Entry(Level.Error, CUSTOMER_CHANGE_ERROR, Message(message))]
  {
  }

  /** Every successful lookup writes the rate, and the rate written is the
      rate of the address the lookup returned, whether or not that address
      itself was written. */
  lemma {:induction false} RateFollowsAddress(fields: map<string, Value>, customerId: Option<Value>, query: Query)
    requires GetDefaultShippingAddress(customerId, query).Success?
    ensures var address := GetDefaultShippingAddress(customerId, query).value;
      var after := Apply(fields, ChangeWrites(customerId, query));
      SHIPPING_RATE in after && after[SHIPPING_RATE] == Num(CalculateShippingRate(address))
  {
    var address := GetDefaultShippingAddress(customerId, query).value;
    var a, r := AddressWrites(address), RateWrites(Num(CalculateShippingRate(address)));
    ApplyAppend(fields, a, r);
    assert r[..0] == [];
  }

  /** A customer change touches no field besides the shipping address and rate. */
  lemma {:induction false} ChangeTouchesOnlyShipping(fields: map<string, Value>, customerId: Option<Value>, query: Query, f: string)
    requires f != SHIP_ADDRESS && f != SHIPPING_RATE
    ensures var after := Apply(fields, ChangeWrites(customerId, query));
      && (f in after <==> f in fields)
      && (f in fields ==> after[f] == fields[f])
  {
    ApplyUntouched(fields, ChangeWrites(customerId, query), f);
  }

  /** The lookup answering with one row for the given address. */
  function OneRow(address: string): Query
  {
    _ => Rows([map[DEFAULT_ADDRESS := Str(address)]])
  }

  /** Customer '100' whose default address is '123 Main St': two writes, the rate being 10. */
  lemma ValidCustomerScenario()
    ensures ChangeWrites(Some(Str("100")), OneRow("123 Main St")) ==
      [Write(SHIP_ADDRESS, Str("123 Main St")), Write(SHIPPING_RATE, Num(10.0))]
  {
    RateExamples();
    ChangeSucceeds(Some(Str("100")), OneRow("123 Main St"), Str("123 Main St"));
  }

  /** Customer '123' with the address 'Short' is charged 10, with 'A very very long address' 15. */
  lemma RateScenarios()
    ensures ChangeWrites(Some(Str("123")), OneRow("Short"))[1] == Write(SHIPPING_RATE, Num(10.0))
    ensures ChangeWrites(Some(Str("123")), OneRow("A very very long address"))[1] == Write(SHIPPING_RATE, Num(15.0))
  {
    RateExamples();
    ChangeSucceeds(Some(Str("123")), OneRow("Short"), Str("Short"));
    ChangeSucceeds(Some(Str("123")), OneRow("A very very long address"), Str("A very very long address"));
  }

  /** An empty customer id never reaches the query, whatever it would answer:
      nothing is written and INVALID_CUSTOMER_ID is logged. */
  lemma EmptyCustomerScenario(query: Query)
    ensures ChangeWrites(Some(Str("")), query) == []
    ensures ChangeLog(Some(Str("")), query) == [Entry(Level.Error, CUSTOMER_CHANGE_ERROR, Message(INVALID_CUSTOMER_ID))]
  {
    ChangeFails(Some(Str("")), query, INVALID_CUSTOMER_ID);
  }
}
