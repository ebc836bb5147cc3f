/**
 * The data side of the shipping client script: looking up a customer's
 * default shipping address and pricing shipping from it.
 */
module ShippingModel {
  import opened Wrappers
  import opened Json

  const INVALID_CUSTOMER_ID: string := "INVALID_CUSTOMER_ID"
  const QUERY_FAILED: string := "QUERY_FAILED"
  const DEFAULT_ADDRESS: string := "defaultaddress"

  /** One row of `asMappedResults()`: column name to value. */
  type Row = map<string, Value>

  /** What running the SuiteQL lookup for a customer gives: the mapped rows, or a thrown error. */
  datatype QueryResult = Rows(rows: seq<Row>) | QueryError(message: string)

  /** The address query, as a function of the customer id that is substituted into it. */
  type Query = Value -> QueryResult

  /** A row's `defaultaddress` column; reading a column the row lacks gives undefined. */
  function Column(row: Row, name: string): Option<Value>
  {
    if name in row then Some(row[name]) else None
  }

  /**
   * `getDefaultShippingAddress(customerId)`: a falsy id is rejected before
   * the query runs; a query that throws becomes QUERY_FAILED; otherwise the
   * first row's address (undefined when the row lacks the column), or the
   * empty string when there are no rows.
   */
  function GetDefaultShippingAddress(customerId: Option<Value>, query: Query): (r: Result<Option<Value>, string>)
    ensures r == Failure(INVALID_CUSTOMER_ID) <==> customerId in FALSY
    ensures r == Failure(QUERY_FAILED) <==> customerId !in FALSY && query(customerId.value).QueryError?
    ensures r.Success? <==> customerId !in FALSY && query(customerId.value).Rows?
    ensures r.Success? ==>
      var rows := query(customerId.value).rows;
      r.value == if |rows| > 0 then Column(rows[0], DEFAULT_ADDRESS) else Some(Str(""))
  {
    if !Truthy(customerId) then Failure(INVALID_CUSTOMER_ID)
    else
      match query(customerId.value)
      case QueryError(_) => Failure(QUERY_FAILED)
      case Rows(rows) => Success(if |rows| > 0 then Column(rows[0], DEFAULT_ADDRESS) else Some(Str("")))
  }

  /** A falsy customer id never reaches the query: the answer is the same whatever the query would do. */
  lemma InvalidIdIgnoresQuery(customerId: Option<Value>, q1: Query, q2: Query)
    requires !Truthy(customerId)
    ensures GetDefaultShippingAddress(customerId, q1) == GetDefaultShippingAddress(customerId, q2)
    ensures GetDefaultShippingAddress(customerId, q1) == Failure(INVALID_CUSTOMER_ID)
  {
  }

  /** The answer depends on the query only through what it returns for this customer. */
  lemma AddressDependsOnlyOnCustomer(customerId: Option<Value>, q1: Query, q2: Query)
    requires Truthy(customerId) && q1(customerId.value) == q2(customerId.value)
    ensures GetDefaultShippingAddress(customerId, q1) == GetDefaultShippingAddress(customerId, q2)
  {
  }

  /** JavaScript's `address.length`: the length of a string or an array, an
      object's own numeric `length` property, undefined for anything else. */
  function JsLength(v: Value): Option<real>
  {
    match v
    case Str(s) => Some(|s| as real)
    case Arr(items) => Some(|items| as real)
    case Obj(fields) => if "length" in fields && fields["length"].Num? then Some(fields["length"].x) else None
    case _ => None
  }

  /**
   * `calculateShippingRate(address)`: 0 for a falsy address, 15 when its
   * length exceeds 20, and 10 otherwise (also when it has no length, since
   * `undefined > 20` is false).
   */
  function CalculateShippingRate(address: Option<Value>): (rate: real)
    ensures rate in {0.0, 10.0, 15.0}
    ensures rate == 0.0 <==> address in FALSY
    ensures rate == 15.0 <==> address !in FALSY && JsLength(address.value).Some? && JsLength(address.value).value > 20.0
  {
    if !Truthy(address) then 0.0
    else
      match JsLength(address.value)
      case Some(n) => if n > 20.0 then 15.0 else 10.0
      case None => 10.0
  }

  /** For string addresses the rate never falls as the address gets longer. */
  lemma RateMonotone(s: string, t: string)
    requires |s| <= |t|
    ensures CalculateShippingRate(Some(Str(s))) <= CalculateShippingRate(Some(Str(t)))
  {
  }

  /** A non-empty string is priced by its length alone: 10 up to 20 characters, 15 above. */
  lemma StringRate(s: string)
    requires s != ""
    ensures CalculateShippingRate(Some(Str(s))) == if |s| > 20 then 15.0 else 10.0
  {
  }

  /** The addresses of the script's tests: 'Short' and '123 Main St' cost 10,
      'A very very long address' (24 characters) costs 15; no address costs 0. */
  lemma RateExamples()
    ensures CalculateShippingRate(Some(Str("Short"))) == 10.0
    ensures CalculateShippingRate(Some(Str("123 Main St"))) == 10.0
    ensures CalculateShippingRate(Some(Str("A very very long address"))) == 15.0
    ensures CalculateShippingRate(Some(Str(""))) == 0.0
    ensures CalculateShippingRate(None) == 0.0
  {
    StringRate("Short");
    StringRate("123 Main St");
    StringRate("A very very long address");
  }
}
