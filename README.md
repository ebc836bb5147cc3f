# SuiteScript financial transform and shipping auto-populate, modelled in Dafny

This project models two NetSuite SuiteScript 2.1 scripts of the `com.turing.12345` SuiteApp.

**The financial transform map/reduce script** (`financialTransformMapReduce.js`):
- `getInputData` returns a fixed batch of three raw records.
- `map` parses each item's JSON. It writes a valid record under its `transId` and logs "Invalid Record Skipped" for an invalid one.
- `reduce` parses every value of one key. For each value it creates a `customrecord_financial_data` record, sets its external id and amount, and saves it. A failure in one attempt is logged as "Reduce Error" and the loop goes on.
- `summarize` counts the output entries and logs the translated caption with that total.

**The shipping client script** (`shippingAutoPopulate.js`):
- When the `entity` (customer) field changes, it looks up the customer's default address with a query.
- It writes the address to `shipaddress`.
- It writes a rate derived from the address length (0, 10 or 15) to `custbody_shipping_rate`.
- It logs errors instead of letting them escape to the page.

## Structure

The modules follow the scripts' own model/view/controller split. The NetSuite services are passed in as explicit state or parameters.

- **`Wrappers`**: `Option`, `Result` and `Outcome`.
- **`Json`**: parsed JavaScript values and JSON texts.
  - A text is either the encoding of a value or unparsable. `JSON.parse` is modelled as `Parse` and `JSON.stringify` as `Stringify`.
  - Property reads are modelled as `Field`, with `None` standing for `undefined`.
  - JavaScript truthiness is `Truthy`, characterised by the set `FALSY`.
- **`Logging`**: `N/log` as a `Logger` object whose entry trace grows with every `debug` or `error` call.
- **`Persistence`**: `N/record` as a `Sink` object that records every create/setValue/save call and every committed record. Failures are injected per call.
- **`MapReduceContext`**: the map context (its input text and what it wrote) and the entries of `summary.output`.
- **`Decimal`**: the decimal rendering of the summary total and its inverse.
- **`FinancialModel` and `FinancialController`**: the four entry points.
  - Reduce is specified by pure functions of the parsed values and a fault schedule: `ReduceCalls`, `ReduceCommits` and `ReduceLog`.
  - The imperative `for` loop is proved against those functions.
- **`MapReduceRuntime`**: an explicit stand-in for what the hosted runtime does between the stages.
  - `InputUnits` turns items into JSON texts. `MapPhase` maps each one.
  - `GroupByKey` is a stable group-by-key shuffle: keys in order of first appearance, values in the order they were written.
  - `ReducePhaseCalls` runs reduce per group.
- **`ShippingModel`, `ShippingView` and `ShippingController`**: the client script.
  - The SuiteQL query is a function from the customer id to either the mapped rows or an error.
  - The current record is a `CurrentRecord` object holding a field map and its trace of writes. Its invariant is that the fields equal the initial fields with the writes applied in order.
  - `ChangeWrites` and `ChangeLog` specify a customer change. `HandleCustomerChange` and `FieldChanged` are proved against them.

Where the documented intent and the code disagree, the model follows the code:
- `summarize` counts the entries of `summary.output`, not the attempted items. Reduce never writes output, so in the unmodified runtime that count is 0. `Summarize` therefore takes the output sequence it iterates as input.
- `getDefaultShippingAddress` rejects the empty customer id before any query runs (shippingAutoPopulate.js:40-42). The test at `__tests__/shippingAutoPopulate.test.js:81-89` expects the query to run for `''`. That expectation contradicts the guard and is not modelled; `EmptyCustomerScenario` states what the code does.

## Model

| member | source | states |
|---|---|---|
| Json.Truthy | src/FileCabinet/SuiteApps/com.turing.12345/financialTransformMapReduce.js:34 | a value or `undefined` is truthy exactly when it is not one of undefined, null, false, 0 or the empty string |
| Json.Parse | src/FileCabinet/SuiteApps/com.turing.12345/financialTransformMapReduce.js:79 | `JSON.parse` throws the SyntaxError exactly for text that is not JSON; otherwise it gives the value the text encodes |
| Json.Stringify | src/FileCabinet/SuiteApps/com.turing.12345/financialTransformMapReduce.js:87 | definition; no contract. `JSON.stringify` gives the text encoding the value; its inverse is stated by `ParseStringify` |
| Json.ParseStringify | src/FileCabinet/SuiteApps/com.turing.12345/financialTransformMapReduce.js:87 | parsing the JSON text of a value gives back that value |
| Json.Field | src/FileCabinet/SuiteApps/com.turing.12345/financialTransformMapReduce.js:34 | a property read gives the property's value exactly when the value is an object that has it, and undefined otherwise |
| FinancialModel.ValidateRecord | src/FileCabinet/SuiteApps/com.turing.12345/financialTransformMapReduce.js:33-39 | a record is valid exactly when it is an object whose `transId` and `amount` are both truthy |
| FinancialModel.ValidateRecordCases | src/FileCabinet/SuiteApps/com.turing.12345/financialTransformMapReduce.js:33-39 | a non-empty id with a non-zero amount passes; a zero amount, an empty, null or missing id, a null amount, and a non-object all fail |
| FinancialController.GetInputData | src/FileCabinet/SuiteApps/com.turing.12345/financialTransformMapReduce.js:66-71 | definition; no contract. The fixed batch of three records; what validation makes of it is stated by `InputDataValidation` |
| FinancialController.InputDataValidation | src/FileCabinet/SuiteApps/com.turing.12345/financialTransformMapReduce.js:66-71 | the batch has three records: EXT001 and EXT002 pass validation with their own ids, and the record with a null id fails |
| FinancialController.MapEmission | src/FileCabinet/SuiteApps/com.turing.12345/financialTransformMapReduce.js:78-90 | map throws exactly for unparsable input; for parsed input it emits a pair exactly when the record is valid; the pair's key is the record's truthy `transId` and its value re-parses to the same record |
| FinancialController.MapLog | src/FileCabinet/SuiteApps/com.turing.12345/financialTransformMapReduce.js:85-88 | map logs at most one entry, and logs one exactly when a parsed record is skipped; that entry is "Invalid Record Skipped" with the record's JSON |
| FinancialController.Map | src/FileCabinet/SuiteApps/com.turing.12345/financialTransformMapReduce.js:78-90 | fails with the SyntaxError exactly for unparsable input; otherwise appends the emitted pair to what the context wrote and the skip entry to the log |
| FinancialController.MapScenarios | __tests__/financialTransformMapReduce.test.js:56-77 | the EXT001 record is written under EXT001; the record with a null id is skipped |
| FinancialController.ParseAll | src/FileCabinet/SuiteApps/com.turing.12345/financialTransformMapReduce.js:98 | parsing all values fails (with the SyntaxError) exactly when some value is unparsable; otherwise it yields one value per text, in order |
| FinancialController.AttemptCalls | src/FileCabinet/SuiteApps/com.turing.12345/financialTransformMapReduce.js:101-114 | definition; no contract. The create call, then the calls that `Reached` says the attempt gets to; `AttemptCreatesOnce` states its create count |
| FinancialController.Reached | src/FileCabinet/SuiteApps/com.turing.12345/financialTransformMapReduce.js:106-114 | definition; no contract. None of the three later calls when create throws or the value is null; otherwise up to and including the call that throws |
| FinancialController.AttemptError | src/FileCabinet/SuiteApps/com.turing.12345/financialTransformMapReduce.js:101-117 | definition; no contract. The message of the call that throws, or the TypeError of reading `transId` of null; `AttemptOutcome` relates it to the commit |
| FinancialController.AttemptCommits | src/FileCabinet/SuiteApps/com.turing.12345/financialTransformMapReduce.js:114 | definition; no contract. The expected record exactly when nothing throws; `AttemptOutcome` relates it to the error |
| FinancialController.ReduceCalls | src/FileCabinet/SuiteApps/com.turing.12345/financialTransformMapReduce.js:99-118 | definition; no contract. The calls of the first n attempts, in order; `ReduceRecords` proves the loop against it and `ReduceCreatesOnePerValue` counts its creates |
| FinancialController.ReduceCommits | src/FileCabinet/SuiteApps/com.turing.12345/financialTransformMapReduce.js:99-118 | definition; no contract. The records committed by the first n attempts, in order; proved against the loop by `ReduceRecords`, characterised by `ReduceAllHealthy` and `ReduceSingleFault` |
| FinancialController.ReduceLog | src/FileCabinet/SuiteApps/com.turing.12345/financialTransformMapReduce.js:115-117 | definition; no contract. The "Reduce Error" entries of the first n attempts, in order; proved against the loop by `ReduceRecords` |
| FinancialController.Attempt | src/FileCabinet/SuiteApps/com.turing.12345/financialTransformMapReduce.js:101-114 | one attempt makes the create/set/set/save calls up to the one that throws; it commits the expected record only when nothing throws; it returns the thrown message |
| FinancialController.Catch | src/FileCabinet/SuiteApps/com.turing.12345/financialTransformMapReduce.js:115-117 | a thrown message is logged once as "Reduce Error"; no error means no entry |
| FinancialController.ReduceRecords | src/FileCabinet/SuiteApps/com.turing.12345/financialTransformMapReduce.js:99-118 | after the loop, the calls, the commits and the log are the old ones followed by those of every attempt, in order |
| FinancialController.ReduceStep | src/FileCabinet/SuiteApps/com.turing.12345/financialTransformMapReduce.js:99-118 | the effects of the first i+1 attempts are those of the first i followed by attempt i's |
| FinancialController.Reduce | src/FileCabinet/SuiteApps/com.turing.12345/financialTransformMapReduce.js:97-119 | an unparsable value throws before any record is touched or anything is logged; otherwise every value is attempted, in order |
| FinancialController.AttemptCreatesOnce | src/FileCabinet/SuiteApps/com.turing.12345/financialTransformMapReduce.js:103-105 | every attempt makes exactly one create call, of type `customrecord_financial_data`, whatever fails |
| FinancialController.ReduceCreatesOnePerValue | src/FileCabinet/SuiteApps/com.turing.12345/financialTransformMapReduce.js:99-118 | reduce over N values makes exactly N create calls, whatever the persistence layer does |
| FinancialController.AttemptOutcome | src/FileCabinet/SuiteApps/com.turing.12345/financialTransformMapReduce.js:101-117 | an attempt either commits its expected record and throws nothing, or commits nothing and throws; so it ends in exactly one commit or one logged error |
| FinancialController.ReduceOutcomesBalance | src/FileCabinet/SuiteApps/com.turing.12345/financialTransformMapReduce.js:101-117 | each of the first n attempts ends in exactly one commit or exactly one logged error, and so commits and logged errors together number n |
| FinancialController.ReduceAllHealthy | src/FileCabinet/SuiteApps/com.turing.12345/financialTransformMapReduce.js:99-118 | without failures, each value is committed, in order, with its own id and amount, and nothing is logged |
| FinancialController.ReduceSingleFault | src/FileCabinet/SuiteApps/com.turing.12345/financialTransformMapReduce.js:101-117 | one failing attempt loses only its own record: every other value is committed, in order, and its message is logged once |
| FinancialController.SaveFailureScenario | src/FileCabinet/SuiteApps/com.turing.12345/financialTransformMapReduce.js:114-116 | two values of one key where the second save throws: two creates, the first record committed, one "Reduce Error" entry |
| FinancialController.ReduceTwoValuesScenario | __tests__/financialTransformMapReduce.test.js:84-92 | reduce over the JSON of the EXT001 and EXT002 records makes two create calls |
| FinancialController.SummaryLine | src/FileCabinet/SuiteApps/com.turing.12345/financialTransformMapReduce.js:132-137 | the summary line is the caption, then ': ', then text that reads back as the total |
| FinancialController.Summarize | src/FileCabinet/SuiteApps/com.turing.12345/financialTransformMapReduce.js:126-138 | appends exactly one debug entry "Summary" whose line carries the number of output entries |
| Decimal.NatToString | src/FileCabinet/SuiteApps/com.turing.12345/financialTransformMapReduce.js:136 | a count is rendered as a non-empty string of digits without a leading zero |
| Decimal.ParseNatToString | src/FileCabinet/SuiteApps/com.turing.12345/financialTransformMapReduce.js:136 | reading back the decimal text of n gives n |
| Logging.Logger.Debug | src/FileCabinet/SuiteApps/com.turing.12345/financialTransformMapReduce.js:52-54 | a debug call appends one entry with its title and details |
| Logging.Logger.Error | src/FileCabinet/SuiteApps/com.turing.12345/shippingAutoPopulate.js:124-127 | an error call appends one entry with its title and details |
| Persistence.Sink.Create | src/FileCabinet/SuiteApps/com.turing.12345/financialTransformMapReduce.js:103-105 | records the call; returns a fresh empty record exactly when the create does not throw |
| Persistence.Sink.SetValue | src/FileCabinet/SuiteApps/com.turing.12345/financialTransformMapReduce.js:106-113 | records the call; sets the field exactly when it does not throw |
| Persistence.Sink.Save | src/FileCabinet/SuiteApps/com.turing.12345/financialTransformMapReduce.js:114 | records the call; commits a snapshot of the record exactly when it does not throw |
| MapReduceContext.MapContext.Write | src/FileCabinet/SuiteApps/com.turing.12345/financialTransformMapReduce.js:81-84 | a write appends one pair whose value is the record's JSON |
| MapReduceRuntime.InputUnits | src/FileCabinet/SuiteApps/com.turing.12345/financialTransformMapReduce.js:79 | map receives, one by one and in order, the JSON text of each item |
| MapReduceRuntime.MapPhase | src/FileCabinet/SuiteApps/com.turing.12345/financialTransformMapReduce.js:78-90 | definition; no contract. Every unit mapped in order, the first throwing map ending the stage; characterised by `MapPhaseSpec` |
| MapReduceRuntime.MapPhaseLog | src/FileCabinet/SuiteApps/com.turing.12345/financialTransformMapReduce.js:85-88 | definition; no contract. The skip entries of every unit, in order; bounded by `MapPhaseSpec` |
| MapReduceRuntime.MapPhaseSpec | src/FileCabinet/SuiteApps/com.turing.12345/financialTransformMapReduce.js:78-90 | the map stage fails exactly when some input is unparsable; otherwise each input yields one pair or one skip entry, and every pair is a valid record under its own id |
| MapReduceRuntime.KeysSnoc | src/FileCabinet/SuiteApps/com.turing.12345/financialTransformMapReduce.js:81-84 | writing one more pair appends its key to the key order exactly when the key is new, so keys stay in order of first appearance |
| MapReduceRuntime.GroupByKey | src/FileCabinet/SuiteApps/com.turing.12345/financialTransformMapReduce.js:81-84 | the groups follow the keys in order of first appearance, which are distinct; their keys are exactly the written keys; each group holds its key's values in write order; only written pairs appear; no value is lost or duplicated |
| MapReduceRuntime.GroupTwo | src/FileCabinet/SuiteApps/com.turing.12345/financialTransformMapReduce.js:98 | two pairs with different keys give two singleton groups in order; with one key, both values land in one group in write order |
| MapReduceRuntime.MapTwo | src/FileCabinet/SuiteApps/com.turing.12345/financialTransformMapReduce.js:78-90 | mapping two items writes the first item's pair, then the second's, and logs in the same order |
| MapReduceRuntime.RecordEmission | src/FileCabinet/SuiteApps/com.turing.12345/financialTransformMapReduce.js:80-84 | a record with a non-empty id and a non-zero amount is written under its id as its own JSON |
| MapReduceRuntime.ReducePhaseCalls | src/FileCabinet/SuiteApps/com.turing.12345/financialTransformMapReduce.js:97-119 | definition; no contract. Each group's reduce calls, in group order; counted by `ReducePhaseCreates` |
| MapReduceRuntime.ReducePhaseCreates | src/FileCabinet/SuiteApps/com.turing.12345/financialTransformMapReduce.js:97-119 | when every grouped value parses, the reduce stage makes one create call per value across all groups |
| MapReduceRuntime.EndToEndCreates | src/FileCabinet/SuiteApps/com.turing.12345/financialTransformMapReduce.js:66-119 | for any items, each item yields a pair or a skip, and reduce creates exactly one record per written pair, even for shared keys and whatever persistence does |
| MapReduceRuntime.InputBatchMap | src/FileCabinet/SuiteApps/com.turing.12345/financialTransformMapReduce.js:66-90 | the fixed batch writes EXT001 and EXT002 and logs one skip for the record with a null id |
| MapReduceRuntime.InputBatchReduce | src/FileCabinet/SuiteApps/com.turing.12345/financialTransformMapReduce.js:97-119 | those two pairs form two singleton groups, and reduce over them makes two create calls |
| MapReduceRuntime.SharedKeyScenario | src/FileCabinet/SuiteApps/com.turing.12345/financialTransformMapReduce.js:81-84 | two records sharing EXT001 are both written and form one group holding both, in order |
| ShippingModel.GetDefaultShippingAddress | src/FileCabinet/SuiteApps/com.turing.12345/shippingAutoPopulate.js:39-58 | fails with INVALID_CUSTOMER_ID exactly for a falsy id; fails with QUERY_FAILED exactly when the query for a truthy id throws; otherwise gives the first row's `defaultaddress` (undefined if absent), or '' when there are no rows |
| ShippingModel.InvalidIdIgnoresQuery | src/FileCabinet/SuiteApps/com.turing.12345/shippingAutoPopulate.js:40-42 | for a falsy id the result is INVALID_CUSTOMER_ID, the same whatever the query would answer |
| ShippingModel.AddressDependsOnlyOnCustomer | src/FileCabinet/SuiteApps/com.turing.12345/shippingAutoPopulate.js:43-57 | the result depends on the query only through its answer for this customer |
| ShippingModel.JsLength | src/FileCabinet/SuiteApps/com.turing.12345/shippingAutoPopulate.js:68 | definition; no contract. `address.length` of a string, an array or an object with a numeric `length`, undefined otherwise; `CalculateShippingRate` states its use |
| ShippingModel.CalculateShippingRate | src/FileCabinet/SuiteApps/com.turing.12345/shippingAutoPopulate.js:65-69 | the rate is 0, 10 or 15; it is 0 exactly for a falsy address; it is 15 exactly when a truthy address has a length above 20 |
| ShippingModel.StringRate | src/FileCabinet/SuiteApps/com.turing.12345/shippingAutoPopulate.js:66-68 | a non-empty string address costs 15 when longer than 20 characters and 10 otherwise |
| ShippingModel.RateMonotone | src/FileCabinet/SuiteApps/com.turing.12345/shippingAutoPopulate.js:66-68 | a longer string address never costs less |
| ShippingModel.RateExamples | __tests__/shippingAutoPopulate.test.js:111-143 | 'Short' and '123 Main St' cost 10, 'A very very long address' costs 15, and an empty or absent address costs 0 |
| ShippingView.CurrentRecord.GetValue | src/FileCabinet/SuiteApps/com.turing.12345/shippingAutoPopulate.js:164-166 | reading a field gives its value, or undefined exactly when the record lacks it |
| ShippingView.CurrentRecord.SetValue | src/FileCabinet/SuiteApps/com.turing.12345/shippingAutoPopulate.js:84-87 | a write sets exactly one field and is appended to the write trace; the fields stay equal to the initial fields with the trace applied |
| ShippingView.Apply | src/FileCabinet/SuiteApps/com.turing.12345/shippingAutoPopulate.js:84-87 | definition; no contract. The fields after a sequence of `setValue` writes, the last write to a field winning; stated by `ApplyAppend` and `ApplyUntouched` |
| ShippingView.ApplyAppend | src/FileCabinet/SuiteApps/com.turing.12345/shippingAutoPopulate.js:118-122 | applying two write sequences one after the other is applying their concatenation |
| ShippingView.ApplyUntouched | src/FileCabinet/SuiteApps/com.turing.12345/shippingAutoPopulate.js:82-103 | writes that never name a field leave its presence and value as they were |
| ShippingView.AddressWrites | src/FileCabinet/SuiteApps/com.turing.12345/shippingAutoPopulate.js:83 | the address is written exactly when it is neither null nor undefined (an empty string is written), and only to 'shipaddress' |
| ShippingView.RateWrites | src/FileCabinet/SuiteApps/com.turing.12345/shippingAutoPopulate.js:97 | the rate is written exactly when it is a number, and only to 'custbody_shipping_rate' |
| ShippingView.SetShippingAddress | src/FileCabinet/SuiteApps/com.turing.12345/shippingAutoPopulate.js:82-89 | with a record, performs exactly the address write and nothing else; without one, does nothing |
| ShippingView.SetShippingRate | src/FileCabinet/SuiteApps/com.turing.12345/shippingAutoPopulate.js:96-103 | with a record, performs exactly the rate write and nothing else; without one, does nothing |
| ShippingController.ChangeWrites | src/FileCabinet/SuiteApps/com.turing.12345/shippingAutoPopulate.js:116-122 | at most two writes, only to the shipping address and rate; there are writes exactly when the lookup succeeds, and then the last one is the rate of the looked-up address |
| ShippingController.ChangeLog | src/FileCabinet/SuiteApps/com.turing.12345/shippingAutoPopulate.js:123-128 | at most one entry; one exactly when the lookup throws, and it is "Customer Change Error" with the thrown message |
| ShippingController.HandleCustomerChange | src/FileCabinet/SuiteApps/com.turing.12345/shippingAutoPopulate.js:116-129 | the record receives exactly the customer change's writes, and the log receives exactly its error entry |
| ShippingController.FieldChanged | src/FileCabinet/SuiteApps/com.turing.12345/shippingAutoPopulate.js:160-177 | a field other than 'entity' changes nothing; for 'entity' without a record, one "fieldChanged Error" entry codes the TypeError; otherwise the customer change runs with the record's 'entity' value |
| ShippingController.ChangeSucceeds | src/FileCabinet/SuiteApps/com.turing.12345/shippingAutoPopulate.js:118-122 | a successful lookup of a present address makes exactly two writes, the address and then that address's rate, and logs nothing |
| ShippingController.ChangeFails | src/FileCabinet/SuiteApps/com.turing.12345/shippingAutoPopulate.js:123-128 | a lookup that throws writes nothing and logs "Customer Change Error" with its message once |
| ShippingController.RateFollowsAddress | src/FileCabinet/SuiteApps/com.turing.12345/shippingAutoPopulate.js:120-122 | after any successful lookup, the rate field holds the rate of the looked-up address, even when the address itself was not written |
| ShippingController.ChangeTouchesOnlyShipping | src/FileCabinet/SuiteApps/com.turing.12345/shippingAutoPopulate.js:116-122 | a customer change leaves every field other than the shipping address and rate as it was |
| ShippingController.ValidCustomerScenario | __tests__/shippingAutoPopulate.test.js:65-74 | customer '100' at '123 Main St' gets exactly two writes: that address and the rate 10 |
| ShippingController.RateScenarios | __tests__/shippingAutoPopulate.test.js:111-143 | customer '123' at 'Short' is charged 10; at 'A very very long address', 15 |
| ShippingController.EmptyCustomerScenario | src/FileCabinet/SuiteApps/com.turing.12345/shippingAutoPopulate.js:40-42 | an empty customer id writes nothing and logs INVALID_CUSTOMER_ID, whatever the query would answer |

## Left out

- JSON syntax: texts are an abstraction that either encodes a value or is unparsable. The text of the SyntaxError is represented by one constant.
- Numbers are reals: the model has no NaN, no infinities and no floating-point rounding. `-0` is the same as `0`, and both are falsy, as in JavaScript.
- Strings are sequences of Unicode scalar values. A JavaScript `length` counts UTF-16 code units, so the model's length differs from it for characters outside the Basic Multilingual Plane.
- ShippingModel.CalculateShippingRate: `length` is taken from strings, arrays and an object's own numeric `length` property. A non-numeric `length` that JavaScript would coerce in `> 20` is treated as having no length.
- The SuiteQL text built from the customer id (shippingAutoPopulate.js:43-47) and the query engine are not modelled. The query is a function of the id, so a malformed id is not distinguished from any other answer.
- `asMappedResults()` cannot throw in the model, and it always gives an array. So the `results &&` test at shippingAutoPopulate.js:55 always holds.
- `N/translation`: the summary caption is passed to `Summarize` already resolved to text.
- Asynchrony: `record.create.promise`, `save.promise`, the query promise and the `async` entry points are modelled as sequential calls. How the hosted runtime awaits (or does not await) a reduce that returns a promise is outside the model.
- The map/reduce runtime: `getInputData`'s array is serialised item by item. Keys keep their parsed value rather than being coerced to strings. A map that throws ends the map stage, the first error winning. The fault schedule per key and per attempt stands in for the persistence layer's behaviour. Retries, concurrency, governance limits and `summary.output` being fed by reduce are not modelled.
- What the record API does with the values it is given (type checks, field validation) is not modelled. `setValue` on the current record never throws, and `setValue` on a new record throws only when its fault says so.
- The form's own reactions to a write (field sourcing, other client scripts firing `fieldChanged` again) are outside the model; the record changes only through the script's own writes.
- `pageInit` is not part of this model: it only logs a translated label.
- `file-task.js` is not part of this model.
- `financialView.logResults` is modelled as the `Logging.Logger.Debug` call it makes.
- The `context` object of `fieldChanged` is split into its record (possibly absent) and field id. A missing `context` itself is not modelled.
