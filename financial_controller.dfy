/**
 * `financialController`: the four entry points of the map/reduce script.
 * The runtime's context objects, the persistence layer and the log are
 * passed in explicitly.
 */
module FinancialController {
  import opened Wrappers
  import opened Json
  import opened Logging
  import opened Persistence
  import opened MapReduceContext
  import opened FinancialModel
  import Decimal

  const INVALID_RECORD_SKIPPED: string := "Invalid Record Skipped"
  const REDUCE_ERROR: string := "Reduce Error"
  const SUMMARY: string := "Summary"
  const FINANCIAL_DATA: string := "customrecord_financial_data"
  const EXT_TRANS_ID: string := "custrecord_ext_trans_id"
  const AMOUNT: string := "custrecord_amount"
  /** The TypeError message of reading `transId` of a record that parsed to null. */
  const NULL_PROPERTY_READ: string := "Cannot read properties of null (reading 'transId')"

  // ---------------------------------------------------------------- getInputData

  /** `getInputData()`: the fixed batch of three raw records. */
  function GetInputData(): seq<Value>
  {
    [Record(Str("EXT001"), Num(100.5)), Record(Str("EXT002"), Num(200.0)), Record(Null, Num(300.0))]
  }

  lemma InputDataValidation()
    ensures |GetInputData()| == 3
    ensures ValidateRecord(GetInputData()[0]) && Field(GetInputData()[0], "transId") == Some(Str("EXT001"))
    ensures ValidateRecord(GetInputData()[1]) && Field(GetInputData()[1], "transId") == Some(Str("EXT002"))
    ensures !ValidateRecord(GetInputData()[2])
  {
  }

  // ------------------------------------------------------------------------- map

  /** What one map invocation produces from its input text: the SyntaxError of
      an unparsable text, one pair for a valid record, nothing for an invalid one. */
  function MapEmission(t: Text): (r: Result<Option<Pair>, string>)
    ensures r.Failure? <==> t.Unparsable?
    ensures t.Encoded? ==> r.Success? && (r.value.Some? <==> ValidateRecord(t.v))
    ensures r.Success? && r.value.Some? ==>
      && Truthy(Some(r.value.value.key))
      && Parse(r.value.value.value) == Parse(t)
      && Field(t.v, "transId") == Some(r.value.value.key)
  {
    match Parse(t)
    case Failure(e) => Failure(e)
    case Success(v) =>
      if ValidateRecord(v) then Success(Some(Pair(Field(v, "transId").value, Stringify(v))))
      else Success(None)
  }

  /** The pairs a map emission writes. */
  function Emitted(r: Result<Option<Pair>, string>): seq<Pair>
  {
    if r.Success? && r.value.Some? then [r.value.value] else []
  }

  /** The entries one map invocation logs: one skip entry for an invalid record. */
  function MapLog(t: Text): (entries: seq<Entry>)
    ensures |entries| <= 1
    ensures |entries| == 1 <==> MapEmission(t) == Success(None)
    ensures |entries| == 1 ==> entries[0] == Entry(Level.Debug, INVALID_RECORD_SKIPPED, Payload(t))
  {
    match Parse(t)
    case Failure(_) => []
    case Success(v) =>
      if ValidateRecord(v) then [] else [Entry(Level.Debug, INVALID_RECORD_SKIPPED, Payload(Stringify(v)))]
  }

  /** `map(context)`. Its effect depends on `context.value` alone. */
  method Map(context: MapContext, log: Logger) returns (outcome: Outcome<string>)
    modifies context, log
    ensures outcome == if context.value.Unparsable? then Fail(SYNTAX_ERROR) else Pass
    ensures context.written == old(context.written) + Emitted(MapEmission(context.value))
    ensures log.entries == old(log.entries) + MapLog(context.value)
  {
    var parsed := Parse(context.value);
    if parsed.Failure? {
      return Fail(parsed.error);
    }
    var value := parsed.value;
    if ValidateRecord(value) {
      context.Write(Field(value, "transId").value, value);
    } else {
      log.Debug(INVALID_RECORD_SKIPPED, Payload(Stringify(value)));
    }
    return Pass;
  }

  // ---------------------------------------------------------------------- reduce

  /** `context.values.map(JSON.parse)`: all values parsed, or the first SyntaxError. */
  function ParseAll(values: seq<Text>): (r: Result<seq<Value>, string>)
    ensures r.Failure? <==> exists i :: 0 <= i < |values| && values[i].Unparsable?
    ensures r.Failure? ==> r.error == SYNTAX_ERROR
    ensures r.Success? ==>
      |r.value| == |values| && forall i :: 0 <= i < |values| ==> values[i] == Encoded(r.value[i])
  {
    if values == [] then Success([])
    else
      match Parse(values[0])
      case Failure(e) => Failure(e)
      case Success(v) =>
        match ParseAll(values[1..])
        case Failure(e) => Failure(e)
        case Success(vs) => Success([v] + vs)
  }

  /** The record a fault-free attempt saves for one value. */
  function Expected(rec: Value): Persisted
  {
    Persisted(FINANCIAL_DATA, map[EXT_TRANS_ID := Field(rec, "transId"), AMOUNT := Field(rec, "amount")])
  }

  function CreateFailure(f: Fault): Option<string>
  {
    if f.FailCreate? then Some(f.message) else None
  }

  function SetTransIdFailure(f: Fault): Option<string>
  {
    if f.FailSetTransId? then Some(f.message) else None
  }

  function SetAmountFailure(f: Fault): Option<string>
  {
    if f.FailSetAmount? then Some(f.message) else None
  }

  function SaveFailure(f: Fault): Option<string>
  {
    if f.FailSave? then Some(f.message) else None
  }

  /** The calls one attempt makes: create, set the id, set the amount, save,
      cut short at the call that throws. */
  function AttemptCalls(rec: Value, f: Fault): seq<Call>
  {
    [Call.Create(FINANCIAL_DATA)] + AfterCreate(rec, f)
  }

  /** The calls an attempt makes after its create call. */
  function AfterCreate(rec: Value, f: Fault): seq<Call>
  {
    var all := [Call.SetValue(EXT_TRANS_ID, Field(rec, "transId")), Call.SetValue(AMOUNT, Field(rec, "amount")), Call.Save];
    all[..Reached(rec, f)]
  }

  /** How many of the three calls after create an attempt reaches: none when
      create throws or the value is null, up to and including the call that throws. */
  function Reached(rec: Value, f: Fault): nat
  {
    if f.FailCreate? || rec.Null? then 0
    else if f.FailSetTransId? then 1
    else if f.FailSetAmount? then 2
    else 3
  }

  /** The message an attempt throws, if any. */
  function AttemptError(rec: Value, f: Fault): Option<string>
  {
    if f.FailCreate? then Some(f.message)
    else if rec.Null? then Some(NULL_PROPERTY_READ)
    else if f.Healthy? then None
    else Some(f.message)
  }

  /** What an attempt commits: the expected record exactly when nothing throws. */
  function AttemptCommits(rec: Value, f: Fault): seq<Persisted>
  {
    if f.Healthy? && !rec.Null? then [Expected(rec)] else []
  }

  function ErrorLog(error: Option<string>): seq<Entry>
  {
    if error.Some? then [Entry(Level.Debug, REDUCE_ERROR, Message(error.value))] else []
  }

  /** The calls of the first `n` attempts, in order. */
  function ReduceCalls(recs: seq<Value>, faults: nat -> Fault, n: nat): seq<Call>
    requires n <= |recs|
  {
    if n == 0 then [] else ReduceCalls(recs, faults, n - 1) + AttemptCalls(recs[n - 1], faults(n - 1))
  }

  /** The records committed by the first `n` attempts, in order. */
  function ReduceCommits(recs: seq<Value>, faults: nat -> Fault, n: nat): seq<Persisted>
    requires n <= |recs|
  {
    if n == 0 then [] else ReduceCommits(recs, faults, n - 1) + AttemptCommits(recs[n - 1], faults(n - 1))
  }

  /** The 'Reduce Error' entries logged by the first `n` attempts, in order. */
  function ReduceLog(recs: seq<Value>, faults: nat -> Fault, n: nat): seq<Entry>
    requires n <= |recs|
  {
    if n == 0 then [] else ReduceLog(recs, faults, n - 1) + ErrorLog(AttemptError(recs[n - 1], faults(n - 1)))
  }

  /** The body of the `try` block for one value. */
  method Attempt(rec: Value, fault: Fault, sink: Sink) returns (error: Option<string>)
    modifies sink
    ensures sink.calls == old(sink.calls) + AttemptCalls(rec, fault)
    ensures sink.committed == old(sink.committed) + AttemptCommits(rec, fault)
    ensures error == AttemptError(rec, fault)
  {
    var newRec := sink.Create(FINANCIAL_DATA, CreateFailure(fault));
    if newRec == null {
      return Some(fault.message);
    }
    if rec.Null? {
      return Some(NULL_PROPERTY_READ);
    }
    error := sink.SetValue(newRec, EXT_TRANS_ID, Field(rec, "transId"), SetTransIdFailure(fault));
    if error.Some? {
      return;
    }
    error := sink.SetValue(newRec, AMOUNT, Field(rec, "amount"), SetAmountFailure(fault));
    if error.Some? {
      return;
    }
    error := sink.Save(newRec, SaveFailure(fault));
  }

  /** `reduce(context)` for one key's values; `faults(i)` decides how the
      persistence layer treats the i-th attempt. A parse failure throws before
      any record is created; a failure inside an attempt is logged and the
      next value is still attempted. */
  method Reduce(values: seq<Text>, faults: nat -> Fault, sink: Sink, log: Logger)
    returns (outcome: Outcome<string>)
    modifies sink, log
    ensures ParseAll(values).Failure? ==>
      && outcome == Fail(SYNTAX_ERROR)
      && sink.calls == old(sink.calls) && sink.committed == old(sink.committed)
      && log.entries == old(log.entries)
    ensures ParseAll(values).Success? ==>
      var recs := ParseAll(values).value;
      && outcome == Pass
      && sink.calls == old(sink.calls) + ReduceCalls(recs, faults, |recs|)
      && sink.committed == old(sink.committed) + ReduceCommits(recs, faults, |recs|)
      && log.entries == old(log.entries) + ReduceLog(recs, faults, |recs|)
  {
    var parsed := ParseAll(values);
    if parsed.Failure? {
      return Fail(parsed.error);
    }
    ReduceRecords(parsed.value, faults, sink, log);
    return Pass;
  }

  /** The `catch` block: logs the message of what the attempt threw. */
  method Catch(error: Option<string>, log: Logger)
    modifies log
    ensures log.entries == old(log.entries) + ErrorLog(error)
  {
    if error.Some? {
      log.Debug(REDUCE_ERROR, Message(error.value));
    }
  }

  /** The `for` loop of `reduce` over the parsed values. */
  method ReduceRecords(recordsArray: seq<Value>, faults: nat -> Fault, sink: Sink, log: Logger)
    modifies sink, log
    ensures sink.calls == old(sink.calls) + ReduceCalls(recordsArray, faults, |recordsArray|)
    ensures sink.committed == old(sink.committed) + ReduceCommits(recordsArray, faults, |recordsArray|)
    ensures log.entries == old(log.entries) + ReduceLog(recordsArray, faults, |recordsArray|)
  {
    for i := 0 to |recordsArray|
      invariant sink.calls == old(sink.calls) + ReduceCalls(recordsArray, faults, i)
      invariant sink.committed == old(sink.committed) + ReduceCommits(recordsArray, faults, i)
      invariant log.entries == old(log.entries) + ReduceLog(recordsArray, faults, i)
    {
      var error := Attempt(recordsArray[i], faults(i), sink);
      Catch(error, log);
      ReduceStep(recordsArray, faults, i);
      AppendAssoc(old(sink.calls), ReduceCalls(recordsArray, faults, i), AttemptCalls(recordsArray[i], faults(i)));
      AppendAssoc(old(sink.committed), ReduceCommits(recordsArray, faults, i), AttemptCommits(recordsArray[i], faults(i)));
      AppendAssoc(old(log.entries), ReduceLog(recordsArray, faults, i), ErrorLog(AttemptError(recordsArray[i], faults(i))));
    }
  }

  lemma AppendAssoc<T>(a: seq<T>, b: seq<T>, c: seq<T>)
    ensures a + (b + c) == (a + b) + c
  {
  }

  /** The effects of the first i + 1 attempts extend those of the first i. */
  lemma ReduceStep(recs: seq<Value>, faults: nat -> Fault, i: nat)
    requires i < |recs|
    ensures ReduceCalls(recs, faults, i + 1) == ReduceCalls(recs, faults, i) + AttemptCalls(recs[i], faults(i))
    ensures ReduceCommits(recs, faults, i + 1) == ReduceCommits(recs, faults, i) + AttemptCommits(recs[i], faults(i))
    ensures ReduceLog(recs, faults, i + 1) == ReduceLog(recs, faults, i) + ErrorLog(AttemptError(recs[i], faults(i)))
  {
  }

  // --------------------------------------------------------- properties of reduce

  function CountCreates(calls: seq<Call>): nat
  {
    if calls == [] then 0 else (if calls[0].Create? then 1 else 0) + CountCreates(calls[1..])
  }

  lemma {:induction false} CountCreatesAppend(a: seq<Call>, b: seq<Call>)
    ensures CountCreates(a + b) == CountCreates(a) + CountCreates(b)
  {
    if a != [] {
      assert (a + b)[1..] == a[1..] + b;
      CountCreatesAppend(a[1..], b);
    } else {
      assert a + b == b;
    }
  }

  lemma {:induction false} CountCreatesNone(calls: seq<Call>)
    requires forall i :: 0 <= i < |calls| ==> !calls[i].Create?
    ensures CountCreates(calls) == 0
  {
    if calls != [] {
      CountCreatesNone(calls[1..]);
    }
  }

  /** Every attempt, whatever it meets, makes exactly one create call, of the
      financial-data record type. */
  lemma AttemptCreatesOnce(rec: Value, f: Fault)
    ensures CountCreates(AttemptCalls(rec, f)) == 1
    ensures forall c :: c in AttemptCalls(rec, f) && c.Create? ==> c.recordType == FINANCIAL_DATA
  {
    var calls := AttemptCalls(rec, f);
    assert calls[1..] == AfterCreate(rec, f);
    CountCreatesNone(AfterCreate(rec, f));
  }

  /** Reduce over N parsed values makes exactly N create attempts, whatever
      the persistence layer does. */
  lemma {:induction false} ReduceCreatesOnePerValue(recs: seq<Value>, faults: nat -> Fault, n: nat)
    requires n <= |recs|
    ensures CountCreates(ReduceCalls(recs, faults, n)) == n
  {
    if n > 0 {
      ReduceCreatesOnePerValue(recs, faults, n - 1);
      CountCreatesAppend(ReduceCalls(recs, faults, n - 1), AttemptCalls(recs[n - 1], faults(n - 1)));
      AttemptCreatesOnce(recs[n - 1], faults(n - 1));
    }
  }

  /** One attempt either commits its expected record and throws nothing, or
      commits nothing and throws: exactly one commit or one logged error. */
  lemma AttemptOutcome(rec: Value, f: Fault)
    ensures || (AttemptCommits(rec, f) == [Expected(rec)] && AttemptError(rec, f).None?)
            || (AttemptCommits(rec, f) == [] && AttemptError(rec, f).Some?)
    ensures |AttemptCommits(rec, f)| + |ErrorLog(AttemptError(rec, f))| == 1
  {
  }

  /** Fault isolation: every one of the first n attempts ends in exactly one
      commit or exactly one logged error, so together they number n. */
  lemma {:induction false} ReduceOutcomesBalance(recs: seq<Value>, faults: nat -> Fault, n: nat)
    requires n <= |recs|
    ensures forall i :: 0 <= i < n ==>
      |AttemptCommits(recs[i], faults(i))| + |ErrorLog(AttemptError(recs[i], faults(i)))| == 1
    ensures |ReduceCommits(recs, faults, n)| + |ReduceLog(recs, faults, n)| == n
  {
    forall i | 0 <= i < n
      ensures |AttemptCommits(recs[i], faults(i))| + |ErrorLog(AttemptError(recs[i], faults(i)))| == 1
    {
      AttemptOutcome(recs[i], faults(i));
    }
    if n > 0 {
      ReduceOutcomesBalance(recs, faults, n - 1);
    }
  }

  /** The records the first n values would commit if nothing failed. */
  function HealthyCommits(recs: seq<Value>, n: nat): seq<Persisted>
    requires n <= |recs|
  {
    if n == 0 then [] else HealthyCommits(recs, n - 1) + [Expected(recs[n - 1])]
  }

  lemma {:induction false} HealthyCommitsIndex(recs: seq<Value>, n: nat)
    requires n <= |recs|
    ensures |HealthyCommits(recs, n)| == n
    ensures forall i :: 0 <= i < n ==> HealthyCommits(recs, n)[i] == Expected(recs[i])
  {
    if n > 0 {
      HealthyCommitsIndex(recs, n - 1);
    }
  }

  lemma {:induction false} ReduceHealthyCommits(recs: seq<Value>, faults: nat -> Fault, n: nat)
    requires n <= |recs|
    requires forall i :: 0 <= i < n ==> faults(i) == Healthy && !recs[i].Null?
    ensures ReduceCommits(recs, faults, n) == HealthyCommits(recs, n)
  {
    if n > 0 {
      ReduceHealthyCommits(recs, faults, n - 1);
      assert faults(n - 1) == Healthy && !recs[n - 1].Null?;
    }
  }

  lemma {:induction false} ReduceHealthyLog(recs: seq<Value>, faults: nat -> Fault, n: nat)
    requires n <= |recs|
    requires forall i :: 0 <= i < n ==> faults(i) == Healthy && !recs[i].Null?
    ensures ReduceLog(recs, faults, n) == []
  {
    if n > 0 {
      ReduceHealthyLog(recs, faults, n - 1);
      assert faults(n - 1) == Healthy && !recs[n - 1].Null?;
      assert AttemptError(recs[n - 1], faults(n - 1)) == None;
    }
  }

  /** When the first n attempts meet no failure, each of those values is
      committed with its own id and amount, in order, and nothing is logged. */
  lemma {:induction false} ReduceAllHealthy(recs: seq<Value>, faults: nat -> Fault, n: nat)
    requires n <= |recs|
    requires forall i :: 0 <= i < n ==> faults(i) == Healthy && !recs[i].Null?
    ensures |ReduceCommits(recs, faults, n)| == n
    ensures forall i :: 0 <= i < n ==> ReduceCommits(recs, faults, n)[i] == Expected(recs[i])
    ensures ReduceLog(recs, faults, n) == []
  {
    ReduceHealthyCommits(recs, faults, n);
    ReduceHealthyLog(recs, faults, n);
    HealthyCommitsIndex(recs, n);
  }

  lemma {:induction false} SingleFaultCommits(recs: seq<Value>, faults: nat -> Fault, j: nat, n: nat)
    requires j < n <= |recs|
    requires forall i :: 0 <= i < n ==> !recs[i].Null?
    requires forall i :: 0 <= i < n && i != j ==> faults(i) == Healthy
    requires faults(j) != Healthy
    ensures |ReduceCommits(recs, faults, n)| == n - 1
    ensures forall i :: 0 <= i < n - 1 ==>
      ReduceCommits(recs, faults, n)[i] == Expected(recs[if i < j then i else i + 1])
  {
    if n == j + 1 {
      ReduceHealthyCommits(recs, faults, j);
      HealthyCommitsIndex(recs, j);
      assert AttemptCommits(recs[j], faults(j)) == [];
      assert ReduceCommits(recs, faults, n) == ReduceCommits(recs, faults, j) + [];
    } else {
      SingleFaultCommits(recs, faults, j, n - 1);
      assert faults(n - 1) == Healthy && !recs[n - 1].Null?;
    }
  }

  lemma {:induction false} SingleFaultLog(recs: seq<Value>, faults: nat -> Fault, j: nat, n: nat)
    requires j < n <= |recs|
    requires forall i :: 0 <= i < n ==> !recs[i].Null?
    requires forall i :: 0 <= i < n && i != j ==> faults(i) == Healthy
    requires faults(j) != Healthy
    ensures ReduceLog(recs, faults, n) == [Entry(Level.Debug, REDUCE_ERROR, Message(faults(j).message))]
  {
    if n == j + 1 {
      ReduceHealthyLog(recs, faults, j);
      assert AttemptError(recs[j], faults(j)) == Some(faults(j).message);
    } else {
      SingleFaultLog(recs, faults, j, n - 1);
      assert faults(n - 1) == Healthy && !recs[n - 1].Null?;
      assert AttemptError(recs[n - 1], faults(n - 1)) == None;
    }
  }

  /** One failing attempt (at index j) costs only its own record: every other
      value is still committed, in order, and one error is logged. */
  lemma {:induction false} ReduceSingleFault(recs: seq<Value>, faults: nat -> Fault, j: nat, n: nat)
    requires j < n <= |recs|
    requires forall i :: 0 <= i < n ==> !recs[i].Null?
    requires forall i :: 0 <= i < n && i != j ==> faults(i) == Healthy
    requires faults(j) != Healthy
    ensures |ReduceCommits(recs, faults, n)| == n - 1
    ensures forall i :: 0 <= i < n - 1 ==>
      ReduceCommits(recs, faults, n)[i] == Expected(recs[if i < j then i else i + 1])
    ensures ReduceLog(recs, faults, n) == [Entry(Level.Debug, REDUCE_ERROR, Message(faults(j).message))]
  {
    SingleFaultCommits(recs, faults, j, n);
    SingleFaultLog(recs, faults, j, n);
  }

  /** Two records for one key; saving the second throws. */
  lemma SaveFailureScenario(faults: nat -> Fault)
    requires faults(0) == Healthy && faults(1) == FailSave("save failed")
    ensures var recs := [Record(Str("EXT001"), Num(100.5)), Record(Str("EXT001"), Num(50.0))];
      && CountCreates(ReduceCalls(recs, faults, 2)) == 2
      && ReduceCommits(recs, faults, 2) == [Persisted(FINANCIAL_DATA,
           map[EXT_TRANS_ID := Some(Str("EXT001")), AMOUNT := Some(Num(100.5))])]
      && ReduceLog(recs, faults, 2) == [Entry(Level.Debug, REDUCE_ERROR, Message("save failed"))]
  {
    var recs := [Record(Str("EXT001"), Num(100.5)), Record(Str("EXT001"), Num(50.0))];
    ReduceCreatesOnePerValue(recs, faults, 2);
  }

  /** The map examples: a record with id EXT001 is written under that id,
      one whose id is null is skipped. */
  lemma MapScenarios()
    ensures MapEmission(Stringify(Record(Str("EXT001"), Num(100.5)))) ==
      Success(Some(Pair(Str("EXT001"), Stringify(Record(Str("EXT001"), Num(100.5))))))
    ensures MapEmission(Stringify(Record(Null, Num(100.5)))) == Success(None)
  {
    var good := Record(Str("EXT001"), Num(100.5));
    assert Field(good, "transId") == Some(Str("EXT001"));
    assert Field(good, "amount") == Some(Num(100.5));
    assert Field(Record(Null, Num(100.5)), "transId") == Some(Null);
  }

  /** Reduce over the JSON texts of two records creates two records, whatever
      the persistence layer does. */
  lemma ReduceTwoValuesScenario(faults: nat -> Fault)
    ensures var values := [Stringify(Record(Str("EXT001"), Num(100.5))), Stringify(Record(Str("EXT002"), Num(200.0)))];
      && ParseAll(values).Success?
      && |ParseAll(values).value| == 2
      && CountCreates(ReduceCalls(ParseAll(values).value, faults, 2)) == 2
  {
    var values := [Stringify(Record(Str("EXT001"), Num(100.5))), Stringify(Record(Str("EXT002"), Num(200.0)))];
    assert values[0].Encoded? && values[1].Encoded?;
    ReduceCreatesOnePerValue(ParseAll(values).value, faults, 2);
  }

  // ------------------------------------------------------------------- summarize

  /** The summary line: the resolved caption, ': ', and the total in decimal. */
  function SummaryLine(caption: string, total: nat): (line: string)
    ensures |line| > |caption| + 2 && line[..|caption| + 2] == caption + ": "
    ensures Decimal.ParseDecimal(line[|caption| + 2..]) == Some(total)
  {
    Decimal.ParseNatToString(total);
    assert (caption + ": " + Decimal.NatToString(total))[|caption| + 2..] == Decimal.NatToString(total);
    caption + ": " + Decimal.NatToString(total)
  }

  /** `summarize(summary)`: counts the entries `summary.output` yields and logs
      the summary line. `caption` is what the translation lookup resolved to. */
  method Summarize(output: seq<OutputEntry>, caption: string, log: Logger)
    modifies log
    ensures log.entries == old(log.entries) + [Entry(Level.Debug, SUMMARY, Message(SummaryLine(caption, |output|)))]
  {
    var totalProcessed := 0;
    for i := 0 to |output|
      invariant totalProcessed == i
    {
      totalProcessed := totalProcessed + 1;
    }
    log.Debug(SUMMARY, Message(caption + ": " + Decimal.NatToString(totalProcessed)));
  }
}
