/** `financialModel`: the integrity check applied to each external record. */
module FinancialModel {
  import opened Wrappers
  import opened Json

  /** `validateRecord(data)`: false when the record is falsy or its `transId`
      or `amount` is falsy. Only an object can pass, and a zero amount or an
      empty id is rejected like a missing one. */
  function ValidateRecord(data: Value): (valid: bool)
    ensures valid <==>
      data.Obj? && Field(data, "transId") !in FALSY && Field(data, "amount") !in FALSY
  {
    Truthy(Some(data)) && Truthy(Field(data, "transId")) && Truthy(Field(data, "amount"))
  }

  function Record(transId: Value, amount: Value): Value
  {
    Obj(map["transId" := transId, "amount" := amount])
  }

  /** The edge cases of the falsiness policy. */
  lemma ValidateRecordCases(id: string, amount: real)
    requires id != "" && amount != 0.0
    ensures ValidateRecord(Record(Str(id), Num(amount)))
    ensures !ValidateRecord(Record(Str(id), Num(0.0)))
    ensures !ValidateRecord(Record(Str(""), Num(amount)))
    ensures !ValidateRecord(Record(Null, Num(amount)))
    ensures !ValidateRecord(Record(Str(id), Null))
    ensures !ValidateRecord(Obj(map["amount" := Num(amount)]))
    ensures !ValidateRecord(Null) && !ValidateRecord(Str(id)) && !ValidateRecord(Arr([]))
  {
    assert Field(Obj(map["amount" := Num(amount)]), "transId") == None;
  }
}
