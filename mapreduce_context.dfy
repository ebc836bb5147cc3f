/** The values the hosted map/reduce runtime passes between the stages. */
module MapReduceContext {
  import opened Json

  /** One `context.write({ key, value })` of the map stage; the runtime keeps
      the value as JSON text. */
  datatype Pair = Pair(key: Value, value: Text)

  /** One entry of `summary.output`: a key and a value the reduce stage wrote. */
  datatype OutputEntry = OutputEntry(key: string, value: string)

  /** The context of one map invocation: its input text and what it wrote. */
  class MapContext {
    const value: Text
    var written: seq<Pair>

    constructor (value: Text)
      ensures this.value == value && written == []
    {
      this.value := value;
      written := [];
    }

    /** `context.write({ key, value })` */
    method Write(key: Value, v: Value)
      modifies this
      ensures written == old(written) + [Pair(key, Stringify(v))]
    {
      written := written + [Pair(key, Stringify(v))];
    }
  }
}
