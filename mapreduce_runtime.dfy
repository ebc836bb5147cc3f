/**
 * An explicit stand-in for what the hosted map/reduce runtime does between
 * the script's entry points: hand each input item to map as JSON text,
 * collect what map writes, group it by key (stable: keys in order of first
 * appearance, values in the order they were written) and hand each group to
 * reduce.
 */
module MapReduceRuntime {
  import opened Wrappers
  import opened Json
  import opened Logging
  import opened Persistence
  import opened MapReduceContext
  import opened FinancialModel
  import opened FinancialController

  /** The input of one reduce invocation: a key and its values, in order. */
  datatype Group = Group(key: Value, values: seq<Text>)

  // ------------------------------------------------------------- group by key

  /** The distinct keys of the pairs, in order of first appearance. */
  function Keys(pairs: seq<Pair>): seq<Value>
  {
    if pairs == [] then []
    else
      var ks := Keys(pairs[..|pairs| - 1]);
      var k := pairs[|pairs| - 1].key;
      if k in ks then ks else ks + [k]
  }

  /** The values written under key k, in the order they were written. */
  function ValuesOf(pairs: seq<Pair>, k: Value): seq<Text>
  {
    if pairs == [] then []
    else
      var last := pairs[|pairs| - 1];
      ValuesOf(pairs[..|pairs| - 1], k) + if last.key == k then [last.value] else []
  }

  /** One group per key of ks, holding all values of that key. */
  function GroupsFor(pairs: seq<Pair>, ks: seq<Value>): (groups: seq<Group>)
    ensures |groups| == |ks|
    ensures forall i :: 0 <= i < |ks| ==> groups[i] == Group(ks[i], ValuesOf(pairs, ks[i]))
  {
    if ks == [] then []
    else GroupsFor(pairs, ks[..|ks| - 1]) + [Group(ks[|ks| - 1], ValuesOf(pairs, ks[|ks| - 1]))]
  }

  /** The number of values over all groups. */
  function TotalValues(groups: seq<Group>): nat
  {
    if groups == [] then 0 else TotalValues(groups[..|groups| - 1]) + |groups[|groups| - 1].values|
  }

  /** Writing one more pair adds its key at the end, and only when it is new:
      the keys stay in order of first appearance. */
  lemma KeysSnoc(pairs: seq<Pair>, p: Pair)
    ensures Keys(pairs + [p]) == if p.key in Keys(pairs) then Keys(pairs) else Keys(pairs) + [p.key]
  {
    assert (pairs + [p])[..|pairs|] == pairs;
  }

  lemma {:induction false} KeysDistinct(pairs: seq<Pair>)
    ensures Distinct(Keys(pairs))
  {
    if pairs != [] {
      KeysDistinct(pairs[..|pairs| - 1]);
    }
  }

  /** Some pair was written under key k. */
  predicate Written(pairs: seq<Pair>, k: Value)
  {
    exists i :: 0 <= i < |pairs| && pairs[i].key == k
  }

  lemma {:induction false} KeysComplete(pairs: seq<Pair>, k: Value)
    ensures k in Keys(pairs) <==> Written(pairs, k)
  {
    if pairs != [] {
      var init := pairs[..|pairs| - 1];
      KeysComplete(init, k);
      if k in Keys(init) {
        var i :| 0 <= i < |init| && init[i].key == k;
        assert pairs[i].key == k;
      }
      if exists i :: 0 <= i < |pairs| && pairs[i].key == k {
        var i :| 0 <= i < |pairs| && pairs[i].key == k;
        if i < |init| {
          assert init[i].key == k;
        }
      }
    }
  }

  lemma {:induction false} ValuesOfAbsent(pairs: seq<Pair>, k: Value)
    requires k !in Keys(pairs)
    ensures ValuesOf(pairs, k) == []
  {
    if pairs != [] {
      ValuesOfAbsent(pairs[..|pairs| - 1], k);
    }
  }

  /** Every grouped value was written under its group's key. */
  lemma {:induction false} ValuesOfWritten(pairs: seq<Pair>, k: Value, t: Text)
    requires t in ValuesOf(pairs, k)
    ensures Pair(k, t) in pairs
  {
    var init := pairs[..|pairs| - 1];
    if t in ValuesOf(init, k) {
      ValuesOfWritten(init, k, t);
      assert Pair(k, t) in init;
    }
  }

  lemma {:induction false} TotalValuesAppend(groups: seq<Group>, g: Group)
    ensures TotalValues(groups + [g]) == TotalValues(groups) + |g.values|
  {
    assert (groups + [g])[..|groups|] == groups;
  }

  lemma ValuesOfAppend(pairs: seq<Pair>, p: Pair, k: Value)
    ensures ValuesOf(pairs + [p], k) == ValuesOf(pairs, k) + if p.key == k then [p.value] else []
  {
    assert (pairs + [p])[..|pairs|] == pairs;
  }

  /** The total over the groups of ks extends with the last key's values. */
  lemma TotalGroupsForSnoc(pairs: seq<Pair>, ks: seq<Value>)
    requires ks != []
    ensures TotalValues(GroupsFor(pairs, ks))
         == TotalValues(GroupsFor(pairs, ks[..|ks| - 1])) + |ValuesOf(pairs, ks[|ks| - 1])|
  {
    var k := ks[|ks| - 1];
    TotalValuesAppend(GroupsFor(pairs, ks[..|ks| - 1]), Group(k, ValuesOf(pairs, k)));
  }

  /** Writing one more pair adds one value to the groups of ks exactly when
      its key is among them. */
  lemma {:induction false} GroupsForAppendPair(pairs: seq<Pair>, p: Pair, ks: seq<Value>)
    requires Distinct(ks)
    ensures TotalValues(GroupsFor(pairs + [p], ks))
         == TotalValues(GroupsFor(pairs, ks)) + if p.key in ks then 1 else 0
  {
    if ks != [] {
      var init, k := ks[..|ks| - 1], ks[|ks| - 1];
      DistinctSnoc(ks);
      GroupsForAppendPair(pairs, p, init);
      ValuesOfAppend(pairs, p, k);
      TotalGroupsForSnoc(pairs + [p], ks);
      TotalGroupsForSnoc(pairs, ks);
      InSnoc(ks, p.key);
    }
  }

  /** No element occurs twice. */
  predicate Distinct<T(==)>(s: seq<T>)
  {
    forall i, j :: 0 <= i < j < |s| ==> s[i] != s[j]
  }

  /** Dropping the last element of a sequence without repeats leaves one
      without repeats that does not contain that element. */
  lemma DistinctSnoc<T>(s: seq<T>)
    requires s != [] && Distinct(s)
    ensures Distinct(s[..|s| - 1]) && s[|s| - 1] !in s[..|s| - 1]
  {
  }

  /** Membership in a non-empty sequence: in its prefix or its last element. */
  lemma InSnoc<T>(s: seq<T>, x: T)
    requires s != []
    ensures x in s <==> x in s[..|s| - 1] || x == s[|s| - 1]
  {
    if x in s {
      var i :| 0 <= i < |s| && s[i] == x;
      if i < |s| - 1 {
        assert s[..|s| - 1][i] == x;
      }
    }
  }

  /** Grouping neither drops nor duplicates a value. */
  lemma {:induction false} GroupsCover(pairs: seq<Pair>)
    ensures TotalValues(GroupsFor(pairs, Keys(pairs))) == |pairs|
  {
    if pairs != [] {
      var init, p := pairs[..|pairs| - 1], pairs[|pairs| - 1];
      assert pairs == init + [p];
      GroupsCover(init);
      KeysDistinct(init);
      GroupsForAppendPair(init, p, Keys(init));
      if p.key !in Keys(init) {
        var ks := Keys(pairs);
        assert ks[..|ks| - 1] == Keys(init);
        ValuesOfAbsent(init, p.key);
        TotalValuesAppend(GroupsFor(pairs, Keys(init)), Group(p.key, ValuesOf(pairs, p.key)));
      }
    }
  }

  /** The groups' keys are exactly the keys some pair was written under. */
  lemma GroupKeysWritten(pairs: seq<Pair>)
    ensures var groups := GroupsFor(pairs, Keys(pairs));
      (set g | g in groups :: g.key) == (set p | p in pairs :: p.key)
  {
    var ks := Keys(pairs);
    var groups := GroupsFor(pairs, ks);
    var left, right := set g | g in groups :: g.key, set p | p in pairs :: p.key;
    forall k | k in left ensures k in right {
      var g :| g in groups && g.key == k;
      var j :| 0 <= j < |groups| && groups[j] == g;
      KeysComplete(pairs, ks[j]);
      var i :| 0 <= i < |pairs| && pairs[i].key == k;
      assert pairs[i] in pairs;
    }
    forall k | k in right ensures k in left {
      var p :| p in pairs && p.key == k;
      var i :| 0 <= i < |pairs| && pairs[i] == p;
      KeysComplete(pairs, k);
      var j :| 0 <= j < |ks| && ks[j] == k;
      assert groups[j] in groups;
    }
  }

  lemma GroupValuesWritten(pairs: seq<Pair>)
    ensures var groups := GroupsFor(pairs, Keys(pairs));
      forall g, t :: g in groups && t in g.values ==> Pair(g.key, t) in pairs
  {
    var groups := GroupsFor(pairs, Keys(pairs));
    forall g, t | g in groups && t in g.values ensures Pair(g.key, t) in pairs {
      var j :| 0 <= j < |groups| && groups[j] == g;
      ValuesOfWritten(pairs, g.key, t);
    }
  }

  /** The runtime's shuffle: one group per distinct key, in order of first
      appearance, each holding every value written under that key in the
      order written. */
  function GroupByKey(pairs: seq<Pair>): (groups: seq<Group>)
    ensures |groups| == |Keys(pairs)| && forall i :: 0 <= i < |groups| ==> groups[i].key == Keys(pairs)[i]
    ensures Distinct(Keys(pairs))
    ensures (set g | g in groups :: g.key) == (set p | p in pairs :: p.key)
    ensures forall j :: 0 <= j < |groups| ==> groups[j].values == ValuesOf(pairs, groups[j].key)
    ensures forall g, t :: g in groups && t in g.values ==> Pair(g.key, t) in pairs
    ensures TotalValues(groups) == |pairs|
  {
    KeysDistinct(pairs);
    GroupsCover(pairs);
    GroupKeysWritten(pairs);
    GroupValuesWritten(pairs);
    GroupsFor(pairs, Keys(pairs))
  }

  // ------------------------------------------------------------------ the phases

  /** What the runtime hands to map: each item of `getInputData()` as JSON text. */
  function InputUnits(items: seq<Value>): (units: seq<Text>)
    ensures |units| == |items|
    ensures forall i :: 0 <= i < |items| ==> units[i] == Stringify(items[i])
  {
    if items == [] then [] else InputUnits(items[..|items| - 1]) + [Stringify(items[|items| - 1])]
  }

  /** The map stage over all units, in order: everything written, or the
      error of the first unit whose map throws (which ends the run). */
  function MapPhase(units: seq<Text>): Result<seq<Pair>, string>
  {
    if units == [] then Success([])
    else
      match MapPhase(units[..|units| - 1])
      case Failure(e) => Failure(e)
      case Success(pairs) =>
        match MapEmission(units[|units| - 1])
        case Failure(e) => Failure(e)
        case Success(o) => Success(pairs + Emitted(Success(o)))
  }

  /** Everything the map stage logs, in order. */
  function MapPhaseLog(units: seq<Text>): seq<Entry>
  {
    if units == [] then [] else MapPhaseLog(units[..|units| - 1]) + MapLog(units[|units| - 1])
  }

  /** A pair as a successful map writes it: a valid record under its own id. */
  predicate ValidPair(p: Pair)
  {
    p.value.Encoded? && ValidateRecord(p.value.v) && Field(p.value.v, "transId") == Some(p.key)
  }

  /** The map stage fails exactly when some unit is not JSON; otherwise every
      unit either writes one pair or logs one skip, and every pair written is
      a valid record under its own id. */
  lemma {:induction false} MapPhaseSpec(units: seq<Text>)
    ensures MapPhase(units).Failure? <==> exists i :: 0 <= i < |units| && units[i].Unparsable?
    ensures MapPhase(units).Success? ==>
      var pairs := MapPhase(units).value;
      && |pairs| + |MapPhaseLog(units)| == |units|
      && forall p :: p in pairs ==> ValidPair(p)
  {
    if units != [] {
      var init, u := units[..|units| - 1], units[|units| - 1];
      MapPhaseSpec(init);
      assert forall i :: 0 <= i < |init| ==> init[i] == units[i];
      if !u.Unparsable? && MapPhase(init).Success? {
        var pairs := MapPhase(init).value;
        var out := Emitted(MapEmission(u));
        assert MapPhase(units).value == pairs + out;
        forall p: Pair | p in pairs + out ensures ValidPair(p) {
          if p !in pairs {
            assert p == MapEmission(u).value.value;
          }
        }
      }
    }
  }

  /** The persistence calls of the reduce stage: each group's reduce, in order. */
  function ReducePhaseCalls(groups: seq<Group>, faults: Value -> nat -> Fault): seq<Call>
  {
    if groups == [] then []
    else
      var g := groups[|groups| - 1];
      ReducePhaseCalls(groups[..|groups| - 1], faults) +
        match ParseAll(g.values)
        case Failure(_) => []
        case Success(recs) => ReduceCalls(recs, faults(g.key), |recs|)
  }

  /** Every text of the sequence is JSON. */
  predicate AllEncoded(values: seq<Text>)
  {
    forall t :: t in values ==> t.Encoded?
  }

  /** When every grouped value parses, the reduce stage makes one create call
      per value, across all groups. */
  lemma {:induction false} ReducePhaseCreates(groups: seq<Group>, faults: Value -> nat -> Fault)
    requires forall g :: g in groups ==> AllEncoded(g.values)
    ensures CountCreates(ReducePhaseCalls(groups, faults)) == TotalValues(groups)
  {
    if groups != [] {
      var init, g := groups[..|groups| - 1], groups[|groups| - 1];
      assert forall h :: h in init ==> h in groups;
      ReducePhaseCreates(init, faults);
      assert g in groups;
      forall i | 0 <= i < |g.values| ensures !g.values[i].Unparsable? {
        assert g.values[i] in g.values;
      }
      var recs := ParseAll(g.values).value;
      ReduceCreatesOnePerValue(recs, faults(g.key), |recs|);
      CountCreatesAppend(ReducePhaseCalls(init, faults), ReduceCalls(recs, faults(g.key), |recs|));
    }
  }

  /** From the items of getInputData to the persistence layer: the map stage
      succeeds, and reduce attempts to create exactly one record per item
      that passed validation, even when items share a key, whatever the
      persistence layer does. */
  lemma EndToEndCreates(items: seq<Value>, faults: Value -> nat -> Fault)
    ensures MapPhase(InputUnits(items)).Success?
    ensures var pairs := MapPhase(InputUnits(items)).value;
      && |pairs| + |MapPhaseLog(InputUnits(items))| == |items|
      && CountCreates(ReducePhaseCalls(GroupByKey(pairs), faults)) == |pairs|
  {
    var units := InputUnits(items);
    MapPhaseSpec(units);
    var pairs := MapPhase(units).value;
    var groups := GroupByKey(pairs);
    forall g | g in groups ensures AllEncoded(g.values) {
      forall t | t in g.values ensures t.Encoded? {
        assert Pair(g.key, t) in pairs;
      }
    }
    ReducePhaseCreates(groups, faults);
  }

  /** Grouping two pairs with different keys gives two singleton groups;
      with the same key, one group holding both values in order. */
  lemma GroupTwo(p: Pair, q: Pair)
    ensures p.key != q.key ==> GroupByKey([p, q]) == [Group(p.key, [p.value]), Group(q.key, [q.value])]
    ensures p.key == q.key ==> GroupByKey([p, q]) == [Group(p.key, [p.value, q.value])]
  {
    var pairs := [p, q];
    assert pairs[..1] == [p];
    assert [p][..0] == [];
    assert Keys([p]) == [p.key];
    assert ValuesOf([p], p.key) == [p.value];
    assert ValuesOf(pairs, p.key) == [p.value] + if q.key == p.key then [q.value] else [];
    var groups := GroupsFor(pairs, Keys(pairs));
    if p.key != q.key {
      assert ValuesOf([p], q.key) == [];
      assert ValuesOf(pairs, q.key) == [q.value];
      assert Keys(pairs) == [p.key, q.key];
      assert groups[0] == Group(p.key, [p.value]);
      assert groups[1] == Group(q.key, [q.value]);
    } else {
      assert Keys(pairs) == [p.key];
      assert groups[0] == Group(p.key, [p.value, q.value]);
    }
  }

  /** Mapping the JSON texts of two items, in order. */
  lemma MapTwo(x: Value, y: Value)
    ensures MapPhase(InputUnits([x, y])) == Success(Emitted(MapEmission(Stringify(x))) + Emitted(MapEmission(Stringify(y))))
    ensures MapPhaseLog(InputUnits([x, y])) == MapLog(Stringify(x)) + MapLog(Stringify(y))
  {
    var units := InputUnits([x, y]);
    assert units == [Stringify(x), Stringify(y)];
    assert units[..1] == [Stringify(x)];
    assert [Stringify(x)][..0] == [];
    assert MapEmission(Stringify(x)).Success? && MapEmission(Stringify(y)).Success?;
    assert MapPhase([Stringify(x)]) == Success([] + Emitted(MapEmission(Stringify(x))));
    assert MapPhaseLog([Stringify(x)]) == [] + MapLog(Stringify(x));
    assert units[..|units| - 1] == [Stringify(x)];
    var ex: seq<Pair> := Emitted(MapEmission(Stringify(x)));
    assert [] + ex == ex;
    assert MapPhase(units[..|units| - 1]) == Success(Emitted(MapEmission(Stringify(x))));
    var o := MapEmission(Stringify(y)).value;
    assert MapPhase(units) == Success(Emitted(MapEmission(Stringify(x))) + Emitted(Success(o)));
  }

  /** A record with a non-empty id and a non-zero amount is written under its id. */
  lemma RecordEmission(id: string, amount: real)
    requires id != "" && amount != 0.0
    ensures var t := Stringify(Record(Str(id), Num(amount)));
      MapEmission(t) == Success(Some(Pair(Str(id), t)))
  {
    var rec := Record(Str(id), Num(amount));
    assert Field(rec, "transId") == Some(Str(id));
    assert Field(rec, "amount") == Some(Num(amount));
    assert ValidateRecord(rec);
  }

  /** The fixed batch: EXT001 and EXT002 are written, the record without an id
      is skipped with one log entry. */
  lemma InputBatchMap()
    ensures var items := GetInputData();
      && MapPhase(InputUnits(items)) == Success([Pair(Str("EXT001"), Stringify(items[0])), Pair(Str("EXT002"), Stringify(items[1]))])
      && MapPhaseLog(InputUnits(items)) == [Entry(Level.Debug, INVALID_RECORD_SKIPPED, Payload(Stringify(items[2])))]
  {
    var items := GetInputData();
    InputDataValidation();
    var units := InputUnits(items);
    MapTwo(items[0], items[1]);
    assert units[..2] == InputUnits([items[0], items[1]]);
    assert MapEmission(units[2]) == Success(None);
    assert MapLog(units[2]) == [Entry(Level.Debug, INVALID_RECORD_SKIPPED, Payload(Stringify(items[2])))];
    assert MapEmission(units[0]) == Success(Some(Pair(Str("EXT001"), Stringify(items[0]))));
    assert MapEmission(units[1]) == Success(Some(Pair(Str("EXT002"), Stringify(items[1]))));
    var written := [Pair(Str("EXT001"), Stringify(items[0])), Pair(Str("EXT002"), Stringify(items[1]))];
    assert units[..|units| - 1] == units[..2];
    assert [written[0]] + [written[1]] == written;
    assert MapPhase(units[..2]) == Success(written);
    assert written + [] == written;
    assert MapPhaseLog(units[..2]) == [];
  }

  /** ... and reduce over the grouped pairs creates two records, one per key. */
  lemma InputBatchReduce(faults: Value -> nat -> Fault)
    ensures var items := GetInputData();
      var pairs := [Pair(Str("EXT001"), Stringify(items[0])), Pair(Str("EXT002"), Stringify(items[1]))];
      && GroupByKey(pairs) == [Group(Str("EXT001"), [Stringify(items[0])]), Group(Str("EXT002"), [Stringify(items[1])])]
      && CountCreates(ReducePhaseCalls(GroupByKey(pairs), faults)) == 2
  {
    var items := GetInputData();
    var pairs := [Pair(Str("EXT001"), Stringify(items[0])), Pair(Str("EXT002"), Stringify(items[1]))];
    assert Str("EXT001") != Str("EXT002") by {
      assert "EXT001"[5] != "EXT002"[5];
    }
    GroupTwo(pairs[0], pairs[1]);
    InputBatchMap();
    EndToEndCreates(items, faults);
  }

  /** Two records sharing EXT001 land in one group of two, in their original order. */
  lemma SharedKeyScenario(a: real, b: real)
    requires a != 0.0 && b != 0.0
    ensures var items := [Record(Str("EXT001"), Num(a)), Record(Str("EXT001"), Num(b))];
      && MapPhase(InputUnits(items)) == Success([Pair(Str("EXT001"), Stringify(items[0])), Pair(Str("EXT001"), Stringify(items[1]))])
      && GroupByKey(MapPhase(InputUnits(items)).value) == [Group(Str("EXT001"), [Stringify(items[0]), Stringify(items[1])])]
  {
    var items := [Record(Str("EXT001"), Num(a)), Record(Str("EXT001"), Num(b))];
    MapTwo(items[0], items[1]);
    RecordEmission("EXT001", a);
    RecordEmission("EXT001", b);
    var written := [Pair(Str("EXT001"), Stringify(items[0])), Pair(Str("EXT001"), Stringify(items[1]))];
    assert [written[0]] + [written[1]] == written;
    GroupTwo(Pair(Str("EXT001"), Stringify(items[0])), Pair(Str("EXT001"), Stringify(items[1])));
  }
}
