/** JSON values as serde_json holds them: objects keep insertion order and have one value per key. */
module Json {
  import opened Wrappers

  type u64 = n: int | 0 <= n < 0x1_0000_0000_0000_0000 witness 0

  /** serde_json's three number forms; a float is finite by construction. */
  datatype Number = Unsigned(n: u64) | Negative(i: int) | Float(r: real)

  /** The number a JSON number stands for. */
  function Worth(n: Number): real {
    match n
    case Unsigned(u) => u as real
    case Negative(i) => i as real
    case Float(r) => r
  }

  datatype Field = Field(key: string, value: Value)

  datatype Value =
    | Null
    | Bool(b: bool)
    | Num(num: Number)
    | Str(s: string)
    | Arr(items: seq<Value>)
    | Obj(fields: seq<Field>)

  function Find(fields: seq<Field>, key: string): Option<Value> {
    if fields == [] then None
    else if fields[0].key == key then Some(fields[0].value)
    else Find(fields[1..], key)
  }

  function Get(v: Value, key: string): Option<Value> {
    if v.Obj? then Find(v.fields, key) else None
  }

  function AsStr(v: Option<Value>): Option<string> {
    if v.Some? && v.value.Str? then Some(v.value.s) else None
  }

  function AsBool(v: Option<Value>): Option<bool> {
    if v.Some? && v.value.Bool? then Some(v.value.b) else None
  }

  function AsU64(v: Option<Value>): Option<u64> {
    if v.Some? && v.value.Num? && v.value.num.Unsigned? then Some(v.value.num.n) else None
  }

  function AsF64(v: Option<Value>): Option<real> {
    if v.Some? && v.value.Num? then
      match v.value.num
      case Unsigned(n) => Some(n as real)
      case Negative(i) => Some(i as real)
      case Float(r) => Some(r)
    else None
  }

  function AsArray(v: Option<Value>): Option<seq<Value>> {
    if v.Some? && v.value.Arr? then Some(v.value.items) else None
  }

  function AsObject(v: Option<Value>): Option<seq<Field>> {
    if v.Some? && v.value.Obj? then Some(v.value.fields) else None
  }

  /** What serde_json's map type guarantees of every object. */
  ghost predicate DistinctKeys(fields: seq<Field>) {
    forall i, j :: 0 <= i < j < |fields| ==> fields[i].key != fields[j].key
  }

  lemma {:induction false} FindAt(fields: seq<Field>, i: nat)
    requires DistinctKeys(fields) && i < |fields|
    ensures Find(fields, fields[i].key) == Some(fields[i].value)
  {
    if i > 0 {
      assert fields[0].key != fields[i].key;
      assert forall j, k :: 0 <= j < k < |fields[1..]| ==>
        fields[1..][j] == fields[j + 1] && fields[1..][k] == fields[k + 1];
      FindAt(fields[1..], i - 1);
    }
  }

  lemma {:induction false} FindNone(fields: seq<Field>, key: string)
    ensures Find(fields, key).None? <==> forall i :: 0 <= i < |fields| ==> fields[i].key != key
  {
    if fields != [] && fields[0].key != key {
      FindNone(fields[1..], key);
      assert forall i :: 1 <= i < |fields| ==> fields[i] == fields[1..][i - 1];
    }
  }
}
