/** JSON values as the controllers render them: hashes keep their keys in insertion order. */
module Json {
  import opened Wrappers

  /**
   * `JDecimal(h)` is a JSON number with two decimals, worth `h / 100`: the
   * model's form of a price, which Ruby renders as a Float.
   */
  datatype Json =
    | JNull
    | JInt(i: int)
    | JDecimal(hundredths: int)
    | JStr(s: string)
    | JArr(elems: seq<Json>)
    | JObj(fields: seq<(string, Json)>)

  /** The keys of a hash, in insertion order. */
  function Keys(fields: seq<(string, Json)>): (r: seq<string>)
    ensures |r| == |fields|
    ensures forall i :: 0 <= i < |fields| ==> r[i] == fields[i].0
  {
    seq(|fields|, i requires 0 <= i < |fields| => fields[i].0)
  }

  /** The value stored under `key` in a list of hash entries (the first such entry). */
  function Lookup(fields: seq<(string, Json)>, key: string): (r: Option<Json>)
    ensures r.Some? ==> (key, r.value) in fields
  {
    if fields == [] then None
    else if fields[0].0 == key then Some(fields[0].1)
    else
      Lookup(fields[1..], key)
  }

  /** The value at position `i` is what a lookup of its key finds when no earlier entry has that key. */
  lemma {:induction false} LookupAt(fields: seq<(string, Json)>, i: nat)
    requires i < |fields|
    requires forall j :: 0 <= j < i ==> fields[j].0 != fields[i].0
    ensures Lookup(fields, fields[i].0) == Some(fields[i].1)
  {
    if i > 0 {
      LookupAt(fields[1..], i - 1);
    }
  }

  /** Renders each row with `f`, in order: a serializer applied to a collection. */
  function MapJson<T>(rows: seq<T>, f: T -> Json): (r: seq<Json>)
    ensures |r| == |rows|
    ensures forall i :: 0 <= i < |rows| ==> r[i] == f(rows[i])
  {
    seq(|rows|, i requires 0 <= i < |rows| => f(rows[i]))
  }

  /** Every row's rendering is among the rendered rows. */
  lemma MapJsonMember<T>(rows: seq<T>, f: T -> Json)
    ensures forall x :: x in rows ==> f(x) in MapJson(rows, f)
  {
    var r := MapJson(rows, f);
    forall x | x in rows ensures f(x) in r {
      var i :| 0 <= i < |rows| && rows[i] == x;
      assert r[i] == f(x);
    }
  }

  /** `j[key]` on a hash; `None` for anything that is not a hash or lacks the key. */
  function Get(j: Json, key: string): Option<Json>
  {
    match j
    case JObj(fields) => Lookup(fields, key)
    case _ => None
  }
}
