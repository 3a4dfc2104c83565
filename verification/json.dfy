/**
 * Decoded JSON values as the backend's Python code sees them (the
 * `json_structure` columns and the request bodies), with the three Python
 * operations the code applies to them: `dict.get`, truthiness with `or`
 * chains, and `str()`.
 */
module Json {
  import opened Wrappers
  import opened Strings

  /** A decoded JSON value. Numbers are integers: floats are not part of this model. */
  datatype Json =
    | JNull
    | JBool(b: bool)
    | JInt(i: int)
    | JStr(s: string)
    | JList(items: seq<Json>)
    | JObj(fields: seq<(string, Json)>)

  /** Python truthiness: `None`, `False`, `0`, `""`, `[]` and `{}` are false. */
  predicate Truthy(v: Json) {
    match v
    case JNull => false
    case JBool(b) => b
    case JInt(i) => i != 0
    case JStr(s) => s != ""
    case JList(xs) => xs != []
    case JObj(fs) => fs != []
  }

  /** `d.get(key)` telling an absent key (`None`) from a stored value. A key
      written twice keeps its last value, as `json.loads` does. */
  function Lookup(fields: seq<(string, Json)>, key: string): (r: Option<Json>)
    ensures r.None? <==> forall i :: 0 <= i < |fields| ==> fields[i].0 != key
    ensures r.Some? ==> exists i :: 0 <= i < |fields| && fields[i] == (key, r.value)
  {
    if |fields| == 0 then None
    else if fields[|fields| - 1].0 == key then Some(fields[|fields| - 1].1)
    else
      var r := Lookup(fields[..|fields| - 1], key);
      assert forall i :: 0 <= i < |fields| - 1 ==> fields[..|fields| - 1][i] == fields[i];
      r
  }

  /** `d.get(key)`: the value stored under `key`, `None` when absent. */
  function Get(fields: seq<(string, Json)>, key: string): (r: Json)
    ensures (forall i :: 0 <= i < |fields| ==> fields[i].0 != key) ==> r == JNull
    ensures r != JNull ==> exists i :: 0 <= i < |fields| && fields[i] == (key, r)
  {
    Lookup(fields, key).GetOr(JNull)
  }

  /** A key not written again later reads back the value stored at `i`. */
  lemma {:induction false} LookupAt(fields: seq<(string, Json)>, i: nat)
    requires i < |fields|
    requires forall j :: i < j < |fields| ==> fields[j].0 != fields[i].0
    ensures Lookup(fields, fields[i].0) == Some(fields[i].1)
    ensures Get(fields, fields[i].0) == fields[i].1
    decreases |fields|
  {
    if i < |fields| - 1 {
      var p := fields[..|fields| - 1];
      LookupAt(p, i);
    }
  }

  /** The last write of a key is the value read back. */
  lemma GetLastWrite(fields: seq<(string, Json)>, key: string, v: Json)
    ensures Get(fields + [(key, v)], key) == v
  {
  }

  /** Writing one key leaves every other key's value alone. */
  lemma GetOtherKey(fields: seq<(string, Json)>, key: string, v: Json, other: string)
    requires other != key
    ensures Lookup(fields + [(key, v)], other) == Lookup(fields, other)
    ensures Get(fields + [(key, v)], other) == Get(fields, other)
  {
    assert (fields + [(key, v)])[..|fields|] == fields;
  }

  /** The position of the first key, in `keys`, whose value is truthy;
      `|keys|` when there is none. */
  function FirstTruthyIndex(fields: seq<(string, Json)>, keys: seq<string>): (n: nat)
    ensures n <= |keys|
    ensures forall j :: 0 <= j < n ==> !Truthy(Get(fields, keys[j]))
    ensures n < |keys| ==> Truthy(Get(fields, keys[n]))
  {
    if |keys| == 0 then 0
    else if Truthy(Get(fields, keys[0])) then 0
    else
      var n := FirstTruthyIndex(fields, keys[1..]);
      assert forall j :: 1 <= j < n + 1 ==> keys[j] == keys[1..][j - 1];
      n + 1
  }

  /** `d.get(k1) or d.get(k2) or ... or dflt`: the value of the first key whose
      value is truthy, else `dflt`. (Python would return the last falsy value
      rather than `dflt`; every caller tests the result's truthiness or type
      before using it, so the two agree.) */
  function FirstTruthy(fields: seq<(string, Json)>, keys: seq<string>, dflt: Json): Json {
    var n := FirstTruthyIndex(fields, keys);
    if n < |keys| then Get(fields, keys[n]) else dflt
  }

  /** Writing a key outside the chain leaves the chain's value alone. */
  lemma {:induction false} FirstTruthyOtherKey(fields: seq<(string, Json)>, keys: seq<string>, k: string, v: Json, dflt: Json)
    requires k !in keys
    ensures FirstTruthy(fields + [(k, v)], keys, dflt) == FirstTruthy(fields, keys, dflt)
    decreases |keys|
  {
    if |keys| > 0 {
      GetOtherKey(fields, k, v, keys[0]);
      assert k !in keys[1..];
      FirstTruthyOtherKey(fields, keys[1..], k, v, dflt);
      FirstTruthyUnfold(fields + [(k, v)], keys, dflt);
      FirstTruthyUnfold(fields, keys, dflt);
    }
  }

  /** The chain's value is the first key's when truthy, else the rest's. */
  lemma FirstTruthyUnfold(fields: seq<(string, Json)>, keys: seq<string>, dflt: Json)
    requires |keys| > 0
    ensures FirstTruthy(fields, keys, dflt) ==
      if Truthy(Get(fields, keys[0])) then Get(fields, keys[0]) else FirstTruthy(fields, keys[1..], dflt)
  {
    if !Truthy(Get(fields, keys[0])) {
      var n := FirstTruthyIndex(fields, keys[1..]);
      assert FirstTruthyIndex(fields, keys) == n + 1;
      assert n < |keys[1..]| ==> keys[n + 1] == keys[1..][n];
    }
  }

  /** A Python list of strings. */
  function StrList(xs: seq<string>): (r: Json)
    ensures r.JList? && |r.items| == |xs|
    ensures forall i :: 0 <= i < |xs| ==> r.items[i] == JStr(xs[i])
    ensures AllStr(r.items)
  {
    JList(seq(|xs|, i requires 0 <= i < |xs| => JStr(xs[i])))
  }

  /** Every item is a string. */
  predicate AllStr(items: seq<Json>) {
    forall i :: 0 <= i < |items| ==> items[i].JStr?
  }

  /** Python's `str(v)`. */
  function PyStr(v: Json): string
    decreases v, 1
  {
    match v
    case JNull => "None"
    case JBool(b) => if b then "True" else "False"
    case JInt(i) => IntToString(i)
    case JStr(s) => s
    case JList(xs) => "[" + ReprItems(v, xs) + "]"
    case JObj(fs) => "{" + ReprFields(v, fs) + "}"
  }

  /** Python's `repr(v)`, without the escaping of quotes and backslashes
      inside strings. */
  function Repr(v: Json): string
    decreases v, 2
  {
    match v
    case JStr(s) => "'" + s + "'"
    case _ => PyStr(v)
  }

  function ReprItems(parent: Json, xs: seq<Json>): string
    requires forall i :: 0 <= i < |xs| ==> xs[i] < parent
    decreases parent, 0, |xs|
  {
    if |xs| == 0 then ""
    else Repr(xs[0]) + (if |xs| == 1 then "" else ", " + ReprItems(parent, xs[1..]))
  }

  function ReprFields(parent: Json, fs: seq<(string, Json)>): string
    requires forall i :: 0 <= i < |fs| ==> fs[i].1 < parent
    decreases parent, 0, |fs|
  {
    if |fs| == 0 then ""
    else
      "'" + fs[0].0 + "': " + Repr(fs[0].1)
      + (if |fs| == 1 then "" else ", " + ReprFields(parent, fs[1..]))
  }
}
