/** The loosely typed values that Python's `json.loads` produces, and the
    few Python operations the editor and the player apply to them: truth
    value, `dict.get`, iteration and numeric coercion. */
module PyJson {
  import opened Outcome

  /** A decoded JSON value. Objects keep their fields in document order;
      JSON integers and JSON floats stay distinct, as in Python. */
  datatype Json =
    | JNull
    | JBool(b: bool)
    | JInt(i: int)
    | JFloat(f: real)
    | JStr(s: string)
    | JArr(items: seq<Json>)
    | JObj(fields: seq<(string, Json)>)

  /** Python's truth value of a decoded value (`if v:`). */
  predicate Truthy(j: Json) {
    match j
    case JNull => false
    case JBool(b) => b
    case JInt(i) => i != 0
    case JFloat(f) => f != 0.0
    case JStr(s) => |s| > 0
    case JArr(items) => |items| > 0
    case JObj(fields) => |fields| > 0
  }

  /** `d.get(key)` on a decoded object: when a key occurs more than once in
      the document, the last occurrence wins, as `json.loads` builds it. */
  function Get(fields: seq<(string, Json)>, key: string): (r: Option<Json>)
    ensures r.None? <==> forall i :: 0 <= i < |fields| ==> fields[i].0 != key
    ensures r.Some? ==>
      exists i :: 0 <= i < |fields| && fields[i] == (key, r.value) &&
        forall j :: i < j < |fields| ==> fields[j].0 != key
    decreases |fields|
  {
    if |fields| == 0 then None
    else if fields[|fields| - 1].0 == key then Some(fields[|fields| - 1].1)
    else
      var front := fields[..|fields| - 1];
      assert forall i :: 0 <= i < |front| ==> front[i] == fields[i];
      Get(front, key)
  }

  /** A key that occurs exactly once is found with its value. */
  lemma GetUnique(fields: seq<(string, Json)>, key: string, i: nat)
    requires i < |fields| && fields[i].0 == key
    requires forall j :: 0 <= j < |fields| && j != i ==> fields[j].0 != key
    ensures Get(fields, key) == Some(fields[i].1)
  {
  }

  /** Two field lists that have the same entries under `key`, at the same
      positions, give the same answer for `key`. */
  lemma {:induction false} GetAgree(f1: seq<(string, Json)>, f2: seq<(string, Json)>, key: string)
    requires |f1| == |f2|
    requires forall i :: 0 <= i < |f1| ==> (f1[i].0 == key <==> f2[i].0 == key)
    requires forall i :: 0 <= i < |f1| && f1[i].0 == key ==> f1[i] == f2[i]
    ensures Get(f1, key) == Get(f2, key)
    decreases |f1|
  {
    if |f1| > 0 && f1[|f1| - 1].0 != key {
      GetAgree(f1[..|f1| - 1], f2[..|f2| - 1], key);
    }
  }

  /** A key present at least once, always with the same value, is found
      with that value. */
  lemma GetAllSame(fields: seq<(string, Json)>, key: string, v: Json, i: nat)
    requires i < |fields| && fields[i].0 == key
    requires forall j :: 0 <= j < |fields| && fields[j].0 == key ==> fields[j].1 == v
    ensures Get(fields, key) == Some(v)
  {
  }

  /** `d.get(key, default)`. */
  function GetOr(fields: seq<(string, Json)>, key: string, default: Json): Json {
    match Get(fields, key)
    case Some(v) => v
    case None => default
  }

  /** The keys of the dict `json.loads` builds from an object's fields:
      each key once, at the position of its first occurrence. */
  function Keys(fields: seq<(string, Json)>): (r: seq<string>)
    ensures forall k :: 0 <= k < |r| ==> exists i :: 0 <= i < |fields| && fields[i].0 == r[k]
    ensures forall i :: 0 <= i < |fields| ==> fields[i].0 in r
    ensures forall a, b :: 0 <= a < b < |r| ==> r[a] != r[b]
    decreases |fields|
  {
    if |fields| == 0 then []
    else
      var front := fields[..|fields| - 1];
      var key := fields[|fields| - 1].0;
      var keys := Keys(front);
      assert forall i :: 0 <= i < |front| ==> front[i] == fields[i];
      if key in keys then keys else keys + [key]
  }

  /** What `for x in j` walks over: the elements of a list, the distinct
      keys of an object, the one-character strings of a string. `None` when
      Python raises `TypeError` because the value is not iterable. */
  function Iterate(j: Json): (r: Option<seq<Json>>)
    ensures r.Some? <==> j.JArr? || j.JObj? || j.JStr?
    ensures j.JArr? ==> r == Some(j.items)
    ensures r.Some? ==> (|r.value| == 0 <==> !Truthy(j))
    ensures j.JObj? ==>
      |r.value| == |Keys(j.fields)| && forall k :: 0 <= k < |r.value| ==> r.value[k] == JStr(Keys(j.fields)[k])
    ensures j.JStr? ==>
      |r.value| == |j.s| && forall k :: 0 <= k < |r.value| ==> r.value[k] == JStr([j.s[k]])
  {
    match j
    case JArr(items) => Some(items)
    case JObj(fields) =>
      var keys := Keys(fields);
      assert |fields| > 0 ==> fields[0].0 in keys;
      Some(seq(|keys|, k requires 0 <= k < |keys| => JStr(keys[k])))
    case JStr(s) => Some(seq(|s|, k requires 0 <= k < |s| => JStr([s[k]])))
    case _ => None
  }

  /** The value a decoded number has in Python arithmetic (`bool` is a
      subclass of `int`); `None` for values that are not numbers. */
  function AsNumber(j: Json): (r: Option<real>)
    ensures r.Some? <==> j.JInt? || j.JFloat? || j.JBool?
    ensures j.JInt? ==> r == Some(j.i as real)
    ensures j.JFloat? ==> r == Some(j.f)
    ensures j.JBool? ==> r == Some(if j.b then 1.0 else 0.0)
  {
    match j
    case JInt(i) => Some(i as real)
    case JFloat(f) => Some(f)
    case JBool(b) => Some(if b then 1.0 else 0.0)
    case _ => None
  }

  /** The value a decoded number has where an `int` argument is required
      (a `QColor` channel): floats are refused with `TypeError`. */
  function AsInt(j: Json): (r: Option<int>)
    ensures r.Some? <==> j.JInt? || j.JBool?
    ensures j.JInt? ==> r == Some(j.i)
    ensures j.JBool? ==> r == Some(if j.b then 1 else 0)
  {
    match j
    case JInt(i) => Some(i)
    case JBool(b) => Some(if b then 1 else 0)
    case _ => None
  }
}
