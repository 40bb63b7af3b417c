/**
 JSON values as JavaScript's JSON.parse hands them to the scripts, and the
 three JavaScript operations the scripts apply to them: truthiness (`!!v`),
 property lookup (`obj[k]`) and property assignment (`obj[k] = v`) on an
 object whose property order is kept.
 */
module Json {

  datatype Option<+T> = None | Some(value: T)

  /** An object is its properties in enumeration order. */
  datatype JsonValue =
    | JNull
    | JBool(b: bool)
    | JNumber(n: real)
    | JString(s: string)
    | JArray(items: seq<JsonValue>)
    | JObject(fields: seq<(string, JsonValue)>)

  /** `!!v`: null, false, 0 and "" are falsy; every array and object is truthy. */
  predicate Truthy(v: JsonValue) {
    match v
    case JNull => false
    case JBool(b) => b
    case JNumber(n) => n != 0.0
    case JString(s) => s != ""
    case JArray(_) => true
    case JObject(_) => true
  }

  /** The property names, in order (`Object.keys`). */
  function Keys<T>(fields: seq<(string, T)>): (ks: seq<string>)
    ensures |ks| == |fields|
    ensures forall i :: 0 <= i < |fields| ==> ks[i] == fields[i].0
  {
    if |fields| == 0 then [] else [fields[0].0] + Keys(fields[1..])
  }

  predicate DistinctKeys<T>(fields: seq<(string, T)>) {
    forall i, j :: 0 <= i < j < |fields| ==> fields[i].0 != fields[j].0
  }

  /** `obj[k]`: the value of the property named k, or None for `undefined`. */
  function Lookup<T>(fields: seq<(string, T)>, k: string): (r: Option<T>)
    ensures r.None? <==> k !in Keys(fields)
    ensures r.Some? ==> (k, r.value) in fields
  {
    if |fields| == 0 then None
    else if fields[0].0 == k then Some(fields[0].1)
    else Lookup(fields[1..], k)
  }

  /** Every property named k takes the value v where it stands. */
  function Overwrite<T>(fields: seq<(string, T)>, k: string, v: T): (r: seq<(string, T)>)
    ensures Keys(r) == Keys(fields)
    ensures k in Keys(fields) ==> Lookup(r, k) == Some(v)
    ensures forall j :: j != k ==> Lookup(r, j) == Lookup(fields, j)
  {
    if |fields| == 0 then []
    else [if fields[0].0 == k then (k, v) else fields[0]] + Overwrite(fields[1..], k, v)
  }

  lemma {:induction false} LookupAppend<T>(fields: seq<(string, T)>, k: string, v: T, j: string)
    requires k !in Keys(fields)
    ensures Keys(fields + [(k, v)]) == Keys(fields) + [k]
    ensures Lookup(fields + [(k, v)], j) == if j == k then Some(v) else Lookup(fields, j)
  {
    if |fields| > 0 {
      assert (fields + [(k, v)])[1..] == fields[1..] + [(k, v)];
      LookupAppend(fields[1..], k, v, j);
    }
  }

  /**
   `obj[k] = v` on a plain object: an existing property keeps its place and
   takes the new value; a new property goes after all the others, which is
   JavaScript's order for a key that is not an array index. Nothing else is
   touched.
   */
  function Assign<T>(fields: seq<(string, T)>, k: string, v: T): (r: seq<(string, T)>)
    ensures Lookup(r, k) == Some(v)
    ensures forall j :: j != k ==> Lookup(r, j) == Lookup(fields, j)
    ensures Keys(r) == if k in Keys(fields) then Keys(fields) else Keys(fields) + [k]
  {
    if k in Keys(fields) then Overwrite(fields, k, v)
    else
      LookupAppend(fields, k, v, k);
      assert forall j :: Lookup(fields + [(k, v)], j) == if j == k then Some(v) else Lookup(fields, j) by {
        forall j { LookupAppend(fields, k, v, j); }
      }
      fields + [(k, v)]
  }

  lemma {:induction false} OverwriteTwice<T>(fields: seq<(string, T)>, k: string, v: T)
    ensures Overwrite(Overwrite(fields, k, v), k, v) == Overwrite(fields, k, v)
  {
    if |fields| > 0 {
      var r := Overwrite(fields, k, v);
      assert r[1..] == Overwrite(fields[1..], k, v);
      OverwriteTwice(fields[1..], k, v);
    }
  }

  lemma {:induction false} OverwriteAbsent<T>(fields: seq<(string, T)>, k: string, v: T)
    requires k !in Keys(fields)
    ensures Overwrite(fields, k, v) == fields
  {
    if |fields| > 0 {
      OverwriteAbsent(fields[1..], k, v);
    }
  }

  lemma {:induction false} OverwriteConcat<T>(a: seq<(string, T)>, b: seq<(string, T)>, k: string, v: T)
    ensures Overwrite(a + b, k, v) == Overwrite(a, k, v) + Overwrite(b, k, v)
  {
    if |a| > 0 {
      assert (a + b)[1..] == a[1..] + b;
      OverwriteConcat(a[1..], b, k, v);
    } else {
      assert a + b == b;
    }
  }

  lemma {:induction false} OverwriteCommute<T>(fields: seq<(string, T)>, k1: string, v1: T, k2: string, v2: T)
    requires k1 != k2
    ensures Overwrite(Overwrite(fields, k1, v1), k2, v2) == Overwrite(Overwrite(fields, k2, v2), k1, v1)
  {
    if |fields| > 0 {
      OverwriteCommute(fields[1..], k1, v1, k2, v2);
    }
  }

  /** Assigning the same value to the same property twice is the same as once. */
  lemma AssignIdempotent<T>(fields: seq<(string, T)>, k: string, v: T)
    ensures Assign(Assign(fields, k, v), k, v) == Assign(fields, k, v)
  {
    if k in Keys(fields) {
      OverwriteTwice(fields, k, v);
    } else {
      OverwriteConcat(fields, [(k, v)], k, v);
      OverwriteAbsent(fields, k, v);
    }
  }

  /** Assignment never creates a second property with the same name. */
  lemma AssignKeepsKeysDistinct<T>(fields: seq<(string, T)>, k: string, v: T)
    requires DistinctKeys(fields)
    ensures DistinctKeys(Assign(fields, k, v))
  {
    var r := Assign(fields, k, v);
    forall i, j | 0 <= i < j < |r| ensures r[i].0 != r[j].0 {
      assert Keys(r)[i] == r[i].0 && Keys(r)[j] == r[j].0;
      if j < |fields| {
        assert Keys(fields)[i] == fields[i].0 && Keys(fields)[j] == fields[j].0;
      } else {
        assert Keys(fields)[i] == fields[i].0;
      }
    }
  }
}
