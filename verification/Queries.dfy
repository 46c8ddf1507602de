/** Grouping the entries of a URI query (src/uri.ts) and reading the groups
    (src/query_parser.ts). */
module Queries {
  import opened Wrappers

  datatype QueryValue = Scalar(value: string) | Many(values: seq<string>)

  type Query = map<string, QueryValue>

  /** The last value; an empty array has none. */
  function AsScalar(v: QueryValue): Option<string> {
    match v
    case Scalar(value) => Some(value)
    case Many(values) => if values == [] then None else Some(values[|values| - 1])
  }

  function AsArray(v: QueryValue): seq<string> {
    match v
    case Scalar(value) => [value]
    case Many(values) => values
  }

  /** The values given for `key`, in order. */
  ghost function ValuesOf(entries: seq<(string, string)>, key: string): seq<string> {
    if entries == [] then []
    else
      var n := |entries| - 1;
      ValuesOf(entries[..n], key) + if entries[n].0 == key then [entries[n].1] else []
  }

  /** `places` are the places of `key`, in order, and `values` what is there. */
  ghost predicate At(entries: seq<(string, string)>, key: string, places: seq<nat>, values: seq<string>) {
    && |places| == |values|
    && (forall j :: 0 <= j < |places| ==> places[j] < |entries| && entries[places[j]] == (key, values[j]))
    && (forall j, k :: 0 <= j < k < |places| ==> places[j] < places[k])
    && (forall i :: 0 <= i < |entries| && entries[i].0 == key ==> i in places)
  }

  lemma AtSnoc(front: seq<(string, string)>, e: (string, string), key: string, places: seq<nat>, values: seq<string>)
    requires At(front, key, places, values)
    ensures if e.0 == key then At(front + [e], key, places + [|front|], values + [e.1])
            else At(front + [e], key, places, values)
  {
  }

  /** They are the values at exactly the places of `key`. */
  lemma {:induction false} ValuesOfSpec(entries: seq<(string, string)>, key: string) returns (places: seq<nat>)
    ensures At(entries, key, places, ValuesOf(entries, key))
    decreases |entries|
  {
    places := [];
    if entries != [] {
      var n := |entries| - 1;
      places := ValuesOfSpec(entries[..n], key);
      assert entries == entries[..n] + [entries[n]];
      AtSnoc(entries[..n], entries[n], key, places, ValuesOf(entries[..n], key));
      assert ValuesOf(entries[..n], key) + [] == ValuesOf(entries[..n], key);
      if entries[n].0 == key {
        places := places + [n];
      }
    }
  }

  /** `q` is the grouping of `entries`: each key has its values in order, as a
      scalar when there is one. Assigning a string to `__proto__` does
      nothing. */
  ghost predicate Groups(q: Query, entries: seq<(string, string)>) {
    forall key ::
      && (key in q <==> key != "__proto__" && ValuesOf(entries, key) != [])
      && (key in q ==>
            q[key] == if |ValuesOf(entries, key)| == 1 then Scalar(ValuesOf(entries, key)[0])
                      else Many(ValuesOf(entries, key)))
  }

  method ParseQueries(entries: seq<(string, string)>) returns (result: Query)
    ensures Groups(result, entries)
    ensures forall key :: key in result ==>
      && AsArray(result[key]) == ValuesOf(entries, key)
      && AsScalar(result[key]) == Some(ValuesOf(entries, key)[|ValuesOf(entries, key)| - 1])
  {
    result := map[];
    for i := 0 to |entries|
      invariant Groups(result, entries[..i])
    {
      var (key, value) := entries[i];
      assert entries[..i + 1][..i] == entries[..i];
      if key in result {
        match result[key] {
          case Many(values) => result := result[key := Many(values + [value])];
          case Scalar(first) => result := result[key := Many([first, value])];
        }
      } else if key != "__proto__" {
        result := result[key := Scalar(value)];
      }
    }
    assert entries[..|entries|] == entries;
  }
}
