/** `QueryParser` of src/query_parser.ts: a Map from query names to targets and
    parsers, and the fold that applies it to a query. */
module QueryParsers {
  import opened Wrappers
  import opened Queries

  /** What parsers produce. */
  datatype Parsed = Raw(value: QueryValue) | Number(n: nat) | Flag(b: bool) | Custom(tag: nat)

  /** `None` stands for a thrown error. */
  type Parser = QueryValue -> Option<Parsed>

  datatype Descriptor = Descriptor(source: string, parser: Option<Parser>, target: Option<string>)

  datatype MapEntry = MapEntry(target: string, parser: Parser)

  /** The entries of a Map, in its iteration order. */
  type Entries = seq<(string, MapEntry)>

  /** `assertParsers`, `assertTargets` and `intoPairs` on one descriptor. */
  function IntoPair(d: Descriptor): (string, MapEntry) {
    (d.source,
     MapEntry(if d.target.Some? then d.target.value else d.source,
              if d.parser.Some? then d.parser.value else (raw: QueryValue) => Some(Raw(raw))))
  }

  function IntoPairs(ds: seq<Descriptor>): Entries {
    if ds == [] then [] else [IntoPair(ds[0])] + IntoPairs(ds[1..])
  }

  /** The place of `key`; the length if it is not there. */
  function IndexOf(m: Entries, key: string): (i: nat)
    ensures i <= |m| && (i < |m| ==> m[i].0 == key)
    ensures forall j :: 0 <= j < i ==> m[j].0 != key
  {
    if m == [] || m[0].0 == key then 0 else 1 + IndexOf(m[1..], key)
  }

  /** `map.set(key, entry)`: a key that is there keeps its place. */
  function MapSet(m: Entries, key: string, entry: MapEntry): Entries {
    var i := IndexOf(m, key);
    if i < |m| then m[i := (key, entry)] else m + [(key, entry)]
  }

  /** `new Map(pairs)`. */
  function MapOf(pairs: Entries): Entries {
    if pairs == [] then []
    else
      var n := |pairs| - 1;
      MapSet(MapOf(pairs[..n]), pairs[n].0, pairs[n].1)
  }

  /** The constructor. */
  function Build(descriptors: seq<Descriptor>): Entries {
    MapOf(IntoPairs(descriptors))
  }

  /** `createSourceChecker` as a filter. */
  function WithSources(entries: Entries, query: Query): (r: Entries)
    ensures forall e :: e in r <==> e in entries && e.0 in query
  {
    if entries == [] then []
    else
      var n := |entries| - 1;
      WithSources(entries[..n], query) + if entries[n].0 in query then [entries[n]] else []
  }

  /** `reduce(createParsedAppender(query), init)`; `None` if a parser threw. */
  function Reduce(entries: Entries, query: Query, init: map<string, Parsed>): Option<map<string, Parsed>>
    requires forall e :: e in entries ==> e.0 in query
  {
    if entries == [] then Some(init)
    else
      var n := |entries| - 1;
      match Reduce(entries[..n], query, init)
      case None => None
      case Some(previous) =>
        var (source, MapEntry(target, parser)) := entries[n];
        match parser(query[source])
        case None => None
        case Some(value) => Some(previous[target := value])
  }

  function Parse(entries: Entries, query: Query, init: map<string, Parsed>): Option<map<string, Parsed>> {
    Reduce(WithSources(entries, query), query, init)
  }

  /** `places` are the places whose source is in the query, in order, and `kept`
      the entries there. */
  ghost predicate Filtered(entries: Entries, query: Query, places: seq<nat>, kept: Entries) {
    && |places| == |kept|
    && (forall j :: 0 <= j < |places| ==> places[j] < |entries| && kept[j] == entries[places[j]])
    && (forall j :: 0 <= j < |kept| ==> kept[j].0 in query)
    && (forall j, k :: 0 <= j < k < |places| ==> places[j] < places[k])
    && (forall i :: 0 <= i < |entries| && entries[i].0 in query ==> i in places)
  }

  lemma FilteredSnoc(front: Entries, e: (string, MapEntry), query: Query, places: seq<nat>, kept: Entries)
    requires Filtered(front, query, places, kept)
    ensures if e.0 in query then Filtered(front + [e], query, places + [|front|], kept + [e])
            else Filtered(front + [e], query, places, kept)
  {
  }

  /** `withSources` is that filter. */
  lemma {:induction false} WithSourcesSpec(entries: Entries, query: Query) returns (places: seq<nat>)
    ensures Filtered(entries, query, places, WithSources(entries, query))
    decreases |entries|
  {
    places := [];
    if entries != [] {
      var n := |entries| - 1;
      places := WithSourcesSpec(entries[..n], query);
      FilteredSnoc(entries[..n], entries[n], query, places, WithSources(entries[..n], query));
      assert entries == entries[..n] + [entries[n]];
      assert WithSources(entries[..n], query) + [] == WithSources(entries[..n], query);
      if entries[n].0 in query {
        places := places + [n];
      }
    }
  }

  // ---------------------------------------------------------------------------
  // The Map.

  /** The value of the last pair with the key. */
  ghost function LastValue(pairs: Entries, key: string): Option<MapEntry> {
    if pairs == [] then None
    else
      var n := |pairs| - 1;
      if pairs[n].0 == key then Some(pairs[n].1) else LastValue(pairs[..n], key)
  }

  /** `m` is the Map of `pairs`: the same keys, once each, in the order of
      their first pairs and with the values of their last. */
  ghost predicate IsMapOf(m: Entries, pairs: Entries) {
    && (forall key :: IndexOf(m, key) < |m| <==> IndexOf(pairs, key) < |pairs|)
    && (forall j :: 0 <= j < |m| ==> LastValue(pairs, m[j].0) == Some(m[j].1))
    && (forall j, k :: 0 <= j < k < |m| ==> IndexOf(pairs, m[j].0) < IndexOf(pairs, m[k].0))
  }

  lemma IndexOfSnoc(m: Entries, pair: (string, MapEntry), key: string)
    ensures IndexOf(m + [pair], key)
         == if IndexOf(m, key) < |m| then IndexOf(m, key)
            else if pair.0 == key then |m| else |m| + 1
  {
    var i := IndexOf(m, key);
    assert (m + [pair])[|m|] == pair;
    assert forall j :: 0 <= j < |m| ==> (m + [pair])[j] == m[j];
    if i < |m| {
      assert (m + [pair])[i].0 == key;
    }
  }

  lemma {:induction false} MapOfSpec(pairs: Entries)
    ensures IsMapOf(MapOf(pairs), pairs)
    decreases |pairs|
  {
    if pairs != [] {
      var n := |pairs| - 1;
      MapOfSpec(pairs[..n]);
      assert pairs == pairs[..n] + [pairs[n]];
      MapSetSpec(MapOf(pairs[..n]), pairs[..n], pairs[n]);
    }
  }

  lemma MapSetKeys(m: Entries, pair: (string, MapEntry), key: string)
    ensures var t := MapSet(m, pair.0, pair.1);
      IndexOf(t, key) < |t| <==> IndexOf(m, key) < |m| || pair.0 == key
  {
    var i := IndexOf(m, pair.0);
    if i < |m| {
      SameKeys(m, i, pair, key);
    } else {
      IndexOfSnoc(m, pair, key);
    }
  }

  lemma MapSetValue(m: Entries, pairs: Entries, pair: (string, MapEntry), j: nat)
    requires IsMapOf(m, pairs) && j < |MapSet(m, pair.0, pair.1)|
    ensures var e := MapSet(m, pair.0, pair.1)[j]; LastValue(pairs + [pair], e.0) == Some(e.1)
  {
    var i := IndexOf(m, pair.0);
    assert (pairs + [pair])[..|pairs|] == pairs;
    if i < |m| && j != i {
      OneEach(m, pairs, i, j);
    }
  }

  lemma MapSetOrder(m: Entries, pairs: Entries, pair: (string, MapEntry), j: nat, k: nat)
    requires IsMapOf(m, pairs) && j < k < |MapSet(m, pair.0, pair.1)|
    ensures var t := MapSet(m, pair.0, pair.1);
      IndexOf(pairs + [pair], t[j].0) < IndexOf(pairs + [pair], t[k].0)
  {
    var t := MapSet(m, pair.0, pair.1);
    IndexOfSnoc(pairs, pair, t[j].0);
    IndexOfSnoc(pairs, pair, t[k].0);
    assert t[j].0 == m[j].0 && IndexOf(m, m[j].0) <= j;
  }

  lemma MapSetSpec(m: Entries, pairs: Entries, pair: (string, MapEntry))
    requires IsMapOf(m, pairs)
    ensures IsMapOf(MapSet(m, pair.0, pair.1), pairs + [pair])
  {
    var t, more := MapSet(m, pair.0, pair.1), pairs + [pair];
    forall key
      ensures IndexOf(t, key) < |t| <==> IndexOf(more, key) < |more|
    {
      MapSetKeys(m, pair, key);
      IndexOfSnoc(pairs, pair, key);
    }
    forall j | 0 <= j < |t|
      ensures LastValue(more, t[j].0) == Some(t[j].1)
    {
      MapSetValue(m, pairs, pair, j);
    }
    forall j, k | 0 <= j < k < |t|
      ensures IndexOf(more, t[j].0) < IndexOf(more, t[k].0)
    {
      MapSetOrder(m, pairs, pair, j, k);
    }
  }

  lemma SameKeys(m: Entries, i: nat, pair: (string, MapEntry), key: string)
    requires i < |m| && m[i].0 == pair.0
    ensures IndexOf(m[i := pair], key) == IndexOf(m, key)
  {
    var t := m[i := pair];
    assert forall j :: 0 <= j < |m| ==> t[j].0 == m[j].0;
    assert IndexOf(m, key) < |m| ==> t[IndexOf(m, key)].0 == key;
    assert IndexOf(t, key) < |m| ==> m[IndexOf(t, key)].0 == key;
  }

  lemma OneEach(m: Entries, pairs: Entries, i: nat, j: nat)
    requires IsMapOf(m, pairs) && i < |m| && j < |m| && i != j
    ensures m[i].0 != m[j].0
  {
    assert IndexOf(pairs, m[i].0) < IndexOf(pairs, m[j].0) || IndexOf(pairs, m[j].0) < IndexOf(pairs, m[i].0);
  }

  // ---------------------------------------------------------------------------
  // The parse.

  /** Entry `i` is present in the query and its parser yields a value. */
  ghost predicate Succeeds(entries: Entries, query: Query, i: int)
    requires 0 <= i < |entries| && entries[i].0 in query
  {
    entries[i].1.parser(query[entries[i].0]).Some?
  }

  /** Entry `i` is the last present one for the target. */
  ghost predicate LastFor(entries: Entries, query: Query, target: string, i: int) {
    && 0 <= i < |entries| && entries[i].0 in query && entries[i].1.target == target
    && forall j :: i < j < |entries| && entries[j].0 in query ==> entries[j].1.target != target
  }

  /** `r` has for each target what the last present entry for it parses, and
      what `init` has for the others. */
  ghost predicate Maps(entries: Entries, query: Query, init: map<string, Parsed>, r: map<string, Parsed>) {
    && (forall t, i :: LastFor(entries, query, t, i) ==>
          t in r && Some(r[t]) == entries[i].1.parser(query[entries[i].0]))
    && (forall t :: (forall i :: !LastFor(entries, query, t, i)) ==>
          (t in r <==> t in init) && (t in r ==> r[t] == init[t]))
  }

  /** `parse` fails exactly if the parser of a present source fails, and
      otherwise the last present entry for a target, in Map order, wins. */
  lemma {:induction false} ParseSpec(entries: Entries, query: Query, init: map<string, Parsed>)
    ensures Parse(entries, query, init) == None
       <==> exists i :: 0 <= i < |entries| && entries[i].0 in query && !Succeeds(entries, query, i)
    ensures Parse(entries, query, init).Some? ==> Maps(entries, query, init, Parse(entries, query, init).value)
    decreases |entries|
  {
    if entries != [] {
      var n := |entries| - 1;
      var front := entries[..n];
      ParseSpec(front, query, init);
      ReduceSnoc(front, entries[n], query, init);
      FailsSnoc(front, entries[n], query);
      assert entries == front + [entries[n]];
      if Parse(entries, query, init).Some? {
        MapsSnoc(front, entries[n], query, init, Parse(front, query, init).value);
      }
    }
  }

  lemma FailsSnoc(front: Entries, e: (string, MapEntry), query: Query)
    ensures (exists i :: 0 <= i < |front + [e]| && (front + [e])[i].0 in query && !Succeeds(front + [e], query, i))
       <==> (exists i :: 0 <= i < |front| && front[i].0 in query && !Succeeds(front, query, i))
            || (e.0 in query && e.1.parser(query[e.0]) == None)
  {
    var more := front + [e];
    assert more[|front|] == e;
    if i :| 0 <= i < |front| && front[i].0 in query && !Succeeds(front, query, i) {
      assert more[i] == front[i] && !Succeeds(more, query, i);
    }
    if e.0 in query && e.1.parser(query[e.0]) == None {
      assert !Succeeds(more, query, |front|);
    }
  }

  /** One more entry. */
  lemma ReduceSnoc(front: Entries, e: (string, MapEntry), query: Query, init: map<string, Parsed>)
    ensures var before := Parse(front, query, init);
      Parse(front + [e], query, init)
      == if before == None || e.0 !in query then before
         else match e.1.parser(query[e.0])
              case None => None
              case Some(value) => Some(before.value[e.1.target := value])
  {
    assert (front + [e])[..|front|] == front;
    var kept := WithSources(front, query);
    if e.0 in query {
      assert (kept + [e])[..|kept|] == kept;
    } else {
      assert kept + [] == kept;
    }
  }

  lemma LastForSnoc(front: Entries, e: (string, MapEntry), query: Query, t: string, i: int)
    ensures LastFor(front + [e], query, t, i) <==>
      if e.0 in query && e.1.target == t then i == |front| else LastFor(front, query, t, i)
  {
    var more := front + [e];
    assert more[|front|] == e;
    assert forall j :: 0 <= j < |front| ==> more[j] == front[j];
  }

  lemma MapsSnoc(front: Entries, e: (string, MapEntry), query: Query, init: map<string, Parsed>,
                 before: map<string, Parsed>)
    requires Maps(front, query, init, before)
    requires e.0 in query ==> e.1.parser(query[e.0]).Some?
    ensures Maps(front + [e], query, init,
                 if e.0 in query then before[e.1.target := e.1.parser(query[e.0]).value] else before)
  {
    var more := front + [e];
    var n := |front|;
    forall t, i {
      LastForSnoc(front, e, query, t, i);
    }
    assert forall i :: 0 <= i < n ==> more[i] == front[i];
    if e.0 in query {
      assert LastFor(more, query, e.1.target, n);
    }
  }

  // ---------------------------------------------------------------------------
  // From descriptors to result.

  /** The descriptor that counts for its source: the last one with it. */
  ghost predicate Effective(ds: seq<Descriptor>, i: int) {
    0 <= i < |ds| && forall j :: i < j < |ds| ==> ds[j].source != ds[i].source
  }

  ghost function TargetOf(d: Descriptor): string {
    if d.target == None then d.source else d.target.value
  }

  /** What the descriptor makes of its value; without a parser, the value. */
  ghost function Applied(d: Descriptor, query: Query): Option<Parsed>
    requires d.source in query
  {
    if d.parser == None then Some(Raw(query[d.source])) else d.parser.value(query[d.source])
  }

  /** Where the source is described first. */
  ghost function FirstPlace(ds: seq<Descriptor>, source: string): nat {
    if ds == [] || ds[0].source == source then 0 else 1 + FirstPlace(ds[1..], source)
  }

  ghost predicate Applies(ds: seq<Descriptor>, query: Query, target: string, i: int) {
    Effective(ds, i) && ds[i].source in query && TargetOf(ds[i]) == target
  }

  /** Of all that apply to the target, `i` has the source described latest. */
  ghost predicate Wins(ds: seq<Descriptor>, query: Query, target: string, i: int) {
    && Applies(ds, query, target, i)
    && forall k :: Applies(ds, query, target, k) && k != i ==>
         FirstPlace(ds, ds[k].source) < FirstPlace(ds, ds[i].source)
  }

  lemma {:induction false} PairsAt(ds: seq<Descriptor>)
    ensures |IntoPairs(ds)| == |ds|
    ensures forall i :: 0 <= i < |ds| ==> IntoPairs(ds)[i] == IntoPair(ds[i])
  {
    if ds != [] {
      PairsAt(ds[1..]);
    }
  }

  lemma {:induction false} FirstPlaceIs(ds: seq<Descriptor>, source: string)
    ensures FirstPlace(ds, source) == IndexOf(IntoPairs(ds), source)
  {
    if ds != [] {
      FirstPlaceIs(ds[1..], source);
      assert IntoPairs(ds)[1..] == IntoPairs(ds[1..]);
    }
  }

  lemma {:induction false} LastValueAt(pairs: Entries, i: nat)
    requires i < |pairs| && forall j :: i < j < |pairs| ==> pairs[j].0 != pairs[i].0
    ensures LastValue(pairs, pairs[i].0) == Some(pairs[i].1)
    decreases |pairs|
  {
    if i < |pairs| - 1 {
      LastValueAt(pairs[..|pairs| - 1], i);
    }
  }

  lemma {:induction false} LastValueFrom(pairs: Entries, key: string) returns (i: nat)
    requires LastValue(pairs, key).Some?
    ensures i < |pairs| && pairs[i] == (key, LastValue(pairs, key).value)
    ensures forall j :: i < j < |pairs| ==> pairs[j].0 != key
    decreases |pairs|
  {
    var n := |pairs| - 1;
    if pairs[n].0 == key {
      i := n;
    } else {
      i := LastValueFrom(pairs[..n], key);
      assert forall j :: i < j < n ==> pairs[j] == pairs[..n][j];
    }
  }

  /** Each effective descriptor has its entry in the map. */
  lemma EntryOf(ds: seq<Descriptor>, i: nat) returns (j: nat)
    requires Effective(ds, i)
    ensures j < |Build(ds)| && Build(ds)[j] == IntoPair(ds[i])
  {
    PairsAt(ds);
    MapOfSpec(IntoPairs(ds));
    LastValueAt(IntoPairs(ds), i);
    j := IndexOf(Build(ds), ds[i].source);
    assert IntoPairs(ds)[i].0 == ds[i].source;
  }

  /** Each entry comes from an effective descriptor. */
  lemma DescriptorOf(ds: seq<Descriptor>, j: nat) returns (i: nat)
    requires j < |Build(ds)|
    ensures Effective(ds, i) && Build(ds)[j] == IntoPair(ds[i])
  {
    PairsAt(ds);
    MapOfSpec(IntoPairs(ds));
    i := LastValueFrom(IntoPairs(ds), Build(ds)[j].0);
  }

  /** The map has its entries in the order of the first descriptors. */
  lemma EntryOrder(ds: seq<Descriptor>, j: nat, k: nat)
    requires j < k < |Build(ds)|
    ensures FirstPlace(ds, Build(ds)[j].0) < FirstPlace(ds, Build(ds)[k].0)
  {
    MapOfSpec(IntoPairs(ds));
    FirstPlaceIs(ds, Build(ds)[j].0);
    FirstPlaceIs(ds, Build(ds)[k].0);
  }

  lemma LastForWins(ds: seq<Descriptor>, query: Query, target: string, j: nat, i: nat)
    requires j < |Build(ds)| && Effective(ds, i) && Build(ds)[j] == IntoPair(ds[i])
    ensures LastFor(Build(ds), query, target, j) <==> Wins(ds, query, target, i)
  {
    var m := Build(ds);
    if LastFor(m, query, target, j) {
      forall k | Applies(ds, query, target, k) && k != i
        ensures FirstPlace(ds, ds[k].source) < FirstPlace(ds, ds[i].source)
      {
        var l := EntryOf(ds, k);
        assert ds[k].source != ds[i].source;
        assert l < j;
        EntryOrder(ds, l, j);
      }
    }
    if Wins(ds, query, target, i) {
      forall l | j < l < |m| && m[l].0 in query
        ensures m[l].1.target != target
      {
        var k := DescriptorOf(ds, l);
        EntryOrder(ds, j, l);
        assert Applies(ds, query, target, k) || m[l].1.target != target;
      }
    }
  }

  lemma {:induction false} LastForExists(m: Entries, query: Query, j: nat) returns (l: nat)
    requires j < |m| && m[j].0 in query
    ensures LastFor(m, query, m[j].1.target, l)
    decreases |m| - j
  {
    if k :| j < k < |m| && m[k].0 in query && m[k].1.target == m[j].1.target {
      l := LastForExists(m, query, k);
    } else {
      l := j;
    }
  }

  /** If anything applies to a target, something wins. */
  lemma WinnerExists(ds: seq<Descriptor>, query: Query, target: string, i: nat) returns (w: nat)
    requires Applies(ds, query, target, i)
    ensures Wins(ds, query, target, w)
  {
    var j := EntryOf(ds, i);
    var l := LastForExists(Build(ds), query, j);
    w := DescriptorOf(ds, l);
    LastForWins(ds, query, target, l, w);
  }

  /** From descriptors to result: `parse` fails exactly if an effective
      descriptor with a present source does, and otherwise each target has what
      its winner yields, and what `init` has if nothing applies. */
  lemma BuildAndParse(ds: seq<Descriptor>, query: Query, init: map<string, Parsed>)
    ensures Parse(Build(ds), query, init) == None
       <==> exists i :: Effective(ds, i) && ds[i].source in query && Applied(ds[i], query) == None
    ensures Parse(Build(ds), query, init).Some? ==>
      var r := Parse(Build(ds), query, init).value;
      && (forall t, i :: Wins(ds, query, t, i) ==> t in r && Some(r[t]) == Applied(ds[i], query))
      && (forall t :: (forall i :: !Applies(ds, query, t, i)) ==>
            (t in r <==> t in init) && (t in r ==> r[t] == init[t]))
  {
    ParseSpec(Build(ds), query, init);
    BuildFails(ds, query);
    if Parse(Build(ds), query, init).Some? {
      BuildMaps(ds, query, init, Parse(Build(ds), query, init).value);
    }
  }

  lemma BuildFails(ds: seq<Descriptor>, query: Query)
    ensures (exists j :: 0 <= j < |Build(ds)| && Build(ds)[j].0 in query && !Succeeds(Build(ds), query, j))
       <==> exists i :: Effective(ds, i) && ds[i].source in query && Applied(ds[i], query) == None
  {
    var m := Build(ds);
    if j :| 0 <= j < |m| && m[j].0 in query && !Succeeds(m, query, j) {
      var i := DescriptorOf(ds, j);
    }
    if i :| Effective(ds, i) && ds[i].source in query && Applied(ds[i], query) == None {
      var j := EntryOf(ds, i);
      assert !Succeeds(m, query, j);
    }
  }

  lemma BuildMaps(ds: seq<Descriptor>, query: Query, init: map<string, Parsed>, r: map<string, Parsed>)
    requires Maps(Build(ds), query, init, r)
    ensures forall t, i :: Wins(ds, query, t, i) ==> t in r && Some(r[t]) == Applied(ds[i], query)
    ensures forall t :: (forall i :: !Applies(ds, query, t, i)) ==>
      (t in r <==> t in init) && (t in r ==> r[t] == init[t])
  {
    forall t, i | Wins(ds, query, t, i)
      ensures t in r && Some(r[t]) == Applied(ds[i], query)
    {
      var j := EntryOf(ds, i);
      LastForWins(ds, query, t, j, i);
    }
    forall t | forall i :: !Applies(ds, query, t, i)
      ensures (t in r <==> t in init) && (t in r ==> r[t] == init[t])
    {
      forall j
        ensures !LastFor(Build(ds), query, t, j)
      {
        if LastFor(Build(ds), query, t, j) {
          var i := DescriptorOf(ds, j);
          assert Applies(ds, query, t, i);
        }
      }
    }
  }
}
