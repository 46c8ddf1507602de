/** `toCamelCase` (src/utility.ts) and the renaming fold of `addQuery`
    (src/uri.ts), with the exact condition under which the order of the keys
    does not matter. */
module CamelCase {
  import opened Letters

  predicate IsLower(c: char) {
    'a' <= c <= 'z'
  }

  function Upper(c: char): char
    requires IsLower(c)
  {
    (c as int - 32) as char
  }

  /** The regular expression `_([a-z])` matches at `i`. */
  predicate MatchesAt(s: string, i: int) {
    0 <= i < |s| - 1 && s[i] == '_' && IsLower(s[i + 1])
  }

  /** Replaces the first match only. */
  function ToCamelCase(s: string): string {
    if |s| < 2 then s
    else if MatchesAt(s, 0) then [Upper(s[1])] + s[2..]
    else [s[0]] + ToCamelCase(s[1..])
  }

  ghost predicate FirstMatch(s: string, i: int) {
    MatchesAt(s, i) && forall j :: 0 <= j < i ==> !MatchesAt(s, j)
  }

  lemma {:induction false} CamelWithoutMatch(s: string)
    requires forall i :: !MatchesAt(s, i)
    ensures ToCamelCase(s) == s
    decreases |s|
  {
    if |s| >= 2 {
      assert forall i :: MatchesAt(s[1..], i) ==> MatchesAt(s, i + 1);
      CamelWithoutMatch(s[1..]);
    }
  }

  lemma Splice(s: string, i: nat, capital: string)
    requires 0 < i < |s| - 1
    ensures [s[0]] + (s[1..][..i - 1] + capital + s[1..][i + 1..]) == s[..i] + capital + s[i + 2..]
  {
    assert s[1..][i + 1..] == s[i + 2..] && [s[0]] + s[1..][..i - 1] == s[..i];
  }

  lemma {:induction false} CamelAtMatch(s: string, i: nat)
    requires FirstMatch(s, i)
    ensures ToCamelCase(s) == s[..i] + [Upper(s[i + 1])] + s[i + 2..]
    decreases i
  {
    if i > 0 {
      var rest := s[1..];
      assert forall j :: MatchesAt(rest, j) <==> 0 <= j && MatchesAt(s, j + 1);
      CamelAtMatch(rest, i - 1);
      assert !MatchesAt(s, 0);
      Splice(s, i, [Upper(s[i + 1])]);
    }
  }

  /** An underscore at `i`, and behind it the small letter of `capital`. */
  ghost predicate Capitalised(s: string, i: int, capital: char) {
    0 <= i < |s| - 1 && s[i] == '_' && CapitalOf(s[i + 1], capital)
  }

  lemma MatchesAtIff(s: string, i: int, capital: char)
    ensures Capitalised(s, i, capital) <==> MatchesAt(s, i) && capital == Upper(s[i + 1])
    ensures MatchesAt(s, i) <==> exists c :: Capitalised(s, i, c)
  {
    if 0 <= i < |s| - 1 {
      CapitalIs(s[i + 1], capital);
      if IsLower(s[i + 1]) {
        CapitalIs(s[i + 1], Upper(s[i + 1]));
        assert MatchesAt(s, i) ==> Capitalised(s, i, Upper(s[i + 1]));
      }
      if c :| Capitalised(s, i, c) {
        CapitalIs(s[i + 1], c);
      }
    }
  }

  /** A name changes exactly if it has an underscore with a small letter behind
      it; then the first such underscore goes and its letter becomes the
      capital. */
  lemma ToCamelCaseSpec(s: string)
    ensures forall i, capital ::
      Capitalised(s, i, capital) && (forall j, c :: j < i ==> !Capitalised(s, j, c)) ==>
        ToCamelCase(s) == s[..i] + [capital] + s[i + 2..]
    ensures ToCamelCase(s) != s <==> exists i, capital :: Capitalised(s, i, capital)
  {
    FirstMatchSpec(s);
    forall i, capital | Capitalised(s, i, capital) && forall j, c :: j < i ==> !Capitalised(s, j, c)
      ensures ToCamelCase(s) == s[..i] + [capital] + s[i + 2..]
    {
      MatchesAtIff(s, i, capital);
      forall j | 0 <= j < i
        ensures !MatchesAt(s, j)
      {
        MatchesAtIff(s, j, capital);
      }
      assert FirstMatch(s, i);
    }
    if i :| MatchesAt(s, i) {
      MatchesAtIff(s, i, Upper(s[i + 1]));
    }
    if i, capital :| Capitalised(s, i, capital) {
      MatchesAtIff(s, i, capital);
    }
  }

  lemma FirstMatchSpec(s: string)
    ensures forall i :: FirstMatch(s, i) ==> ToCamelCase(s) == s[..i] + [Upper(s[i + 1])] + s[i + 2..]
    ensures ToCamelCase(s) != s <==> exists i :: MatchesAt(s, i)
  {
    forall i | FirstMatch(s, i)
      ensures ToCamelCase(s) == s[..i] + [Upper(s[i + 1])] + s[i + 2..]
    {
      CamelAtMatch(s, i);
    }
    if m :| MatchesAt(s, m) {
      var i := LeastMatch(s, m);
      assert |ToCamelCase(s)| == |s| - 1;
    } else {
      CamelWithoutMatch(s);
    }
  }

  /** So a name is in camelCase afterwards exactly if it had one match at most. */
  lemma CamelFormIsFixedIff(s: string)
    ensures ToCamelCase(ToCamelCase(s)) == ToCamelCase(s)
       <==> forall i, j, c, d :: Capitalised(s, i, c) && Capitalised(s, j, d) ==> i == j
  {
    OneMatchIff(s);
    if i, j, c, d :| Capitalised(s, i, c) && Capitalised(s, j, d) && i != j {
      MatchesAtIff(s, i, c);
      MatchesAtIff(s, j, d);
    } else if i, j :| MatchesAt(s, i) && MatchesAt(s, j) && i != j {
      MatchesAtIff(s, i, Upper(s[i + 1]));
      MatchesAtIff(s, j, Upper(s[j + 1]));
    }
  }

  lemma OneMatchIff(s: string)
    ensures ToCamelCase(ToCamelCase(s)) == ToCamelCase(s)
       <==> forall i, j :: MatchesAt(s, i) && MatchesAt(s, j) ==> i == j
  {
    FirstMatchSpec(s);
    var c := ToCamelCase(s);
    FirstMatchSpec(c);
    if m :| MatchesAt(s, m) {
      var i := LeastMatch(s, m);
      assert c == s[..i] + [Upper(s[i + 1])] + s[i + 2..];
      forall j
        ensures MatchesAt(c, j) <==> j > i && MatchesAt(s, j + 1)
      {
        if 0 <= j < i {
          assert !MatchesAt(s, j) && c[j] == s[j];
        }
      }
      assert !MatchesAt(s, i + 1);
      assert forall j :: MatchesAt(s, j) && j != i ==> j - 1 > i && MatchesAt(c, j - 1);
    }
  }

  lemma {:induction false} LeastMatch(s: string, m: int) returns (i: int)
    requires MatchesAt(s, m)
    ensures FirstMatch(s, i)
  {
    i := 0;
    while !MatchesAt(s, i)
      invariant 0 <= i <= m && forall j :: 0 <= j < i ==> !MatchesAt(s, j)
      decreases m - i
    {
      i := i + 1;
    }
  }

  // ---------------------------------------------------------------------------
  // The fold over the keys.

  /** A key that the fold renames. */
  predicate Snake(k: string) {
    ToCamelCase(k) != k
  }

  function Rename<V>(q: map<string, V>, key: string): map<string, V>
    requires key in q
  {
    if !Snake(key) then q else q[ToCamelCase(key) := q[key]] - {key}
  }

  ghost predicate Distinct(s: seq<string>) {
    forall i, j :: 0 <= i < j < |s| ==> s[i] != s[j]
  }

  /** `keys.reduce(camelCaseQuery, q)` for keys of `q`. A key that is not yet
      processed is still there. */
  ghost function Fold<V>(q: map<string, V>, keys: seq<string>): (r: map<string, V>)
    requires Distinct(keys) && forall k :: k in keys ==> k in q
    ensures forall k :: k in q && k !in keys ==> k in r
  {
    if keys == [] then q
    else
      var n := |keys| - 1;
      assert keys[n] !in keys[..n];
      Rename(Fold(q, keys[..n]), keys[n])
  }

  /** `keys` lists the keys of `q`, in any order. */
  ghost predicate Orders<V>(keys: seq<string>, q: map<string, V>) {
    Distinct(keys) && (forall k :: k in keys ==> k in q) && (forall k :: k in q ==> k in keys)
  }

  /** The key is renamed to another key that is renamed as well. */
  ghost predicate Chained<V>(q: map<string, V>, k: string) {
    k in q && Snake(k) && ToCamelCase(k) in q && Snake(ToCamelCase(k))
  }

  /** Two keys with different values are renamed to the same name. */
  ghost predicate Collide<V>(q: map<string, V>, k: string, l: string) {
    k in q && l in q && Snake(k) && Snake(l) && ToCamelCase(k) == ToCamelCase(l) && q[k] != q[l]
  }

  ghost predicate Unambiguous<V>(q: map<string, V>) {
    (forall k :: !Chained(q, k)) && (forall k, l :: !Collide(q, k, l))
  }

  ghost predicate RenamedTo<V>(q: map<string, V>, done: seq<string>, k: string, n: string) {
    k in q && k in done && Snake(k) && ToCamelCase(k) == n
  }

  /** All keys of `done` renamed at once: a renamed key wins over a key that had
      the name before. */
  ghost predicate AtOnce<V>(q: map<string, V>, done: seq<string>, r: map<string, V>) {
    && (forall n :: n in r ==> (n in q && (n !in done || !Snake(n))) || exists k :: RenamedTo(q, done, k, n))
    && (forall n :: n in q && (n !in done || !Snake(n)) ==> n in r)
    && (forall k, n :: RenamedTo(q, done, k, n) ==> n in r && r[n] == q[k])
    && (forall n :: n in q && n in r && (forall k :: !RenamedTo(q, done, k, n)) ==> r[n] == q[n])
  }

  lemma AtOnceIsUnique<V>(q: map<string, V>, done: seq<string>, r: map<string, V>, s: map<string, V>)
    requires AtOnce(q, done, r) && AtOnce(q, done, s)
    ensures r == s
  {
    assert forall n :: n in r <==> n in s;
    forall n | n in r
      ensures r[n] == s[n]
    {
      if k :| RenamedTo(q, done, k, n) {
      }
    }
  }

  lemma RenameKeepsAtOnce<V>(q: map<string, V>, done: seq<string>, key: string, r: map<string, V>)
    requires Unambiguous(q) && AtOnce(q, done, r) && key in q && key !in done
    ensures key in r && AtOnce(q, done + [key], Rename(r, key))
  {
    var t := Rename(r, key);
    var c := ToCamelCase(key);
    assert forall k, n :: RenamedTo(q, done + [key], k, n) <==>
      RenamedTo(q, done, k, n) || (k == key && Snake(key) && n == c);
    if Snake(key) {
      assert forall k :: !RenamedTo(q, done, k, key) by {
        forall k
          ensures !RenamedTo(q, done, k, key)
        {
          assert !Chained(q, k);
        }
      }
      assert !Chained(q, key) && RenamedTo(q, done + [key], key, c);
      forall k, n | RenamedTo(q, done + [key], k, n)
        ensures n in t && t[n] == q[k]
      {
        assert !Collide(q, k, key) && !Chained(q, k);
      }
    }
  }

  lemma {:induction false} FoldIsAtOnce<V>(q: map<string, V>, keys: seq<string>)
    requires Unambiguous(q) && Distinct(keys) && forall k :: k in keys ==> k in q
    ensures AtOnce(q, keys, Fold(q, keys))
    decreases |keys|
  {
    if keys != [] {
      var rest, last := keys[..|keys| - 1], keys[|keys| - 1];
      assert keys == rest + [last] && last !in rest;
      FoldIsAtOnce(q, rest);
      FoldSnoc(q, rest, last);
      RenameKeepsAtOnce(q, rest, last, Fold(q, rest));
    }
  }

  /** A key that is neither processed nor a new name keeps its value. */
  lemma {:induction false} FoldLeavesAlone<V>(q: map<string, V>, keys: seq<string>, n: string)
    requires Distinct(keys) && (forall k :: k in keys ==> k in q)
    requires n in q && n !in keys && forall k :: k in keys && Snake(k) ==> ToCamelCase(k) != n
    ensures n in Fold(q, keys) && Fold(q, keys)[n] == q[n]
    decreases |keys|
  {
    if keys != [] {
      FoldLeavesAlone(q, keys[..|keys| - 1], n);
    }
  }

  lemma FoldKeepsNext<V>(q: map<string, V>, rest: seq<string>, key: string)
    requires Distinct(rest) && (forall k :: k in rest ==> k in q) && forall k :: !Chained(q, k)
    requires key in q && key !in rest && Snake(key)
    ensures key in Fold(q, rest) && Fold(q, rest)[key] == q[key]
  {
    forall k | k in rest && Snake(k)
      ensures ToCamelCase(k) != key
    {
      assert !Chained(q, k);
    }
    FoldLeavesAlone(q, rest, key);
  }

  lemma RenameKeeps<V>(r: map<string, V>, key: string, n: string)
    requires key in r && n in r && (Snake(key) ==> key != n && ToCamelCase(key) != n)
    ensures n in Rename(r, key) && Rename(r, key)[n] == r[n]
  {
  }

  /** When keys become one name, the last of them in the order wins. */
  lemma {:induction false} FoldLastWins<V>(q: map<string, V>, keys: seq<string>, i: nat)
    requires Distinct(keys) && (forall k :: k in keys ==> k in q) && forall k :: !Chained(q, k)
    requires i < |keys| && Snake(keys[i])
    requires forall j :: i < j < |keys| && Snake(keys[j]) ==> ToCamelCase(keys[j]) != ToCamelCase(keys[i])
    ensures ToCamelCase(keys[i]) in Fold(q, keys) && Fold(q, keys)[ToCamelCase(keys[i])] == q[keys[i]]
    decreases |keys|
  {
    var rest, last, n := keys[..|keys| - 1], keys[|keys| - 1], ToCamelCase(keys[i]);
    assert keys == rest + [last] && last !in rest;
    FoldSnoc(q, rest, last);
    if i == |rest| {
      FoldKeepsNext(q, rest, last);
    } else {
      assert rest[i] == keys[i] && !Chained(q, keys[i]);
      assert forall j :: i < j < |rest| ==> rest[j] == keys[j];
      FoldLastWins(q, rest, i);
      RenameKeeps(Fold(q, rest), last, n);
    }
  }

  lemma {:induction false} ListOf(s: set<string>) returns (keys: seq<string>)
    ensures Distinct(keys) && forall k :: k in keys <==> k in s
  {
    keys := [];
    var rest := s;
    while rest != {}
      invariant rest <= s && Distinct(keys)
      invariant forall k :: k in keys <==> k in s && k !in rest
      decreases rest
    {
      var k :| k in rest;
      keys := keys + [k];
      rest := rest - {k};
    }
  }

  lemma FoldSnoc<V>(q: map<string, V>, rest: seq<string>, a: string)
    requires Distinct(rest) && a !in rest && a in q && forall k :: k in rest ==> k in q
    ensures Distinct(rest + [a]) && forall k :: k in rest + [a] ==> k in q
    ensures a in Fold(q, rest) && Fold(q, rest + [a]) == Rename(Fold(q, rest), a)
  {
    assert (rest + [a])[..|rest|] == rest;
  }

  lemma FoldLastTwo<V>(q: map<string, V>, rest: seq<string>, a: string, b: string)
    requires a != b && a in q && b in q && a !in rest && b !in rest
    requires Distinct(rest) && forall k :: k in rest ==> k in q
    ensures Distinct(rest + [a, b]) && forall k :: k in rest + [a, b] ==> k in q
    ensures a in Fold(q, rest) && b in Rename(Fold(q, rest), a)
    ensures Fold(q, rest + [a, b]) == Rename(Rename(Fold(q, rest), a), b)
  {
    FoldSnoc(q, rest, a);
    FoldSnoc(q, rest + [a], b);
    assert rest + [a, b] == rest + [a] + [b];
  }

  /** Two orders of the keys that differ in the last two only. */
  lemma TwoOrders<V>(q: map<string, V>, a: string, b: string) returns (rest: seq<string>)
    requires a in q && b in q && a != b
    ensures Distinct(rest) && a !in rest && b !in rest && forall k :: k in rest ==> k in q
    ensures Orders(rest + [a, b], q) && Orders(rest + [b, a], q)
  {
    rest := ListOf(q.Keys - {a, b});
    assert forall k :: k in rest + [a, b] <==> k in rest || k == a || k == b;
    assert forall k :: k in rest + [b, a] <==> k in rest || k == a || k == b;
  }

  lemma ChainedPair<V>(r: map<string, V>, k: string, c: string)
    requires k in r && c in r && c == ToCamelCase(k) && Snake(k) && Snake(c)
    ensures c in Rename(r, k) && k in Rename(r, c)
    ensures c !in Rename(Rename(r, k), c) && c in Rename(Rename(r, c), k)
  {
  }

  lemma CollidingPair<V>(r: map<string, V>, k: string, l: string)
    requires k in r && l in r && k != l && Snake(k) && Snake(l) && ToCamelCase(k) == ToCamelCase(l)
    requires ToCamelCase(k) != k && ToCamelCase(k) != l
    ensures l in Rename(r, k) && ToCamelCase(k) in Rename(Rename(r, k), l)
    ensures Rename(Rename(r, k), l)[ToCamelCase(k)] == r[l]
  {
  }

  lemma ChainMakesOrderMatter<V>(q: map<string, V>, k: string) returns (o: seq<string>, p: seq<string>)
    requires Chained(q, k)
    ensures Orders(o, q) && Orders(p, q) && Fold(q, o) != Fold(q, p)
  {
    var c := ToCamelCase(k);
    var rest := TwoOrders(q, k, c);
    FoldLastTwo(q, rest, k, c);
    FoldLastTwo(q, rest, c, k);
    ChainedPair(Fold(q, rest), k, c);
    o, p := rest + [k, c], rest + [c, k];
  }

  lemma CollisionMakesOrderMatter<V>(q: map<string, V>, k: string, l: string)
    returns (o: seq<string>, p: seq<string>)
    requires Collide(q, k, l) && forall m :: !Chained(q, m)
    ensures Orders(o, q) && Orders(p, q) && Fold(q, o) != Fold(q, p)
  {
    var rest := TwoOrders(q, k, l);
    FoldLastTwo(q, rest, k, l);
    FoldLastTwo(q, rest, l, k);
    assert !Chained(q, k) && !Chained(q, l);
    assert forall m :: m in rest ==> !Chained(q, m);
    FoldLeavesAlone(q, rest, k);
    FoldLeavesAlone(q, rest, l);
    CollidingPair(Fold(q, rest), k, l);
    CollidingPair(Fold(q, rest), l, k);
    o, p := rest + [k, l], rest + [l, k];
  }

  /** The order in which the keys come makes no difference exactly if no renamed
      key becomes another renamed key and keys that become the same name carry
      the same value. Then the fold is the renaming of all keys at once. */
  lemma FoldOrderIrrelevantIff<V>(q: map<string, V>)
    ensures (forall o, p :: Orders(o, q) && Orders(p, q) ==> Fold(q, o) == Fold(q, p)) <==> Unambiguous(q)
    ensures Unambiguous(q) ==> forall o :: Orders(o, q) ==> AtOnce(q, o, Fold(q, o))
  {
    if Unambiguous(q) {
      forall o, p | Orders(o, q) && Orders(p, q)
        ensures Fold(q, o) == Fold(q, p) && AtOnce(q, o, Fold(q, o))
      {
        FoldIsAtOnce(q, o);
        FoldIsAtOnce(q, p);
        assert forall k :: k in o <==> k in p;
        SameKeysSameRenaming(q, o, p, Fold(q, p));
        AtOnceIsUnique(q, o, Fold(q, o), Fold(q, p));
      }
    } else if k :| Chained(q, k) {
      var o, p := ChainMakesOrderMatter(q, k);
    } else {
      var k, l :| Collide(q, k, l);
      var o, p := CollisionMakesOrderMatter(q, k, l);
    }
  }

  lemma SameKeysSameRenaming<V>(q: map<string, V>, o: seq<string>, p: seq<string>, r: map<string, V>)
    requires AtOnce(q, p, r) && forall k :: k in o <==> k in p
    ensures AtOnce(q, o, r)
  {
    assert forall k, n :: RenamedTo(q, o, k, n) <==> RenamedTo(q, p, k, n);
  }
}
