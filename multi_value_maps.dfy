/**
 * MultiValueMap: a map from each key to a list of values, with a cached set of
 * every value stored (allValues) and a cached count of every value stored
 * (fullSize). The collection a key maps to is an ArrayList, so it keeps order
 * and duplicates: it is modelled as a sequence.
 */
module MultiValueMaps {
  import opened Wrappers

  /** The NullPointerException remove throws for a key that is absent. */
  datatype MapError = NullPointer

  // ---------------------------------------------------------------------
  // The state the caches describe
  // ---------------------------------------------------------------------

  /** The number of values stored in all collections together. */
  ghost function SumSizes<K, V>(m: map<K, seq<V>>): nat
    decreases m.Keys
  {
    if m.Keys == {} then 0
    else
      var k :| k in m.Keys;
      |m[k]| + SumSizes(m - {k})
  }

  /** Every value held by some collection. */
  ghost function AllValues<K, V>(m: map<K, seq<V>>): set<V> {
    set k, v | k in m && v in m[k] :: v
  }

  /** Whether some collection holds the value. */
  predicate Holds<K, V(==)>(m: map<K, seq<V>>, v: V) {
    exists k :: k in m && v in m[k]
  }

  /** The collection for a key, or an empty one when the key is absent. */
  function Existing<K, V>(m: map<K, seq<V>>, k: K): seq<V> {
    if k in m then m[k] else []
  }

  /** The values of a collection, as a set. */
  function Elements<V>(c: seq<V>): set<V> {
    set v | v in c
  }

  lemma {:induction false} SumSizesRemove<K, V>(m: map<K, seq<V>>, k: K)
    requires k in m
    ensures SumSizes(m) == |m[k]| + SumSizes(m - {k})
    decreases m.Keys
  {
    var j :| j in m.Keys && SumSizes(m) == |m[j]| + SumSizes(m - {j});
    if j != k {
      SumSizesRemove(m - {j}, k);
      SumSizesRemove(m - {k}, j);
      assert m - {j} - {k} == m - {k} - {j};
    }
  }

  /** Replacing (or adding) one collection changes the total by the difference in its size. */
  lemma SumSizesUpdate<K, V>(m: map<K, seq<V>>, k: K, c: seq<V>)
    ensures SumSizes(m[k := c]) == SumSizes(m) - |Existing(m, k)| + |c|
  {
    SumSizesRemove(m[k := c], k);
    assert m[k := c] - {k} == m - {k};
    if k in m {
      SumSizesRemove(m, k);
    } else {
      assert m - {k} == m;
    }
  }

  /** Dropping a key takes its collection's size off the total. */
  lemma SumSizesDrop<K, V>(m: map<K, seq<V>>, k: K)
    ensures SumSizes(m - {k}) == SumSizes(m) - |Existing(m, k)|
  {
    if k in m {
      SumSizesRemove(m, k);
    } else {
      assert m - {k} == m;
    }
  }

  /** The empty map holds no values. */
  lemma EmptyMapHoldsNothing<K, V>()
    ensures SumSizes<K, V>(map[]) == 0
    ensures AllValues<K, V>(map[]) == {}
  {
  }

  /** Replacing one collection replaces its values, keeping those still held elsewhere. */
  lemma AllValuesUpdate<K, V>(m: map<K, seq<V>>, k: K, c: seq<V>)
    ensures AllValues(m[k := Existing(m, k) + c]) == AllValues(m) + Elements(c)
  {
    var m' := m[k := Existing(m, k) + c];
    forall v | v in AllValues(m') ensures v in AllValues(m) + Elements(c) {
      var j :| j in m' && v in m'[j];
      if j == k && v !in c {
        assert v in Existing(m, k);
      }
    }
    forall v | v in AllValues(m) + Elements(c) ensures v in AllValues(m') {
      if v in c {
        assert v in m'[k];
      } else {
        var j :| j in m && v in m[j];
        assert v in m'[j];
      }
    }
  }

  /** Dropping a key keeps exactly the values some remaining collection holds. */
  lemma AllValuesDrop<K, V>(m: map<K, seq<V>>, k: K)
    requires k in m
    ensures AllValues(m - {k}) == AllValues(m) - (set v | v in m[k] && !Holds(m - {k}, v))
  {
    var r := m - {k};
    forall v | v in AllValues(m) - (set v | v in m[k] && !Holds(r, v)) ensures v in AllValues(r) {
      var j :| j in m && v in m[j];
      if j == k {
        assert Holds(r, v);
        var i :| i in r && v in r[i];
      } else {
        assert v in r[j];
      }
    }
  }

  // ---------------------------------------------------------------------
  // Value removal (Collection.remove(Object) on an ArrayList)
  // ---------------------------------------------------------------------

  /** The collection with the first occurrence of v taken out, if there is one. */
  function RemoveFirst<V(==)>(c: seq<V>, v: V): seq<V> {
    if |c| == 0 then []
    else if c[0] == v then c[1..]
    else [c[0]] + RemoveFirst(c[1..], v)
  }

  /** The multiset of the collection loses one v, if it had one. */
  lemma {:induction false} RemoveFirstMultiset<V>(c: seq<V>, v: V)
    ensures multiset(RemoveFirst(c, v)) == multiset(c) - multiset{v}
  {
    if |c| > 0 {
      RemoveFirstMultiset(c[1..], v);
      assert c == [c[0]] + c[1..];
    }
  }

  /** Without v the collection is left as it is. */
  lemma {:induction false} RemoveFirstAbsent<V>(c: seq<V>, v: V)
    requires v !in c
    ensures RemoveFirst(c, v) == c
  {
    if |c| > 0 {
      assert v !in c[1..];
      RemoveFirstAbsent(c[1..], v);
      assert c == [c[0]] + c[1..];
    }
  }

  /** One occurrence fewer when v is there, nothing changed when it is not. */
  lemma RemoveFirstSpec<V>(c: seq<V>, v: V)
    ensures v in c ==> |RemoveFirst(c, v)| == |c| - 1
    ensures v !in c ==> RemoveFirst(c, v) == c
    ensures multiset(RemoveFirst(c, v)) == multiset(c) - multiset{v}
  {
    RemoveFirstMultiset(c, v);
    if v in c {
      assert v in multiset(c);
      assert |multiset(RemoveFirst(c, v))| == |multiset(c)| - 1;
    } else {
      RemoveFirstAbsent(c, v);
    }
  }

  /** Every value other than v is still in the collection after removing v. */
  lemma RemoveFirstKeepsOthers<V>(c: seq<V>, v: V, x: V)
    requires x in c && x != v
    ensures x in RemoveFirst(c, v)
  {
    RemoveFirstSpec(c, v);
    assert x in multiset(c);
    assert x in multiset(RemoveFirst(c, v));
  }

  /** The collections after removeValue's loop: one occurrence of v out of each. */
  function RemoveFromEach<K, V(==)>(m: map<K, seq<V>>, v: V): map<K, seq<V>> {
    map k | k in m :: RemoveFirst(m[k], v)
  }

  /** Part way through removeValue's loop: the keys not yet visited still hold their collections. */
  function RemoveFromSome<K, V(==)>(m: map<K, seq<V>>, v: V, unvisited: set<K>): map<K, seq<V>> {
    map k | k in m :: if k in unvisited then m[k] else RemoveFirst(m[k], v)
  }

  /** Visiting one more key takes v out of its collection. */
  lemma RemoveFromSomeStep<K, V>(m: map<K, seq<V>>, v: V, unvisited: set<K>, k: K)
    requires k in unvisited && unvisited <= m.Keys
    ensures RemoveFromSome(m, v, unvisited)[k] == m[k]
    ensures RemoveFromSome(m, v, unvisited)[k := RemoveFirst(m[k], v)] == RemoveFromSome(m, v, unvisited - {k})
  {
  }

  /** Before the loop nothing has changed; after it every collection has lost v. */
  lemma RemoveFromSomeEnds<K, V>(m: map<K, seq<V>>, v: V)
    ensures RemoveFromSome(m, v, m.Keys) == m
    ensures RemoveFromSome(m, v, {}) == RemoveFromEach(m, v)
  {
  }

  /** The collections after removeValue: those the removal left empty are dropped. */
  function RemoveValueResult<K, V(==)>(m: map<K, seq<V>>, v: V): map<K, seq<V>> {
    map k | k in m && |RemoveFirst(m[k], v)| > 0 :: RemoveFirst(m[k], v)
  }

  /**
   * removeValue's result holds every value it held before except v, and v
   * only if some collection still holds it.
   */
  lemma AllValuesAfterRemoveValue<K, V>(m: map<K, seq<V>>, v: V)
    ensures AllValues(RemoveValueResult(m, v)) ==
      if Holds(RemoveValueResult(m, v), v) then AllValues(m) else AllValues(m) - {v}
  {
    var r := RemoveValueResult(m, v);
    RemoveValueKeepsNoNewValue(m, v);
    RemoveValueKeepsOthers(m, v);
    if Holds(r, v) {
      var j :| j in r && v in r[j];
      assert v in AllValues(r);
    }
  }

  /** removeValue's result holds no value the map did not hold. */
  lemma RemoveValueKeepsNoNewValue<K, V>(m: map<K, seq<V>>, v: V)
    ensures AllValues(RemoveValueResult(m, v)) <= AllValues(m)
  {
    var r := RemoveValueResult(m, v);
    forall x | x in AllValues(r) ensures x in AllValues(m) {
      var j :| j in r && x in r[j];
      RemoveFirstMultiset(m[j], v);
      assert x in multiset(r[j]);
      assert x in multiset(m[j]);
      assert j in m && x in m[j];
    }
  }

  /** removeValue's result still holds every value other than v. */
  lemma RemoveValueKeepsOthers<K, V>(m: map<K, seq<V>>, v: V)
    ensures AllValues(m) - {v} <= AllValues(RemoveValueResult(m, v))
  {
    var r := RemoveValueResult(m, v);
    forall x | x in AllValues(m) && x != v ensures x in AllValues(r) {
      var j :| j in m && x in m[j];
      RemoveFirstKeepsOthers(m[j], v, x);
      assert x in r[j];
    }
  }

  /** The keys whose collections hold v. */
  function Holders<K, V(==)>(m: map<K, seq<V>>, v: V): set<K> {
    set k | k in m && v in m[k]
  }

  /** Taking one key out of the map takes it out of the holders. */
  lemma HoldersDrop<K, V>(m: map<K, seq<V>>, v: V, k: K)
    requires k in m
    ensures |Holders(m, v)| == |Holders(m - {k}, v)| + (if v in m[k] then 1 else 0)
  {
    var rest := m - {k};
    if v in m[k] {
      assert Holders(m, v) == Holders(rest, v) + {k};
    } else {
      assert Holders(m, v) == Holders(rest, v);
    }
  }

  /** Visiting one more key counts it among the holders seen when it holds v. */
  lemma HoldersStep<K, V>(m: map<K, seq<V>>, v: V, keys: set<K>, k: K)
    requires k in keys && keys <= m.Keys
    ensures |Holders(m, v) - (keys - {k})| == |Holders(m, v) - keys| + (if v in m[k] then 1 else 0)
  {
    if v in m[k] {
      assert Holders(m, v) - (keys - {k}) == (Holders(m, v) - keys) + {k};
    } else {
      assert Holders(m, v) - (keys - {k}) == Holders(m, v) - keys;
    }
  }

  /** removeValue's first loop lowers the total by one for every collection that held v. */
  lemma {:induction false} SumSizesRemoveFromEach<K, V>(m: map<K, seq<V>>, v: V)
    ensures SumSizes(RemoveFromEach(m, v)) == SumSizes(m) - |Holders(m, v)|
    decreases m.Keys
  {
    if m.Keys != {} {
      var k :| k in m.Keys;
      var rest := m - {k};
      var r := RemoveFromEach(m, v);
      SumSizesRemoveFromEach(rest, v);
      SumSizesRemove(m, k);
      SumSizesRemove(r, k);
      assert r - {k} == RemoveFromEach(rest, v);
      RemoveFirstSpec(m[k], v);
      HoldersDrop(m, v, k);
    } else {
      assert Holders(m, v) == {};
      assert RemoveFromEach(m, v) == m;
    }
  }

  /** Dropping keys whose collections are empty leaves the total as it is. */
  lemma {:induction false} SumSizesDropEmpties<K, V>(m: map<K, seq<V>>, d: set<K>)
    requires forall k :: k in d && k in m ==> m[k] == []
    ensures SumSizes(m - d) == SumSizes(m)
    decreases d
  {
    if d != {} {
      var k :| k in d;
      var smaller := d - {k};
      var partial := m - smaller;
      SumSizesDropEmpties(m, smaller);
      assert m - d == partial - {k};
      SumSizesDrop(partial, k);
    } else {
      assert m - d == m;
    }
  }

  /**
   * removeValue's second loop: dropping the keys the first loop left empty
   * gives RemoveValueResult, with the same total and the same values held.
   */
  lemma RemoveValueAfterLoop<K, V>(m: map<K, seq<V>>, v: V, ks: seq<K>)
    requires forall k :: k in ks <==> k in m && RemoveFirst(m[k], v) == []
    ensures RemoveFromEach(m, v) - KeySet(ks) == RemoveValueResult(m, v)
    ensures SumSizes(RemoveValueResult(m, v)) == SumSizes(RemoveFromEach(m, v))
    ensures Holds(RemoveValueResult(m, v), v) == Holds(RemoveFromEach(m, v), v)
  {
    var d := KeySet(ks);
    forall k | k in ks ensures k in d {
      var i :| 0 <= i < |ks| && ks[i] == k;
    }
    RemoveEmptiesAfterLoop(m, v, d);
  }

  lemma RemoveEmptiesAfterLoop<K, V>(m: map<K, seq<V>>, v: V, d: set<K>)
    requires forall k :: k in d <==> k in m && RemoveFirst(m[k], v) == []
    ensures RemoveFromEach(m, v) - d == RemoveValueResult(m, v)
    ensures SumSizes(RemoveValueResult(m, v)) == SumSizes(RemoveFromEach(m, v))
    ensures Holds(RemoveValueResult(m, v), v) == Holds(RemoveFromEach(m, v), v)
  {
    var e := RemoveFromEach(m, v);
    assert e - d == RemoveValueResult(m, v);
    SumSizesDropEmpties(e, d);
    if Holds(e, v) {
      var k :| k in e && v in e[k];
      assert v in RemoveValueResult(m, v)[k];
    }
  }

  /** The keys a sequence lists. */
  function KeySet<K>(ks: seq<K>): set<K> {
    set i | 0 <= i < |ks| :: ks[i]
  }

  /** One more key listed. */
  lemma KeySetAppend<K>(ks: seq<K>, k: K)
    ensures KeySet(ks + [k]) == KeySet(ks) + {k}
  {
    var l := ks + [k];
    assert l[|ks|] == k;
    forall x | x in KeySet(ks) ensures x in KeySet(l) {
      var i :| 0 <= i < |ks| && ks[i] == x;
      assert l[i] == x;
    }
  }

  /** Dropping one more key from a map with some keys dropped. */
  lemma DropOneMore<K, V>(m: map<K, V>, d: set<K>, k: K)
    ensures (m - d) - {k} == m - (d + {k})
  {
  }

  // ---------------------------------------------------------------------
  // Operations written as functions of the state, for the as-written forms
  // ---------------------------------------------------------------------

  /**
   * putMultipleValuesIntoCollection as written, on the collections and
   * fullSize: for a key already present, the existing collection has the
   * values appended and is then passed to put, which appends it to itself
   * (the same object) and adds its doubled size to fullSize.
   */
  function PutMultipleAsWritten<K, V>(m: map<K, seq<V>>, fullSize: int, key: K, values: seq<V>): (r: (map<K, seq<V>>, int))
    ensures r.0.Keys == m.Keys + {key}
    ensures forall k :: k in m && k != key ==> r.0[k] == m[k]
    ensures key in m ==> r.0[key] == (m[key] + values) + (m[key] + values)
    ensures r.1 - fullSize == |r.0[key]|
  {
    if key in m then
      var collection := m[key] + values;
      var doubled := collection + collection;
      (m[key := doubled], fullSize + |doubled|)
    else (m[key := values], fullSize + |values|)
  }

  /**
   * As written, putMultipleValuesIntoCollection on a present key moves
   * fullSize away from the true total by the size of the collection the key
   * already had (and the collection holds every value twice).
   */
  lemma PutMultipleAsWrittenDrifts<K, V>(m: map<K, seq<V>>, fullSize: int, key: K, values: seq<V>)
    requires key in m
    ensures var (m', fullSize') := PutMultipleAsWritten(m, fullSize, key, values);
      m'[key] == m[key] + values + m[key] + values &&
      fullSize' - SumSizes(m') == fullSize - SumSizes(m) + |m[key]|
  {
    var collection := m[key] + values;
    SumSizesUpdate(m, key, collection + collection);
  }

  /**
   * With a consistent count, one value under the key and one more added: the
   * collection becomes [7, 8, 7, 8] and fullSize 5, one more than the four values stored.
   */
  lemma PutMultipleAsWrittenExample()
    ensures var (m', fullSize') := PutMultipleAsWritten(map[1 := [7]], 1, 1, [8]);
      m' == map[1 := [7, 8, 7, 8]] && fullSize' == 5 && SumSizes(m') == 4
  {
    var m := map[1 := [7]];
    assert [7] + [8] + ([7] + [8]) == [7, 8, 7, 8];
    assert PutMultipleAsWritten(m, 1, 1, [8]) == (m[1 := [7, 8, 7, 8]], 5);
    SumSizesUpdate(m, 1, [7, 8, 7, 8]);
    SumSizesRemove(m, 1);
    assert m - {1} == map[];
    assert m[1 := [7, 8, 7, 8]] == map[1 := [7, 8, 7, 8]];
  }

  /** allValues after remove(key) as written: the removed collection's values all taken out. */
  function AllValuesAfterRemoveAsWritten<V>(allValues: set<V>, toRemove: seq<V>): set<V> {
    allValues - Elements(toRemove)
  }

  /**
   * As written, remove drops a value from allValues that another key still
   * holds: with 1 under keys 0 and 1, removing key 0 leaves allValues empty
   * although key 1's collection still holds 1, so containsValue(1) is false.
   */
  lemma RemoveAsWrittenLosesValue()
    ensures var m := map[0 := [1], 1 := [1]];
      AllValues(m) == {1} && Holds(m - {0}, 1) &&
      AllValuesAfterRemoveAsWritten(AllValues(m), m[0]) == {}
  {
    var m: map<int, seq<int>> := map[0 := [1], 1 := [1]];
    var r := m - {0};
    assert 1 in m[0];
    assert 1 in r[1];
    assert Elements(m[0]) == {1};
  }

  /** allValues after removeValue(v) as written: v taken out. */
  function AllValuesAfterRemoveValueAsWritten<V>(allValues: set<V>, v: V): set<V> {
    allValues - {v}
  }

  /**
   * As written, removeValue drops v from allValues while a collection still
   * holds a second copy: with [1, 1] under key 0, removing 1 leaves [1] but
   * allValues empty.
   */
  lemma RemoveValueAsWrittenLosesValue()
    ensures var m := map[0 := [1, 1]];
      RemoveValueResult(m, 1) == map[0 := [1]] && AllValues(RemoveValueResult(m, 1)) == {1} &&
      AllValuesAfterRemoveValueAsWritten(AllValues(m), 1) == {}
  {
    var m := map[0 := [1, 1]];
    assert RemoveFirst([1, 1], 1) == [1];
    assert RemoveValueResult(m, 1) == map[0 := [1]];
    assert 1 in m[0];
    assert 1 in map[0 := [1]][0];
  }

  /** The collections after putValueInMultipleCollections: the value appended under each key in turn. */
  function PutValueInEach<K, V>(m: map<K, seq<V>>, keys: seq<K>, value: V): map<K, seq<V>>
    decreases |keys|
  {
    if |keys| == 0 then m
    else PutValueInEach(m[keys[0] := Existing(m, keys[0]) + [value]], keys[1..], value)
  }

  /**
   * After putValueInMultipleCollections every listed key is present and
   * holds the value at the end, and every other key keeps its collection.
   */
  lemma {:induction false} PutValueInEachContents<K, V>(m: map<K, seq<V>>, keys: seq<K>, value: V)
    ensures var r := PutValueInEach(m, keys, value);
      r.Keys == m.Keys + (set k | k in keys) &&
      (forall k :: k in keys ==> |r[k]| > 0 && r[k][|r[k]| - 1] == value) &&
      (forall k :: k in m && k !in keys ==> r[k] == m[k])
    decreases |keys|
  {
    if |keys| > 0 {
      var m1 := m[keys[0] := Existing(m, keys[0]) + [value]];
      var rest := keys[1..];
      PutValueInEachContents(m1, rest, value);
      assert forall k :: k in keys <==> k == keys[0] || k in rest by {
        assert keys == [keys[0]] + rest;
      }
    }
  }

  /** putValueInMultipleCollections adds one value per key listed to the total. */
  lemma {:induction false} PutValueInEachSum<K, V>(m: map<K, seq<V>>, keys: seq<K>, value: V)
    ensures SumSizes(PutValueInEach(m, keys, value)) == SumSizes(m) + |keys|
    decreases |keys|
  {
    if |keys| > 0 {
      var m1 := m[keys[0] := Existing(m, keys[0]) + [value]];
      PutValueInEachSum(m1, keys[1..], value);
      SumSizesUpdate(m, keys[0], Existing(m, keys[0]) + [value]);
    }
  }

  /** The non-null collections of the map given to putAll. */
  function Given<K, V>(entries: map<K, Option<seq<V>>>): map<K, seq<V>> {
    map k | k in entries && entries[k].Some? :: entries[k].value
  }

  /**
   * Part way through putAll: the collections of the given keys already
   * visited appended under those keys.
   */
  function PutSome<K, V>(m: map<K, seq<V>>, g: map<K, seq<V>>, unvisited: set<K>): map<K, seq<V>> {
    map k | k in m.Keys + (g.Keys - unvisited) :: Existing(m, k) + Existing(g - unvisited, k)
  }

  /** Before putAll's loop nothing has changed. */
  lemma PutSomeStart<K, V>(m: map<K, seq<V>>, g: map<K, seq<V>>)
    ensures PutSome(m, g, g.Keys) == m
    ensures g - g.Keys == map[]
    ensures SumSizes<K, V>(map[]) == 0 && AllValues<K, V>(map[]) == {}
  {
    assert g - g.Keys == map[];
    forall k | k in m ensures PutSome(m, g, g.Keys)[k] == m[k] {
      assert Existing(g - g.Keys, k) == [];
    }
  }

  /** Putting one more given collection during putAll. */
  lemma PutSomeStep<K, V>(m: map<K, seq<V>>, g: map<K, seq<V>>, unvisited: set<K>, k: K)
    requires k in unvisited && k in g
    ensures var done := g - unvisited;
      var cur := PutSome(m, g, unvisited);
      cur[k := Existing(cur, k) + g[k]] == PutSome(m, g, unvisited - {k}) &&
      SumSizes(g - (unvisited - {k})) == SumSizes(done) + |g[k]| &&
      AllValues(g - (unvisited - {k})) == AllValues(done) + Elements(g[k])
  {
    var done := g - unvisited;
    var done' := g - (unvisited - {k});
    assert k !in done && Existing(done, k) + g[k] == g[k];
    assert done' == done[k := Existing(done, k) + g[k]];
    SumSizesUpdate(done, k, g[k]);
    AllValuesUpdate(done, k, g[k]);
    var cur := PutSome(m, g, unvisited);
    assert Existing(cur, k) == Existing(m, k);
  }

  /** Skipping a null entry during putAll changes nothing. */
  lemma PutSomeSkip<K, V>(m: map<K, seq<V>>, g: map<K, seq<V>>, unvisited: set<K>, k: K)
    requires k !in g
    ensures PutSome(m, g, unvisited - {k}) == PutSome(m, g, unvisited)
    ensures g - (unvisited - {k}) == g - unvisited
  {
  }

  /** No element twice. */
  predicate Distinct<T(==)>(s: seq<T>) {
    forall a, b :: 0 <= a < b < |s| ==> s[a] != s[b]
  }

  /** Appending an element not yet present keeps a sequence free of repeats. */
  lemma DistinctAppend<T>(s: seq<T>, x: T)
    requires Distinct(s) && x !in s
    ensures Distinct(s + [x])
  {
    forall a, b | 0 <= a < b < |s| + 1 ensures (s + [x])[a] != (s + [x])[b] {
      if b == |s| {
        assert s[a] in s;
      }
    }
  }

  /**
   * removeValue's first loop, on the collections: one occurrence of the value
   * taken out of every collection, the removals counted, and the keys whose
   * collections are left empty collected, each once.
   */
  method RemoveOneFromEach<K, V(==)>(m: map<K, seq<V>>, value: V)
    returns (cs: map<K, seq<V>>, removed: nat, keysToRemove: seq<K>)
    ensures cs == RemoveFromEach(m, value)
    ensures removed == |Holders(m, value)|
    ensures forall k :: k in keysToRemove <==> k in m && RemoveFirst(m[k], value) == []
    ensures Distinct(keysToRemove)
  {
    cs, removed := m, 0;
    var keys := m.Keys;
    keysToRemove := [];
    RemoveFromSomeEnds(m, value);
    while keys != {}
      invariant keys <= m.Keys
      invariant cs == RemoveFromSome(m, value, keys)
      invariant removed == |Holders(m, value) - keys|
      invariant forall k :: k in keysToRemove <==> k in m && k !in keys && RemoveFirst(m[k], value) == []
      invariant Distinct(keysToRemove)
      decreases keys
    {
      var k :| k in keys;
      RemoveFromSomeStep(m, value, keys, k);
      var c := cs[k];
      HoldersStep(m, value, keys, k);
      RemoveFirstSpec(c, value);
      cs := cs[k := RemoveFirst(c, value)];
      if value in c {
        removed := removed + 1;
      }
      c := cs[k];
      if |c| == 0 {
        DistinctAppend(keysToRemove, k);
        keysToRemove := keysToRemove + [k];
      }
      keys := keys - {k};
    }
    assert Holders(m, value) - keys == Holders(m, value);
  }

  // ---------------------------------------------------------------------
  // The map
  // ---------------------------------------------------------------------

  class MultiValueMap<K(==), V(==)> {
    /** The collection under each key. */
    var collections: map<K, seq<V>>
    /** Every value added, cached. */
    var allValues: set<V>
    /** The number of values added, cached. */
    var fullSize: int

    /** The caches agree with the collections. */
    ghost predicate Valid()
      reads this
    {
      fullSize == SumSizes(collections) && allValues == AllValues(collections)
    }

    /** An empty map. */
    constructor ()
      ensures collections == map[] && allValues == {} && fullSize == 0
      ensures Valid()
    {
      collections := map[];
      allValues := {};
      fullSize := 0;
      EmptyMapHoldsNothing<K, V>();
    }

    /** size: the number of keys. */
    method Size() returns (n: nat)
      ensures n == |collections.Keys|
    {
      n := |collections.Keys|;
    }

    /** fullSize: the cached count, which is the number of values stored. */
    method FullSize() returns (n: int)
      ensures n == fullSize
      ensures Valid() ==> n == SumSizes(collections)
    {
      n := fullSize;
    }

    /** valueSize: the size of the key's collection, or -1 when the key is absent. */
    method ValueSize(key: K) returns (n: int)
      ensures key in collections ==> n == |collections[key]|
      ensures key !in collections <==> n == -1
    {
      if key in collections {
        n := |collections[key]|;
      } else {
        n := -1;
      }
    }

    /** containsValue: answered from the cache; right whenever the caches agree. */
    method ContainsValue(value: V) returns (b: bool)
      ensures b == (value in allValues)
      ensures Valid() ==> (b <==> Holds(collections, value))
    {
      b := value in allValues;
    }

    /** get: the key's collection, or null. */
    method Get(key: K) returns (c: Option<seq<V>>)
      ensures key in collections ==> c == Some(collections[key])
      ensures key !in collections <==> c == None
    {
      if key in collections {
        c := Some(collections[key]);
      } else {
        c := None;
      }
    }

    /**
     * put: the values appended to the key's collection, or stored as the
     * key's collection when the key is new; both caches follow.
     */
    method Put(key: K, c: seq<V>) returns (r: seq<V>)
      modifies this
      ensures r == c
      ensures collections == old(collections)[key := Existing(old(collections), key) + c]
      ensures allValues == old(allValues) + Elements(c)
      ensures fullSize == old(fullSize) + |c|
      ensures old(Valid()) ==> Valid()
    {
      if key in collections {
        collections := collections[key := collections[key] + c];
      } else {
        collections := collections[key := c];
        assert Existing(old(collections), key) + c == c;
      }
      allValues := allValues + Elements(c);
      fullSize := fullSize + |c|;
      SumSizesUpdate(old(collections), key, Existing(old(collections), key) + c);
      AllValuesUpdate(old(collections), key, c);
      r := c;
    }

    /** putValue: the value appended to the key's collection, created empty when absent. */
    method PutValue(key: K, value: V) returns (r: V)
      modifies this
      ensures r == value
      ensures collections == old(collections)[key := Existing(old(collections), key) + [value]]
      ensures allValues == old(allValues) + {value}
      ensures fullSize == old(fullSize) + 1
      ensures old(Valid()) ==> Valid()
    {
      var values: seq<V>;
      if key !in collections {
        values := [];
        collections := collections[key := values];
      }
      values := collections[key];
      collections := collections[key := values + [value]];
      allValues := allValues + {value};
      fullSize := fullSize + 1;
      SumSizesUpdate(old(collections), key, Existing(old(collections), key) + [value]);
      AllValuesUpdate(old(collections), key, [value]);
      assert Elements([value]) == {value};
      r := value;
    }

    /** putValueInMultipleCollections: putValue under each key, in order. */
    method PutValueInMultipleCollections(keys: seq<K>, value: V) returns (r: V)
      modifies this
      ensures r == value
      ensures collections == PutValueInEach(old(collections), keys, value)
      ensures allValues == old(allValues) + (if |keys| > 0 then {value} else {})
      ensures fullSize == old(fullSize) + |keys|
      ensures old(Valid()) ==> Valid()
    {
      var i := 0;
      while i < |keys|
        invariant 0 <= i <= |keys|
        invariant PutValueInEach(collections, keys[i..], value) == PutValueInEach(old(collections), keys, value)
        invariant allValues == old(allValues) + (if i > 0 then {value} else {})
        invariant fullSize == old(fullSize) + i
        invariant old(Valid()) ==> Valid()
      {
        assert keys[i..][1..] == keys[i + 1..];
        var _ := PutValue(keys[i], value);
        i := i + 1;
      }
      r := value;
    }

    /**
     * putMultipleValuesIntoCollection, corrected: the values appended once to
     * the key's collection (a new one when absent), fullSize raised by their
     * number, allValues by their elements.
     */
    method PutMultipleValuesIntoCollection(key: K, values: seq<V>) returns (r: seq<V>)
      modifies this
      ensures r == Existing(old(collections), key) + values
      ensures collections == old(collections)[key := Existing(old(collections), key) + values]
      ensures allValues == old(allValues) + Elements(values)
      ensures fullSize == old(fullSize) + |values|
      ensures old(Valid()) ==> Valid()
    {
      var collection: seq<V>;
      if key in collections {
        collection := collections[key];
      } else {
        collection := [];
      }
      collection := collection + values;
      collections := collections[key := collection];
      allValues := allValues + Elements(values);
      fullSize := fullSize + |values|;
      SumSizesUpdate(old(collections), key, collection);
      AllValuesUpdate(old(collections), key, values);
      r := collection;
    }

    /**
     * remove, with allValues corrected: the key and its collection dropped,
     * fullSize lowered by the collection's size, and only values no remaining
     * collection holds taken out of allValues. An absent key fails with
     * NullPointer and changes nothing.
     */
    method Remove(key: K) returns (r: Result<seq<V>, MapError>)
      modifies this
      ensures key !in old(collections) ==>
        r == Err(NullPointer) && collections == old(collections) &&
        allValues == old(allValues) && fullSize == old(fullSize)
      ensures key in old(collections) ==>
        r == Ok(old(collections)[key]) && collections == old(collections) - {key} &&
        fullSize == old(fullSize) - |old(collections)[key]| &&
        allValues == old(allValues) - (set v | v in old(collections)[key] && !Holds(collections, v))
      ensures old(Valid()) ==> Valid()
    {
      if key !in collections {
        return Err(NullPointer);
      }
      var toRemove := collections[key];
      collections := collections - {key};
      allValues := allValues - (set v | v in toRemove && !Holds(collections, v));
      fullSize := fullSize - |toRemove|;
      SumSizesDrop(old(collections), key);
      AllValuesDrop(old(collections), key);
      r := Ok(toRemove);
    }

    /**
     * removeValue, with allValues corrected: one occurrence taken out of
     * every collection, fullSize lowered once per collection that held the
     * value, and collections left empty dropped; the value leaves allValues
     * only when no collection holds it any more.
     */
    method RemoveValue(value: V) returns (r: V)
      modifies this
      ensures r == value
      ensures collections == RemoveValueResult(old(collections), value)
      ensures fullSize == old(fullSize) - |Holders(old(collections), value)|
      ensures allValues == if Holds(collections, value) then old(allValues) else old(allValues) - {value}
      ensures old(Valid()) ==> Valid()
    {
      ghost var m := collections;
      var cs, removed, keysToRemove := RemoveOneFromEach(collections, value);
      collections, fullSize := cs, fullSize - removed;
      ghost var afterLoop := collections;
      if !Holds(collections, value) {
        allValues := allValues - {value};
      }
      ghost var kept := allValues;
      ghost var size := fullSize;
      var j := 0;
      assert keysToRemove[..0] == [];
      assert afterLoop - KeySet(keysToRemove[..0]) == afterLoop;
      while j < |keysToRemove|
        invariant 0 <= j <= |keysToRemove|
        invariant collections == afterLoop - KeySet(keysToRemove[..j])
        invariant fullSize == size && allValues == kept
      {
        var k := keysToRemove[j];
        assert k in collections by {
          assert forall i :: 0 <= i < j ==> keysToRemove[i] != k;
        }
        assert collections[k] == [];
        var _ := Remove(k);
        assert (set v | v in [] && !Holds(collections, v)) == {};
        DropOneMore(afterLoop, KeySet(keysToRemove[..j]), k);
        assert keysToRemove[..j + 1] == keysToRemove[..j] + [k];
        KeySetAppend(keysToRemove[..j], k);
        j := j + 1;
      }
      assert keysToRemove[..j] == keysToRemove;
      RemoveValueAfterLoop(m, value, keysToRemove);
      SumSizesRemoveFromEach(m, value);
      AllValuesAfterRemoveValue(m, value);
      r := value;
    }

    /**
     * putAll: put for every key whose collection is not null. The result is
     * the same whatever order the keys are visited in.
     */
    method PutAll(entries: map<K, Option<seq<V>>>)
      modifies this
      ensures collections == PutSome(old(collections), Given(entries), {})
      ensures fullSize == old(fullSize) + SumSizes(Given(entries))
      ensures allValues == old(allValues) + AllValues(Given(entries))
      ensures old(Valid()) ==> Valid()
    {
      ghost var g := Given(entries);
      var keySet := entries.Keys;
      PutSomeStart(collections, g);
      while keySet != {}
        invariant keySet <= entries.Keys
        invariant collections == PutSome(old(collections), g, keySet)
        invariant fullSize == old(fullSize) + SumSizes(g - keySet)
        invariant allValues == old(allValues) + AllValues(g - keySet)
        invariant old(Valid()) ==> Valid()
        decreases keySet
      {
        var k :| k in keySet;
        var c := entries[k];
        if c.Some? {
          PutSomeStep(old(collections), g, keySet, k);
          var _ := Put(k, c.value);
        } else {
          PutSomeSkip(old(collections), g, keySet, k);
        }
        keySet := keySet - {k};
      }
      assert g - {} == g;
    }

    /** clear: no keys, no values, fullSize zero. */
    method Clear()
      modifies this
      ensures collections == map[] && allValues == {} && fullSize == 0
      ensures Valid()
    {
      collections := map[];
      allValues := {};
      fullSize := 0;
      EmptyMapHoldsNothing<K, V>();
    }
  }
}
