/**
 * SortedList: a list kept in the order of its comparator by inserting each
 * element at the position a binary search finds, and by re-sorting after a
 * bulk append. A comparator is modelled by a key function: compare(a, b) is
 * negative, zero or positive as key(a) is below, equal to or above key(b).
 */
module SortedLists {
  import opened Wrappers

  /** The IndexOutOfBoundsException of java.util.List. */
  datatype ListError = IndexOutOfBounds

  /** Ordered by the key function, duplicates allowed. */
  predicate Sorted<T>(s: seq<T>, key: T -> int) {
    forall i, j :: 0 <= i < j < |s| ==> key(s[i]) <= key(s[j])
  }

  /** list.add(p, x). */
  function InsertAt<T>(s: seq<T>, p: nat, x: T): seq<T>
    requires p <= |s|
  {
    s[..p] + [x] + s[p..]
  }

  /** list.remove(i). */
  function RemoveAt<T>(s: seq<T>, i: nat): seq<T>
    requires i < |s|
  {
    s[..i] + s[i + 1..]
  }

  // ---------------------------------------------------------------------
  // Binary search (Collections.binarySearch as getSortedPosition uses it)
  // ---------------------------------------------------------------------

  /**
   * The search between low and high: the index of an element comparing equal
   * to x, or the insertion point low once the range is empty.
   */
  function SearchFrom<T>(s: seq<T>, key: T -> int, x: T, low: int, high: int): (r: nat)
    requires 0 <= low <= high + 1 <= |s|
    ensures low <= r <= high + 1
    decreases high - low + 1
  {
    if low > high then low
    else
      var mid := (low + high) / 2;
      if key(s[mid]) < key(x) then SearchFrom(s, key, x, mid + 1, high)
      else if key(s[mid]) > key(x) then SearchFrom(s, key, x, low, mid - 1)
      else mid
  }

  /** getSortedPosition: the search over the whole list. */
  function SortedPosition<T>(s: seq<T>, key: T -> int, x: T): nat {
    SearchFrom(s, key, x, 0, |s| - 1)
  }

  lemma {:induction false} SearchFromPartitions<T>(s: seq<T>, key: T -> int, x: T, low: int, high: int)
    requires Sorted(s, key) && 0 <= low <= high + 1 <= |s|
    requires forall i :: 0 <= i < low ==> key(s[i]) < key(x)
    requires forall i :: high < i < |s| ==> key(s[i]) > key(x)
    ensures var r := SearchFrom(s, key, x, low, high);
      (forall i :: 0 <= i < r ==> key(s[i]) <= key(x)) &&
      (forall i :: r <= i < |s| ==> key(s[i]) >= key(x))
    decreases high - low + 1
  {
    if low <= high {
      var mid := (low + high) / 2;
      if key(s[mid]) < key(x) {
        SearchFromPartitions(s, key, x, mid + 1, high);
      } else if key(s[mid]) > key(x) {
        SearchFromPartitions(s, key, x, low, mid - 1);
      }
    }
  }

  /**
   * On a sorted list the position found splits it: everything before it is
   * at most x and everything from it on is at least x. On any list it lies
   * in [0, size].
   */
  lemma SortedPositionPartitions<T>(s: seq<T>, key: T -> int, x: T)
    ensures SortedPosition(s, key, x) <= |s|
    ensures Sorted(s, key) ==>
      var p := SortedPosition(s, key, x);
      (forall i :: 0 <= i < p ==> key(s[i]) <= key(x)) &&
      (forall i :: p <= i < |s| ==> key(s[i]) >= key(x))
  {
    if Sorted(s, key) {
      SearchFromPartitions(s, key, x, 0, |s| - 1);
    }
  }

  /** Inserting at a position that splits a sorted list keeps it sorted and adds exactly x. */
  lemma InsertAtSplitKeepsSorted<T>(s: seq<T>, key: T -> int, p: nat, x: T)
    requires p <= |s| && Sorted(s, key)
    requires forall i :: 0 <= i < p ==> key(s[i]) <= key(x)
    requires forall i :: p <= i < |s| ==> key(s[i]) >= key(x)
    ensures Sorted(InsertAt(s, p, x), key)
    ensures multiset(InsertAt(s, p, x)) == multiset(s) + multiset{x}
  {
    var t := InsertAt(s, p, x);
    forall i, j | 0 <= i < j < |t| ensures key(t[i]) <= key(t[j]) {
      if j < p || i > p {
      } else if i == p {
        assert t[j] == s[j - 1];
      } else {
        assert t[i] == s[i];
      }
    }
    assert s == s[..p] + s[p..];
  }

  /** Adding at the position found keeps a sorted list sorted. */
  lemma AddKeepsSorted<T>(s: seq<T>, key: T -> int, x: T)
    requires Sorted(s, key)
    ensures SortedPosition(s, key, x) <= |s|
    ensures Sorted(InsertAt(s, SortedPosition(s, key, x), x), key)
    ensures multiset(InsertAt(s, SortedPosition(s, key, x), x)) == multiset(s) + multiset{x}
  {
    SortedPositionPartitions(s, key, x);
    InsertAtSplitKeepsSorted(s, key, SortedPosition(s, key, x), x);
  }

  /** Removing an element keeps a sorted list sorted. */
  lemma RemoveKeepsSorted<T>(s: seq<T>, key: T -> int, i: nat)
    requires i < |s| && Sorted(s, key)
    ensures Sorted(RemoveAt(s, i), key)
  {
    var t := RemoveAt(s, i);
    forall a, b | 0 <= a < b < |t| ensures key(t[a]) <= key(t[b]) {
      var a', b' := if a < i then a else a + 1, if b < i then b else b + 1;
      assert t[a] == s[a'] && t[b] == s[b'];
    }
  }

  /** remove(i) takes exactly the element at i away. */
  lemma RemoveAtMultiset<T>(s: seq<T>, i: nat)
    requires i < |s|
    ensures multiset(RemoveAt(s, i)) == multiset(s) - multiset{s[i]}
  {
    assert s == s[..i] + [s[i]] + s[i + 1..];
  }

  /** add(p, x) adds exactly x. */
  lemma InsertAtMultiset<T>(s: seq<T>, p: nat, x: T)
    requires p <= |s|
    ensures multiset(InsertAt(s, p, x)) == multiset(s) + multiset{x}
  {
    assert s == s[..p] + s[p..];
  }

  /**
   * remove(element) takes away the first occurrence, when there is one: one
   * copy fewer of element, still sorted if it was.
   */
  lemma RemoveFirstSpec<T>(s: seq<T>, key: T -> int, x: T)
    ensures IndexOf(s, x) >= 0 ==> multiset(RemoveAt(s, IndexOf(s, x))) == multiset(s) - multiset{x}
    ensures IndexOf(s, x) < 0 ==> multiset(s) - multiset{x} == multiset(s)
    ensures IndexOf(s, x) >= 0 && Sorted(s, key) ==> Sorted(RemoveAt(s, IndexOf(s, x)), key)
  {
    var i := IndexOf(s, x);
    if i >= 0 {
      RemoveAtMultiset(s, i);
      if Sorted(s, key) {
        RemoveKeepsSorted(s, key, i);
      }
    } else {
      assert x !in multiset(s);
    }
  }

  // ---------------------------------------------------------------------
  // Sorting (Collections.sort: a stable sort)
  // ---------------------------------------------------------------------

  /** Insert x into a sorted sequence after every element whose key is not above x's. */
  function InsertSorted<T>(x: T, s: seq<T>, key: T -> int): seq<T> {
    if |s| == 0 then [x]
    else if key(x) < key(s[0]) then [x] + s
    else [s[0]] + InsertSorted(x, s[1..], key)
  }

  /** A stable sort: each element in turn inserted after the equal ones before it. */
  function SortBy<T>(s: seq<T>, key: T -> int): seq<T> {
    if |s| == 0 then []
    else InsertSorted(s[|s| - 1], SortBy(s[..|s| - 1], key), key)
  }

  /** Inserting keeps every element, x once more. */
  lemma {:induction false} InsertSortedMultiset<T>(x: T, s: seq<T>, key: T -> int)
    ensures multiset(InsertSorted(x, s, key)) == multiset(s) + multiset{x}
  {
    if |s| > 0 && key(x) >= key(s[0]) {
      InsertSortedMultiset(x, s[1..], key);
      assert s == [s[0]] + s[1..];
    }
  }

  /** A lower bound on the keys of x and of s bounds the keys after inserting. */
  lemma {:induction false} InsertSortedBounded<T>(x: T, s: seq<T>, key: T -> int, low: int)
    requires low <= key(x) && forall i :: 0 <= i < |s| ==> low <= key(s[i])
    ensures forall k :: 0 <= k < |InsertSorted(x, s, key)| ==> low <= key(InsertSorted(x, s, key)[k])
  {
    if |s| > 0 && key(x) >= key(s[0]) {
      InsertSortedBounded(x, s[1..], key, low);
    }
  }

  lemma {:induction false} InsertSortedSpec<T>(x: T, s: seq<T>, key: T -> int)
    requires Sorted(s, key)
    ensures Sorted(InsertSorted(x, s, key), key)
    ensures multiset(InsertSorted(x, s, key)) == multiset(s) + multiset{x}
  {
    InsertSortedMultiset(x, s, key);
    if |s| > 0 && key(x) >= key(s[0]) {
      InsertSortedSpec(x, s[1..], key);
      InsertSortedBounded(x, s[1..], key, key(s[0]));
    }
  }

  /** The result of Collections.sort is ordered by the comparator and a permutation of its input. */
  lemma {:induction false} SortBySpec<T>(s: seq<T>, key: T -> int)
    ensures Sorted(SortBy(s, key), key)
    ensures multiset(SortBy(s, key)) == multiset(s)
  {
    if |s| > 0 {
      var init := s[..|s| - 1];
      SortBySpec(init, key);
      InsertSortedSpec(s[|s| - 1], SortBy(init, key), key);
      assert s == init + [s[|s| - 1]];
    }
  }

  /** Inserting an element whose key is not below any other appends it. */
  lemma {:induction false} InsertSortedLast<T>(x: T, s: seq<T>, key: T -> int)
    requires forall i :: 0 <= i < |s| ==> key(s[i]) <= key(x)
    ensures InsertSorted(x, s, key) == s + [x]
  {
    if |s| > 0 {
      InsertSortedLast(x, s[1..], key);
      assert [s[0]] + (s[1..] + [x]) == s + [x];
    }
  }

  /** Sorting a list that is already sorted leaves it exactly as it was (the sort is stable). */
  lemma {:induction false} SortBySortedIsIdentity<T>(s: seq<T>, key: T -> int)
    requires Sorted(s, key)
    ensures SortBy(s, key) == s
  {
    if |s| > 0 {
      var init := s[..|s| - 1];
      assert Sorted(init, key);
      SortBySortedIsIdentity(init, key);
      InsertSortedLast(s[|s| - 1], init, key);
      assert init + [s[|s| - 1]] == s;
    }
  }

  // ---------------------------------------------------------------------
  // set(location, element) as written
  // ---------------------------------------------------------------------

  /**
   * set as written: the position is found in the list before the element at
   * location is removed, and the element is then added at that position of
   * the shortened list. Returns the outcome and the new contents.
   */
  function SetAsWritten<T>(s: seq<T>, key: T -> int, location: int, x: T): (r: (Result<T, ListError>, seq<T>))
    ensures !(0 <= location < |s|) ==> r == (Err(IndexOutOfBounds), s)
    ensures 0 <= location < |s| && r.0.Ok? ==>
      multiset(r.1) == multiset(s) - multiset{s[location]} + multiset{x}
    ensures 0 <= location < |s| && r.0.Err? ==>
      location < SortedPosition(s, key, x) && multiset(r.1) == multiset(s) - multiset{s[location]}
  {
    var p := SortedPosition(s, key, x);
    if !(0 <= location < |s|) then (Err(IndexOutOfBounds), s)
    else
      var rest := RemoveAt(s, location);
      RemoveAtMultiset(s, location);
      if p > |rest| then (Err(IndexOutOfBounds), rest)
      else
        InsertAtMultiset(rest, p, x);
        (Ok(x), InsertAt(rest, p, x))
  }

  /**
   * When the position found is not after location, set as written keeps a
   * sorted list sorted.
   */
  lemma SetAsWrittenSortedWhenNotLater<T>(s: seq<T>, key: T -> int, location: int, x: T)
    requires Sorted(s, key) && 0 <= location < |s| && SortedPosition(s, key, x) <= location
    ensures SetAsWritten(s, key, location, x).0 == Ok(x)
    ensures Sorted(SetAsWritten(s, key, location, x).1, key)
  {
    var p := SortedPosition(s, key, x);
    SortedPositionPartitions(s, key, x);
    var rest := RemoveAt(s, location);
    RemoveKeepsSorted(s, key, location);
    forall i | 0 <= i < p ensures key(rest[i]) <= key(x) {
      assert rest[i] == s[i];
    }
    forall i | p <= i < |rest| ensures key(rest[i]) >= key(x) {
      assert rest[i] == s[if i < location then i else i + 1];
    }
    InsertAtSplitKeepsSorted(rest, key, p, x);
  }

  /**
   * set as written misplaces a later element: in [1, 3, 5, 8], setting index 1
   * to 7 finds position 3 before the removal and gives [1, 5, 8, 7].
   */
  lemma SetAsWrittenMisplaces()
    ensures var key := (n: int) => n;
      SetAsWritten([1, 3, 5, 8], key, 1, 7) == (Ok(7), [1, 5, 8, 7]) &&
      Sorted([1, 3, 5, 8], key) && !Sorted([1, 5, 8, 7], key)
  {
    var key := (n: int) => n;
    var s := [1, 3, 5, 8];
    assert SearchFrom(s, key, 7, 3, 2) == 3;
    assert SearchFrom(s, key, 7, 3, 3) == 3;
    assert SearchFrom(s, key, 7, 2, 3) == 3;
    assert SortedPosition(s, key, 7) == 3;
    assert RemoveAt(s, 1) == [1, 5, 8];
    assert InsertAt([1, 5, 8], 3, 7) == [1, 5, 8, 7];
    assert key([1, 5, 8, 7][2]) > key([1, 5, 8, 7][3]);
  }

  /**
   * set as written can overrun: in [1, 3], setting index 0 to 9 finds
   * position 2, past the end once the first element is gone; the removal has
   * already happened when the add fails.
   */
  lemma SetAsWrittenOverruns()
    ensures SetAsWritten([1, 3], (n: int) => n, 0, 9) == (Err(IndexOutOfBounds), [3])
  {
    var key := (n: int) => n;
    var s := [1, 3];
    assert SearchFrom(s, key, 9, 2, 1) == 2;
    assert SearchFrom(s, key, 9, 1, 1) == 2;
    assert SortedPosition(s, key, 9) == 2;
    assert RemoveAt(s, 0) == [3];
  }

  /** The first index of x, or -1: List.indexOf, which remove(Object) uses. */
  function IndexOf<T(==)>(s: seq<T>, x: T): (r: int)
    ensures -1 <= r < |s|
    ensures r == -1 <==> x !in s
    ensures r >= 0 ==> s[r] == x && x !in s[..r]
  {
    if |s| == 0 then -1
    else if s[0] == x then 0
    else
      var r := IndexOf(s[1..], x);
      if r == -1 then -1 else r + 1
  }

  // ---------------------------------------------------------------------
  // The list
  // ---------------------------------------------------------------------

  class SortedList<T(==)> {
    /** The elements, in order. */
    var list: seq<T>
    /** The comparator in use. */
    var comparator: T -> int
    /** DefaultComparator: the elements' natural order, installed when no comparator is given. */
    const natural: T -> int

    /**
     * SortedList(collection, comparator): an empty list, the comparator (or the
     * default), then every element of the collection added and sorted.
     */
    constructor (collection: Option<seq<T>>, comparator: Option<T -> int>, natural: T -> int)
      ensures this.natural == natural
      ensures this.comparator == (if comparator.Some? then comparator.value else natural)
      ensures list == (if collection.Some? then SortBy(collection.value, this.comparator) else [])
      ensures Sorted(list, this.comparator)
    {
      this.natural := natural;
      this.comparator := natural;
      this.list := [];
      new;
      SetComparator(comparator);
      assert list == [];
      if collection.Some? {
        var _ := AddAll(collection.value);
        assert [] + collection.value == collection.value;
        SortBySpec(collection.value, this.comparator);
      }
    }

    /** setComparator: install the comparator, or the default for null, and re-sort. */
    method SetComparator(comparator: Option<T -> int>)
      modifies this
      ensures this.comparator == (if comparator.Some? then comparator.value else natural)
      ensures list == SortBy(old(list), this.comparator)
      ensures Sorted(list, this.comparator) && multiset(list) == multiset(old(list))
    {
      if comparator.Some? {
        this.comparator := comparator.value;
      } else {
        this.comparator := natural;
      }
      list := SortBy(list, this.comparator);
      SortBySpec(old(list), this.comparator);
    }

    /** setPreSortedList: the given elements as they are, unsorted, or none for null. */
    method SetPreSortedList(preSortedList: Option<seq<T>>)
      modifies this
      ensures comparator == old(comparator)
      ensures list == (if preSortedList.Some? then preSortedList.value else [])
    {
      if preSortedList.Some? {
        list := preSortedList.value;
      } else {
        list := [];
      }
    }

    /** getSortedPosition: Collections.binarySearch, a miss turned into its insertion point. */
    method GetSortedPosition(element: T) returns (p: nat)
      ensures p == SortedPosition(list, comparator, element)
      ensures p <= |list|
    {
      var low, high := 0, |list| - 1;
      var result: int := 0;
      var found := false;
      while low <= high
        invariant 0 <= low <= high + 1 <= |list|
        invariant SearchFrom(list, comparator, element, low, high) == SortedPosition(list, comparator, element)
        decreases high - low + 1
      {
        var mid := (low + high) / 2;
        var midKey := comparator(list[mid]);
        if midKey < comparator(element) {
          low := mid + 1;
        } else if midKey > comparator(element) {
          high := mid - 1;
        } else {
          result := mid;
          found := true;
          break;
        }
      }
      if !found {
        result := -(low + 1);
      }
      if result < 0 {
        return (result + 1) * -1;
      }
      return result;
    }

    /** add: insert at the position found; always true. */
    method Add(element: T) returns (result: bool)
      modifies this
      ensures result && comparator == old(comparator)
      ensures SortedPosition(old(list), comparator, element) <= |old(list)|
      ensures list == InsertAt(old(list), SortedPosition(old(list), comparator, element), element)
      ensures multiset(list) == multiset(old(list)) + multiset{element}
      ensures Sorted(old(list), comparator) ==> Sorted(list, comparator)
    {
      var position := GetSortedPosition(element);
      list := InsertAt(list, position, element);
      assert old(list) == old(list)[..position] + old(list)[position..];
      if Sorted(old(list), comparator) {
        AddKeepsSorted(old(list), comparator, element);
      }
      return true;
    }

    /** add(location, element): the location is ignored; exactly add(element). */
    method AddAt(location: int, element: T)
      modifies this
      ensures comparator == old(comparator)
      ensures SortedPosition(old(list), comparator, element) <= |old(list)|
      ensures list == InsertAt(old(list), SortedPosition(old(list), comparator, element), element)
      ensures multiset(list) == multiset(old(list)) + multiset{element}
      ensures Sorted(old(list), comparator) ==> Sorted(list, comparator)
    {
      var _ := Add(element);
    }

    /**
     * addAll: append, then sort when anything was appended. False, and the
     * list untouched, for an empty collection.
     */
    method AddAll(collection: seq<T>) returns (result: bool)
      modifies this
      ensures comparator == old(comparator)
      ensures result == (|collection| > 0)
      ensures result ==> list == SortBy(old(list) + collection, comparator)
      ensures !result ==> list == old(list)
      ensures result ==> Sorted(list, comparator)
      ensures multiset(list) == multiset(old(list)) + multiset(collection)
    {
      list := list + collection;
      result := |collection| > 0;
      if result {
        list := SortBy(list, comparator);
        SortBySpec(old(list) + collection, comparator);
      } else {
        assert collection == [];
        assert list == old(list);
      }
    }

    /** addAll(location, collection): the location is ignored; exactly addAll(collection). */
    method AddAllAt(location: int, collection: seq<T>) returns (result: bool)
      modifies this
      ensures comparator == old(comparator)
      ensures result == (|collection| > 0)
      ensures result ==> list == SortBy(old(list) + collection, comparator)
      ensures !result ==> list == old(list)
      ensures multiset(list) == multiset(old(list)) + multiset(collection)
    {
      result := AddAll(collection);
    }

    /** clear. */
    method Clear()
      modifies this
      ensures list == [] && comparator == old(comparator)
    {
      list := [];
    }

    /** remove(location): the element removed, or IndexOutOfBounds with nothing changed. */
    method RemoveAtIndex(location: int) returns (r: Result<T, ListError>)
      modifies this
      ensures comparator == old(comparator)
      ensures 0 <= location < |old(list)| ==>
        r == Ok(old(list)[location]) && list == RemoveAt(old(list), location)
      ensures !(0 <= location < |old(list)|) ==> r == Err(IndexOutOfBounds) && list == old(list)
      ensures Sorted(old(list), comparator) ==> Sorted(list, comparator)
    {
      if !(0 <= location < |list|) {
        return Err(IndexOutOfBounds);
      }
      r := Ok(list[location]);
      if Sorted(list, comparator) {
        RemoveKeepsSorted(list, comparator, location);
      }
      list := RemoveAt(list, location);
    }

    /** remove(element): the first occurrence, if any; true when one was removed. */
    method RemoveObject(element: T) returns (result: bool)
      modifies this
      ensures comparator == old(comparator)
      ensures result == (element in old(list))
      ensures result ==> list == RemoveAt(old(list), IndexOf(old(list), element))
      ensures !result ==> list == old(list)
      ensures multiset(list) == multiset(old(list)) - multiset{element}
      ensures Sorted(old(list), comparator) ==> Sorted(list, comparator)
    {
      var i := IndexOf(list, element);
      RemoveFirstSpec(list, comparator, element);
      result := i >= 0;
      if result {
        list := RemoveAt(list, i);
      }
    }

    /**
     * set, corrected: a null element changes nothing and returns null;
     * otherwise the element at location is removed, the position of the new
     * element is found in what remains, and the element is added there, so a
     * sorted list stays sorted. The element itself is returned.
     */
    method Set(location: int, element: Option<T>) returns (r: Result<Option<T>, ListError>)
      modifies this
      ensures comparator == old(comparator)
      ensures element.None? ==> r == Ok(None) && list == old(list)
      ensures element.Some? && !(0 <= location < |old(list)|) ==> r == Err(IndexOutOfBounds) && list == old(list)
      ensures element.Some? && 0 <= location < |old(list)| ==>
        var rest := RemoveAt(old(list), location);
        SortedPosition(rest, comparator, element.value) <= |rest| &&
        r == Ok(element) && list == InsertAt(rest, SortedPosition(rest, comparator, element.value), element.value)
      ensures element.Some? && 0 <= location < |old(list)| ==>
        multiset(list) == multiset(old(list)) - multiset{old(list)[location]} + multiset{element.value}
      ensures Sorted(old(list), comparator) ==> Sorted(list, comparator)
    {
      if element.None? {
        return Ok(None);
      }
      if !(0 <= location < |list|) {
        return Err(IndexOutOfBounds);
      }
      ghost var s, key := list, comparator;
      RemoveAtMultiset(s, location);
      if Sorted(s, key) {
        RemoveKeepsSorted(s, key, location);
      }
      list := RemoveAt(list, location);
      ghost var rest := list;
      var newPosition := GetSortedPosition(element.value);
      InsertAtMultiset(rest, newPosition, element.value);
      if Sorted(rest, key) {
        AddKeepsSorted(rest, key, element.value);
      }
      list := InsertAt(list, newPosition, element.value);
      r := Ok(element);
    }
  }
}
