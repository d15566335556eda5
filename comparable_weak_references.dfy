/**
 * ComparableWeakReference: a weak reference whose equality, hash code and
 * ordering are those of its referent. Each operation reads the referent once
 * (get()), so a reference is modelled by that snapshot: None when the
 * referent has been cleared, Some(x) while it is alive. What the referent
 * itself does (equals, hashCode, whether it is Comparable, compareTo,
 * toString) is passed in as a Behaviour.
 */
module ComparableWeakReferences {
  import opened Wrappers

  /** The referent class's own methods. */
  datatype Behaviour<!T> = Behaviour(
    equals: (T, T) -> bool,
    hash: T -> int,
    isComparable: T -> bool,
    compareTo: (T, T) -> int,
    toString: T -> seq<char>)

  /** The argument of equals: null, an object of another class, or another weak reference. */
  datatype Other<T> = NullObject | NotAReference | Reference(referent: Option<T>)

  /** equals(obj). */
  function Equals<T>(b: Behaviour<T>, self: Option<T>, obj: Other<T>): (r: bool)
    ensures r ==> obj.Reference? && (self.None? <==> obj.referent.None?)
  {
    if obj.NullObject? then false
    else if obj.NotAReference? then false
    else if self.None? then obj.referent.None?
    else obj.referent.Some? && b.equals(self.value, obj.referent.value)
  }

  /** hashCode(): the referent's hash, or 0 once cleared. */
  function HashCode<T>(b: Behaviour<T>, self: Option<T>): int {
    if self.Some? then b.hash(self.value) else 0
  }

  /**
   * String.compareTo: the difference of the first differing characters, else
   * of the lengths. The characters here are Unicode scalar values, not Java's
   * UTF-16 code units, so a character above U+FFFF orders above U+E000-U+FFFF
   * where Java orders it below.
   */
  function StringCompareTo(a: seq<char>, c: seq<char>): (r: int)
    ensures r == 0 <==> a == c
  {
    if |a| == 0 || |c| == 0 then |a| - |c|
    else if a[0] != c[0] then a[0] as int - c[0] as int
    else
      assert a == [a[0]] + a[1..] && c == [c[0]] + c[1..];
      StringCompareTo(a[1..], c[1..])
  }

  /** compareTo(o). */
  function CompareTo<T>(b: Behaviour<T>, self: Option<T>, other: Option<T>): (r: int)
    ensures self.Some? && other.Some? && !b.isComparable(self.value) ==>
      (r == 0 <==> b.toString(self.value) == b.toString(other.value))
  {
    if self.None? then -1
    else if other.None? then 1
    else if b.isComparable(self.value) then b.compareTo(self.value, other.value)
    else StringCompareTo(b.toString(self.value), b.toString(other.value))
  }

  // ---------------------------------------------------------------------
  // equals and hashCode
  // ---------------------------------------------------------------------

  /** A reference never equals null or an object that is not a weak reference. */
  lemma NotEqualToNullOrOtherClass<T>(b: Behaviour<T>, self: Option<T>)
    ensures !Equals(b, self, NullObject) && !Equals(b, self, NotAReference)
  {
  }

  /**
   * Two cleared references are equal, a cleared one never equals a live
   * one, and two live ones are equal exactly when their referents are.
   */
  lemma EqualsCases<T>(b: Behaviour<T>, self: Option<T>, other: Option<T>)
    ensures self.None? && other.None? ==> Equals(b, self, Reference(other))
    ensures self.None? != other.None? ==> !Equals(b, self, Reference(other))
    ensures self.Some? && other.Some? ==>
      (Equals(b, self, Reference(other)) <==> b.equals(self.value, other.value))
  {
  }

  /** The referent's equals is an equivalence relation. */
  ghost predicate EqualsIsEquivalence<T(!new)>(b: Behaviour<T>) {
    (forall x :: b.equals(x, x)) &&
    (forall x, y :: b.equals(x, y) ==> b.equals(y, x)) &&
    (forall x, y, z :: b.equals(x, y) && b.equals(y, z) ==> b.equals(x, z))
  }

  /** When the referent's equals is an equivalence, so is equals on references, cleared ones included. */
  lemma ReferenceEqualsIsEquivalence<T(!new)>(b: Behaviour<T>, r: Option<T>, s: Option<T>, t: Option<T>)
    requires EqualsIsEquivalence(b)
    ensures Equals(b, r, Reference(r))
    ensures Equals(b, r, Reference(s)) ==> Equals(b, s, Reference(r))
    ensures Equals(b, r, Reference(s)) && Equals(b, s, Reference(t)) ==> Equals(b, r, Reference(t))
  {
    if r.Some? && s.Some? && t.Some? && Equals(b, r, Reference(s)) && Equals(b, s, Reference(t)) {
      assert b.equals(r.value, s.value) && b.equals(s.value, t.value);
    }
  }

  /**
   * When the referent's hashCode agrees with its equals, equal references
   * have equal hash codes; a cleared reference hashes to 0.
   */
  lemma HashCodeAgreesWithEquals<T>(b: Behaviour<T>, self: Option<T>, other: Option<T>)
    requires forall x, y :: b.equals(x, y) ==> b.hash(x) == b.hash(y)
    ensures Equals(b, self, Reference(other)) ==> HashCode(b, self) == HashCode(b, other)
    ensures self.None? ==> HashCode(b, self) == 0
  {
    if self.Some? && other.Some? && Equals(b, self, Reference(other)) {
      assert b.equals(self.value, other.value);
    }
  }

  // ---------------------------------------------------------------------
  // compareTo
  // ---------------------------------------------------------------------

  /**
   * A cleared reference compares below anything, even another cleared one,
   * so two cleared references each compare less than the other; a live one
   * compares above a cleared one.
   */
  lemma CompareToCleared<T>(b: Behaviour<T>, self: Option<T>, other: Option<T>)
    ensures self.None? ==> CompareTo(b, self, other) == -1
    ensures self.None? && other.None? ==> CompareTo(b, self, other) == CompareTo(b, other, self) == -1
    ensures self.Some? && other.None? ==> CompareTo(b, self, other) == 1
  {
  }

  /** Two live references are ordered by the referent's compareTo when it is Comparable. */
  lemma CompareToComparable<T>(b: Behaviour<T>, x: T, y: T)
    requires b.isComparable(x)
    ensures CompareTo(b, Some(x), Some(y)) == b.compareTo(x, y)
  {
  }

  /** String.compareTo is antisymmetric and zero exactly on equal strings. */
  lemma {:induction false} StringCompareToSpec(a: seq<char>, c: seq<char>)
    ensures StringCompareTo(a, c) == -StringCompareTo(c, a)
    ensures StringCompareTo(a, c) == 0 <==> a == c
  {
    if |a| > 0 && |c| > 0 && a[0] == c[0] {
      StringCompareToSpec(a[1..], c[1..]);
      assert a == [a[0]] + a[1..] && c == [c[0]] + c[1..];
    } else if |a| > 0 && |c| > 0 {
      assert a[0] != c[0];
    }
  }

  /**
   * Two live references whose referents are not Comparable are ordered by
   * their toString text: antisymmetric, and zero exactly when the texts agree.
   */
  lemma CompareToByText<T>(b: Behaviour<T>, x: T, y: T)
    requires !b.isComparable(x) && !b.isComparable(y)
    ensures CompareTo(b, Some(x), Some(y)) == StringCompareTo(b.toString(x), b.toString(y))
    ensures CompareTo(b, Some(x), Some(y)) == -CompareTo(b, Some(y), Some(x))
    ensures CompareTo(b, Some(x), Some(y)) == 0 <==> b.toString(x) == b.toString(y)
  {
    StringCompareToSpec(b.toString(x), b.toString(y));
  }
}
