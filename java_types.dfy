/**
 * A finite universe of Java classes standing in for java.lang.Class, the
 * primitive/wrapper and primitive-widening tables of ParamUtils, and
 * isAcceptablePrimitive.
 */
module JavaTypes {

  /** The eight Java primitive types. */
  datatype Prim = Boolean | Byte | Char | Short | Int | Long | Float | Double

  /**
   * A class object: a primitive class (int.class), its wrapper (Integer.class),
   * Object, Number, String, or an array class.
   */
  datatype Type =
    | Primitive(prim: Prim)
    | Wrapper(boxed: Prim)
    | ObjectClass
    | NumberClass
    | StringClass
    | ArrayOf(component: Type)

  /** The wrappers of the six numeric primitives extend Number; Boolean and Character do not. */
  predicate IsNumeric(p: Prim) {
    p != Boolean && p != Char
  }

  /**
   * Class.isAssignableFrom: `to.isAssignableFrom(from)`. Primitive classes are
   * assignable only from themselves; arrays are covariant in a reference
   * component and exact in a primitive one.
   */
  predicate IsAssignable(to: Type, from: Type)
    decreases to
  {
    if to == from then true
    else match to
      case Primitive(_) => false
      case Wrapper(_) => false
      case StringClass => false
      case ObjectClass => !from.Primitive?
      case NumberClass => from.Wrapper? && IsNumeric(from.boxed)
      case ArrayOf(c) =>
        from.ArrayOf? && !c.Primitive? && !from.component.Primitive? && IsAssignable(c, from.component)
  }

  lemma {:induction false} IsAssignableTransitive(a: Type, b: Type, c: Type)
    requires IsAssignable(a, b) && IsAssignable(b, c)
    ensures IsAssignable(a, c)
    decreases a
  {
    if a != b && b != c && a.ArrayOf? {
      IsAssignableTransitive(a.component, b.component, c.component);
    }
  }

  lemma {:induction false} IsAssignableAntisymmetric(a: Type, b: Type)
    requires IsAssignable(a, b) && IsAssignable(b, a)
    ensures a == b
    decreases a
  {
    if a != b && a.ArrayOf? {
      IsAssignableAntisymmetric(a.component, b.component);
    }
  }

  /** The primitiveWrapperMap of ParamUtils: each primitive to its wrapper class. */
  function WrapperOf(p: Prim): Type {
    Wrapper(p)
  }

  /**
   * The primitiveAssignableMap of ParamUtils as written: for a parameter
   * primitive `to`, the argument primitives it accepts. The double row lacks byte.
   */
  function WideningAsWritten(to: Prim): set<Prim> {
    match to
    case Int => {Int, Short, Byte, Char}
    case Float => {Float, Int, Short, Byte, Long, Char}
    case Double => {Double, Char, Int, Float, Short, Long}
    case Short => {Short, Byte}
    case Byte => {Byte}
    case Long => {Long, Int, Short, Byte, Char}
    case Boolean => {Boolean}
    case Char => {Char}
  }

  /** The table with byte added to the double row; the rest of the model uses this one. */
  function Widening(to: Prim): (s: set<Prim>)
    ensures WideningAsWritten(to) <= s
    ensures to in s
  {
    if to == Double then WideningAsWritten(Double) + {Byte} else WideningAsWritten(to)
  }

  /** Identity or widening primitive conversion, as the Java language defines it (JLS 5.1.2). */
  predicate JlsWidens(from: Prim, to: Prim) {
    from == to ||
    match from
    case Byte => to == Short || to == Int || to == Long || to == Float || to == Double
    case Short => to == Int || to == Long || to == Float || to == Double
    case Char => to == Int || to == Long || to == Float || to == Double
    case Int => to == Long || to == Float || to == Double
    case Long => to == Float || to == Double
    case Float => to == Double
    case _ => false
  }

  lemma WideningAsWrittenMissesByteToDouble()
    ensures JlsWidens(Byte, Double) && Byte !in WideningAsWritten(Double)
    ensures forall from: Prim, to: Prim :: from in WideningAsWritten(to) ==> JlsWidens(from, to)
  {
  }

  lemma WideningIsJls(from: Prim, to: Prim)
    ensures from in Widening(to) <==> JlsWidens(from, to)
  {
  }

  /** The table is one-way: a wider parameter accepts a narrower argument and never the reverse. */
  lemma WideningIsOneWay(from: Prim, to: Prim)
    requires from != to && from in Widening(to)
    ensures to !in Widening(from)
  {
  }

  /**
   * isAcceptablePrimitive(clazz1, clazz2), clazz1 the parameter class and
   * clazz2 the argument class: two primitives by the widening table, a
   * primitive and its own wrapper in either order, and nothing else.
   */
  predicate IsAcceptablePrimitive(c1: Type, c2: Type)
    ensures IsAcceptablePrimitive(c1, c2) ==> c1.Primitive? || c2.Primitive?
    ensures c1.Primitive? && c2 == c1 ==> IsAcceptablePrimitive(c1, c2)
    ensures c1.Primitive? && c2 == WrapperOf(c1.prim) ==> IsAcceptablePrimitive(c1, c2)
    ensures c2.Primitive? && c1 == WrapperOf(c2.prim) ==> IsAcceptablePrimitive(c1, c2)
  {
    if c1.Primitive? && c2.Primitive? then
      c1 == c2 || c2.prim in Widening(c1.prim)
    else if c1.Primitive? then
      WrapperOf(c1.prim) == c2
    else if c2.Primitive? then
      WrapperOf(c2.prim) == c1
    else
      false
  }

  /** Between two primitives, acceptability is exactly Java's widening: long accepts int, int rejects long. */
  lemma AcceptablePrimitivesWiden(p: Prim, q: Prim)
    ensures IsAcceptablePrimitive(Primitive(p), Primitive(q)) <==> JlsWidens(q, p)
  {
    WideningIsJls(q, p);
  }

  /** boolean and char accept only themselves among primitives. */
  lemma BooleanAndCharAcceptOnlyThemselves(q: Prim)
    ensures IsAcceptablePrimitive(Primitive(Boolean), Primitive(q)) <==> q == Boolean
    ensures IsAcceptablePrimitive(Primitive(Char), Primitive(q)) <==> q == Char
  {
  }

  /** A primitive parameter, given a non-primitive argument class, accepts only its own wrapper. */
  lemma PrimitiveAcceptsOnlyOwnWrapper(p: Prim, c: Type)
    requires !c.Primitive?
    ensures IsAssignable(Primitive(p), c) || IsAcceptablePrimitive(Primitive(p), c) <==> c == Wrapper(p)
  {
  }

  /**
   * A runtime argument: null, an object whose class is `cls` (an array class
   * for an array the caller built), or an array of component class `component`
   * built by varargs packing, holding `elems`.
   */
  datatype Arg = Null | Obj(cls: Type) | Packed(component: Type, elems: seq<Arg>)

  /** getClass() of a non-null argument. */
  function ClassOf(a: Arg): Type
    requires !a.Null?
  {
    match a
    case Obj(c) => c
    case Packed(c, _) => ArrayOf(c)
  }

  /**
   * The descriptor java.lang.reflect gives of a method or constructor: the
   * declaring class, the name, the parameter classes and the varargs flag.
   */
  datatype Signature = Signature(owner: nat, name: string, params: seq<Type>, isVarArgs: bool)

  /** Java only marks a method varargs when its last parameter is an array class. */
  predicate VarArgsShaped(params: seq<Type>) {
    |params| > 0 && params[|params| - 1].ArrayOf?
  }

  predicate WellFormed(s: Signature) {
    s.isVarArgs ==> VarArgsShaped(s.params)
  }
}
