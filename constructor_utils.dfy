/**
 * ConstructorUtils: the Constructor-level entry points, mirroring
 * MethodUtils for constructors.
 */
module ConstructorUtils {
  import opened Wrappers
  import opened JavaTypes
  import ParamUtils

  /**
   * validateInvocationAndConvertParams: the constructor's own parameter types
   * and varargs flag, forwarded unchanged. None when the call is not valid;
   * a valid non-varargs call keeps its arguments.
   */
  function ValidateInvocationAndConvertParams(c: Signature, newParams: Option<seq<Arg>>): (r: Option<seq<Arg>>)
    requires WellFormed(c)
    ensures r == ParamUtils.ValidatedConversion(c.params, c.isVarArgs, newParams)
    ensures r.Some? <==> ParamUtils.ValidCall(c.params, c.isVarArgs, ParamUtils.ArgsOf(newParams))
    ensures r.Some? && !c.isVarArgs ==> r.value == ParamUtils.ArgsOf(newParams)
  {
    ParamUtils.ValidCallConverts(c.params, c.isVarArgs, ParamUtils.ArgsOf(newParams));
    ParamUtils.ValidatedConversion(c.params, c.isVarArgs, newParams)
  }

  /** isDuplicateConstructor: same name, same number of parameters, same parameter types. */
  predicate IsDuplicateConstructor(c1: Signature, c2: Signature): (r: bool)
    ensures r <==> c1.name == c2.name && c1.params == c2.params
  {
    if c1.name == c2.name then
      if |c1.params| == |c2.params| then
        c1.params == c2.params
      else
        false
    else
      false
  }

  /** Duplicates are exactly the constructors agreeing on name and parameter types. */
  lemma DuplicateConstructorIff(c1: Signature, c2: Signature)
    ensures IsDuplicateConstructor(c1, c2) <==> c1.name == c2.name && c1.params == c2.params
  {
  }

  /** isDuplicateConstructor is reflexive and symmetric, and false for different parameter counts. */
  lemma DuplicateConstructorRelation(c1: Signature, c2: Signature)
    ensures IsDuplicateConstructor(c1, c1)
    ensures IsDuplicateConstructor(c1, c2) <==> IsDuplicateConstructor(c2, c1)
    ensures |c1.params| != |c2.params| ==> !IsDuplicateConstructor(c1, c2)
  {
  }

  /**
   * A (boolean, int...) constructor: a lone Boolean gets an empty int[], and
   * (true, 1, 2) gets int[]{1, 2}, the Integers unboxed into the int slots.
   */
  lemma BooleanIntVarArgsConstructor()
    ensures var c := Signature(0, "Val", [Primitive(Boolean), ArrayOf(Primitive(Int))], true);
      var b, i := Obj(Wrapper(Boolean)), Obj(Wrapper(Int));
      && ValidateInvocationAndConvertParams(c, Some([b])) == Some([b, Packed(Primitive(Int), [])])
      && ValidateInvocationAndConvertParams(c, Some([b, i, i])) == Some([b, Packed(Primitive(Int), [i, i])])
  {
    var b, i := Obj(Wrapper(Boolean)), Obj(Wrapper(Int));
    var expected := [Primitive(Boolean), ArrayOf(Primitive(Int))];
    var one := [b];
    var three := [b, i, i];
    assert one[..1] == [b] && one[1..1] == [];
    assert three[..1] == [b] && three[1..3] == [i, i];
    assert ParamUtils.Accepts(Primitive(Boolean), b);
    assert ParamUtils.Accepts(Primitive(Int), i);
    assert !ParamUtils.IsLoneArray(three[1..]);
    assert ParamUtils.ValidCall(expected, true, one);
    assert ParamUtils.Pack(expected, 0, one) == Some(one[..1] + [Packed(Primitive(Int), one[1..1])]);
    assert ParamUtils.VarArgsConversion(expected, one) == ParamUtils.Pack(expected, 0, one);
    assert ParamUtils.ValidatedConversion(expected, true, Some(one)) == ParamUtils.Pack(expected, 0, one);
    assert ParamUtils.ValidCall(expected, true, three);
    assert forall j :: 1 <= j < 3 ==> three[j] == i;
    assert ParamUtils.Pack(expected, 2, three) == Some(three[..1] + [Packed(Primitive(Int), three[1..3])]);
    assert ParamUtils.VarArgsConversion(expected, three) == ParamUtils.Pack(expected, 2, three);
    assert ParamUtils.ValidatedConversion(expected, true, Some(three)) == ParamUtils.Pack(expected, 2, three);
    assert one[..1] + [Packed(Primitive(Int), one[1..1])] == [b, Packed(Primitive(Int), [])];
    assert three[..1] + [Packed(Primitive(Int), three[1..3])] == [b, Packed(Primitive(Int), [i, i])];
    var c := Signature(0, "Val", expected, true);
    assert ValidateInvocationAndConvertParams(c, Some(one)) == Some([b, Packed(Primitive(Int), [])]);
    assert ValidateInvocationAndConvertParams(c, Some(three)) == Some([b, Packed(Primitive(Int), [i, i])]);
  }
}
