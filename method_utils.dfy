/**
 * MethodUtils: the Method-level entry points, which hand a method's
 * parameter types and varargs flag to ParamUtils, and the duplicate test
 * used to weed out identical methods inherited by different classes.
 */
module MethodUtils {
  import opened Wrappers
  import opened JavaTypes
  import ParamUtils

  /**
   * convertParamsForVarArgsMethod: the arguments unchanged for a method that
   * is not varargs, otherwise the varargs conversion over its parameter types.
   */
  function ConvertParamsForVarArgsMethod(m: Signature, newParams: seq<Arg>): (r: Option<seq<Arg>>)
    requires WellFormed(m)
    ensures !m.isVarArgs ==> r == Some(newParams)
    ensures m.isVarArgs ==> r == ParamUtils.VarArgsConversion(m.params, newParams)
  {
    if !m.isVarArgs then Some(newParams)
    else ParamUtils.VarArgsConversion(m.params, newParams)
  }

  /** isValidInvocation: the method's own parameter types and varargs flag, forwarded unchanged. */
  function IsValidInvocation(m: Signature, newParams: seq<Arg>): (r: bool)
    requires WellFormed(m)
    ensures r == ParamUtils.ValidCall(m.params, m.isVarArgs, newParams)
    ensures r && !m.isVarArgs ==> |newParams| == |m.params|
  {
    ParamUtils.ValidCall(m.params, m.isVarArgs, newParams)
  }

  /** isDuplicateMethod: same name, same number of parameters, same parameter types. */
  predicate IsDuplicateMethod(m1: Signature, m2: Signature): (r: bool)
    ensures r <==> m1.name == m2.name && m1.params == m2.params
  {
    if m1.name == m2.name then
      if |m1.params| == |m2.params| then
        m1.params == m2.params
      else
        false
    else
      false
  }

  /** Duplicates are exactly the methods agreeing on name and parameter types; the owner plays no part. */
  lemma DuplicateMethodIff(m1: Signature, m2: Signature)
    ensures IsDuplicateMethod(m1, m2) <==> m1.name == m2.name && m1.params == m2.params
    ensures IsDuplicateMethod(m1, m2) <==> IsDuplicateMethod(m1.(owner := m2.owner), m2)
  {
  }

  /** isDuplicateMethod is reflexive and symmetric, and false for different parameter counts. */
  lemma DuplicateMethodRelation(m1: Signature, m2: Signature)
    ensures IsDuplicateMethod(m1, m1)
    ensures IsDuplicateMethod(m1, m2) <==> IsDuplicateMethod(m2, m1)
    ensures |m1.params| != |m2.params| ==> !IsDuplicateMethod(m1, m2)
  {
  }

  /**
   * For a valid call of a varargs method, converting and then unpacking the
   * last slot gives back the arguments, unless the last one already was the
   * varargs array, which is passed through unchanged.
   */
  lemma ValidVarArgsMethodConverts(m: Signature, newParams: seq<Arg>)
    requires WellFormed(m) && m.isVarArgs && IsValidInvocation(m, newParams)
    ensures var r := ConvertParamsForVarArgsMethod(m, newParams);
      && r.Some? && |r.value| == |m.params|
      && (if |newParams| == |m.params| && ParamUtils.LastIsVarArgsArray(m.params, newParams)
          then r.value == newParams
          else r.value[|r.value| - 1].Packed? && ParamUtils.Unpacked(r.value) == newParams)
  {
    if |newParams| == |m.params| && ParamUtils.LastIsVarArgsArray(m.params, newParams) {
      ParamUtils.ValidCallConverts(m.params, true, newParams);
    } else {
      ParamUtils.RoundTrip(m.params, newParams);
    }
  }

  /**
   * A caller-built Double[] at the varargs slot of (Object, Number...) is of
   * a subclass of Number[] and is passed through as it is; the same Doubles
   * given one by one are packed into a Number[].
   */
  lemma SubclassArrayAtVarArgs()
    ensures var m := Signature(0, "method5", [ObjectClass, ArrayOf(NumberClass)], true);
      var d := Obj(Wrapper(Double));
      var args := [d, Obj(ArrayOf(Wrapper(Double)))];
      && IsValidInvocation(m, args) && ConvertParamsForVarArgsMethod(m, args) == Some(args)
      && IsValidInvocation(m, [d, d, d])
      && ConvertParamsForVarArgsMethod(m, [d, d, d]) == Some([d, Packed(NumberClass, [d, d])])
  {
    var d := Obj(Wrapper(Double));
    var args := [d, Obj(ArrayOf(Wrapper(Double)))];
    assert args[1..] == [Obj(ArrayOf(Wrapper(Double)))];
    assert IsAssignable(ArrayOf(NumberClass), ArrayOf(Wrapper(Double)));
    var three := [d, d, d];
    assert three[1..] == [d, d] && three[..1] == [d] && three[1..3] == [d, d];
    var expected := [ObjectClass, ArrayOf(NumberClass)];
    assert ParamUtils.ValidCall(expected, true, args);
    assert ParamUtils.VarArgsConversion(expected, args) == Some(args);
    assert ParamUtils.ValidCall(expected, true, three);
    assert forall j :: 1 <= j < 3 ==> three[j] == d;
    assert ParamUtils.Pack(expected, 2, three) == Some(three[..1] + [Packed(NumberClass, three[1..3])]);
    assert ParamUtils.VarArgsConversion(expected, three) == ParamUtils.Pack(expected, 2, three);
    assert three[..1] + [Packed(NumberClass, three[1..3])] == [d, Packed(NumberClass, [d, d])];
  }
}
