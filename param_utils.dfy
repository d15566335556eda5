/**
 * ParamUtils: deciding whether an argument list is legal for a parameter list
 * (isValidInvocation and its validateParams* helpers) and packing trailing
 * arguments into a varargs array (convertParamsForVarArgs and
 * performVarArgsParamConversion). The specification functions come first;
 * the methods that follow are the source's loops, proved against them.
 */
module ParamUtils {
  import opened Wrappers
  import opened JavaTypes

  // ---------------------------------------------------------------------
  // Specification
  // ---------------------------------------------------------------------

  /**
   * One argument at one parameter position: isAssignableFrom, else
   * isAcceptablePrimitive. A null argument is accepted by a reference
   * parameter and rejected by a primitive one.
   */
  predicate Accepts(t: Type, a: Arg) {
    match a
    case Null => !t.Primitive?
    case _ => IsAssignable(t, ClassOf(a)) || IsAcceptablePrimitive(t, ClassOf(a))
  }

  /** The first n arguments are each accepted at their own position. */
  predicate PositionsAccept(expected: seq<Type>, args: seq<Arg>, n: nat)
    requires n <= |expected| && n <= |args|
  {
    forall i :: 0 <= i < n ==> Accepts(expected[i], args[i])
  }

  /** A single non-null argument whose class is an array class. */
  predicate IsLoneArray(trailing: seq<Arg>) {
    |trailing| == 1 && !trailing[0].Null? && ClassOf(trailing[0]).ArrayOf?
  }

  /**
   * isValidVarArgs: a lone array must be of the varargs class or a subclass
   * of it; otherwise every trailing argument must be accepted by the
   * component class.
   */
  predicate VarArgsAccept(varArgType: Type, trailing: seq<Arg>)
    requires varArgType.ArrayOf?
  {
    if IsLoneArray(trailing) then
      varArgType == ClassOf(trailing[0]) || IsAssignable(varArgType, ClassOf(trailing[0]))
    else
      forall i :: 0 <= i < |trailing| ==> Accepts(varArgType.component, trailing[i])
  }

  /** isValidInvocation: the arity rules, then the check for that arity. */
  predicate ValidCall(expected: seq<Type>, isVarArgs: bool, args: seq<Arg>)
    requires isVarArgs ==> VarArgsShaped(expected)
  {
    var e, a := |expected|, |args|;
    if a > 0 then
      if a > e then
        isVarArgs && PositionsAccept(expected, args, e - 1) && VarArgsAccept(expected[e - 1], args[e - 1..])
      else if a == e then
        if isVarArgs then
          PositionsAccept(expected, args, e - 1) && VarArgsAccept(expected[e - 1], args[e - 1..])
        else
          PositionsAccept(expected, args, e)
      else if a == e - 1 then
        isVarArgs && PositionsAccept(expected, args, e - 1)
      else
        false
    else
      e == 0 || (e == 1 && isVarArgs)
  }

  /**
   * performVarArgsParamConversion: the first E-1 arguments, then one array of
   * the component class holding the next `size` arguments; None when one of
   * those is not accepted by the component class (a ReflectiveException).
   */
  function Pack(expected: seq<Type>, size: nat, args: seq<Arg>): Option<seq<Arg>>
    requires VarArgsShaped(expected) && |expected| - 1 + size <= |args|
  {
    var k := |expected| - 1;
    var c := expected[k].component;
    if forall i :: k <= i < k + size ==> Accepts(c, args[i]) then
      Some(args[..k] + [Packed(c, args[k..k + size])])
    else
      None
  }

  /** The last argument is already an array of the varargs class (or a subclass of it). */
  predicate LastIsVarArgsArray(expected: seq<Type>, args: seq<Arg>)
    requires |expected| > 0 && |args| == |expected|
  {
    var k := |expected| - 1;
    !args[k].Null? && (expected[k] == ClassOf(args[k]) || IsAssignable(expected[k], ClassOf(args[k])))
  }

  /**
   * convertParamsForVarArgs, with the zero-argument call treated like any
   * other count (see VarArgsConversionAsWritten for the code as written).
   */
  function VarArgsConversion(expected: seq<Type>, args: seq<Arg>): Option<seq<Arg>>
    requires VarArgsShaped(expected)
  {
    var e, a := |expected|, |args|;
    if a > e then Pack(expected, a - e + 1, args)
    else if a == e then
      if LastIsVarArgsArray(expected, args) then Some(args) else Pack(expected, 1, args)
    else if a == e - 1 then Pack(expected, 0, args)
    else Some(args)
  }

  /**
   * convertParamsForVarArgs as written: with no arguments it returns a
   * zero-length array in place of the whole argument array (None when that
   * array cannot be cast to Object[], i.e. its component is primitive).
   */
  function VarArgsConversionAsWritten(expected: seq<Type>, args: seq<Arg>): (r: Option<seq<Arg>>)
    requires VarArgsShaped(expected)
    ensures |args| > 0 ==> r == VarArgsConversion(expected, args)
    ensures |args| == 0 && r.Some? ==> |r.value| < |expected|
  {
    if |args| > 0 then VarArgsConversion(expected, args)
    else if expected[0].Primitive? then None
    else Some([])
  }

  /** A null argument array is read as one null argument. */
  function ArgsOf(newParams: Option<seq<Arg>>): seq<Arg> {
    if newParams.None? then [Null] else newParams.value
  }

  /**
   * validateInvocationAndConvertParams: None when the call is not valid,
   * otherwise the varargs conversion, or the arguments unchanged for a
   * method that is not varargs.
   */
  function ValidatedConversion(expected: seq<Type>, isVarArgs: bool, newParams: Option<seq<Arg>>): Option<seq<Arg>>
    requires isVarArgs ==> VarArgsShaped(expected)
  {
    var args := ArgsOf(newParams);
    if !ValidCall(expected, isVarArgs, args) then None
    else if isVarArgs then VarArgsConversion(expected, args)
    else Some(args)
  }

  /** Reading a converted argument array back: the packed trailing arguments spliced in again. */
  function Unpacked(converted: seq<Arg>): seq<Arg>
    requires |converted| > 0 && converted[|converted| - 1].Packed?
  {
    converted[..|converted| - 1] + converted[|converted| - 1].elems
  }

  // ---------------------------------------------------------------------
  // Properties
  // ---------------------------------------------------------------------

  /**
   * Arity: a non-varargs call needs A == E, a varargs one A >= E-1; with no
   * arguments the call is valid exactly for E == 0, or E == 1 and varargs.
   */
  lemma ArityRules(expected: seq<Type>, isVarArgs: bool, args: seq<Arg>)
    requires isVarArgs ==> VarArgsShaped(expected)
    ensures ValidCall(expected, isVarArgs, args) && !isVarArgs ==> |args| == |expected|
    ensures ValidCall(expected, isVarArgs, args) && isVarArgs ==> |args| >= |expected| - 1
    ensures |args| == 0 ==> (ValidCall(expected, isVarArgs, args) <==> |expected| == 0 || (|expected| == 1 && isVarArgs))
  {
  }

  /** A non-varargs call is valid iff the counts agree and every position accepts its argument. */
  lemma NonVarArgsValidity(expected: seq<Type>, args: seq<Arg>)
    ensures ValidCall(expected, false, args) <==>
      |args| == |expected| && forall i :: 0 <= i < |args| ==> Accepts(expected[i], args[i])
  {
  }

  /**
   * A varargs call with trailing arguments that are not one lone array is
   * valid iff the first E-1 arguments are accepted positionally and every
   * trailing argument is accepted by the component class.
   */
  lemma VarArgsValidity(expected: seq<Type>, args: seq<Arg>)
    requires VarArgsShaped(expected) && |args| >= |expected|
    requires !IsLoneArray(args[|expected| - 1..])
    ensures ValidCall(expected, true, args) <==>
      PositionsAccept(expected, args, |expected| - 1) &&
      forall i :: |expected| - 1 <= i < |args| ==> Accepts(expected[|expected| - 1].component, args[i])
  {
    var k := |expected| - 1;
    var c := expected[k].component;
    var trailing := args[k..];
    assert forall i :: k <= i < |args| ==> trailing[i - k] == args[i];
    assert forall j :: 0 <= j < |trailing| ==> trailing[j] == args[k + j];
  }

  /** Every valid call converts: validation and conversion never disagree. */
  lemma {:induction false} ValidCallConverts(expected: seq<Type>, isVarArgs: bool, args: seq<Arg>)
    requires isVarArgs ==> VarArgsShaped(expected)
    ensures ValidatedConversion(expected, isVarArgs, Some(args)).Some? <==> ValidCall(expected, isVarArgs, args)
  {
    if ValidCall(expected, isVarArgs, args) && isVarArgs {
      var e, a := |expected|, |args|;
      var k := e - 1;
      var c := expected[k].component;
      if a > e || (a == e && !LastIsVarArgsArray(expected, args)) {
        var trailing := args[k..];
        assert !IsLoneArray(trailing);
        forall i | k <= i < a ensures Accepts(c, args[i]) {
          assert trailing[i - k] == args[i];
        }
        assert a - e + 1 == a - k;
      }
    }
  }

  /**
   * The packed shape of a valid varargs call whose last argument is not
   * already the varargs array: E slots, the first E-1 arguments unchanged,
   * and in the last slot an array of the component class holding exactly the
   * trailing arguments in order, A-E+1 of them, or none when A == E-1.
   */
  lemma PackedShape(expected: seq<Type>, args: seq<Arg>)
    requires VarArgsShaped(expected) && ValidCall(expected, true, args)
    requires |args| == |expected| ==> !LastIsVarArgsArray(expected, args)
    ensures var r := ValidatedConversion(expected, true, Some(args));
      var k := |expected| - 1;
      && r.Some? && |r.value| == |expected|
      && r.value[..k] == args[..k]
      && r.value[k] == Packed(expected[k].component, args[k..])
      && |args[k..]| == (if |args| >= |expected| then |args| - |expected| + 1 else 0)
  {
    ValidCallConverts(expected, true, args);
  }

  /** Round trip: unpacking a packed conversion gives back exactly the arguments supplied. */
  lemma RoundTrip(expected: seq<Type>, args: seq<Arg>)
    requires VarArgsShaped(expected) && ValidCall(expected, true, args)
    requires |args| == |expected| ==> !LastIsVarArgsArray(expected, args)
    ensures var r := ValidatedConversion(expected, true, Some(args));
      r.Some? && |r.value| > 0 && r.value[|r.value| - 1].Packed? && Unpacked(r.value) == args
  {
    PackedShape(expected, args);
    var k := |expected| - 1;
    assert args[..k] + args[k..] == args;
  }

  /** A successful conversion has exactly one slot per declared parameter. */
  lemma ConvertedLength(expected: seq<Type>, isVarArgs: bool, newParams: Option<seq<Arg>>)
    requires isVarArgs ==> VarArgsShaped(expected)
    requires ValidatedConversion(expected, isVarArgs, newParams).Some?
    ensures |ValidatedConversion(expected, isVarArgs, newParams).value| == |expected|
  {
    var args := ArgsOf(newParams);
    if isVarArgs && !(|args| == |expected| && LastIsVarArgsArray(expected, args)) {
      ValidCallConverts(expected, true, args);
    }
  }

  /** A last argument that already is the varargs array (or a subclass array) is passed through unchanged. */
  lemma VarArgsArrayPassesThrough(expected: seq<Type>, args: seq<Arg>)
    requires VarArgsShaped(expected) && |args| == |expected| && LastIsVarArgsArray(expected, args)
    requires PositionsAccept(expected, args, |expected| - 1)
    ensures ValidatedConversion(expected, true, Some(args)) == Some(args)
  {
    var k := |expected| - 1;
    assert args[k..] == [args[k]];
  }

  /** A non-varargs call passes its arguments through unchanged when it is valid. */
  lemma NonVarArgsIdentity(expected: seq<Type>, args: seq<Arg>)
    ensures ValidatedConversion(expected, false, Some(args)) ==
      (if ValidCall(expected, false, args) then Some(args) else None)
  {
  }

  /** A null argument: accepted unchanged at a reference position, refused at a primitive one. */
  lemma NullArgument(expected: seq<Type>, args: seq<Arg>, i: nat)
    requires |args| == |expected| && i < |args| && args[i] == Null
    requires forall j :: 0 <= j < |args| && j != i ==> Accepts(expected[j], args[j])
    ensures !expected[i].Primitive? ==> ValidatedConversion(expected, false, Some(args)) == Some(args)
    ensures expected[i].Primitive? ==> ValidatedConversion(expected, false, Some(args)) == None
  {
  }

  /** A null varargs element is accepted when the component class is a reference class. */
  lemma NullVarArgsElement(expected: seq<Type>, args: seq<Arg>, i: nat)
    requires VarArgsShaped(expected) && |args| > |expected|
    requires |expected| - 1 <= i < |args| && args[i] == Null
    requires forall j :: 0 <= j < |args| && j != i ==> Accepts(if j < |expected| - 1 then expected[j] else expected[|expected| - 1].component, args[j])
    ensures !expected[|expected| - 1].component.Primitive? <==> ValidCall(expected, true, args)
  {
    VarArgsValidity(expected, args);
  }

  /** A null argument array counts as one null argument. */
  lemma NullArrayIsOneNullArgument(expected: seq<Type>, isVarArgs: bool)
    requires isVarArgs ==> VarArgsShaped(expected)
    ensures ValidatedConversion(expected, isVarArgs, None) == ValidatedConversion(expected, isVarArgs, Some([Null]))
    ensures !isVarArgs ==>
      (ValidatedConversion(expected, isVarArgs, None).Some? <==> |expected| == 1 && !expected[0].Primitive?)
  {
  }

  /**
   * The zero-argument varargs call: the code as written yields an empty
   * argument array for a one-parameter varargs method, where the call needs one
   * slot holding an empty varargs array; the corrected conversion gives that.
   */
  lemma ZeroArgumentConversion(c: Type)
    requires !c.Primitive?
    ensures VarArgsConversionAsWritten([ArrayOf(c)], []) == Some([])
    ensures ValidCall([ArrayOf(c)], true, [])
    ensures VarArgsConversion([ArrayOf(c)], []) == Some([Packed(c, [])])
  {
    var none: seq<Arg> := [];
    var expected := [ArrayOf(c)];
    assert expected[0].component == c;
    assert none[..0] + [Packed(c, none[0..0])] == [Packed(c, [])];
    assert Pack(expected, 0, none) == Some([Packed(c, [])]);
  }

  // ---------------------------------------------------------------------
  // The source's loops
  // ---------------------------------------------------------------------

  /** validateParamsNoVarArgs: every position, stopping at the first refusal. */
  method ValidateParamsNoVarArgs(expected: seq<Type>, actualParams: seq<Arg>) returns (result: bool)
    requires |actualParams| == |expected|
    ensures result == PositionsAccept(expected, actualParams, |expected|)
  {
    result := true;
    var i := 0;
    while i < |expected|
      invariant 0 <= i <= |expected|
      invariant PositionsAccept(expected, actualParams, i)
    {
      if !Accepts(expected[i], actualParams[i]) {
        result := false;
        break;
      }
      i := i + 1;
    }
  }

  /** isValidVarArgs: a lone array by its class, otherwise every element against the component class. */
  method IsValidVarArgs(varArgType: Type, varArgParams: seq<Arg>) returns (result: bool)
    requires varArgType.ArrayOf?
    ensures result == VarArgsAccept(varArgType, varArgParams)
  {
    if IsLoneArray(varArgParams) {
      return varArgType == ClassOf(varArgParams[0]) || IsAssignable(varArgType, ClassOf(varArgParams[0]));
    }
    var arrayComponentType := varArgType.component;
    result := true;
    var i := 0;
    while i < |varArgParams|
      invariant 0 <= i <= |varArgParams|
      invariant forall j :: 0 <= j < i ==> Accepts(arrayComponentType, varArgParams[j])
    {
      if !Accepts(arrayComponentType, varArgParams[i]) {
        result := false;
        break;
      }
      i := i + 1;
    }
  }

  /** validateParamsWithVarArgs: the first E-1 positions, then the trailing arguments as varargs. */
  method ValidateParamsWithVarArgs(expected: seq<Type>, actualParams: seq<Arg>) returns (result: bool)
    requires VarArgsShaped(expected) && |actualParams| >= |expected|
    ensures result == (PositionsAccept(expected, actualParams, |expected| - 1) &&
                       VarArgsAccept(expected[|expected| - 1], actualParams[|expected| - 1..]))
  {
    var expectedTypeCount := |expected|;
    result := true;
    var i := 0;
    while i < expectedTypeCount
      invariant 0 <= i <= expectedTypeCount
      invariant PositionsAccept(expected, actualParams, if i < expectedTypeCount then i else i - 1)
      invariant i == expectedTypeCount ==> VarArgsAccept(expected[i - 1], actualParams[i - 1..])
    {
      if i < expectedTypeCount - 1 {
        if !Accepts(expected[i], actualParams[i]) {
          result := false;
          break;
        }
      } else {
        var ok := IsValidVarArgs(expected[i], actualParams[i..]);
        if !ok {
          result := false;
          break;
        }
      }
      i := i + 1;
    }
  }

  /** validateParamsWithEmptyVarArgs: only the first E-1 positions. */
  method ValidateParamsWithEmptyVarArgs(expected: seq<Type>, actualParams: seq<Arg>) returns (result: bool)
    requires |actualParams| == |expected| - 1
    ensures result == PositionsAccept(expected, actualParams, |expected| - 1)
  {
    result := true;
    var i := 0;
    while i < |expected| - 1
      invariant 0 <= i <= |expected| - 1
      invariant PositionsAccept(expected, actualParams, i)
    {
      if !Accepts(expected[i], actualParams[i]) {
        result := false;
        break;
      }
      i := i + 1;
    }
  }

  /** isValidInvocation: dispatch on the argument count. */
  method IsValidInvocation(expected: seq<Type>, isVarArgs: bool, actualParams: seq<Arg>) returns (result: bool)
    requires isVarArgs ==> VarArgsShaped(expected)
    ensures result == ValidCall(expected, isVarArgs, actualParams)
  {
    var expectedTypeCount := |expected|;
    result := false;
    if |actualParams| > 0 {
      if |actualParams| > expectedTypeCount {
        if isVarArgs {
          result := ValidateParamsWithVarArgs(expected, actualParams);
        }
      } else if |actualParams| == expectedTypeCount {
        if isVarArgs {
          result := ValidateParamsWithVarArgs(expected, actualParams);
        } else {
          result := ValidateParamsNoVarArgs(expected, actualParams);
        }
      } else if |actualParams| == expectedTypeCount - 1 {
        if isVarArgs {
          result := ValidateParamsWithEmptyVarArgs(expected, actualParams);
        }
      }
    } else {
      result := expectedTypeCount == 0 || (expectedTypeCount == 1 && isVarArgs);
    }
  }

  /**
   * performVarArgsParamConversion: a fresh result array takes the first E-1
   * arguments; a fresh varargs array takes the next varArgsSize ones, each
   * checked against the component class.
   */
  method PerformVarArgsParamConversion(expected: seq<Type>, varArgsSize: nat, actualParams: seq<Arg>)
    returns (r: Option<seq<Arg>>)
    requires VarArgsShaped(expected) && |expected| - 1 + varArgsSize <= |actualParams|
    ensures r == Pack(expected, varArgsSize, actualParams)
  {
    var resultArr := new Arg[|expected|](_ => Null);
    var varArgsIndex := |expected| - 1;
    var i := 0;
    while i < varArgsIndex
      invariant 0 <= i <= varArgsIndex
      invariant resultArr[..i] == actualParams[..i]
    {
      resultArr[i] := actualParams[i];
      i := i + 1;
    }
    var component := expected[varArgsIndex].component;
    var varArgs := new Arg[varArgsSize](_ => Null);
    var j := 0;
    while j < varArgsSize
      modifies varArgs
      invariant 0 <= j <= varArgsSize
      invariant varArgs[..j] == actualParams[varArgsIndex..varArgsIndex + j]
      invariant forall m :: varArgsIndex <= m < varArgsIndex + j ==> Accepts(component, actualParams[m])
    {
      if !Accepts(component, actualParams[varArgsIndex + j]) {
        assert !Accepts(expected[|expected| - 1].component, actualParams[varArgsIndex + j]);
        return None;
      }
      varArgs[j] := actualParams[varArgsIndex + j];
      j := j + 1;
    }
    assert varArgs[..] == actualParams[varArgsIndex..varArgsIndex + varArgsSize];
    assert resultArr[..varArgsIndex] == actualParams[..varArgsIndex];
    resultArr[varArgsIndex] := Packed(component, varArgs[..]);
    assert resultArr[..] == actualParams[..varArgsIndex] + [Packed(component, varArgs[..])];
    r := Some(resultArr[..]);
  }

  /** convertParamsForVarArgs: choose the varargs size from the argument count, then pack. */
  method ConvertParamsForVarArgs(expected: seq<Type>, actualParams: seq<Arg>) returns (r: Option<seq<Arg>>)
    requires VarArgsShaped(expected)
    ensures r == VarArgsConversion(expected, actualParams)
  {
    var expectedTypesCount := |expected|;
    r := Some(actualParams);
    if |actualParams| > expectedTypesCount {
      var varArgsLength := |actualParams| - expectedTypesCount + 1;
      r := PerformVarArgsParamConversion(expected, varArgsLength, actualParams);
    } else if |actualParams| == expectedTypesCount {
      var varArgsIndex := expectedTypesCount - 1;
      var last := actualParams[varArgsIndex];
      if !last.Null? && (expected[varArgsIndex] == ClassOf(last) || IsAssignable(expected[varArgsIndex], ClassOf(last))) {
        return Some(actualParams);
      }
      r := PerformVarArgsParamConversion(expected, 1, actualParams);
    } else if |actualParams| == expectedTypesCount - 1 {
      r := PerformVarArgsParamConversion(expected, 0, actualParams);
    }
  }

  /** validateInvocationAndConvertParams: validate, then convert for a varargs method. */
  method ValidateInvocationAndConvertParams(expected: seq<Type>, isVarArgs: bool, newParams: Option<seq<Arg>>)
    returns (r: Option<seq<Arg>>)
    requires isVarArgs ==> VarArgsShaped(expected)
    ensures r == ValidatedConversion(expected, isVarArgs, newParams)
  {
    var actualParams := if newParams.None? then [Null] else newParams.value;
    var valid := IsValidInvocation(expected, isVarArgs, actualParams);
    if !valid {
      return None;
    }
    if isVarArgs {
      r := ConvertParamsForVarArgs(expected, actualParams);
    } else {
      r := Some(actualParams);
    }
  }
}
