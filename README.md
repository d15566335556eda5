# CM160-Utils core, modelled in Dafny

This project models the core of CM160-Utils, a small Java utility library. The core has three parts.

- **Reflective overload resolution** (`ParamUtils`, `MethodUtils`, `ConstructorUtils`, `FindAndInvoke`). Given a method name, some target objects and an argument array, it does four things in turn:
  - it collects the methods that match by name and argument count;
  - it checks each one's parameter list against the arguments: assignability, primitive widening, wrapper unboxing and varargs;
  - it packs the trailing arguments of a varargs method into an array;
  - it picks the single most specific survivor by a pairwise scan, or reports the call ambiguous.

  The broadcast variant invokes every survivor instead.
- **Two collections.**
  - `SortedList` keeps its elements in comparator order. `add` does a binary search for the position; bulk operations append and then re-sort.
  - `MultiValueMap` maps each key to a list of values. It keeps a cached set of all values (`allValues`) and a cached total count (`fullSize`).
- **Small helpers.**
  - `ComparableWeakReference`: equality, hash code and ordering by referent.
  - `ArrayUtil.deepToString`.
  - `StringUtil.isEmpty`.

## Modelling choices

- **Classes and arguments.** A `java.lang.Class` is a value of `JavaTypes.Type`. The universe of classes is finite: the primitive classes, their wrappers, `Object`, `Number`, `String`, and arrays of any of these. `Class.isAssignableFrom` is written out as `JavaTypes.IsAssignable`.
  - A runtime argument is `Null`, an object of a class (`Obj`), or an array built by varargs packing (`Packed`).
  - A null argument array (`Object... newParams == null`) is `None`.
- **Methods.** A method or constructor is a `Signature`: owner, name, parameter classes and varargs flag.
- **Target objects.** A target object is a `TargetObject`: a `handle` and the methods its class exposes. The handle names the target's class of objects equal under `equals()`, not its identity: targets equal under `equals()` must be given the same handle. This matches `finalMatches` (`FindAndInvoke.java:105-109`), a `HashMap` keyed by `ObjectAndMethod`, whose equality compares the targets with `equals()` and the methods (`ReflectiveMethodHolder.java:52-59`). So two distinct but equal targets, such as two `new String("ab")`, share one entry and the method is invoked once.
- **Stateful code becomes classes and loops.**
  - Code that mutates state is written as Dafny classes with `modifies` clauses: `SortedList` and `MultiValueMap`.
  - The source's loops are methods with loop invariants. Each one is proved equal to a specification function, and the properties are proved about those functions.
  - The loops are `validateParams*`, `isValidVarArgs`, `performVarArgsParamConversion`, the `finalMatches` and disambiguation loops of `performInvocation`, the binary search, `deepToString`, and the loops of `removeValue`, `putAll` and `putValueInMultipleCollections`.
- **Invocation.** The reflective call itself is not performed. An operation returns the `Invocation` it would make: the candidate, and the argument array handed to `RemoteInvoke`.
- **Comparators.** A `Comparator` is modelled by an integer key function: `compare(a, b)` has the sign of `key(a) - key(b)`. The comparator's own behaviour is a parameter.
- **Overloads that skip collection.** `findInvokeOneMethod(oams, …)` (`FindAndInvoke.java:210-212`) and `findInvokeAllMethods(oams, …)` (`FindAndInvoke.java:258-260`) skip the collection step. They are `FindAndInvoke.PerformInvocation` and `FindAndInvoke.AttemptToInvokeAllMethods` called directly.
- **Where the code and the tests disagree about null.** `ParamUtils.validateInvocationAndConvertParams` is called at `ConstructorUtils.java:40` and by `ParamUtilsTest`, but `ParamUtils.java` does not define it. The validation loops it would combine (`ParamUtils.java:222-340`) and the packing loop (`ParamUtils.java:161`) call `getClass()` on every argument. The tests, however, expect null to be accepted at reference positions and refused at primitive ones (`ParamUtilsTest.java:340-413`). The model follows the tests: see `ParamUtils.Accepts`.

## Model

| member | source | states |
|---|---|---|
| JavaTypes.IsAssignableTransitive | src/main/java/io/craigmiller160/utils/reflect/ParamUtils.java:222-237 | The assignability that validation uses is transitive over the modelled classes, arrays included |
| JavaTypes.IsAssignableAntisymmetric | src/main/java/io/craigmiller160/utils/reflect/FindAndInvoke.java:158-177 | Two classes each assignable from the other are the same class, so the scan's two subclass branches never both apply |
| JavaTypes.Widening | src/main/java/io/craigmiller160/utils/reflect/ParamUtils.java:54-96 | The corrected widening table contains the table as written and always lets a primitive accept itself |
| JavaTypes.WideningAsWrittenMissesByteToDouble | src/main/java/io/craigmiller160/utils/reflect/ParamUtils.java:69-75 | Every entry of the table as written is a legal Java widening, but the double row lacks byte, which Java widens to double |
| JavaTypes.WideningIsJls | src/main/java/io/craigmiller160/utils/reflect/ParamUtils.java:54-96 | The corrected table holds exactly the identity and widening primitive conversions of the Java Language Specification, section 5.1.2 |
| JavaTypes.WideningIsOneWay | src/main/java/io/craigmiller160/utils/reflect/ParamUtils.java:54-96 | If a wider primitive accepts a narrower one, the narrower never accepts the wider |
| JavaTypes.IsAcceptablePrimitive | src/main/java/io/craigmiller160/utils/reflect/ParamUtils.java:358-379 | Corrected (see Findings): Acceptance needs a primitive on one side. A primitive accepts itself, and a primitive and its own wrapper accept each other in either order |
| JavaTypes.AcceptablePrimitivesWiden | src/main/java/io/craigmiller160/utils/reflect/ParamUtils.java:358-379 | Corrected (see Findings): Between two primitives, acceptance is exactly Java widening from the argument to the parameter |
| JavaTypes.BooleanAndCharAcceptOnlyThemselves | src/main/java/io/craigmiller160/utils/reflect/ParamUtils.java:54-96 | boolean and char accept no primitive but themselves |
| JavaTypes.PrimitiveAcceptsOnlyOwnWrapper | src/main/java/io/craigmiller160/utils/reflect/ParamUtils.java:358-379 | A primitive parameter, given a non-primitive argument class, accepts that class exactly when it is the parameter's own wrapper |
| ParamUtils.ArityRules | src/main/java/io/craigmiller160/utils/reflect/ParamUtils.java:176-210 | A valid non-varargs call has A == E. A valid varargs call has A >= E-1. With no arguments, a call is valid exactly when E == 0, or when E == 1 and the method is varargs |
| ParamUtils.NonVarArgsValidity | src/main/java/io/craigmiller160/utils/reflect/ParamUtils.java:222-237 | A non-varargs call is valid iff the counts agree and every position accepts its argument |
| ParamUtils.VarArgsValidity | src/main/java/io/craigmiller160/utils/reflect/ParamUtils.java:250-274 | A varargs call whose trailing part is not one lone array is valid iff the first E-1 arguments are accepted positionally and every trailing argument is accepted by the component class |
| ParamUtils.ValidCallConverts | src/main/java/io/craigmiller160/utils/reflect/ParamUtils.java:99-131 | Validation and conversion agree: a call yields a converted array iff it is valid |
| ParamUtils.PackedShape | src/main/java/io/craigmiller160/utils/reflect/ParamUtils.java:149-173 | Packing gives E slots. The first E-1 arguments are unchanged. The last slot is an array of the component class holding exactly the trailing arguments, in order: A-E+1 of them, or none when A == E-1 |
| ParamUtils.RoundTrip | src/main/java/io/craigmiller160/utils/reflect/ParamUtils.java:99-131 | Unpacking the varargs slot of a packed conversion gives back exactly the arguments supplied |
| ParamUtils.ConvertedLength | src/main/java/io/craigmiller160/utils/reflect/ParamUtils.java:149-173 | A successful conversion has exactly one slot per declared parameter |
| ParamUtils.VarArgsArrayPassesThrough | src/main/java/io/craigmiller160/utils/reflect/ParamUtils.java:110-116 | A last argument that already is an array of the varargs class or a subclass is passed through unchanged |
| ParamUtils.NonVarArgsIdentity | src/main/java/io/craigmiller160/utils/reflect/ConstructorUtils.java:39-41 | For a non-varargs method, the converted array is the arguments themselves when the call is valid, and null otherwise |
| ParamUtils.NullArgument | src/test/java/io/craigmiller160/utils/reflect/ParamUtilsTest.java:340-364 | A null argument is kept at a reference position and makes the call fail at a primitive one |
| ParamUtils.NullVarArgsElement | src/test/java/io/craigmiller160/utils/reflect/ParamUtilsTest.java:377-392 | A null among the varargs elements is accepted exactly when the component class is a reference class |
| ParamUtils.NullArrayIsOneNullArgument | src/test/java/io/craigmiller160/utils/reflect/ParamUtilsTest.java:394-413 | A null argument array validates and converts like one null argument. For a non-varargs method it succeeds exactly for one reference parameter |
| ParamUtils.ZeroArgumentConversion | src/main/java/io/craigmiller160/utils/reflect/ParamUtils.java:126-128 | For a one-parameter varargs method called with nothing, the code as written returns an empty array. The corrected conversion returns one slot holding an empty varargs array, which is what the call needs |
| ParamUtils.VarArgsConversionAsWritten | src/main/java/io/craigmiller160/utils/reflect/ParamUtils.java:99-131 | As written: with arguments it is the corrected conversion. With none, a result it gives has fewer slots than the method has parameters |
| ParamUtils.ValidateParamsNoVarArgs | src/main/java/io/craigmiller160/utils/reflect/ParamUtils.java:222-237 | The loop returns true iff every position accepts its argument |
| ParamUtils.IsValidVarArgs | src/main/java/io/craigmiller160/utils/reflect/ParamUtils.java:315-340 | A lone array is judged by its class. Otherwise the result is true iff every element is accepted by the component class |
| ParamUtils.ValidateParamsWithVarArgs | src/main/java/io/craigmiller160/utils/reflect/ParamUtils.java:250-274 | The first E-1 positions are checked, then the trailing arguments as varargs |
| ParamUtils.ValidateParamsWithEmptyVarArgs | src/main/java/io/craigmiller160/utils/reflect/ParamUtils.java:287-302 | Only the first E-1 positions are checked |
| ParamUtils.IsValidInvocation | src/main/java/io/craigmiller160/utils/reflect/ParamUtils.java:176-210 | The dispatch on the argument count decides exactly the validity relation ValidCall |
| ParamUtils.PerformVarArgsParamConversion | src/main/java/io/craigmiller160/utils/reflect/ParamUtils.java:149-173 | The array loops yield the packed array, or fail when a trailing argument is not accepted by the component class |
| ParamUtils.ConvertParamsForVarArgs | src/main/java/io/craigmiller160/utils/reflect/ParamUtils.java:99-131 | Corrected (see Findings): The varargs size is chosen from the argument count, with the zero-argument case corrected |
| ParamUtils.ValidateInvocationAndConvertParams | src/main/java/io/craigmiller160/utils/reflect/ConstructorUtils.java:39-41 | Corrected (see Findings): Validates first; an invalid call gives null. A valid one gives the varargs conversion, or the arguments unchanged when the method is not varargs |
| MethodUtils.ConvertParamsForVarArgsMethod | src/main/java/io/craigmiller160/utils/reflect/MethodUtils.java:132-138 | Corrected (see Findings): A non-varargs method's arguments are returned as they are; otherwise the method's own parameter classes are used for the conversion |
| MethodUtils.IsValidInvocation | src/main/java/io/craigmiller160/utils/reflect/MethodUtils.java:148-150 | Validity is decided from the method's own parameter classes and varargs flag. A valid non-varargs call has one argument per parameter |
| MethodUtils.DuplicateMethodIff | src/main/java/io/craigmiller160/utils/reflect/MethodUtils.java:163-176 | Two methods are duplicates iff their names and parameter classes are equal, whatever class declares them |
| MethodUtils.IsDuplicateMethod | src/main/java/io/craigmiller160/utils/reflect/MethodUtils.java:163-176 | The name check, the length check and the element-wise comparison amount to: same name and equal parameter classes |
| MethodUtils.DuplicateMethodRelation | src/main/java/io/craigmiller160/utils/reflect/MethodUtils.java:163-176 | The duplicate test is reflexive and symmetric, and false for different parameter counts |
| MethodUtils.ValidVarArgsMethodConverts | src/main/java/io/craigmiller160/utils/reflect/MethodUtils.java:132-138 | A valid call of a varargs method converts to one slot per parameter. The conversion either passes an existing varargs array through or unpacks back to the arguments |
| MethodUtils.SubclassArrayAtVarArgs | src/test/java/io/craigmiller160/utils/reflect/MethodUtilsTest.java:200-207 | At a Number... slot, a caller-built Double[] is passed through, and separate Doubles are packed into a Number[] |
| ConstructorUtils.ValidateInvocationAndConvertParams | src/main/java/io/craigmiller160/utils/reflect/ConstructorUtils.java:39-41 | Corrected (see Findings): There is a result iff the call is valid. A valid non-varargs call keeps its arguments |
| ConstructorUtils.DuplicateConstructorIff | src/main/java/io/craigmiller160/utils/reflect/ConstructorUtils.java:51-64 | Two constructors are duplicates iff their names and parameter classes are equal |
| ConstructorUtils.IsDuplicateConstructor | src/main/java/io/craigmiller160/utils/reflect/ConstructorUtils.java:51-64 | The name check, the length check and the element-wise comparison amount to: same name and equal parameter classes |
| ConstructorUtils.DuplicateConstructorRelation | src/main/java/io/craigmiller160/utils/reflect/ConstructorUtils.java:51-64 | The duplicate test is reflexive and symmetric, and false for different parameter counts |
| ConstructorUtils.BooleanIntVarArgsConstructor | src/test/java/io/craigmiller160/utils/reflect/ObjectCreatorTest.java:47-61 | For (boolean, int...), a lone Boolean gets an empty int[], and (true, 1, 2) gets int[]{1, 2} |
| FindAndInvoke.MatchesFromSingleMembership | src/main/java/io/craigmiller160/utils/reflect/FindAndInvoke.java:333-348 | Corrected (see Findings): A candidate is collected from one object iff it is that object paired with one of its methods that passes the name-and-arity test |
| FindAndInvoke.PotentialMatchesMembership | src/main/java/io/craigmiller160/utils/reflect/FindAndInvoke.java:305-317 | Corrected (see Findings): A candidate is collected iff it pairs a given object with one of that object's methods that passes the name-and-arity test |
| FindAndInvoke.PotentialMatchesWellFormed | src/main/java/io/craigmiller160/utils/reflect/FindAndInvoke.java:305-317 | Every collected candidate carries a method of one of the objects |
| FindAndInvoke.PotentialMatchComplete | src/main/java/io/craigmiller160/utils/reflect/FindAndInvoke.java:338 | With the corrected test, no method that the call validates against is missed by collection |
| FindAndInvoke.PotentialMatchAsWrittenMissesLongCalls | src/main/java/io/craigmiller160/utils/reflect/FindAndInvoke.java:338 | As written, a varargs method given two or more extra arguments is never collected. f(String...) with three Strings is lost although the call validates |
| FindAndInvoke.IsPotentialMatchAsWritten | src/main/java/io/craigmiller160/utils/reflect/FindAndInvoke.java:333-348 | As written, a collected method has the requested name, and a varargs one is collected only when the call has at most one argument more than the method has parameters, so long varargs calls are lost |
| FindAndInvoke.GetPotentialMatchingMethodsFromSingle | src/main/java/io/craigmiller160/utils/reflect/FindAndInvoke.java:333-348 | Corrected (see Findings): The loop collects the object's matching methods in order, with the corrected test |
| FindAndInvoke.GetPotentialMatchingMethods | src/main/java/io/craigmiller160/utils/reflect/FindAndInvoke.java:305-317 | Corrected (see Findings): All objects are visited in order. The result is NoMethod exactly when nothing was collected |
| FindAndInvoke.FinalMatches | src/main/java/io/craigmiller160/utils/reflect/FindAndInvoke.java:105-111 | Every entry's converted arguments have one slot per parameter of its method |
| FindAndInvoke.FinalMatchesSound | src/main/java/io/craigmiller160/utils/reflect/FindAndInvoke.java:105-111 | Every entry is a given candidate that validated, with the arguments its validation produced |
| FindAndInvoke.FinalMatchesComplete | src/main/java/io/craigmiller160/utils/reflect/FindAndInvoke.java:105-111 | Every candidate that validates has an entry |
| FindAndInvoke.FinalMatchesDistinct | src/main/java/io/craigmiller160/utils/reflect/FindAndInvoke.java:105-111 | No candidate has two entries, as in a map keyed by candidate |
| FindAndInvoke.FinalMatchesSpec | src/main/java/io/craigmiller160/utils/reflect/FindAndInvoke.java:105-111 | finalMatches holds exactly the validating candidates, each once, each with its converted arguments |
| FindAndInvoke.EqualTargetsInvokedOnce | src/main/java/io/craigmiller160/utils/reflect/FindAndInvoke.java:105-109 | Two targets equal under equals() (one handle) that expose the same method give one finalMatches entry, so the method is invoked once instead of the call being ambiguous |
| FindAndInvoke.ScanStep | src/main/java/io/craigmiller160/utils/reflect/FindAndInvoke.java:158-177 | One position of the scan takes the next entry, keeps the current one, or moves on, according to which entry the position favours |
| FindAndInvoke.ScanFindsFirstDecisivePosition | src/main/java/io/craigmiller160/utils/reflect/FindAndInvoke.java:158-177 | The scan decides at the first position that favours either entry, for the entry it favours. It is undecided iff no position favours either |
| FindAndInvoke.FavoursSwap | src/main/java/io/craigmiller160/utils/reflect/FindAndInvoke.java:162-176 | A position favours one entry iff it favours the other entry once their roles are exchanged |
| FindAndInvoke.ScanMirror | src/main/java/io/craigmiller160/utils/reflect/FindAndInvoke.java:158-177 | Exchanging the two entries exchanges the scan's verdict |
| FindAndInvoke.CompareMirror | src/main/java/io/craigmiller160/utils/reflect/FindAndInvoke.java:148-177 | The corrected pairwise comparison never overruns, and exchanging the two survivors exchanges its verdict |
| FindAndInvoke.NonVarArgsPreferred | src/main/java/io/craigmiller160/utils/reflect/FindAndInvoke.java:148-155 | Between a varargs and a non-varargs survivor, the non-varargs one wins |
| FindAndInvoke.OverrunPairSurvives | src/main/java/io/craigmiller160/utils/reflect/FindAndInvoke.java:105-111 | f(String, Object...) and f(Object...) both validate for the call f("x") |
| FindAndInvoke.CompareAsWrittenOverruns | src/main/java/io/craigmiller160/utils/reflect/FindAndInvoke.java:158-159 | As written, comparing those two survivors overruns the shorter parameter array in one order and is undecided in the other. The corrected comparison is undecided both ways |
| FindAndInvoke.ScanAsWritten | src/main/java/io/craigmiller160/utils/reflect/FindAndInvoke.java:158-177 | As written: the scan overruns only when the next method has fewer parameters than the current one. When the current one has no more than the next, it agrees with the corrected scan |
| FindAndInvoke.CompareAsWritten | src/main/java/io/craigmiller160/utils/reflect/FindAndInvoke.java:148-177 | As written: the comparison overruns only when the next method has fewer parameters. Otherwise it agrees with the corrected comparison |
| FindAndInvoke.Reduce | src/main/java/io/craigmiller160/utils/reflect/FindAndInvoke.java:130-191 | The fold chooses one of the survivors, or fails only with an ambiguity |
| FindAndInvoke.Resolve | src/main/java/io/craigmiller160/utils/reflect/FindAndInvoke.java:115-191 | NoMethod iff there are no survivors. Otherwise the result is a survivor invoked with its own converted arguments, or an ambiguity |
| FindAndInvoke.ResolveSound | src/main/java/io/craigmiller160/utils/reflect/FindAndInvoke.java:101-197 | NoMethod is reported exactly when no candidate validates. A chosen candidate is one of those given, invoked with the arguments its own validation produced |
| FindAndInvoke.SingleSurvivor | src/main/java/io/craigmiller160/utils/reflect/FindAndInvoke.java:123-128 | When exactly one candidate validates, it is invoked with its converted arguments |
| FindAndInvoke.ResolvePairCommutes | src/main/java/io/craigmiller160/utils/reflect/FindAndInvoke.java:130-190 | Two survivors resolve the same way in either iteration order |
| FindAndInvoke.NullArgumentAmbiguity | src/main/java/io/craigmiller160/utils/reflect/FindAndInvoke.java:162-176 | Take f(String, String) and f(String, Integer). ("x", "y") reaches the first, ("x", 5) reaches the second, and ("x", null) is ambiguous |
| FindAndInvoke.MoreSpecificWinsUnlessNull | src/main/java/io/craigmiller160/utils/reflect/FindAndInvoke.java:162-176 | Take f(Object) and f(String). A String argument reaches f(String) in either order; a null argument is ambiguous |
| FindAndInvoke.CompareEntries | src/main/java/io/craigmiller160/utils/reflect/FindAndInvoke.java:148-177 | Corrected (see Findings): The loop applies the varargs rule and then the position scan, yielding the corrected pairwise verdict |
| FindAndInvoke.CollectFinalMatches | src/main/java/io/craigmiller160/utils/reflect/FindAndInvoke.java:105-111 | The loop builds finalMatches |
| FindAndInvoke.PerformInvocation | src/main/java/io/craigmiller160/utils/reflect/FindAndInvoke.java:101-197 | Corrected (see Findings): The result is the resolution of finalMatches: NoMethod, the only survivor, the fold's winner, or Ambiguous |
| FindAndInvoke.FindInvokeOneMethod | src/main/java/io/craigmiller160/utils/reflect/FindAndInvoke.java:68-73 | Corrected (see Findings): Candidates are collected by name and argument count (a null array counts as none) and then resolved |
| FindAndInvoke.FindInvokeOneSound | src/main/java/io/craigmiller160/utils/reflect/FindAndInvoke.java:68-73 | A successful call invokes a method of the requested name on one of the given objects, with that method's converted arguments |
| FindAndInvoke.InvokedAllSpec | src/main/java/io/craigmiller160/utils/reflect/FindAndInvoke.java:275-289 | Every validating candidate is invoked, and only those, each with the arguments as given rather than as converted |
| FindAndInvoke.AttemptToInvokeAllMethods | src/main/java/io/craigmiller160/utils/reflect/FindAndInvoke.java:275-289 | The loop invokes each validating candidate. The result is NoMethod when none validated |
| FindAndInvoke.FindInvokeAllMethods | src/main/java/io/craigmiller160/utils/reflect/FindAndInvoke.java:224-233 | Corrected (see Findings): The result is NoMethod when nothing is collected or nothing validates; otherwise every validating candidate is invoked |
| SortedLists.SearchFrom | src/main/java/io/craigmiller160/utils/collection/SortedList.java:155-161 | The search result lies within the searched range, or just past it |
| SortedLists.SearchFromPartitions | src/main/java/io/craigmiller160/utils/collection/SortedList.java:155-161 | In a sorted list, everything before the position found has a key at most x's and everything after has a key at least x's |
| SortedLists.SortedPositionPartitions | src/main/java/io/craigmiller160/utils/collection/SortedList.java:155-161 | getSortedPosition is in [0, size] and splits a sorted list around the element's key |
| SortedLists.InsertAtSplitKeepsSorted | src/main/java/io/craigmiller160/utils/collection/SortedList.java:148-153 | Inserting at a splitting position keeps the list sorted and adds exactly the element |
| SortedLists.AddKeepsSorted | src/main/java/io/craigmiller160/utils/collection/SortedList.java:148-153 | add keeps a sorted list sorted and adds exactly one copy of the element |
| SortedLists.RemoveKeepsSorted | src/main/java/io/craigmiller160/utils/collection/SortedList.java:237-240 | Removing any index keeps a sorted list sorted |
| SortedLists.RemoveAtMultiset | src/main/java/io/craigmiller160/utils/collection/SortedList.java:237-240 | remove(location) takes exactly the element at that index away |
| SortedLists.InsertAtMultiset | src/main/java/io/craigmiller160/utils/collection/SortedList.java:262 | list.add(position, x) adds exactly x |
| SortedLists.RemoveFirstSpec | src/main/java/io/craigmiller160/utils/collection/SortedList.java:242-245 | remove(Object) takes away one copy when the element is present, changes nothing otherwise, and keeps a sorted list sorted |
| SortedLists.IndexOf | src/main/java/io/craigmiller160/utils/collection/SortedList.java:242-245 | Returns the first index holding x, or -1 exactly when x is absent |
| SortedLists.InsertSortedMultiset | src/main/java/io/craigmiller160/utils/collection/SortedList.java:93 | One insertion step of the sort keeps every element and adds x once |
| SortedLists.InsertSortedBounded | src/main/java/io/craigmiller160/utils/collection/SortedList.java:93 | An insertion step keeps every key above a common lower bound |
| SortedLists.InsertSortedSpec | src/main/java/io/craigmiller160/utils/collection/SortedList.java:93 | Inserting into a sorted list keeps it sorted and adds x once |
| SortedLists.SortBySpec | src/main/java/io/craigmiller160/utils/collection/SortedList.java:85-94 | Collections.sort yields a list that is ordered by the comparator and is a permutation of its input |
| SortedLists.InsertSortedLast | src/main/java/io/craigmiller160/utils/collection/SortedList.java:178-185 | An element whose key is not below any other is appended, as a stable sort places it |
| SortedLists.SortBySortedIsIdentity | src/main/java/io/craigmiller160/utils/collection/SortedList.java:178-185 | Re-sorting a list that is already sorted leaves it exactly as it was |
| SortedLists.SetAsWrittenSortedWhenNotLater | src/main/java/io/craigmiller160/utils/collection/SortedList.java:257-265 | set as written is right when the new position is not after the replaced index |
| SortedLists.SetAsWritten | src/main/java/io/craigmiller160/utils/collection/SortedList.java:257-265 | As written: an index out of range fails with nothing changed. Otherwise the old element is removed and the new one added, or, when the position found lies past the shortened list, the removal stays and the call fails |
| SortedLists.SetAsWrittenMisplaces | src/main/java/io/craigmiller160/utils/collection/SortedList.java:257-265 | In [1, 3, 5, 8], setting index 1 to 7 as written gives the unsorted [1, 5, 8, 7] |
| SortedLists.SetAsWrittenOverruns | src/main/java/io/craigmiller160/utils/collection/SortedList.java:257-265 | In [1, 3], setting index 0 to 9 as written removes an element and then fails out of bounds |
| SortedLists.SortedList.constructor | src/main/java/io/craigmiller160/utils/collection/SortedList.java:64-83 | The comparator is the one given or the default. The list is the collection sorted, or empty |
| SortedLists.SortedList.SetComparator | src/main/java/io/craigmiller160/utils/collection/SortedList.java:85-94 | Null installs the default comparator. The list is re-sorted: sorted, and a permutation of the old list |
| SortedLists.SortedList.SetPreSortedList | src/main/java/io/craigmiller160/utils/collection/SortedList.java:124-131 | The given list is used as it is, unsorted, or an empty list for null |
| SortedLists.SortedList.GetSortedPosition | src/main/java/io/craigmiller160/utils/collection/SortedList.java:155-161 | The binary-search loop, with a miss turned into its insertion point, computes SortedPosition, which lies in [0, size] |
| SortedLists.SortedList.Add | src/main/java/io/craigmiller160/utils/collection/SortedList.java:148-153 | Inserts at the position found and returns true. Exactly one element is added, and sortedness is kept |
| SortedLists.SortedList.AddAt | src/main/java/io/craigmiller160/utils/collection/SortedList.java:143-146 | The location is ignored: the same new state as add |
| SortedLists.SortedList.AddAll | src/main/java/io/craigmiller160/utils/collection/SortedList.java:178-185 | Appends and re-sorts when anything was added. It is false, with nothing changed, for an empty collection. The elements gained are exactly the collection's |
| SortedLists.SortedList.AddAllAt | src/main/java/io/craigmiller160/utils/collection/SortedList.java:173-176 | The location is ignored: the same as addAll |
| SortedLists.SortedList.Clear | src/main/java/io/craigmiller160/utils/collection/SortedList.java:187-190 | The list is empty and the comparator is kept |
| SortedLists.SortedList.RemoveAtIndex | src/main/java/io/craigmiller160/utils/collection/SortedList.java:237-240 | Returns the element at the index and removes it. An index out of range fails and changes nothing. Sortedness is kept |
| SortedLists.SortedList.RemoveObject | src/main/java/io/craigmiller160/utils/collection/SortedList.java:242-245 | The result is true iff the element was present. The first occurrence is removed, one copy fewer remains, and sortedness is kept |
| SortedLists.SortedList.Set | src/main/java/io/craigmiller160/utils/collection/SortedList.java:257-265 | Null changes nothing. Otherwise the element at the index is replaced by the new one at its sorted position, found after the removal, so a sorted list stays sorted. An index out of range fails and changes nothing |
| MultiValueMaps.SumSizesUpdate | src/main/java/io/craigmiller160/utils/collection/MultiValueMap.java:177 | Replacing one key's collection changes the true total by the difference in sizes |
| MultiValueMaps.SumSizesDrop | src/main/java/io/craigmiller160/utils/collection/MultiValueMap.java:215 | Dropping a key takes its collection's size off the true total |
| MultiValueMaps.AllValuesUpdate | src/main/java/io/craigmiller160/utils/collection/MultiValueMap.java:176 | Appending to one collection adds exactly the appended values to the set of values held |
| MultiValueMaps.AllValuesDrop | src/main/java/io/craigmiller160/utils/collection/MultiValueMap.java:214 | After dropping a key, the values held are those held before minus those no remaining collection holds |
| MultiValueMaps.RemoveFirstSpec | src/main/java/io/craigmiller160/utils/collection/MultiValueMap.java:232 | Collection.remove(value) takes away one occurrence when the value is there, and leaves the collection unchanged otherwise |
| MultiValueMaps.AllValuesAfterRemoveValue | src/main/java/io/craigmiller160/utils/collection/MultiValueMap.java:226-249 | After removeValue the map holds every value it held except v, and v only if some collection still holds it |
| MultiValueMaps.SumSizesRemoveFromEach | src/main/java/io/craigmiller160/utils/collection/MultiValueMap.java:229-240 | The first loop lowers the true total by one for each collection that held the value |
| MultiValueMaps.RemoveValueAfterLoop | src/main/java/io/craigmiller160/utils/collection/MultiValueMap.java:244-246 | Dropping the keys the loop found empty gives the final collections and keeps the total and whether v is held |
| MultiValueMaps.PutMultipleAsWrittenDrifts | src/main/java/io/craigmiller160/utils/collection/MultiValueMap.java:202-209 | As written, on a present key the collection ends up holding old + values twice, and fullSize drifts from the true total by the old size |
| MultiValueMaps.PutMultipleAsWritten | src/main/java/io/craigmiller160/utils/collection/MultiValueMap.java:202-209 | As written: other keys are untouched, a present key ends with old + values twice, and fullSize grows by the whole new collection size rather than by the number of values added |
| MultiValueMaps.PutMultipleAsWrittenExample | src/main/java/io/craigmiller160/utils/collection/MultiValueMap.java:202-209 | As written, [7] plus [8] becomes [7, 8, 7, 8] with fullSize 5 while four values are stored |
| MultiValueMaps.RemoveAsWrittenLosesValue | src/main/java/io/craigmiller160/utils/collection/MultiValueMap.java:214 | As written, removing one of two keys that both hold 1 leaves allValues empty while 1 is still stored |
| MultiValueMaps.RemoveValueAsWrittenLosesValue | src/main/java/io/craigmiller160/utils/collection/MultiValueMap.java:242 | As written, removing one of two copies of 1 leaves allValues empty while [1] is still stored |
| MultiValueMaps.PutValueInEachContents | src/main/java/io/craigmiller160/utils/collection/MultiValueMap.java:194-200 | Every listed key is present and ends with the value; every other key keeps its collection |
| MultiValueMaps.PutValueInEachSum | src/main/java/io/craigmiller160/utils/collection/MultiValueMap.java:194-200 | The true total grows by one per key listed |
| MultiValueMaps.PutSomeStep | src/main/java/io/craigmiller160/utils/collection/MultiValueMap.java:255-259 | One put during putAll moves one given collection into the map and its size and values into the totals |
| MultiValueMaps.RemoveOneFromEach | src/main/java/io/craigmiller160/utils/collection/MultiValueMap.java:229-240 | The first loop of removeValue removes one occurrence from every collection and counts the collections that held the value. It lists, each once, exactly the keys whose collections it left empty |
| MultiValueMaps.MultiValueMap.constructor | src/main/java/io/craigmiller160/utils/collection/MultiValueMap.java:52-55 | The map is empty, and the caches agree with it |
| MultiValueMaps.MultiValueMap.Size | src/main/java/io/craigmiller160/utils/collection/MultiValueMap.java:80-83 | Returns the number of keys |
| MultiValueMaps.MultiValueMap.FullSize | src/main/java/io/craigmiller160/utils/collection/MultiValueMap.java:92-100 | Returns the cached count, which is the number of values stored whenever the caches agree |
| MultiValueMaps.MultiValueMap.ValueSize | src/main/java/io/craigmiller160/utils/collection/MultiValueMap.java:112-118 | Returns the size of the key's collection, or -1 exactly when the key is absent |
| MultiValueMaps.MultiValueMap.ContainsValue | src/main/java/io/craigmiller160/utils/collection/MultiValueMap.java:137-148 | The answer comes from the cache, and it is right, iff some collection holds the value, whenever the caches agree |
| MultiValueMaps.MultiValueMap.Get | src/main/java/io/craigmiller160/utils/collection/MultiValueMap.java:161-164 | Returns the key's collection, or null exactly when the key is absent |
| MultiValueMaps.MultiValueMap.Put | src/main/java/io/craigmiller160/utils/collection/MultiValueMap.java:166-180 | Appends to the key's collection or stores a new one; both caches follow and stay in agreement |
| MultiValueMaps.MultiValueMap.PutValue | src/main/java/io/craigmiller160/utils/collection/MultiValueMap.java:182-192 | Appends the value, creating the collection if needed; both caches stay in agreement |
| MultiValueMaps.MultiValueMap.PutValueInMultipleCollections | src/main/java/io/craigmiller160/utils/collection/MultiValueMap.java:194-200 | putValue is applied under each key in order, the count rises by the number of keys, and the caches stay in agreement |
| MultiValueMaps.MultiValueMap.PutMultipleValuesIntoCollection | src/main/java/io/craigmiller160/utils/collection/MultiValueMap.java:202-209 | Corrected: the values are appended once, fullSize rises by their number, and the caches stay in agreement |
| MultiValueMaps.MultiValueMap.Remove | src/main/java/io/craigmiller160/utils/collection/MultiValueMap.java:211-217 | Corrected (see Findings): Drops the key and its collection and lowers fullSize by its size. allValues loses only values no longer held. An absent key gives NullPointer and changes nothing |
| MultiValueMaps.MultiValueMap.RemoveValue | src/main/java/io/craigmiller160/utils/collection/MultiValueMap.java:226-249 | Corrected (see Findings): Removes one occurrence from each collection, lowers fullSize once per holder and drops emptied keys. The value leaves allValues only when no longer held |
| MultiValueMaps.MultiValueMap.PutAll | src/main/java/io/craigmiller160/utils/collection/MultiValueMap.java:251-261 | Every non-null given collection is put, in any key order. The totals grow by their sizes and values, and the caches stay in agreement |
| MultiValueMaps.MultiValueMap.Clear | src/main/java/io/craigmiller160/utils/collection/MultiValueMap.java:263-268 | No keys, no values and a zero count |
| ComparableWeakReferences.NotEqualToNullOrOtherClass | src/main/java/io/craigmiller160/utils/collection/ComparableWeakReference.java:40-47 | A reference never equals null or an object that is not a weak reference |
| ComparableWeakReferences.Equals | src/main/java/io/craigmiller160/utils/collection/ComparableWeakReference.java:40-56 | Only another weak reference can be equal, and only one that is cleared exactly when this one is |
| ComparableWeakReferences.StringCompareTo | src/main/java/io/craigmiller160/utils/collection/ComparableWeakReference.java:78 | The String.compareTo used for the toString fallback is zero exactly on equal strings |
| ComparableWeakReferences.CompareTo | src/main/java/io/craigmiller160/utils/collection/ComparableWeakReference.java:64-80 | Two live references whose referent is not Comparable compare as equal exactly when their toString texts agree |
| ComparableWeakReferences.EqualsCases | src/main/java/io/craigmiller160/utils/collection/ComparableWeakReference.java:49-55 | Two cleared references are equal and a cleared one never equals a live one. Two live ones are equal iff their referents are |
| ComparableWeakReferences.ReferenceEqualsIsEquivalence | src/main/java/io/craigmiller160/utils/collection/ComparableWeakReference.java:40-56 | If the referent's equals is an equivalence, so is equality of references, cleared ones included |
| ComparableWeakReferences.HashCodeAgreesWithEquals | src/main/java/io/craigmiller160/utils/collection/ComparableWeakReference.java:58-62 | If the referent's hashCode agrees with its equals, equal references hash alike. A cleared reference hashes to 0 |
| ComparableWeakReferences.CompareToCleared | src/main/java/io/craigmiller160/utils/collection/ComparableWeakReference.java:68-73 | A cleared reference compares below anything, even another cleared one. A live one compares above a cleared one |
| ComparableWeakReferences.CompareToComparable | src/main/java/io/craigmiller160/utils/collection/ComparableWeakReference.java:74-75 | Live Comparable referents are ordered by their own compareTo |
| ComparableWeakReferences.StringCompareToSpec | src/main/java/io/craigmiller160/utils/collection/ComparableWeakReference.java:78 | String.compareTo is antisymmetric and zero exactly on equal strings |
| ComparableWeakReferences.CompareToByText | src/main/java/io/craigmiller160/utils/collection/ComparableWeakReference.java:76-79 | Other live referents are ordered by their toString text: the order is antisymmetric, and zero iff the texts agree |
| ArrayUtil.DeepToString | src/main/java/io/craigmiller160/utils/util/ArrayUtil.java:35-55 | The builder loop computes Render: a bracketed, comma-separated rendering, or the cast failure |
| ArrayUtil.RenderOne | src/main/java/io/craigmiller160/utils/util/ArrayUtil.java:35-55 | One element renders as "null", as a nested array rendered in turn, or as its text. A primitive array fails the cast |
| ArrayUtil.FailurePropagates | src/main/java/io/craigmiller160/utils/util/ArrayUtil.java:35-55 | Once an element fails, the whole rendering fails with its error |
| ArrayUtil.Brackets | src/main/java/io/craigmiller160/utils/util/ArrayUtil.java:35-55 | A successful rendering starts with "[" and ends with "]". An empty array gives "[]" |
| ArrayUtil.FailsIffPrimitiveArray | src/main/java/io/craigmiller160/utils/util/ArrayUtil.java:35-55 | Rendering fails exactly when a primitive array appears at some depth |
| ArrayUtil.ElementFailsIffPrimitiveArray | src/main/java/io/craigmiller160/utils/util/ArrayUtil.java:35-55 | One element fails exactly when it is, or holds at some depth, a primitive array |
| ArrayUtil.RenderedLengthWithSeparators | src/main/java/io/craigmiller160/utils/util/ArrayUtil.java:35-55 | n rendered elements take their texts' length, plus 2 brackets, plus n-1 two-character separators |
| ArrayUtil.NullRendersAsNull | src/test/java/io/craigmiller160/utils/util/ArrayUtilTest.java:33-50 | A null element renders as "null" |
| ArrayUtil.TwoPlain | src/main/java/io/craigmiller160/utils/util/ArrayUtil.java:35-55 | Two elements give "[a, b]" |
| ArrayUtil.NestedArray | src/test/java/io/craigmiller160/utils/util/ArrayUtilTest.java:33-50 | A nested array is rendered in the same format, in place |
| StringUtil.Trim | src/main/java/io/craigmiller160/utils/util/StringUtil.java:49-51 | Trimming never lengthens a string |
| StringUtil.IsEmpty | src/main/java/io/craigmiller160/utils/util/StringUtil.java:34-36 | Only null and "" are empty |
| StringUtil.IsEmptyExcluding | src/main/java/io/craigmiller160/utils/util/StringUtil.java:49-51 | Without exclusion, only null and "" are empty. With whitespace excluded, a string is empty iff every character is at or below the space |
| StringUtil.TrimEmpty | src/main/java/io/craigmiller160/utils/util/StringUtil.java:49-51 | Trimming leaves nothing exactly when every character is at or below the space |
| StringUtil.NullIsEmpty | src/main/java/io/craigmiller160/utils/util/StringUtil.java:49-51 | null is empty whichever way whitespace is treated |
| StringUtil.IsEmptyExcludingSpec | src/main/java/io/craigmiller160/utils/util/StringUtil.java:49-51 | With whitespace excluded, a string is empty iff every character is at or below the space. Otherwise only "" is empty |
| StringUtil.EmptyWhitespaceAndText | src/test/java/io/craigmiller160/utils/util/StringUtilTest.java:37-65 | "" is empty in both modes. "  " is empty only with whitespace excluded. Visible text is empty in neither |
| StringUtil.VisibleCharacterIsNotEmpty | src/main/java/io/craigmiller160/utils/util/StringUtil.java:49-51 | A character above the space makes a string non-empty in both modes |

## Left out

- **The reflective call.** `RemoteInvoke`, `ObjectCreator`, the holder classes and the exceptions' messages are not part of this model. The invoke is represented by the `Invocation` value it would make.
- **Reflection itself.** `getMethods()` and `getParameterTypes()` become the `methods` and `params` fields of the model's values. The class universe is finite: no user classes or interfaces beyond Object, Number, String, the wrappers and arrays.
- **Hash iteration order.** `HashMap` and `HashSet` order is not modelled. `finalMatches` keeps the order in which candidates validate. For two survivors, `FindAndInvoke.ResolvePairCommutes` shows the choice does not depend on that order. For three or more, the fold is order-dependent in the source as well.
- `FindAndInvoke.GetPotentialMatchingMethods`: null targets and a null target array are not modelled. The source raises NullPointerException at `obj.getClass()` for a null element (`FindAndInvoke.java:335`) and at the loop for a null array (`FindAndInvoke.java:305-317`); a `TargetObject` cannot be null and the targets are always a sequence.
- **Null handling in validation.**
  - `ParamUtils.ValidateParamsNoVarArgs`: null is accepted at reference positions and refused at primitive ones, as the tests expect. `ParamUtils.java` as written would raise NullPointerException at `getClass()`.
  - `ParamUtils.IsValidVarArgs`: same as above.
  - `ParamUtils.ConvertParamsForVarArgs`: a null last argument at A == E is packed as a one-element array. `ParamUtils.java` as written would raise NullPointerException at `ParamUtils.java:112`.
  - `ParamUtils.PerformVarArgsParamConversion`: a null trailing argument at a reference component is copied into the packed array, as `ParamUtilsTest.java:377-392` expects. `ParamUtils.java` as written would raise NullPointerException at `getClass()` on that element (`ParamUtils.java:161`).
- `ParamUtils.IsValidVarArgs`: the RuntimeException for a varargs type that is not an array is a precondition (`VarArgsShaped`). Java only marks a method varargs when its last parameter is an array.
- **Exceptions as results.** `ReflectiveException` from packing is `None`. `NoMethodException` is `Err(NoMethod)` or `Err(Ambiguous)`.
- **Comparators.**
  - Comparators are integer key functions, so they are total preorders.
  - `DefaultComparator`'s `Comparable`-else-`toString` rule is the caller-supplied `natural` key, not derived.
  - A comparator that breaks the `Comparator` contract is not modelled.
- **SortedList aliasing and delegation.**
  - `setPreSortedList` shares the caller's list, which is not modelled; the model copies it.
  - The plain delegations to the inner list (`contains`, `get`, `indexOf`, `size`, `subList`, `toArray`, `removeAll`, `retainAll`, `getComparator`) are not modelled.
  - The iterators, which are commented out, are not modelled.
- **MultiValueMap aliasing and variations.**
  - `put` stores the caller's collection object itself. Later outside mutation of it is not modelled.
  - A null collection passed to `put` is not modelled; `putAll` skips nulls, which is modelled.
  - `getNewCollection` overrides in subclasses are not modelled: collections are ArrayLists, modelled as sequences.
  - The delegations `isEmpty`, `containsKey`, `containsCollection`, `keySet`, `values`, `allValues` and `entrySet` are not modelled.
- **ComparableWeakReference.**
  - Clearing by the garbage collector and the `ReferenceQueue` constructor are not modelled. Each operation sees one snapshot of `get()`.
  - `compareTo` returns -1 for two cleared references both ways round, so it is not antisymmetric there (`ComparableWeakReferences.CompareToCleared` states this). No order property is claimed in that case.
- `ArrayUtil.RenderElement`: `toString` of a plain element is a text carried by the element. Only the `(Object[])` cast failure is modelled.
- `StringUtil.Trim`: a Dafny `char` is a Unicode scalar value, not a UTF-16 code unit. Surrogates lie above U+0020, so Java's `trim` rule (characters at or below U+0020) reads the same either way. No other Unicode whitespace is considered.
- `ComparableWeakReferences.StringCompareTo`: compares Unicode scalar values, where Java's `String.compareTo` compares UTF-16 code units. The two orders differ when a supplementary character (above U+FFFF, a surrogate pair in Java) meets a character in U+E000–U+FFFF: Java places the supplementary character below, the model above. Antisymmetry and "zero iff equal" hold in both.
- `FindAndInvoke.PerformInvocation`: the ambiguity message is not built. The source renders the arguments with `ArrayUtil.deepToString` there (`FindAndInvoke.java:184`, `:188`), so an ambiguous call whose arguments hold a primitive array, at any depth, raises ClassCastException where the model returns `Err(Ambiguous)`. The model's arguments carry a class but no array contents, so that rendering cannot be derived from them.
- `ArrayUtil.DeepToString`: `deepToString(null)` raises NullPointerException, and an array that contains itself recurses until the stack overflows. Neither is modelled: the input is a non-null, finite (hence acyclic) sequence of elements.

## Findings

| source | as written | input that shows it | evidently intended | confidence | as-written member | corrected member |
|---|---|---|---|---|---|---|
| src/main/java/io/craigmiller160/utils/reflect/ParamUtils.java:126-128 | With no arguments, the varargs conversion returns a zero-length array in place of the argument array | `(String...)` called with no arguments: the result has 0 slots, where the method needs 1 slot holding an empty String[] (`ParamUtilsTest.java:230-242` expects that) | One slot holding an empty varargs array | not executed | ParamUtils.ZeroArgumentConversion | ParamUtils.ConvertParamsForVarArgs |
| src/main/java/io/craigmiller160/utils/reflect/ParamUtils.java:69-75 | The double row of the widening table lacks byte | A `byte` argument class for a `double` parameter is refused, though Java widens byte to double | The double row includes byte, matching section 5.1.2 of the Java Language Specification | not executed | JavaTypes.WideningAsWrittenMissesByteToDouble | JavaTypes.WideningIsJls |
| src/main/java/io/craigmiller160/utils/reflect/FindAndInvoke.java:158-159 | The scan runs over the current method's parameters and indexes the other method's, overrunning a shorter one | Survivors f(String, Object...) and f(Object...) of the call f("x"): ArrayIndexOutOfBoundsException in one order, "ambiguous" in the other | Scan only the positions both methods have; the verdict then does not depend on order | not executed | FindAndInvoke.CompareAsWrittenOverruns | FindAndInvoke.CompareMirror |
| src/main/java/io/craigmiller160/utils/reflect/FindAndInvoke.java:338 | A varargs method is collected when its parameter count is at least count-1 | f(String...) called with three Strings is never collected, though the call validates | Collected when its parameter count is at most count+1 | not executed | FindAndInvoke.PotentialMatchAsWrittenMissesLongCalls | FindAndInvoke.PotentialMatchComplete |
| src/main/java/io/craigmiller160/utils/collection/SortedList.java:257-265 | set finds the position before removing the old element, then inserts at it in the shortened list | [1, 3, 5, 8], set(1, 7) gives [1, 5, 8, 7]; [1, 3], set(0, 9) removes 1 and then fails out of bounds | Remove first, then find the position in what remains | not executed | SortedLists.SetAsWrittenMisplaces | SortedLists.SortedList.Set |
| src/main/java/io/craigmiller160/utils/collection/MultiValueMap.java:202-209 | For a present key, the existing collection has the values appended and is then passed to put, which appends it to itself and adds its doubled size | Key 1 holding [7], add [8]: [7, 8, 7, 8] and fullSize 5 with four values stored | The values appended once, fullSize raised by their number | not executed | MultiValueMaps.PutMultipleAsWrittenDrifts | MultiValueMaps.MultiValueMap.PutMultipleValuesIntoCollection |
| src/main/java/io/craigmiller160/utils/collection/MultiValueMap.java:214 | remove takes every value of the dropped collection out of allValues, even those another key still holds | Keys 0 and 1 both holding [1], remove(0): [1] remains under key 1 but containsValue(1) is false | Only the values no remaining collection holds leave allValues | not executed | MultiValueMaps.RemoveAsWrittenLosesValue | MultiValueMaps.MultiValueMap.Remove |
| src/main/java/io/craigmiller160/utils/collection/MultiValueMap.java:242 | removeValue takes the value out of allValues unconditionally | Key 0 holding [1, 1], removeValue(1): [1] remains but containsValue(1) is false | The value leaves allValues only when no collection still holds it | not executed | MultiValueMaps.RemoveValueAsWrittenLosesValue | MultiValueMaps.MultiValueMap.RemoveValue |
