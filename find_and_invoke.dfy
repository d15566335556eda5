/**
 * FindAndInvoke: finding the methods of a set of target objects that could
 * take a call, validating and converting the arguments for each, choosing one
 * survivor by a pairwise specificity fold (or reporting the call ambiguous),
 * and the broadcast variant that invokes every survivor. The reflective call
 * itself is not modelled: an operation returns the Invocation it would make.
 */
module FindAndInvoke {
  import opened Wrappers
  import opened JavaTypes
  import ParamUtils

  /**
   * A target object: a handle and the public methods its class exposes. The
   * handle stands for the object's class of objects equal under equals(): the
   * HashMap behind finalMatches keys on ObjectAndMethod, whose equality compares
   * the targets with equals() and the methods, so callers give targets that are
   * equal under equals() the same handle (distinct objects equal under equals()
   * then share one finalMatches entry, as in the source).
   */
  datatype TargetObject = TargetObject(handle: nat, methods: seq<Signature>)

  /** ObjectAndMethod: a method paired with the handle of the object it is to be invoked on; equal exactly when both parts are. */
  datatype Candidate = Candidate(target: nat, sig: Signature)

  /** The two kinds of NoMethodException: nothing matched, or no single match could be chosen. */
  datatype Failure = NoMethod | Ambiguous

  /** The call handed to RemoteInvoke: the candidate and the argument array passed. */
  datatype Invocation = Invocation(candidate: Candidate, args: Option<seq<Arg>>)

  /** An entry of finalMatches: a candidate and its converted arguments. */
  datatype Entry = Entry(candidate: Candidate, args: seq<Arg>)

  /**
   * The outcome of comparing the running choice with the next survivor;
   * IndexOverrun is the ArrayIndexOutOfBoundsException of the scan as written.
   */
  datatype Verdict = KeepCurrent | TakeNext | NoDecision | IndexOverrun

  // ---------------------------------------------------------------------
  // Collecting the potential matches
  // ---------------------------------------------------------------------

  /** The argument count used for collection: a null argument array counts as none. */
  function ArgCount(newParams: Option<seq<Arg>>): nat {
    if newParams.None? then 0 else |newParams.value|
  }

  /**
   * getPotentialMatchingMethodsFromSingle's test as written: a varargs method
   * is kept when its parameter count is at least count-1, the inequality the
   * wrong way round.
   */
  predicate IsPotentialMatchAsWritten(name: string, count: nat, m: Signature): (r: bool)
    ensures r ==> m.name == name
    ensures r && m.isVarArgs ==> count <= |m.params| + 1
  {
    m.name == name && ((m.isVarArgs && |m.params| >= count - 1) || |m.params| == count)
  }

  /** The test as intended: a varargs method is kept when it takes at most one argument more than given. */
  predicate IsPotentialMatch(name: string, count: nat, m: Signature) {
    m.name == name && ((m.isVarArgs && |m.params| - 1 <= count) || |m.params| == count)
  }

  /** getPotentialMatchingMethodsFromSingle: the matching methods of one object, in its order. */
  function MatchesFromSingle(name: string, obj: TargetObject, count: nat, n: nat): seq<Candidate>
    requires n <= |obj.methods|
  {
    if n == 0 then []
    else
      var prev := MatchesFromSingle(name, obj, count, n - 1);
      var m := obj.methods[n - 1];
      if IsPotentialMatch(name, count, m) then prev + [Candidate(obj.handle, m)] else prev
  }

  /** getPotentialMatchingMethods: the matches of every object, concatenated in object order. */
  function PotentialMatches(name: string, count: nat, objects: seq<TargetObject>): seq<Candidate> {
    if |objects| == 0 then []
    else
      var last := objects[|objects| - 1];
      PotentialMatches(name, count, objects[..|objects| - 1]) + MatchesFromSingle(name, last, count, |last.methods|)
  }

  /** Every method of every object is a well-formed descriptor. */
  predicate ObjectsWellFormed(objects: seq<TargetObject>) {
    forall i, j :: 0 <= i < |objects| && 0 <= j < |objects[i].methods| ==> WellFormed(objects[i].methods[j])
  }

  /** Every candidate is a well-formed descriptor. */
  predicate AllWellFormed(oams: seq<Candidate>) {
    forall i :: 0 <= i < |oams| ==> WellFormed(oams[i].sig)
  }

  lemma {:induction false} MatchesFromSingleMembership(name: string, obj: TargetObject, count: nat, n: nat, c: Candidate)
    requires n <= |obj.methods|
    ensures c in MatchesFromSingle(name, obj, count, n) <==>
      c.target == obj.handle && IsPotentialMatch(name, count, c.sig) &&
      exists j :: 0 <= j < n && obj.methods[j] == c.sig
  {
    if n > 0 {
      MatchesFromSingleMembership(name, obj, count, n - 1, c);
      if c.target == obj.handle && IsPotentialMatch(name, count, c.sig) && obj.methods[n - 1] == c.sig {
        assert c in MatchesFromSingle(name, obj, count, n);
      }
    }
  }

  /**
   * A candidate is collected iff it pairs one of the given objects with one of
   * that object's methods which passes the intended name-and-arity test.
   */
  lemma {:induction false} PotentialMatchesMembership(name: string, count: nat, objects: seq<TargetObject>, c: Candidate)
    ensures c in PotentialMatches(name, count, objects) <==>
      exists i, j :: 0 <= i < |objects| && 0 <= j < |objects[i].methods| &&
        objects[i].handle == c.target && objects[i].methods[j] == c.sig && IsPotentialMatch(name, count, c.sig)
  {
    if |objects| > 0 {
      var k := |objects| - 1;
      var last := objects[k];
      PotentialMatchesMembership(name, count, objects[..k], c);
      MatchesFromSingleMembership(name, last, count, |last.methods|, c);
      if exists i, j :: 0 <= i < |objects| && 0 <= j < |objects[i].methods| &&
          objects[i].handle == c.target && objects[i].methods[j] == c.sig && IsPotentialMatch(name, count, c.sig)
      {
        var i, j :| 0 <= i < |objects| && 0 <= j < |objects[i].methods| &&
          objects[i].handle == c.target && objects[i].methods[j] == c.sig && IsPotentialMatch(name, count, c.sig);
        if i < k {
          assert objects[..k][i] == objects[i];
        }
      }
    }
  }

  /** Every collected candidate carries a well-formed method. */
  lemma PotentialMatchesWellFormed(name: string, count: nat, objects: seq<TargetObject>)
    requires ObjectsWellFormed(objects)
    ensures AllWellFormed(PotentialMatches(name, count, objects))
  {
    var pm := PotentialMatches(name, count, objects);
    forall k | 0 <= k < |pm| ensures WellFormed(pm[k].sig) {
      PotentialMatchesMembership(name, count, objects, pm[k]);
    }
  }

  /** Collection with the intended test misses no method the call could validate against. */
  lemma PotentialMatchComplete(m: Signature, args: seq<Arg>)
    requires WellFormed(m) && ParamUtils.ValidCall(m.params, m.isVarArgs, args)
    ensures IsPotentialMatch(m.name, |args|, m)
  {
    ParamUtils.ArityRules(m.params, m.isVarArgs, args);
  }

  /**
   * The collection test as written: a varargs method given two or more extra
   * trailing arguments is never collected, so f(String...) called with three
   * Strings is lost although the call validates.
   */
  lemma PotentialMatchAsWrittenMissesLongCalls()
    ensures forall name: string, count: nat, m: Signature ::
      IsPotentialMatchAsWritten(name, count, m) && m.isVarArgs ==> count <= |m.params| + 1
    ensures var m := Signature(0, "f", [ArrayOf(StringClass)], true);
      var s := Obj(StringClass);
      ParamUtils.ValidCall(m.params, true, [s, s, s]) &&
      !IsPotentialMatchAsWritten("f", 3, m) && IsPotentialMatch("f", 3, m)
  {
    var s := Obj(StringClass);
    var args := [s, s, s];
    assert args[0..] == args;
    assert ParamUtils.Accepts(StringClass, s);
  }

  /** getPotentialMatchingMethodsFromSingle: one pass over the object's methods. */
  method GetPotentialMatchingMethodsFromSingle(name: string, obj: TargetObject, actualParamCount: nat)
    returns (matches: seq<Candidate>)
    ensures matches == MatchesFromSingle(name, obj, actualParamCount, |obj.methods|)
  {
    matches := [];
    var i := 0;
    while i < |obj.methods|
      invariant 0 <= i <= |obj.methods|
      invariant matches == MatchesFromSingle(name, obj, actualParamCount, i)
    {
      var m := obj.methods[i];
      if m.name == name {
        if m.isVarArgs && |m.params| - 1 <= actualParamCount {
          matches := matches + [Candidate(obj.handle, m)];
        } else if |m.params| == actualParamCount {
          matches := matches + [Candidate(obj.handle, m)];
        }
      }
      i := i + 1;
    }
  }

  /** getPotentialMatchingMethods: all objects in order; NoMethod when nothing was collected. */
  method GetPotentialMatchingMethods(name: string, actualParamCount: nat, objects: seq<TargetObject>)
    returns (r: Result<seq<Candidate>, Failure>)
    ensures var pm := PotentialMatches(name, actualParamCount, objects);
      r == if |pm| == 0 then Err(NoMethod) else Ok(pm)
  {
    var matchingMethods := [];
    var i := 0;
    while i < |objects|
      invariant 0 <= i <= |objects|
      invariant matchingMethods == PotentialMatches(name, actualParamCount, objects[..i])
    {
      var single := GetPotentialMatchingMethodsFromSingle(name, objects[i], actualParamCount);
      assert objects[..i + 1][..i] == objects[..i];
      matchingMethods := matchingMethods + single;
      i := i + 1;
    }
    assert objects[..|objects|] == objects;
    if |matchingMethods| == 0 {
      return Err(NoMethod);
    }
    r := Ok(matchingMethods);
  }

  // ---------------------------------------------------------------------
  // Validation: finalMatches
  // ---------------------------------------------------------------------

  /** validateInvocationAndConvertParams for one candidate. */
  function Converted(c: Candidate, newParams: Option<seq<Arg>>): Option<seq<Arg>>
    requires WellFormed(c.sig)
  {
    ParamUtils.ValidatedConversion(c.sig.params, c.sig.isVarArgs, newParams)
  }

  predicate HasKey(entries: seq<Entry>, c: Candidate) {
    exists i :: 0 <= i < |entries| && entries[i].candidate == c
  }

  /** A well-formed entry: a well-formed method and one argument per parameter. */
  predicate WellFormedEntry(e: Entry) {
    WellFormed(e.candidate.sig) && |e.args| == |e.candidate.sig.params|
  }

  predicate EntriesWellFormed(entries: seq<Entry>) {
    forall i :: 0 <= i < |entries| ==> WellFormedEntry(entries[i])
  }

  /**
   * finalMatches: each candidate that validates, with its converted
   * arguments, once per candidate, in the order first seen.
   */
  function FinalMatches(oams: seq<Candidate>, newParams: Option<seq<Arg>>): (fm: seq<Entry>)
    requires AllWellFormed(oams)
    ensures EntriesWellFormed(fm)
  {
    if |oams| == 0 then []
    else
      var prev := FinalMatches(oams[..|oams| - 1], newParams);
      var c := oams[|oams| - 1];
      var finalParams := Converted(c, newParams);
      if finalParams.Some? && !HasKey(prev, c) then
        ParamUtils.ConvertedLength(c.sig.params, c.sig.isVarArgs, newParams);
        prev + [Entry(c, finalParams.value)]
      else prev
  }

  /** A prefix of well-formed candidates is well-formed. */
  lemma InitWellFormed(oams: seq<Candidate>)
    requires AllWellFormed(oams) && |oams| > 0
    ensures AllWellFormed(oams[..|oams| - 1])
  {
    var init := oams[..|oams| - 1];
    forall i | 0 <= i < |init| ensures WellFormed(init[i].sig) {
      assert init[i] == oams[i];
    }
  }

  /** Every entry of finalMatches is a candidate that validated, with the arguments its validation produced. */
  lemma {:induction false} FinalMatchesSound(oams: seq<Candidate>, newParams: Option<seq<Arg>>)
    requires AllWellFormed(oams)
    ensures forall i :: 0 <= i < |FinalMatches(oams, newParams)| ==>
      FinalMatches(oams, newParams)[i].candidate in oams &&
      Converted(FinalMatches(oams, newParams)[i].candidate, newParams) == Some(FinalMatches(oams, newParams)[i].args)
  {
    if |oams| > 0 {
      var init := oams[..|oams| - 1];
      InitWellFormed(oams);
      FinalMatchesSound(init, newParams);
      var prev := FinalMatches(init, newParams);
      var fm := FinalMatches(oams, newParams);
      forall i | 0 <= i < |fm|
        ensures fm[i].candidate in oams && Converted(fm[i].candidate, newParams) == Some(fm[i].args)
      {
        if i < |prev| {
          assert fm[i] == prev[i];
          var x := prev[i].candidate;
          assert x in init;
          var j :| 0 <= j < |init| && init[j] == x;
          assert oams[j] == x;
        } else {
          assert fm[i].candidate == oams[|oams| - 1];
        }
      }
    }
  }

  /** Every candidate that validates has an entry in finalMatches. */
  lemma {:induction false} FinalMatchesComplete(oams: seq<Candidate>, newParams: Option<seq<Arg>>)
    requires AllWellFormed(oams)
    ensures forall i :: 0 <= i < |oams| && Converted(oams[i], newParams).Some? ==>
      HasKey(FinalMatches(oams, newParams), oams[i])
  {
    if |oams| > 0 {
      var k := |oams| - 1;
      var init := oams[..k];
      InitWellFormed(oams);
      FinalMatchesComplete(init, newParams);
      var prev := FinalMatches(init, newParams);
      var fm := FinalMatches(oams, newParams);
      var c := oams[k];
      forall i | 0 <= i < |oams| && Converted(oams[i], newParams).Some? ensures HasKey(fm, oams[i]) {
        if i < k {
          assert init[i] == oams[i];
          var j :| 0 <= j < |prev| && prev[j].candidate == oams[i];
          assert fm[j] == prev[j];
        } else if !HasKey(prev, c) {
          assert fm[|prev|].candidate == c;
        } else {
          var j :| 0 <= j < |prev| && prev[j].candidate == c;
          assert fm[j] == prev[j];
        }
      }
    }
  }

  /** No candidate has two entries in finalMatches. */
  lemma {:induction false} FinalMatchesDistinct(oams: seq<Candidate>, newParams: Option<seq<Arg>>)
    requires AllWellFormed(oams)
    ensures forall i, j :: 0 <= i < j < |FinalMatches(oams, newParams)| ==>
      FinalMatches(oams, newParams)[i].candidate != FinalMatches(oams, newParams)[j].candidate
  {
    if |oams| > 0 {
      var init := oams[..|oams| - 1];
      InitWellFormed(oams);
      FinalMatchesDistinct(init, newParams);
      var prev := FinalMatches(init, newParams);
      var fm := FinalMatches(oams, newParams);
      if |fm| > |prev| {
        forall i, j | 0 <= i < j < |fm| ensures fm[i].candidate != fm[j].candidate {
          if j == |prev| {
            assert fm[i] == prev[i];
            assert !HasKey(prev, fm[j].candidate);
          } else {
            assert fm[i] == prev[i] && fm[j] == prev[j];
          }
        }
      }
    }
  }

  /**
   * finalMatches holds exactly the candidates that validate, each once, each
   * with the arguments its validation produced.
   */
  lemma FinalMatchesSpec(oams: seq<Candidate>, newParams: Option<seq<Arg>>)
    requires AllWellFormed(oams)
    ensures var fm := FinalMatches(oams, newParams);
      && (forall i :: 0 <= i < |fm| ==>
            fm[i].candidate in oams && Converted(fm[i].candidate, newParams) == Some(fm[i].args))
      && (forall i :: 0 <= i < |oams| && Converted(oams[i], newParams).Some? ==> HasKey(fm, oams[i]))
      && (forall i, j :: 0 <= i < j < |fm| ==> fm[i].candidate != fm[j].candidate)
  {
    FinalMatchesSound(oams, newParams);
    FinalMatchesComplete(oams, newParams);
    FinalMatchesDistinct(oams, newParams);
  }

  // ---------------------------------------------------------------------
  // Disambiguation
  // ---------------------------------------------------------------------

  /** The number of parameter positions the corrected scan compares. */
  function Bound(cur: Entry, next: Entry): nat {
    var n, m := |cur.candidate.sig.params|, |next.candidate.sig.params|;
    if n <= m then n else m
  }

  /** Position i favours the next entry: its type is a proper subclass and its argument is not null. */
  predicate FavoursNext(cur: Entry, next: Entry, i: nat)
    requires WellFormedEntry(cur) && WellFormedEntry(next) && i < Bound(cur, next)
  {
    var a, b := cur.candidate.sig.params[i], next.candidate.sig.params[i];
    a != b && !IsAcceptablePrimitive(a, b) && IsAssignable(a, b) && next.args[i] != Null
  }

  /** Position i favours the current entry: its type is a proper subclass and its argument is not null. */
  predicate FavoursCurrent(cur: Entry, next: Entry, i: nat)
    requires WellFormedEntry(cur) && WellFormedEntry(next) && i < Bound(cur, next)
  {
    var a, b := cur.candidate.sig.params[i], next.candidate.sig.params[i];
    a != b && !IsAcceptablePrimitive(a, b) && !IsAssignable(a, b) && IsAssignable(b, a) && cur.args[i] != Null
  }

  /** j is a position from i on before which no position decided. */
  predicate UndecidedBefore(cur: Entry, next: Entry, i: nat, j: nat)
    requires WellFormedEntry(cur) && WellFormedEntry(next)
  {
    i <= j < Bound(cur, next) &&
    forall k :: i <= k < j ==> !FavoursNext(cur, next, k) && !FavoursCurrent(cur, next, k)
  }

  /**
   * The parameter scan from position i, branch for branch as in the source,
   * over the positions both methods have.
   */
  function Scan(cur: Entry, next: Entry, i: nat): Verdict
    requires WellFormedEntry(cur) && WellFormedEntry(next) && i <= Bound(cur, next)
    decreases Bound(cur, next) - i
  {
    if i == Bound(cur, next) then NoDecision
    else
      var a, b := cur.candidate.sig.params[i], next.candidate.sig.params[i];
      if a == b || IsAcceptablePrimitive(a, b) then Scan(cur, next, i + 1)
      else if IsAssignable(a, b) then
        if next.args[i] != Null then TakeNext else Scan(cur, next, i + 1)
      else if IsAssignable(b, a) then
        if cur.args[i] != Null then KeepCurrent else Scan(cur, next, i + 1)
      else Scan(cur, next, i + 1)
  }

  /**
   * The parameter scan as written: it runs over the current method's positions
   * and indexes the next method's parameters at each, overrunning them when
   * the next method has fewer.
   */
  function ScanAsWritten(cur: Entry, next: Entry, i: nat): (r: Verdict)
    requires WellFormedEntry(cur) && WellFormedEntry(next)
    ensures r == IndexOverrun ==> |next.candidate.sig.params| < |cur.candidate.sig.params|
    ensures i <= |cur.candidate.sig.params| <= |next.candidate.sig.params| ==> r == Scan(cur, next, i)
    decreases |cur.candidate.sig.params| - i
  {
    if i >= |cur.candidate.sig.params| then NoDecision
    else if i >= |next.candidate.sig.params| then IndexOverrun
    else
      var a, b := cur.candidate.sig.params[i], next.candidate.sig.params[i];
      if a == b || IsAcceptablePrimitive(a, b) then ScanAsWritten(cur, next, i + 1)
      else if IsAssignable(a, b) then
        if next.args[i] != Null then TakeNext else ScanAsWritten(cur, next, i + 1)
      else if IsAssignable(b, a) then
        if cur.args[i] != Null then KeepCurrent else ScanAsWritten(cur, next, i + 1)
      else ScanAsWritten(cur, next, i + 1)
  }

  /** One pairwise comparison: the varargs rule first, then the scan. */
  function Compare(cur: Entry, next: Entry): Verdict
    requires WellFormedEntry(cur) && WellFormedEntry(next)
  {
    var curVarArgs, nextVarArgs := cur.candidate.sig.isVarArgs, next.candidate.sig.isVarArgs;
    if curVarArgs && !nextVarArgs then TakeNext
    else if !curVarArgs && nextVarArgs then KeepCurrent
    else Scan(cur, next, 0)
  }

  /** The pairwise comparison as written. */
  function CompareAsWritten(cur: Entry, next: Entry): (r: Verdict)
    requires WellFormedEntry(cur) && WellFormedEntry(next)
    ensures r == IndexOverrun ==> |next.candidate.sig.params| < |cur.candidate.sig.params|
    ensures |cur.candidate.sig.params| <= |next.candidate.sig.params| ==> r == Compare(cur, next)
  {
    var curVarArgs, nextVarArgs := cur.candidate.sig.isVarArgs, next.candidate.sig.isVarArgs;
    if curVarArgs && !nextVarArgs then TakeNext
    else if !curVarArgs && nextVarArgs then KeepCurrent
    else ScanAsWritten(cur, next, 0)
  }

  /** The verdict with the roles of the two entries exchanged. */
  function Mirror(v: Verdict): Verdict {
    match v
    case KeepCurrent => TakeNext
    case TakeNext => KeepCurrent
    case other => other
  }

  /** One step of the scan, in terms of the two favouring predicates. */
  lemma ScanStep(cur: Entry, next: Entry, i: nat)
    requires WellFormedEntry(cur) && WellFormedEntry(next) && i < Bound(cur, next)
    ensures Scan(cur, next, i) ==
      if FavoursNext(cur, next, i) then TakeNext
      else if FavoursCurrent(cur, next, i) then KeepCurrent
      else Scan(cur, next, i + 1)
  {
  }

  /**
   * The scan decides at the first position that favours either entry, for
   * the entry it favours, and leaves the pair undecided when no position does.
   */
  lemma {:induction false} ScanFindsFirstDecisivePosition(cur: Entry, next: Entry, i: nat)
    requires WellFormedEntry(cur) && WellFormedEntry(next) && i <= Bound(cur, next)
    ensures Scan(cur, next, i) != IndexOverrun
    ensures Scan(cur, next, i) == TakeNext <==>
      exists j :: UndecidedBefore(cur, next, i, j) && FavoursNext(cur, next, j)
    ensures Scan(cur, next, i) == KeepCurrent <==>
      exists j :: UndecidedBefore(cur, next, i, j) && FavoursCurrent(cur, next, j)
    ensures Scan(cur, next, i) == NoDecision <==>
      forall j :: i <= j < Bound(cur, next) ==> !FavoursNext(cur, next, j) && !FavoursCurrent(cur, next, j)
    decreases Bound(cur, next) - i
  {
    if i < Bound(cur, next) {
      ScanStep(cur, next, i);
      assert UndecidedBefore(cur, next, i, i);
      if !FavoursNext(cur, next, i) && !FavoursCurrent(cur, next, i) {
        ScanFindsFirstDecisivePosition(cur, next, i + 1);
        forall j | UndecidedBefore(cur, next, i + 1, j) ensures UndecidedBefore(cur, next, i, j) {}
        forall j | UndecidedBefore(cur, next, i, j) && j != i ensures UndecidedBefore(cur, next, i + 1, j) {}
      } else {
        forall j | UndecidedBefore(cur, next, i, j) ensures j == i {
        }
        assert !(FavoursNext(cur, next, i) && FavoursCurrent(cur, next, i));
      }
    }
  }

  /** A position that favours one entry favours the other once the roles are exchanged. */
  lemma FavoursSwap(cur: Entry, next: Entry, i: nat)
    requires WellFormedEntry(cur) && WellFormedEntry(next) && i < Bound(cur, next)
    ensures FavoursNext(cur, next, i) <==> FavoursCurrent(next, cur, i)
    ensures FavoursCurrent(cur, next, i) <==> FavoursNext(next, cur, i)
  {
    var a, b := cur.candidate.sig.params[i], next.candidate.sig.params[i];
    if IsAssignable(a, b) && IsAssignable(b, a) {
      IsAssignableAntisymmetric(a, b);
    }
  }

  lemma {:induction false} ScanMirror(cur: Entry, next: Entry, i: nat)
    requires WellFormedEntry(cur) && WellFormedEntry(next) && i <= Bound(cur, next)
    ensures Scan(cur, next, i) == Mirror(Scan(next, cur, i))
    decreases Bound(cur, next) - i
  {
    if i < Bound(cur, next) {
      ScanStep(cur, next, i);
      ScanStep(next, cur, i);
      FavoursSwap(cur, next, i);
      ScanMirror(cur, next, i + 1);
    }
  }

  /**
   * The corrected comparison does not depend on which of the two survivors
   * came first: exchanging them exchanges the verdict.
   */
  lemma CompareMirror(cur: Entry, next: Entry)
    requires WellFormedEntry(cur) && WellFormedEntry(next)
    ensures Compare(cur, next) == Mirror(Compare(next, cur))
    ensures Compare(cur, next) != IndexOverrun
  {
    ScanMirror(cur, next, 0);
    ScanFindsFirstDecisivePosition(cur, next, 0);
  }

  /** Between a varargs and a non-varargs survivor the non-varargs one wins, whatever the parameters. */
  lemma NonVarArgsPreferred(cur: Entry, next: Entry)
    requires WellFormedEntry(cur) && WellFormedEntry(next)
    requires cur.candidate.sig.isVarArgs != next.candidate.sig.isVarArgs
    ensures Compare(cur, next) == (if cur.candidate.sig.isVarArgs then TakeNext else KeepCurrent)
  {
  }

  /** f(String, Object...) survives the call f("x"): the string fills the first parameter and an empty array the second. */
  lemma LongerOverrunSurvives()
    ensures var s := Obj(StringClass);
      Converted(Candidate(0, Signature(0, "f", [StringClass, ArrayOf(ObjectClass)], true)), Some([s]))
        == Some([s, Packed(ObjectClass, [])])
  {
    var s := Obj(StringClass);
    var one := [s];
    var longer := [StringClass, ArrayOf(ObjectClass)];
    assert one[..1] == [s] && one[1..1] == [];
    assert ParamUtils.Accepts(StringClass, s);
    assert ParamUtils.ValidCall(longer, true, one);
    assert ParamUtils.VarArgsConversion(longer, one) == ParamUtils.Pack(longer, 0, one);
    assert ParamUtils.Pack(longer, 0, one) == Some(one[..1] + [Packed(ObjectClass, one[1..1])]);
    assert one[..1] + [Packed(ObjectClass, one[1..1])] == [s, Packed(ObjectClass, [])];
  }

  /** f(Object...) survives the call f("x"): the string is packed into the array. */
  lemma ShorterOverrunSurvives()
    ensures var s := Obj(StringClass);
      Converted(Candidate(0, Signature(0, "f", [ArrayOf(ObjectClass)], true)), Some([s]))
        == Some([Packed(ObjectClass, [s])])
  {
    var s := Obj(StringClass);
    var one := [s];
    var shorter := [ArrayOf(ObjectClass)];
    assert one[..0] == [] && one[0..1] == [s] && one[0..] == [s];
    assert ParamUtils.Accepts(ObjectClass, s);
    assert ParamUtils.ValidCall(shorter, true, one);
    assert !ParamUtils.LastIsVarArgsArray(shorter, one);
    assert ParamUtils.VarArgsConversion(shorter, one) == ParamUtils.Pack(shorter, 1, one);
    assert ParamUtils.Pack(shorter, 1, one) == Some(one[..0] + [Packed(ObjectClass, one[0..1])]);
    assert one[..0] + [Packed(ObjectClass, one[0..1])] == [Packed(ObjectClass, [s])];
  }

  /** f(String, Object...) and f(Object...) both survive the call f("x"). */
  lemma OverrunPairSurvives()
    ensures var s := Obj(StringClass);
      && Converted(Candidate(0, Signature(0, "f", [StringClass, ArrayOf(ObjectClass)], true)), Some([s]))
         == Some([s, Packed(ObjectClass, [])])
      && Converted(Candidate(0, Signature(0, "f", [ArrayOf(ObjectClass)], true)), Some([s]))
         == Some([Packed(ObjectClass, [s])])
  {
    LongerOverrunSurvives();
    ShorterOverrunSurvives();
  }

  /**
   * The comparison as written is order-dependent: for those two survivors it
   * reports no decision one way round and overruns the shorter parameter
   * array the other way round; the corrected comparison finds them ambiguous
   * both ways.
   */
  lemma CompareAsWrittenOverruns()
    ensures var s := Obj(StringClass);
      var e1 := Entry(Candidate(0, Signature(0, "f", [StringClass, ArrayOf(ObjectClass)], true)), [s, Packed(ObjectClass, [])]);
      var e2 := Entry(Candidate(0, Signature(0, "f", [ArrayOf(ObjectClass)], true)), [Packed(ObjectClass, [s])]);
      && CompareAsWritten(e1, e2) == IndexOverrun
      && CompareAsWritten(e2, e1) == NoDecision
      && Compare(e1, e2) == NoDecision && Compare(e2, e1) == NoDecision
  {
    var s := Obj(StringClass);
    var e1 := Entry(Candidate(0, Signature(0, "f", [StringClass, ArrayOf(ObjectClass)], true)), [s, Packed(ObjectClass, [])]);
    var e2 := Entry(Candidate(0, Signature(0, "f", [ArrayOf(ObjectClass)], true)), [Packed(ObjectClass, [s])]);
    assert ScanAsWritten(e1, e2, 1) == IndexOverrun;
    assert ScanAsWritten(e2, e1, 1) == NoDecision;
    assert Scan(e1, e2, 1) == NoDecision && Scan(e2, e1, 1) == NoDecision;
  }

  /**
   * The fold over the survivors after the first: the running choice is kept
   * or replaced by each verdict, and an undecided pair ends the resolution.
   */
  function Reduce(cur: Entry, rest: seq<Entry>): (r: Result<Entry, Failure>)
    requires WellFormedEntry(cur) && EntriesWellFormed(rest)
    ensures r.Ok? ==> r.value == cur || r.value in rest
    ensures r.Err? ==> r.error == Ambiguous
    decreases |rest|
  {
    if |rest| == 0 then Ok(cur)
    else
      match Compare(cur, rest[0])
      case TakeNext => Reduce(rest[0], rest[1..])
      case KeepCurrent => Reduce(cur, rest[1..])
      case _ => Err(Ambiguous)
  }

  /** Choosing among the survivors: none is NoMethod, one is invoked, several are folded. */
  function Resolve(entries: seq<Entry>): (r: Result<Invocation, Failure>)
    requires EntriesWellFormed(entries)
    ensures r == Err(NoMethod) <==> |entries| == 0
    ensures r.Err? ==> r.error == NoMethod || r.error == Ambiguous
    ensures r.Ok? ==> exists i :: 0 <= i < |entries| && r.value == Invocation(entries[i].candidate, Some(entries[i].args))
  {
    if |entries| == 0 then Err(NoMethod)
    else if |entries| == 1 then Ok(Invocation(entries[0].candidate, Some(entries[0].args)))
    else
      match Reduce(entries[0], entries[1..])
      case Ok(e) => Ok(Invocation(e.candidate, Some(e.args)))
      case Err(f) => Err(f)
  }

  /**
   * performInvocation's outcome: NoMethod exactly when no candidate validates;
   * otherwise a failure can only be an ambiguity, and a chosen candidate is one
   * of those given, invoked with the arguments its own validation produced.
   */
  lemma ResolveSound(oams: seq<Candidate>, newParams: Option<seq<Arg>>)
    requires AllWellFormed(oams)
    ensures var r := Resolve(FinalMatches(oams, newParams));
      && (r == Err(NoMethod) <==> forall i :: 0 <= i < |oams| ==> Converted(oams[i], newParams).None?)
      && (r.Ok? ==> r.value.candidate in oams && r.value.args.Some? &&
                    Converted(r.value.candidate, newParams) == r.value.args)
  {
    FinalMatchesSpec(oams, newParams);
    var fm := FinalMatches(oams, newParams);
    if exists i :: 0 <= i < |oams| && Converted(oams[i], newParams).Some? {
      var i :| 0 <= i < |oams| && Converted(oams[i], newParams).Some?;
      assert HasKey(fm, oams[i]);
    }
    if |fm| > 1 {
      var r := Reduce(fm[0], fm[1..]);
      if r.Ok? && r.value != fm[0] {
        var k :| 0 <= k < |fm[1..]| && fm[1..][k] == r.value;
        assert fm[k + 1] == r.value;
      }
    }
  }

  /** Exactly one validating candidate is invoked with its converted arguments, without comparison. */
  lemma SingleSurvivor(oams: seq<Candidate>, newParams: Option<seq<Arg>>, c: Candidate)
    requires AllWellFormed(oams) && c in oams
    requires forall i :: 0 <= i < |oams| ==> (Converted(oams[i], newParams).Some? <==> oams[i] == c)
    ensures Resolve(FinalMatches(oams, newParams)) == Ok(Invocation(c, Converted(c, newParams)))
  {
    FinalMatchesSpec(oams, newParams);
    var fm := FinalMatches(oams, newParams);
    var k :| 0 <= k < |oams| && oams[k] == c;
    assert HasKey(fm, c);
  }

  /** Two survivors resolve the same way in either order. */
  lemma ResolvePairCommutes(e1: Entry, e2: Entry)
    requires WellFormedEntry(e1) && WellFormedEntry(e2)
    ensures Resolve([e1, e2]) == Resolve([e2, e1])
  {
    CompareMirror(e1, e2);
    assert [e1, e2][1..] == [e2];
    assert [e2, e1][1..] == [e1];
    assert [e2][1..] == [] && [e1][1..] == [];
  }

  /**
   * f(String, String) and f(String, Integer): ("x", "y") reaches the first,
   * ("x", 5) the second, and ("x", null) is ambiguous.
   */
  lemma NullArgumentAmbiguity()
    ensures var c1 := Candidate(0, Signature(0, "f", [StringClass, StringClass], false));
      var c2 := Candidate(0, Signature(0, "f", [StringClass, Wrapper(Int)], false));
      var x, y, five := Obj(StringClass), Obj(StringClass), Obj(Wrapper(Int));
      && Resolve(FinalMatches([c1, c2], Some([x, y]))) == Ok(Invocation(c1, Some([x, y])))
      && Resolve(FinalMatches([c1, c2], Some([x, five]))) == Ok(Invocation(c2, Some([x, five])))
      && Resolve(FinalMatches([c1, c2], Some([x, Null]))) == Err(Ambiguous)
  {
    var c1 := Candidate(0, Signature(0, "f", [StringClass, StringClass], false));
    var c2 := Candidate(0, Signature(0, "f", [StringClass, Wrapper(Int)], false));
    var x, five := Obj(StringClass), Obj(Wrapper(Int));
    assert [c1, c2][..1] == [c1] && [c1][..0] == [];
    assert ParamUtils.Accepts(StringClass, x) && !ParamUtils.Accepts(Wrapper(Int), x);
    assert ParamUtils.Accepts(Wrapper(Int), five) && !ParamUtils.Accepts(StringClass, five);
    assert !ParamUtils.Accepts(c2.sig.params[1], [x, x][1]);
    assert Converted(c1, Some([x, x])) == Some([x, x]) && Converted(c2, Some([x, x])).None?;
    assert !ParamUtils.Accepts(c1.sig.params[1], [x, five][1]);
    assert Converted(c1, Some([x, five])).None? && Converted(c2, Some([x, five])) == Some([x, five]);
    assert Converted(c1, Some([x, Null])) == Some([x, Null]) && Converted(c2, Some([x, Null])) == Some([x, Null]);
    assert FinalMatches([c1], Some([x, x])) == [Entry(c1, [x, x])];
    assert FinalMatches([c1, c2], Some([x, x])) == [Entry(c1, [x, x])];
    assert FinalMatches([c1], Some([x, five])) == [];
    assert FinalMatches([c1, c2], Some([x, five])) == [Entry(c2, [x, five])];
    assert FinalMatches([c1], Some([x, Null])) == [Entry(c1, [x, Null])];
    var fm := FinalMatches([c1, c2], Some([x, Null]));
    assert fm == [Entry(c1, [x, Null]), Entry(c2, [x, Null])];
    assert Scan(fm[0], fm[1], 2) == NoDecision;
    assert Scan(fm[0], fm[1], 1) == NoDecision;
    assert Scan(fm[0], fm[1], 0) == NoDecision;
    assert fm[1..] == [fm[1]];
  }

  /**
   * f(Object) and f(String): a String argument reaches f(String) in either
   * order, while a null argument favours neither, so the call is ambiguous.
   */
  lemma MoreSpecificWinsUnlessNull()
    ensures var general := Candidate(0, Signature(0, "f", [ObjectClass], false));
      var specific := Candidate(0, Signature(0, "f", [StringClass], false));
      var x := Obj(StringClass);
      && Resolve([Entry(general, [x]), Entry(specific, [x])]) == Ok(Invocation(specific, Some([x])))
      && Resolve([Entry(specific, [x]), Entry(general, [x])]) == Ok(Invocation(specific, Some([x])))
      && Resolve([Entry(general, [Null]), Entry(specific, [Null])]) == Err(Ambiguous)
  {
    var general := Candidate(0, Signature(0, "f", [ObjectClass], false));
    var specific := Candidate(0, Signature(0, "f", [StringClass], false));
    var x := Obj(StringClass);
    var g, s := Entry(general, [x]), Entry(specific, [x]);
    assert [g, s][1..] == [s] && [s, g][1..] == [g] && [s][1..] == [] && [g][1..] == [];
    var gn, sn := Entry(general, [Null]), Entry(specific, [Null]);
    assert [gn, sn][1..] == [sn];
  }

  /** The scan loop of performInvocation: the varargs rule, then position by position. */
  method CompareEntries(invokeEntry: Entry, entry: Entry) returns (v: Verdict)
    requires WellFormedEntry(invokeEntry) && WellFormedEntry(entry)
    ensures v == Compare(invokeEntry, entry)
  {
    var invokeMethod, entryMethod := invokeEntry.candidate.sig, entry.candidate.sig;
    if invokeMethod.isVarArgs && !entryMethod.isVarArgs {
      return TakeNext;
    } else if !invokeMethod.isVarArgs && entryMethod.isVarArgs {
      return KeepCurrent;
    }
    var invokeParamTypes, entryParamTypes := invokeMethod.params, entryMethod.params;
    var n := if |invokeParamTypes| <= |entryParamTypes| then |invokeParamTypes| else |entryParamTypes|;
    v := NoDecision;
    var i := 0;
    while i < n
      invariant 0 <= i <= n
      invariant Scan(invokeEntry, entry, 0) == Scan(invokeEntry, entry, i)
    {
      var a, b := invokeParamTypes[i], entryParamTypes[i];
      if a == b || IsAcceptablePrimitive(a, b) {
      } else if IsAssignable(a, b) {
        if entry.args[i] != Null {
          v := TakeNext;
          break;
        }
      } else if IsAssignable(b, a) {
        if invokeEntry.args[i] != Null {
          v := KeepCurrent;
          break;
        }
      }
      i := i + 1;
    }
  }

  /** The first loop of performInvocation: every candidate that validates goes into finalMatches. */
  method CollectFinalMatches(oams: seq<Candidate>, newParams: Option<seq<Arg>>) returns (finalMatches: seq<Entry>)
    requires AllWellFormed(oams)
    ensures finalMatches == FinalMatches(oams, newParams)
  {
    finalMatches := [];
    var i := 0;
    while i < |oams|
      invariant 0 <= i <= |oams|
      invariant AllWellFormed(oams[..i])
      invariant finalMatches == FinalMatches(oams[..i], newParams)
    {
      assert oams[..i + 1][..i] == oams[..i];
      var finalParams := ParamUtils.ValidateInvocationAndConvertParams(oams[i].sig.params, oams[i].sig.isVarArgs, newParams);
      if finalParams.Some? && !HasKey(finalMatches, oams[i]) {
        finalMatches := finalMatches + [Entry(oams[i], finalParams.value)];
      }
      i := i + 1;
    }
    assert oams[..|oams|] == oams;
  }

  /**
   * performInvocation: validate every candidate into finalMatches, then invoke
   * the only survivor, or fold the survivors pairwise and invoke the winner.
   */
  method PerformInvocation(oams: seq<Candidate>, newParams: Option<seq<Arg>>) returns (r: Result<Invocation, Failure>)
    requires AllWellFormed(oams)
    ensures r == Resolve(FinalMatches(oams, newParams))
  {
    var finalMatches := CollectFinalMatches(oams, newParams);
    if |finalMatches| == 0 {
      return Err(NoMethod);
    } else if |finalMatches| == 1 {
      return Ok(Invocation(finalMatches[0].candidate, Some(finalMatches[0].args)));
    }
    var invokeEntry := finalMatches[0];
    var j := 1;
    while j < |finalMatches|
      invariant 1 <= j <= |finalMatches|
      invariant WellFormedEntry(invokeEntry)
      invariant Reduce(finalMatches[0], finalMatches[1..]) == Reduce(invokeEntry, finalMatches[j..])
    {
      var entry := finalMatches[j];
      assert finalMatches[j..][1..] == finalMatches[j + 1..];
      var v := CompareEntries(invokeEntry, entry);
      if v == TakeNext {
        invokeEntry := entry;
      } else if v != KeepCurrent {
        return Err(Ambiguous);
      }
      j := j + 1;
    }
    r := Ok(Invocation(invokeEntry.candidate, Some(invokeEntry.args)));
  }

  /** The outcome of findInvokeOneMethod: NoMethod when nothing is collected, else the resolution of what is. */
  function FindOne(methodSig: string, objects: seq<TargetObject>, newParams: Option<seq<Arg>>): Result<Invocation, Failure>
    requires ObjectsWellFormed(objects)
  {
    PotentialMatchesWellFormed(methodSig, ArgCount(newParams), objects);
    var pm := PotentialMatches(methodSig, ArgCount(newParams), objects);
    if |pm| == 0 then Err(NoMethod) else Resolve(FinalMatches(pm, newParams))
  }

  /**
   * Two targets equal under equals() share a handle: a method both expose is
   * collected twice but keeps one finalMatches entry and is invoked once,
   * rather than the call being reported ambiguous.
   */
  lemma EqualTargetsInvokedOnce(name: string, m: Signature, handle: nat, newParams: Option<seq<Arg>>)
    requires WellFormed(m) && IsPotentialMatch(name, ArgCount(newParams), m)
    requires Converted(Candidate(handle, m), newParams).Some?
    ensures FindOne(name, [TargetObject(handle, [m]), TargetObject(handle, [m])], newParams)
      == Ok(Invocation(Candidate(handle, m), Converted(Candidate(handle, m), newParams)))
  {
    var target := TargetObject(handle, [m]);
    var c := Candidate(handle, m);
    var count := ArgCount(newParams);
    assert MatchesFromSingle(name, target, count, 1) == [c];
    assert [target][..0] == [];
    assert PotentialMatches(name, count, [target]) == [c];
    assert [target, target][..1] == [target];
    assert PotentialMatches(name, count, [target, target]) == [c, c];
    SingleSurvivor([c, c], newParams, c);
  }

  /** findInvokeOneMethod: collect by name and argument count, then performInvocation. */
  method FindInvokeOneMethod(methodSig: string, objects: seq<TargetObject>, newParams: Option<seq<Arg>>)
    returns (r: Result<Invocation, Failure>)
    requires ObjectsWellFormed(objects)
    ensures r == FindOne(methodSig, objects, newParams)
  {
    var actualParamCount := if newParams.Some? then |newParams.value| else 0;
    var potentialMatches := GetPotentialMatchingMethods(methodSig, actualParamCount, objects);
    if potentialMatches.Err? {
      return Err(potentialMatches.error);
    }
    PotentialMatchesWellFormed(methodSig, actualParamCount, objects);
    r := PerformInvocation(potentialMatches.value, newParams);
  }

  /**
   * A call that succeeds invokes a method of the requested name on one of the
   * given objects, with the arguments that method's validation produced.
   */
  lemma FindInvokeOneSound(methodSig: string, objects: seq<TargetObject>, newParams: Option<seq<Arg>>)
    requires ObjectsWellFormed(objects)
    ensures var r := FindOne(methodSig, objects, newParams);
      r.Ok? ==>
        && r.value.candidate.sig.name == methodSig
        && (exists i :: 0 <= i < |objects| && objects[i].handle == r.value.candidate.target)
        && r.value.args == Converted(r.value.candidate, newParams)
  {
    PotentialMatchesWellFormed(methodSig, ArgCount(newParams), objects);
    var pm := PotentialMatches(methodSig, ArgCount(newParams), objects);
    ResolveSound(pm, newParams);
    var r := Resolve(FinalMatches(pm, newParams));
    if |pm| > 0 && r.Ok? {
      PotentialMatchesMembership(methodSig, ArgCount(newParams), objects, r.value.candidate);
    }
  }

  // ---------------------------------------------------------------------
  // Broadcast: invoking every survivor
  // ---------------------------------------------------------------------

  /** The invocations attemptToInvokeAllMethods makes: every validating candidate, with the original arguments. */
  function InvokedAll(oams: seq<Candidate>, newParams: Option<seq<Arg>>): seq<Invocation>
    requires AllWellFormed(oams)
  {
    if |oams| == 0 then []
    else
      var prev := InvokedAll(oams[..|oams| - 1], newParams);
      var c := oams[|oams| - 1];
      if Converted(c, newParams).Some? then prev + [Invocation(c, newParams)] else prev
  }

  /**
   * Every validating candidate is invoked, and only those, each with the
   * arguments as given rather than as converted.
   */
  lemma {:induction false} InvokedAllSpec(oams: seq<Candidate>, newParams: Option<seq<Arg>>)
    requires AllWellFormed(oams)
    ensures var inv := InvokedAll(oams, newParams);
      && (forall k :: 0 <= k < |inv| ==>
            inv[k].args == newParams && inv[k].candidate in oams && Converted(inv[k].candidate, newParams).Some?)
      && (forall i :: 0 <= i < |oams| && Converted(oams[i], newParams).Some? ==> Invocation(oams[i], newParams) in inv)
      && |inv| <= |oams|
  {
    if |oams| > 0 {
      var k := |oams| - 1;
      var init := oams[..k];
      assert AllWellFormed(init) by {
        forall i | 0 <= i < |init| ensures WellFormed(init[i].sig) {
          assert init[i] == oams[i];
        }
      }
      InvokedAllSpec(init, newParams);
      var prev := InvokedAll(init, newParams);
      var inv := InvokedAll(oams, newParams);
      forall i | 0 <= i < |oams| && Converted(oams[i], newParams).Some? ensures Invocation(oams[i], newParams) in inv {
        if i < k {
          assert init[i] == oams[i];
        }
      }
      forall j | 0 <= j < |inv| ensures inv[j].candidate in oams {
        if j < |prev| {
          assert prev[j].candidate in init;
        }
      }
    }
  }

  /** attemptToInvokeAllMethods: invoke each validating candidate; NoMethod when none did. */
  method AttemptToInvokeAllMethods(oams: seq<Candidate>, newParams: Option<seq<Arg>>)
    returns (r: Result<seq<Invocation>, Failure>)
    requires AllWellFormed(oams)
    ensures var inv := InvokedAll(oams, newParams);
      r == if |inv| == 0 then Err(NoMethod) else Ok(inv)
  {
    var invoked: seq<Invocation> := [];
    var success := false;
    var i := 0;
    while i < |oams|
      invariant 0 <= i <= |oams|
      invariant AllWellFormed(oams[..i])
      invariant invoked == InvokedAll(oams[..i], newParams)
      invariant success <==> |invoked| > 0
    {
      assert oams[..i + 1][..i] == oams[..i];
      var finalParams := ParamUtils.ValidateInvocationAndConvertParams(oams[i].sig.params, oams[i].sig.isVarArgs, newParams);
      if finalParams.Some? {
        invoked := invoked + [Invocation(oams[i], newParams)];
        success := true;
      }
      i := i + 1;
    }
    assert oams[..|oams|] == oams;
    if !success {
      return Err(NoMethod);
    }
    r := Ok(invoked);
  }

  /** The outcome of findInvokeAllMethods: NoMethod when nothing is collected or nothing validates. */
  function FindAll(methodSig: string, objects: seq<TargetObject>, newParams: Option<seq<Arg>>): Result<seq<Invocation>, Failure>
    requires ObjectsWellFormed(objects)
  {
    PotentialMatchesWellFormed(methodSig, ArgCount(newParams), objects);
    var pm := PotentialMatches(methodSig, ArgCount(newParams), objects);
    if |pm| == 0 then Err(NoMethod)
    else
      var inv := InvokedAll(pm, newParams);
      if |inv| == 0 then Err(NoMethod) else Ok(inv)
  }

  /** findInvokeAllMethods: collect by name and argument count, then invoke every survivor. */
  method FindInvokeAllMethods(methodSig: string, objects: seq<TargetObject>, newParams: Option<seq<Arg>>)
    returns (r: Result<seq<Invocation>, Failure>)
    requires ObjectsWellFormed(objects)
    ensures r == FindAll(methodSig, objects, newParams)
  {
    var actualParamCount := if newParams.Some? then |newParams.value| else 0;
    var potentialMatches := GetPotentialMatchingMethods(methodSig, actualParamCount, objects);
    if potentialMatches.Err? || |potentialMatches.value| == 0 {
      return Err(NoMethod);
    }
    PotentialMatchesWellFormed(methodSig, actualParamCount, objects);
    r := AttemptToInvokeAllMethods(potentialMatches.value, newParams);
  }
}
