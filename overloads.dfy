/** Overload resolution of Invoker: a scan over the members of the requested
    name that keeps the first overload of highest score. */
module Overloads {
  import opened Wrappers
  import opened Values

  /** An entry of the array returned by Type::GetMember. */
  datatype Member = Method(id: nat, parameters: seq<HostType>) | NonMethod(id: nat)

  /** SystemInterop::ConvertToType: the argument converted to the type, or null
      when it cannot be converted. */
  type Coercion = (HostValue, HostType) -> HostValue

  /** A supplied argument whose runtime type is exactly the declared type. */
  predicate Exact(arg: HostValue, t: HostType) {
    !arg.Null? && TypeOf(arg) == t
  }

  /** How many non-null arguments already have exactly their parameter's type. */
  function ExactCount(args: seq<HostValue>, params: seq<HostType>): (n: nat)
    requires |args| == |params|
    ensures n <= |args|
  {
    if args == [] then 0
    else ExactCount(args[..|args| - 1], params[..|params| - 1])
         + (if Exact(args[|args| - 1], params[|params| - 1]) then 1 else 0)
  }

  /** The overload survives the filter: it is a method, its parameter count is
      the argument count, and every non-null argument converts to its parameter
      type. Null arguments never discard an overload. */
  predicate Applicable(m: Member, supplied: seq<HostValue>, coerce: Coercion) {
    && m.Method?
    && |m.parameters| == |supplied|
    && forall p :: 0 <= p < |supplied| && !supplied[p].Null? ==> !coerce(supplied[p], m.parameters[p]).Null?
  }

  function Score(m: Member, supplied: seq<HostValue>): nat
    requires m.Method? && |m.parameters| == |supplied|
  {
    ExactCount(supplied, m.parameters)
  }

  /** The arguments an overload is called with: null stays null, every other
      argument is converted to its parameter's type. */
  function CoercedArguments(m: Member, supplied: seq<HostValue>, coerce: Coercion): (r: seq<HostValue>)
    requires m.Method? && |m.parameters| == |supplied|
    ensures |r| == |supplied|
    ensures forall p :: 0 <= p < |supplied| ==> (r[p].Null? <== supplied[p].Null?)
  {
    seq(|supplied|, p requires 0 <= p < |supplied| =>
      if supplied[p].Null? then HostValue.Null else coerce(supplied[p], m.parameters[p]))
  }

  /** An overload that survives with every argument of exactly its type. */
  predicate FullMatch(m: Member, supplied: seq<HostValue>, coerce: Coercion) {
    Applicable(m, supplied, coerce) && Score(m, supplied) == |supplied|
  }

  /** Member k survives, no surviving member scores more, and every surviving
      member declared before it scores strictly less. */
  predicate IsFirstBest(members: seq<Member>, supplied: seq<HostValue>, coerce: Coercion, k: nat) {
    && k < |members|
    && Applicable(members[k], supplied, coerce)
    && (forall j :: 0 <= j < |members| && Applicable(members[j], supplied, coerce) ==>
          Score(members[j], supplied) <= Score(members[k], supplied))
    && (forall j :: 0 <= j < k && Applicable(members[j], supplied, coerce) ==>
          Score(members[j], supplied) < Score(members[k], supplied))
  }

  /** The outcome of the scan: the overload found with its converted arguments,
      none found (bestMethod stays unset), or a member reached by the scan that
      is not a method, on which the cast to MethodInfo throws. */
  datatype Selection = Selected(index: nat, arguments: seq<HostValue>) | NoMatch | BadCast(index: nat)

  datatype Best = Best(index: nat, arguments: seq<HostValue>, score: nat)

  /** bestMethodMatchedArgs: -1 while no overload has been remembered. */
  function BestScore(best: Option<Best>): int {
    if best.None? then -1 else best.value.score
  }

  function Finish(best: Option<Best>): Selection {
    if best.None? then NoMatch else Selected(best.value.index, best.value.arguments)
  }

  /** The remembered overload after looking at surviving member i: member i
      replaces it exactly when it scores strictly more, so of two overloads
      with the same score the earlier one stays. */
  function Remember(members: seq<Member>, supplied: seq<HostValue>, coerce: Coercion, i: nat, best: Option<Best>): (r: Option<Best>)
    requires i < |members| && Applicable(members[i], supplied, coerce)
    ensures r.Some? && BestScore(r) >= BestScore(best) && BestScore(r) >= Score(members[i], supplied)
    ensures r != best <==> Score(members[i], supplied) > BestScore(best)
    ensures r != best ==>
      r.value.index == i && r.value.arguments == CoercedArguments(members[i], supplied, coerce)
  {
    var score := Score(members[i], supplied);
    if score > BestScore(best) then Some(Best(i, CoercedArguments(members[i], supplied, coerce), score)) else best
  }

  /** The loop of Invoker from member i on, `best` being what has been
      remembered so far. With `stopEarly` the scan ends at the first overload
      that matches every argument exactly, as Invoker's loop does; without it
      the scan always runs to the end. The cast fails on a non-method member
      at or after i; nothing is found only when nothing was remembered before
      i; what is selected is either what was remembered before i or a
      surviving member at or after i. */
  function Scan(members: seq<Member>, supplied: seq<HostValue>, coerce: Coercion,
                i: nat, best: Option<Best>, stopEarly: bool): (r: Selection)
    requires i <= |members|
    ensures r.BadCast? ==> i <= r.index < |members| && members[r.index].NonMethod?
    ensures r.NoMatch? ==> best.None?
    ensures r.Selected? ==>
      || (best.Some? && r.index == best.value.index && r.arguments == best.value.arguments)
      || (i <= r.index < |members| && Applicable(members[r.index], supplied, coerce))
    decreases |members| - i
  {
    if i == |members| then Finish(best)
    else if members[i].NonMethod? then BadCast(i)
    else if !Applicable(members[i], supplied, coerce) then Scan(members, supplied, coerce, i + 1, best, stopEarly)
    else
      var best' := Remember(members, supplied, coerce, i, best);
      if stopEarly && Score(members[i], supplied) == |supplied| then Finish(best')
      else Scan(members, supplied, coerce, i + 1, best', stopEarly)
  }

  /** The overload Invoker picks. When it selects one, that overload survives
      the filter, no surviving overload scores more and every surviving
      overload declared before it scores strictly less (the first-declared
      overload of maximal score), it is called with the converted arguments,
      and the scan reached it only through methods. It finds none only when
      every member is a method and none survives; the cast fails only on a
      non-method member that the scan reached before any full match. */
  function Resolve(members: seq<Member>, supplied: seq<HostValue>, coerce: Coercion): (r: Selection)
    ensures SelectionSpec(members, supplied, coerce, r, true)
  {
    ScanMeets(members, supplied, coerce, 0, None, true);
    Scan(members, supplied, coerce, 0, None, true)
  }

  /** What the scan keeps true after looking at members 0..i-1. */
  predicate ScanInvariant(members: seq<Member>, supplied: seq<HostValue>, coerce: Coercion,
                          i: nat, best: Option<Best>, stopEarly: bool)
    requires i <= |members|
  {
    && (forall j :: 0 <= j < i ==> members[j].Method?)
    && (stopEarly ==> forall j :: 0 <= j < i ==> !FullMatch(members[j], supplied, coerce))
    && (best.None? <==> forall j :: 0 <= j < i ==> !Applicable(members[j], supplied, coerce))
    && (best.Some? ==>
          var k := best.value.index;
          && k < i
          && Applicable(members[k], supplied, coerce)
          && best.value.score == Score(members[k], supplied)
          && best.value.arguments == CoercedArguments(members[k], supplied, coerce)
          && (forall j :: 0 <= j < i && Applicable(members[j], supplied, coerce) ==>
                Score(members[j], supplied) <= best.value.score)
          && (forall j :: 0 <= j < k && Applicable(members[j], supplied, coerce) ==>
                Score(members[j], supplied) < best.value.score))
  }

  /** The meaning of a scan result. */
  predicate SelectionSpec(members: seq<Member>, supplied: seq<HostValue>, coerce: Coercion,
                          r: Selection, stopEarly: bool)
  {
    && (r.Selected? ==>
          && IsFirstBest(members, supplied, coerce, r.index)
          && r.arguments == CoercedArguments(members[r.index], supplied, coerce)
          && (forall j :: 0 <= j < r.index ==> members[j].Method?)
          && ((stopEarly && FullMatch(members[r.index], supplied, coerce)) ||
              forall j :: 0 <= j < |members| ==> members[j].Method?))
    && (r.NoMatch? ==>
          forall j :: 0 <= j < |members| ==> members[j].Method? && !Applicable(members[j], supplied, coerce))
    && (r.BadCast? ==>
          && r.index < |members|
          && members[r.index].NonMethod?
          && (forall j :: 0 <= j < r.index ==> members[j].Method?)
          && (stopEarly ==> forall j :: 0 <= j < r.index ==> !FullMatch(members[j], supplied, coerce)))
  }

  lemma SkipKeeps(members: seq<Member>, supplied: seq<HostValue>, coerce: Coercion,
                  i: nat, best: Option<Best>, stopEarly: bool)
    requires i < |members| && members[i].Method? && !Applicable(members[i], supplied, coerce)
    requires ScanInvariant(members, supplied, coerce, i, best, stopEarly)
    ensures ScanInvariant(members, supplied, coerce, i + 1, best, stopEarly)
  {
  }

  lemma RememberKeeps(members: seq<Member>, supplied: seq<HostValue>, coerce: Coercion,
                      i: nat, best: Option<Best>, stopEarly: bool)
    requires i < |members| && Applicable(members[i], supplied, coerce)
    requires stopEarly ==> Score(members[i], supplied) < |supplied|
    requires ScanInvariant(members, supplied, coerce, i, best, stopEarly)
    ensures ScanInvariant(members, supplied, coerce, i + 1, Remember(members, supplied, coerce, i, best), stopEarly)
  {
    if Score(members[i], supplied) > BestScore(best) {
      ReplaceKeeps(members, supplied, coerce, i, best, stopEarly);
    } else {
      RetainKeeps(members, supplied, coerce, i, best, stopEarly);
    }
  }

  /** Member i scores more than what was remembered and replaces it. */
  lemma ReplaceKeeps(members: seq<Member>, supplied: seq<HostValue>, coerce: Coercion,
                     i: nat, best: Option<Best>, stopEarly: bool)
    requires i < |members| && Applicable(members[i], supplied, coerce)
    requires stopEarly ==> Score(members[i], supplied) < |supplied|
    requires Score(members[i], supplied) > BestScore(best)
    requires ScanInvariant(members, supplied, coerce, i, best, stopEarly)
    ensures ScanInvariant(members, supplied, coerce, i + 1, Remember(members, supplied, coerce, i, best), stopEarly)
  {
    var score := Score(members[i], supplied);
    forall j | 0 <= j < i + 1 && Applicable(members[j], supplied, coerce)
      ensures Score(members[j], supplied) <= score
    {
    }
  }

  /** Member i scores no more than what was remembered, which stays. */
  lemma RetainKeeps(members: seq<Member>, supplied: seq<HostValue>, coerce: Coercion,
                    i: nat, best: Option<Best>, stopEarly: bool)
    requires i < |members| && Applicable(members[i], supplied, coerce)
    requires stopEarly ==> Score(members[i], supplied) < |supplied|
    requires Score(members[i], supplied) <= BestScore(best)
    requires ScanInvariant(members, supplied, coerce, i, best, stopEarly)
    ensures ScanInvariant(members, supplied, coerce, i + 1, Remember(members, supplied, coerce, i, best), stopEarly)
  {
    assert Remember(members, supplied, coerce, i, best) == best;
  }

  lemma StopMeets(members: seq<Member>, supplied: seq<HostValue>, coerce: Coercion, i: nat, best: Option<Best>)
    requires i < |members| && FullMatch(members[i], supplied, coerce)
    requires ScanInvariant(members, supplied, coerce, i, best, true)
    ensures SelectionSpec(members, supplied, coerce, Finish(Remember(members, supplied, coerce, i, best)), true)
  {
    var score := Score(members[i], supplied);
    forall j | 0 <= j < |members| && Applicable(members[j], supplied, coerce)
      ensures Score(members[j], supplied) <= score
    {
    }
    assert BestScore(best) < score;
  }

  lemma EndMeets(members: seq<Member>, supplied: seq<HostValue>, coerce: Coercion, best: Option<Best>, stopEarly: bool)
    requires ScanInvariant(members, supplied, coerce, |members|, best, stopEarly)
    ensures SelectionSpec(members, supplied, coerce, Finish(best), stopEarly)
  {
  }

  lemma BadCastMeets(members: seq<Member>, supplied: seq<HostValue>, coerce: Coercion,
                     i: nat, best: Option<Best>, stopEarly: bool)
    requires i < |members| && members[i].NonMethod?
    requires ScanInvariant(members, supplied, coerce, i, best, stopEarly)
    ensures SelectionSpec(members, supplied, coerce, BadCast(i), stopEarly)
  {
  }

  lemma {:induction false} ScanMeets(members: seq<Member>, supplied: seq<HostValue>, coerce: Coercion,
                                     i: nat, best: Option<Best>, stopEarly: bool)
    requires i <= |members|
    requires ScanInvariant(members, supplied, coerce, i, best, stopEarly)
    ensures SelectionSpec(members, supplied, coerce, Scan(members, supplied, coerce, i, best, stopEarly), stopEarly)
    decreases |members| - i, 1
  {
    if i == |members| {
      EndMeets(members, supplied, coerce, best, stopEarly);
    } else if members[i].NonMethod? {
      BadCastMeets(members, supplied, coerce, i, best, stopEarly);
    } else if Applicable(members[i], supplied, coerce) && stopEarly && Score(members[i], supplied) == |supplied| {
      StopMeets(members, supplied, coerce, i, best);
    } else if Applicable(members[i], supplied, coerce) {
      PassMeets(members, supplied, coerce, i, best, stopEarly);
    } else {
      SkipMeets(members, supplied, coerce, i, best, stopEarly);
    }
  }

  /** A member the scan skips: a method that does not survive the filter. */
  lemma {:induction false} SkipMeets(members: seq<Member>, supplied: seq<HostValue>, coerce: Coercion,
                                     i: nat, best: Option<Best>, stopEarly: bool)
    requires i < |members| && members[i].Method? && !Applicable(members[i], supplied, coerce)
    requires ScanInvariant(members, supplied, coerce, i, best, stopEarly)
    ensures SelectionSpec(members, supplied, coerce, Scan(members, supplied, coerce, i, best, stopEarly), stopEarly)
    decreases |members| - i, 0
  {
    SkipKeeps(members, supplied, coerce, i, best, stopEarly);
    ScanMeets(members, supplied, coerce, i + 1, best, stopEarly);
    ScanSkips(members, supplied, coerce, i, best, stopEarly);
  }

  lemma ScanSkips(members: seq<Member>, supplied: seq<HostValue>, coerce: Coercion,
                  i: nat, best: Option<Best>, stopEarly: bool)
    requires i < |members| && members[i].Method? && !Applicable(members[i], supplied, coerce)
    requires SelectionSpec(members, supplied, coerce, Scan(members, supplied, coerce, i + 1, best, stopEarly), stopEarly)
    ensures SelectionSpec(members, supplied, coerce, Scan(members, supplied, coerce, i, best, stopEarly), stopEarly)
  {
  }

  /** A member the scan remembers and goes past without stopping. */
  lemma {:induction false} PassMeets(members: seq<Member>, supplied: seq<HostValue>, coerce: Coercion,
                                     i: nat, best: Option<Best>, stopEarly: bool)
    requires i < |members| && Applicable(members[i], supplied, coerce)
    requires !(stopEarly && Score(members[i], supplied) == |supplied|)
    requires ScanInvariant(members, supplied, coerce, i, best, stopEarly)
    ensures SelectionSpec(members, supplied, coerce, Scan(members, supplied, coerce, i, best, stopEarly), stopEarly)
    decreases |members| - i, 0
  {
    var best' := Remember(members, supplied, coerce, i, best);
    RememberKeeps(members, supplied, coerce, i, best, stopEarly);
    ScanMeets(members, supplied, coerce, i + 1, best', stopEarly);
    ScanPasses(members, supplied, coerce, i, best, stopEarly);
  }

  lemma ScanPasses(members: seq<Member>, supplied: seq<HostValue>, coerce: Coercion,
                   i: nat, best: Option<Best>, stopEarly: bool)
    requires i < |members| && Applicable(members[i], supplied, coerce)
    requires !(stopEarly && Score(members[i], supplied) == |supplied|)
    requires SelectionSpec(members, supplied, coerce,
               Scan(members, supplied, coerce, i + 1, Remember(members, supplied, coerce, i, best), stopEarly), stopEarly)
    ensures SelectionSpec(members, supplied, coerce, Scan(members, supplied, coerce, i, best, stopEarly), stopEarly)
  {
  }

  /** At most one member is the first-declared overload of maximal score. */
  lemma FirstBestUnique(members: seq<Member>, supplied: seq<HostValue>, coerce: Coercion, k1: nat, k2: nat)
    requires IsFirstBest(members, supplied, coerce, k1) && IsFirstBest(members, supplied, coerce, k2)
    ensures k1 == k2
  {
  }

  /** When every member is a method, stopping at the first full match selects
      the same overload, with the same arguments, as scanning them all. */
  lemma EarlyBreakIrrelevant(members: seq<Member>, supplied: seq<HostValue>, coerce: Coercion)
    requires forall j :: 0 <= j < |members| ==> members[j].Method?
    ensures Resolve(members, supplied, coerce) == Scan(members, supplied, coerce, 0, None, false)
  {
    var r1 := Resolve(members, supplied, coerce);
    var r2 := Scan(members, supplied, coerce, 0, None, false);
    ScanMeets(members, supplied, coerce, 0, None, false);
    if r1.Selected? && r2.Selected? {
      FirstBestUnique(members, supplied, coerce, r1.index, r2.index);
    }
  }

  /** Counting one more argument adds one exactly when it has its parameter's type. */
  lemma ExactCountStep(args: seq<HostValue>, params: seq<HostType>, p: nat)
    requires |args| == |params| && p < |args|
    ensures ExactCount(args[..p + 1], params[..p + 1]) ==
      ExactCount(args[..p], params[..p]) + (if Exact(args[p], params[p]) then 1 else 0)
  {
    assert args[..p + 1][..p] == args[..p] && params[..p + 1][..p] == params[..p];
  }

  /** The inner loop of Invoker for one overload whose parameter count is the
      argument count: the arguments array starts all null; each non-null
      argument is tallied when its runtime type equals the parameter type and
      is then converted; the first failed conversion ends the loop. */
  method MatchArguments(m: Member, supplied: seq<HostValue>, coerce: Coercion)
    returns (failed: bool, matchedArgs: int, arguments: seq<HostValue>)
    requires m.Method? && |m.parameters| == |supplied|
    ensures failed <==> !Applicable(m, supplied, coerce)
    ensures !failed ==> matchedArgs == Score(m, supplied) && arguments == CoercedArguments(m, supplied, coerce)
  {
    var parametersInfo := m.parameters;
    var matched := 0;
    var failures := 0;
    ghost var want := CoercedArguments(m, supplied, coerce);
    var args := new HostValue[|supplied|](_ => HostValue.Null);
    var p := 0;
    while p < |supplied|
      invariant 0 <= p <= |supplied| && failures == 0
      invariant matched == ExactCount(supplied[..p], parametersInfo[..p])
      invariant forall q :: 0 <= q < p && !supplied[q].Null? ==> !want[q].Null?
      invariant forall q :: 0 <= q < p ==> args[q] == want[q]
      invariant forall q :: p <= q < |supplied| ==> args[q] == HostValue.Null
    {
      ExactCountStep(supplied, parametersInfo, p);
      if !supplied[p].Null? {
        if TypeOf(supplied[p]) == parametersInfo[p] {
          matched := matched + 1;
        }
        var arg := coerce(supplied[p], parametersInfo[p]);
        assert arg == want[p];
        if arg.Null? {
          failures := failures + 1;
          break;
        }
        args[p] := arg;
      }
      p := p + 1;
    }
    failed := failures > 0;
    matchedArgs := matched;
    arguments := args[..];
    if !failed {
      assert supplied[..p] == supplied && parametersInfo[..p] == parametersInfo;
      assert arguments == CoercedArguments(m, supplied, coerce);
    }
  }

  /** Invoker's outer loop: members in declaration order; an overload whose
      parameter count differs from the argument count is skipped, and so is
      one on which MatchArguments fails; a surviving overload replaces the
      remembered one only on a strictly greater tally; the scan stops at a
      tally equal to the argument count. */
  method FindBestMethod(members: seq<Member>, supplied: seq<HostValue>, coerce: Coercion) returns (r: Selection)
    ensures r == Resolve(members, supplied, coerce)
  {
    var bestMethod: Option<nat> := None;
    var bestMethodArguments: seq<HostValue> := [];
    var bestMethodMatchedArgs: int := -1;
    ghost var best: Option<Best> := None;
    var i := 0;
    while i < |members|
      invariant 0 <= i <= |members|
      invariant best.None? <==> bestMethod.None?
      invariant BestScore(best) == bestMethodMatchedArgs
      invariant best.Some? ==> best.value.index == bestMethod.value && best.value.arguments == bestMethodArguments
      invariant Scan(members, supplied, coerce, i, best, true) == Resolve(members, supplied, coerce)
    {
      if members[i].NonMethod? {
        return BadCast(i);
      }
      if |supplied| == |members[i].parameters| {
        var failed, matchedArgs, arguments := MatchArguments(members[i], supplied, coerce);
        if !failed {
          if matchedArgs > bestMethodMatchedArgs {
            bestMethod := Some(i);
            bestMethodArguments := arguments;
            bestMethodMatchedArgs := matchedArgs;
            best := Some(Best(i, arguments, matchedArgs));
          }
          if matchedArgs == |arguments| {
            break;
          }
        }
      }
      i := i + 1;
    }
    r := if bestMethod.None? then NoMatch else Selected(bestMethod.value, bestMethodArguments);
  }
}
