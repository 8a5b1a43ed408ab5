/**
 * The pure part of engine.go, stated on values: condition lookup, the
 * agent-to-condition table, readiness and the scan order, and completion.
 * The Engine class in module Execution is proved against these definitions.
 */
module Scheduling {
  import opened Config

  /** A step's coordinates: branch index, then step index. */
  datatype StepLocation = StepLocation(branchIndex: nat, stepIndex: nat)

  /** The built-in condition that holds from the outset and is never stored. */
  const StartCondition: string := "start"

  /** The suffix given to the produced condition of an agent outside the table. */
  const CompletedSuffix: string := "-completed"

  /** `isConditionMet`: "start" always holds; other names hold when stored as true. */
  function ConditionMet(conditions: map<string, bool>, condition: string): (met: bool)
    ensures condition == StartCondition ==> met
    ensures condition != StartCondition ==> (met <==> condition in conditions && conditions[condition])
    ensures condition != StartCondition && condition !in conditions ==> !met
  {
    if condition == StartCondition then true
    // Go's map lookup yields the zero value, false, for a missing key
    else if condition in conditions then conditions[condition]
    else false
  }

  /** The five agents with a hand-assigned produced condition. */
  predicate IsKnownAgent(agent: string)
  {
    agent in {"data-collector", "data-validator", "email-sender", "tracker", "reporter"}
  }

  /** `getCompletionCondition`: the condition a step sets when it completes. */
  function CompletionCondition(step: Step): (r: string)
    ensures step.agent == "data-collector" ==> r == "data-collected"
    ensures step.agent == "data-validator" ==> r == "data-validated"
    ensures step.agent == "email-sender" ==> r == "email-sent"
    ensures step.agent == "tracker" ==> r == "tracking-active"
    ensures step.agent == "reporter" ==> r == "report-generated"
    ensures !IsKnownAgent(step.agent) ==> r == step.agent + CompletedSuffix
  {
    match step.agent
    case "data-collector" => "data-collected"
    case "data-validator" => "data-validated"
    case "email-sender" => "email-sent"
    case "tracker" => "tracking-active"
    case "reporter" => "report-generated"
    case _ => step.agent + CompletedSuffix
  }

  /** No step can produce the built-in "start" condition. */
  lemma CompletionConditionIsNotStart(step: Step)
    ensures CompletionCondition(step) != StartCondition
  {
  }

  lemma SuffixOf(x: string, y: string)
    ensures (x + y)[|x|..] == y
    ensures (x + y)[..|x|] == x
  {
  }

  /** No name of the fixed table ends in "-completed". */
  lemma KnownConditionLacksSuffix(step: Step)
    requires IsKnownAgent(step.agent)
    ensures var c := CompletionCondition(step);
            |c| < |CompletedSuffix| || c[|c| - |CompletedSuffix|..] != CompletedSuffix
  {
  }

  /**
   * Agents determine produced conditions one-to-one: two steps with different
   * agents never unblock the same condition.
   */
  lemma CompletionConditionInjective(x: Step, y: Step)
    requires CompletionCondition(x) == CompletionCondition(y)
    ensures x.agent == y.agent
  {
    var c := CompletionCondition(x);
    if IsKnownAgent(x.agent) && IsKnownAgent(y.agent) {
    } else if IsKnownAgent(x.agent) {
      KnownConditionLacksSuffix(x);
      SuffixOf(y.agent, CompletedSuffix);
    } else if IsKnownAgent(y.agent) {
      KnownConditionLacksSuffix(y);
      SuffixOf(x.agent, CompletedSuffix);
    } else {
      SuffixOf(x.agent, CompletedSuffix);
      SuffixOf(y.agent, CompletedSuffix);
      assert |x.agent| == |y.agent|;
      assert x.agent == c[..|x.agent|] == y.agent;
    }
  }

  /** The step at `loc` exists, is Pending and its precondition holds. */
  predicate ReadyAt(bs: seq<Branch>, conditions: map<string, bool>, loc: StepLocation)
  {
    && ValidLoc(bs, loc.branchIndex, loc.stepIndex)
    && bs[loc.branchIndex].steps[loc.stepIndex].status == Pending
    && ConditionMet(conditions, bs[loc.branchIndex].steps[loc.stepIndex].condition)
  }

  /** The ready locations among the first `n` steps of branch `b`, in step order. */
  function ReadyInBranch(bs: seq<Branch>, conditions: map<string, bool>, b: nat, n: nat): seq<StepLocation>
    requires b < |bs| && n <= |bs[b].steps|
  {
    if n == 0 then []
    else
      var loc := StepLocation(b, n - 1);
      ReadyInBranch(bs, conditions, b, n - 1) + (if ReadyAt(bs, conditions, loc) then [loc] else [])
  }

  /** The ready locations of the first `m` branches, in branch-then-step order. */
  function ReadyBefore(bs: seq<Branch>, conditions: map<string, bool>, m: nat): seq<StepLocation>
    requires m <= |bs|
  {
    if m == 0 then []
    else ReadyBefore(bs, conditions, m - 1) + ReadyInBranch(bs, conditions, m - 1, |bs[m - 1].steps|)
  }

  /** What `getNextExecutableSteps` returns for the given statuses and conditions. */
  function ReadyLocations(bs: seq<Branch>, conditions: map<string, bool>): seq<StepLocation>
  {
    ReadyBefore(bs, conditions, |bs|)
  }

  /** Scan order: by branch, then by step within a branch. */
  predicate Before(x: StepLocation, y: StepLocation)
  {
    x.branchIndex < y.branchIndex || (x.branchIndex == y.branchIndex && x.stepIndex < y.stepIndex)
  }

  ghost predicate StrictlyIncreasing(locs: seq<StepLocation>)
  {
    forall i, j :: 0 <= i < j < |locs| ==> Before(locs[i], locs[j])
  }

  lemma ConcatIncreasing(xs: seq<StepLocation>, ys: seq<StepLocation>)
    requires StrictlyIncreasing(xs) && StrictlyIncreasing(ys)
    requires forall x, y :: x in xs && y in ys ==> Before(x, y)
    ensures StrictlyIncreasing(xs + ys)
  {
  }

  lemma {:induction false} ReadyInBranchSpec(bs: seq<Branch>, conditions: map<string, bool>, b: nat, n: nat)
    requires b < |bs| && n <= |bs[b].steps|
    ensures forall loc :: loc in ReadyInBranch(bs, conditions, b, n) <==>
              loc.branchIndex == b && loc.stepIndex < n && ReadyAt(bs, conditions, loc)
    ensures StrictlyIncreasing(ReadyInBranch(bs, conditions, b, n))
  {
    if n > 0 {
      ReadyInBranchSpec(bs, conditions, b, n - 1);
      var loc := StepLocation(b, n - 1);
      var tail := if ReadyAt(bs, conditions, loc) then [loc] else [];
      ConcatIncreasing(ReadyInBranch(bs, conditions, b, n - 1), tail);
    }
  }

  lemma {:induction false} ReadyBeforeSpec(bs: seq<Branch>, conditions: map<string, bool>, m: nat)
    requires m <= |bs|
    ensures forall loc :: loc in ReadyBefore(bs, conditions, m) <==>
              loc.branchIndex < m && ReadyAt(bs, conditions, loc)
    ensures StrictlyIncreasing(ReadyBefore(bs, conditions, m))
  {
    if m > 0 {
      ReadyBeforeSpec(bs, conditions, m - 1);
      ReadyInBranchSpec(bs, conditions, m - 1, |bs[m - 1].steps|);
      ConcatIncreasing(ReadyBefore(bs, conditions, m - 1), ReadyInBranch(bs, conditions, m - 1, |bs[m - 1].steps|));
    }
  }

  /**
   * The scan returns exactly the ready locations, each once, strictly
   * increasing in branch-then-step order.
   */
  lemma ReadyLocationsSpec(bs: seq<Branch>, conditions: map<string, bool>)
    ensures forall loc :: loc in ReadyLocations(bs, conditions) <==> ReadyAt(bs, conditions, loc)
    ensures StrictlyIncreasing(ReadyLocations(bs, conditions))
    ensures forall i, j :: 0 <= i < j < |ReadyLocations(bs, conditions)| ==>
              ReadyLocations(bs, conditions)[i] != ReadyLocations(bs, conditions)[j]
  {
    ReadyBeforeSpec(bs, conditions, |bs|);
  }

  /** `isPlaybookComplete`: every step of every branch is Completed. */
  ghost predicate AllCompleted(bs: seq<Branch>)
  {
    forall b, s :: ValidLoc(bs, b, s) ==> bs[b].steps[s].status == Completed
  }

  /** A complete playbook has nothing left to run, whatever the conditions. */
  lemma CompleteHasNothingReady(bs: seq<Branch>, conditions: map<string, bool>)
    requires AllCompleted(bs)
    ensures ReadyLocations(bs, conditions) == []
  {
    CompleteHasNothingReadyBefore(bs, conditions, |bs|);
  }

  lemma {:induction false} CompleteHasNothingReadyBefore(bs: seq<Branch>, conditions: map<string, bool>, m: nat)
    requires AllCompleted(bs) && m <= |bs|
    ensures ReadyBefore(bs, conditions, m) == []
  {
    if m > 0 {
      CompleteHasNothingReadyBefore(bs, conditions, m - 1);
      CompleteHasNothingReadyInBranch(bs, conditions, m - 1, |bs[m - 1].steps|);
    }
  }

  lemma {:induction false} CompleteHasNothingReadyInBranch(bs: seq<Branch>, conditions: map<string, bool>, b: nat, n: nat)
    requires AllCompleted(bs) && b < |bs| && n <= |bs[b].steps|
    ensures ReadyInBranch(bs, conditions, b, n) == []
  {
    if n > 0 {
      CompleteHasNothingReadyInBranch(bs, conditions, b, n - 1);
      assert ValidLoc(bs, b, n - 1);
    }
  }

  /** The number of steps of a branch that are not Completed. */
  function UnfinishedSteps(steps: seq<Step>): nat
  {
    if steps == [] then 0
    else (if steps[0].status != Completed then 1 else 0) + UnfinishedSteps(steps[1..])
  }

  /** The number of steps of the playbook that are not Completed. */
  function Unfinished(bs: seq<Branch>): nat
  {
    if bs == [] then 0 else UnfinishedSteps(bs[0].steps) + Unfinished(bs[1..])
  }

  lemma {:induction false} UnfinishedStepsZero(steps: seq<Step>)
    ensures UnfinishedSteps(steps) == 0 <==> forall s :: 0 <= s < |steps| ==> steps[s].status == Completed
  {
    if steps != [] {
      UnfinishedStepsZero(steps[1..]);
      assert forall s :: 1 <= s < |steps| ==> steps[s] == steps[1..][s - 1];
    }
  }

  /** Complete means that no step is left unfinished. */
  lemma {:induction false} CompleteIffNoneUnfinished(bs: seq<Branch>)
    ensures AllCompleted(bs) <==> Unfinished(bs) == 0
  {
    if bs != [] {
      CompleteIffNoneUnfinished(bs[1..]);
      UnfinishedStepsZero(bs[0].steps);
      if AllCompleted(bs) {
        forall b, s | ValidLoc(bs[1..], b, s)
          ensures bs[1..][b].steps[s].status == Completed
        {
          assert ValidLoc(bs, b + 1, s);
        }
        forall s | 0 <= s < |bs[0].steps|
          ensures bs[0].steps[s].status == Completed
        {
          assert ValidLoc(bs, 0, s);
        }
      }
      if Unfinished(bs) == 0 {
        forall b, s | ValidLoc(bs, b, s)
          ensures bs[b].steps[s].status == Completed
        {
          if b > 0 {
            assert ValidLoc(bs[1..], b - 1, s);
          }
        }
      }
    }
  }

  lemma {:induction false} UnfinishedStepsUpdate(steps: seq<Step>, s: nat, x: Step)
    requires s < |steps|
    ensures UnfinishedSteps(steps[s := x]) + (if steps[s].status != Completed then 1 else 0)
         == UnfinishedSteps(steps) + (if x.status != Completed then 1 else 0)
  {
    if s == 0 {
      assert steps[s := x][1..] == steps[1..];
    } else {
      assert steps[s := x][1..] == steps[1..][s - 1 := x];
      UnfinishedStepsUpdate(steps[1..], s - 1, x);
    }
  }

  lemma {:induction false} UnfinishedUpdate(bs: seq<Branch>, b: nat, x: Branch)
    requires b < |bs|
    ensures Unfinished(bs[b := x]) + UnfinishedSteps(bs[b].steps) == Unfinished(bs) + UnfinishedSteps(x.steps)
  {
    if b == 0 {
      assert bs[b := x][1..] == bs[1..];
    } else {
      assert bs[b := x][1..] == bs[1..][b - 1 := x];
      UnfinishedUpdate(bs[1..], b - 1, x);
    }
  }

  /**
   * Completing a step that was not yet Completed leaves exactly one fewer
   * unfinished step: the driver can succeed at most `Unfinished(bs)` times.
   */
  lemma CompletingDecreasesUnfinished(bs: seq<Branch>, b: nat, s: nat)
    requires ValidLoc(bs, b, s) && bs[b].steps[s].status != Completed
    ensures Unfinished(WithStatus(bs, b, s, Completed)) == Unfinished(bs) - 1
  {
    var step := bs[b].steps[s];
    var newSteps := bs[b].steps[s := step.(status := Completed)];
    UnfinishedStepsUpdate(bs[b].steps, s, step.(status := Completed));
    UnfinishedUpdate(bs, b, bs[b].(steps := newSteps));
  }

  /**
   * The driver's policy, executing the first ready location, always finishes
   * one more step: a run of driver steps ends after at most `Unfinished(bs)`.
   */
  lemma FirstReadyDecreasesUnfinished(bs: seq<Branch>, conditions: map<string, bool>)
    requires ReadyLocations(bs, conditions) != []
    ensures var loc := ReadyLocations(bs, conditions)[0];
            && ValidLoc(bs, loc.branchIndex, loc.stepIndex)
            && Unfinished(WithStatus(bs, loc.branchIndex, loc.stepIndex, Completed)) == Unfinished(bs) - 1
  {
    ReadyLocationsSpec(bs, conditions);
    var loc := ReadyLocations(bs, conditions)[0];
    assert loc in ReadyLocations(bs, conditions);
    CompletingDecreasesUnfinished(bs, loc.branchIndex, loc.stepIndex);
  }

  /**
   * After `(b, s)` completes and sets its produced condition, the ready steps
   * are exactly those that were ready before, other than `(b, s)`, together
   * with the Pending steps that waited for the produced condition.
   */
  lemma ReadyAfterCompletion(bs: seq<Branch>, conditions: map<string, bool>, b: nat, s: nat, loc: StepLocation)
    requires ValidLoc(bs, b, s)
    ensures var produced := CompletionCondition(bs[b].steps[s]);
            (ReadyAt(WithStatus(bs, b, s, Completed), conditions[produced := true], loc)
             <==> && loc != StepLocation(b, s)
                  && ValidLoc(bs, loc.branchIndex, loc.stepIndex)
                  && bs[loc.branchIndex].steps[loc.stepIndex].status == Pending
                  && (|| ConditionMet(conditions, bs[loc.branchIndex].steps[loc.stepIndex].condition)
                      || bs[loc.branchIndex].steps[loc.stepIndex].condition == produced))
  {
  }

  /** Conditions, once met, stay met: everything met under `c` is met under `c'`. */
  ghost predicate Stronger(c: map<string, bool>, c': map<string, bool>)
  {
    forall name :: ConditionMet(c, name) ==> ConditionMet(c', name)
  }

  /** Setting a condition to true, the only write the engine performs, never unsets one. */
  lemma SetTrueIsStronger(c: map<string, bool>, name: string)
    ensures Stronger(c, c[name := true])
    ensures ConditionMet(c[name := true], name)
  {
  }
}
