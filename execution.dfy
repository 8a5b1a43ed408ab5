/**
 * The Engine of engine.go: it holds the shared playbook and the condition
 * map, and it is driven one step at a time. Each method is proved against the
 * value-level definitions of module Scheduling.
 */
module Execution {
  import opened Wrappers
  import opened Config
  import opened Scheduling

  /** The error `executeStep` returns when the step's precondition does not hold. */
  datatype EngineError = ConditionNotMet(condition: string)

  const ConditionNotMetPrefix: string := "condition not met: "

  /** The text of the error, as `err.Error()` renders it: the fixed prefix, then the condition name. */
  function ErrorMessage(e: EngineError): (r: string)
    ensures |r| == |ConditionNotMetPrefix| + |e.condition|
    ensures r[..|ConditionNotMetPrefix|] == ConditionNotMetPrefix
    ensures r[|ConditionNotMetPrefix|..] == e.condition
  {
    ConditionNotMetPrefix + e.condition
  }

  /** The message names the unmet condition unambiguously: different conditions give different messages. */
  lemma ErrorMessageInjective(x: EngineError, y: EngineError)
    requires ErrorMessage(x) == ErrorMessage(y)
    ensures x == y
  {
    assert x.condition == ErrorMessage(x)[|ConditionNotMetPrefix|..];
  }

  class Engine {
    const playbook: Playbook
    var conditions: map<string, bool>

    /** `newEngine`: the playbook is shared, not copied; no condition is stored yet. */
    constructor (playbook: Playbook)
      ensures this.playbook == playbook
      ensures conditions == map[]
    {
      this.playbook := playbook;
      conditions := map[];
    }

    /** `isConditionMet` on the current condition map. */
    function IsConditionMet(condition: string): (met: bool)
      reads this
      ensures condition == StartCondition ==> met
      ensures condition != StartCondition ==> (met <==> condition in conditions && conditions[condition])
      ensures met == ConditionMet(conditions, condition)
    {
      ConditionMet(conditions, condition)
    }

    /** `setCondition`: overwrite one entry; every other entry is untouched. */
    method SetCondition(condition: string, value: bool)
      modifies this
      ensures condition in conditions && conditions[condition] == value
      ensures forall c :: c != condition ==>
                (c in conditions <==> c in old(conditions)) &&
                (c in conditions ==> conditions[c] == old(conditions)[c])
      ensures conditions == old(conditions)[condition := value]
    {
      conditions := conditions[condition := value];
    }

    /**
     * `executeStep`: re-check the precondition; on failure report it and change
     * nothing; otherwise mark the step Running, then Completed, and set the
     * condition it produces. The Pending status is deliberately not checked.
     */
    method ExecuteStep(branchIdx: int, stepIdx: int) returns (result: Outcome<EngineError>)
      requires ValidLoc(playbook.branches, branchIdx, stepIdx)
      modifies this, playbook
      ensures playbook.name == old(playbook.name)
      ensures var step := old(playbook.branches)[branchIdx].steps[stepIdx];
              if ConditionMet(old(conditions), step.condition) then
                && result == Pass
                && playbook.branches == WithStatus(old(playbook.branches), branchIdx, stepIdx, Completed)
                && conditions == old(conditions)[CompletionCondition(step) := true]
              else
                && result == Fail(ConditionNotMet(step.condition))
                && playbook.branches == old(playbook.branches)
                && conditions == old(conditions)
    {
      var step := playbook.branches[branchIdx].steps[stepIdx];
      if !IsConditionMet(step.condition) {
        return Fail(ConditionNotMet(step.condition));
      }
      playbook.branches := WithStatus(playbook.branches, branchIdx, stepIdx, Running);
      // the simulated work (a fixed sleep) sits here and changes nothing
      playbook.branches := WithStatus(playbook.branches, branchIdx, stepIdx, Completed);
      WithStatusOverwrite(old(playbook.branches), branchIdx, stepIdx, Running, Completed);
      SetCondition(CompletionCondition(step), true);
      return Pass;
    }

    /**
     * `getNextExecutableSteps`: the locations whose step is Pending with its
     * precondition met, in branch-then-step order, each exactly once.
     */
    method GetNextExecutableSteps() returns (steps: seq<StepLocation>)
      ensures steps == ReadyLocations(playbook.branches, conditions)
      ensures forall loc :: loc in steps <==> ReadyAt(playbook.branches, conditions, loc)
      ensures StrictlyIncreasing(steps)
    {
      var branches := playbook.branches;
      steps := [];
      for branchIdx := 0 to |branches|
        invariant steps == ReadyBefore(branches, conditions, branchIdx)
      {
        var branch := branches[branchIdx];
        for stepIdx := 0 to |branch.steps|
          invariant steps == ReadyBefore(branches, conditions, branchIdx)
                             + ReadyInBranch(branches, conditions, branchIdx, stepIdx)
        {
          var step := branch.steps[stepIdx];
          if step.status == Pending && IsConditionMet(step.condition) {
            steps := steps + [StepLocation(branchIdx, stepIdx)];
          }
        }
      }
      ReadyLocationsSpec(branches, conditions);
    }

    /** `isPlaybookComplete`: true exactly when every step is Completed. */
    method IsPlaybookComplete() returns (complete: bool)
      ensures complete <==> AllCompleted(playbook.branches)
    {
      var branches := playbook.branches;
      for b := 0 to |branches|
        invariant forall b', s :: 0 <= b' < b && 0 <= s < |branches[b'].steps| ==>
                    branches[b'].steps[s].status == Completed
      {
        for s := 0 to |branches[b].steps|
          invariant forall s' :: 0 <= s' < s ==> branches[b].steps[s'].status == Completed
        {
          if branches[b].steps[s].status != Completed {
            return false;
          }
        }
      }
      return true;
    }
  }
}
