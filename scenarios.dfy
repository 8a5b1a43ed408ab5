/**
 * Client scenarios: what a caller of the Engine can conclude from the
 * contracts alone, for three small playbooks: a two-step chain, a step whose
 * precondition is never produced, and two independent branches gated on "start".
 */
module Scenarios {
  import opened Wrappers
  import opened Config
  import opened Scheduling
  import opened Execution

  /** One branch, a collector gated on "start" and a validator gated on what the collector produces. */
  method ChainScenario()
  {
    var collect := Step("data-collector", "start", "collect records", Pending);
    var validate := Step("data-validator", "data-collected", "validate records", Pending);
    var p := new Playbook("chain", [Branch("main", [collect, validate])]);
    var e := new Engine(p);

    var ready := e.GetNextExecutableSteps();
    assert ReadyAt(p.branches, e.conditions, StepLocation(0, 0));
    assert !ReadyAt(p.branches, e.conditions, StepLocation(0, 1));
    assert ready[0] == StepLocation(0, 0);

    var r := e.ExecuteStep(0, 0);
    assert r == Pass;
    assert p.branches[0].steps[0].status == Completed;
    assert e.IsConditionMet("data-collected");

    ready := e.GetNextExecutableSteps();
    assert ReadyAt(p.branches, e.conditions, StepLocation(0, 1));
    assert !ReadyAt(p.branches, e.conditions, StepLocation(0, 0));

    r := e.ExecuteStep(0, 1);
    assert r == Pass;
    var done := e.IsPlaybookComplete();
    assert ValidLoc(p.branches, 0, 0) && ValidLoc(p.branches, 0, 1);
    assert done;
  }

  /** Executing a step whose precondition has not been produced fails and changes nothing. */
  method BlockedScenario()
  {
    var p := new Playbook("blocked", [Branch("main", [Step("reporter", "data-validated", "report", Pending)])]);
    var e := new Engine(p);
    var r := e.ExecuteStep(0, 0);
    assert r == Fail(ConditionNotMet("data-validated"));
    assert p.branches[0].steps[0].status == Pending && e.conditions == map[];
  }

  /** Two independent branches gated on "start": both are ready, and running one leaves the other ready. */
  method IndependentScenario()
  {
    var p := new Playbook("parallel", [Branch("a", [Step("tracker", "start", "track", Pending)]),
                                       Branch("b", [Step("custom-agent", "start", "custom", Pending)])]);
    var e := new Engine(p);
    var ready := e.GetNextExecutableSteps();
    assert ReadyAt(p.branches, e.conditions, StepLocation(0, 0));
    assert ReadyAt(p.branches, e.conditions, StepLocation(1, 0));
    assert StepLocation(0, 0) in ready && StepLocation(1, 0) in ready;

    var custom := p.branches[1].steps[0];
    var r := e.ExecuteStep(1, 0);
    assert r == Pass;
    assert CompletionCondition(custom) == "custom-agent" + "-completed" == "custom-agent-completed";
    assert e.IsConditionMet("custom-agent-completed");
    ready := e.GetNextExecutableSteps();
    assert ReadyAt(p.branches, e.conditions, StepLocation(0, 0));
    assert StepLocation(0, 0) in ready;
  }
}
