/**
 * The playbook data model of config.go: step statuses, steps, branches and
 * the playbook itself, with the normalisation pass that runs after loading.
 */
module Config {

  /** Go's `type StepStatus int`: any integer is a status; four are named. */
  newtype StepStatus = int

  const Pending: StepStatus := 0
  const Running: StepStatus := 1
  const Completed: StepStatus := 2
  const Failed: StepStatus := 3

  /** The four named status values. */
  predicate IsDefined(s: StepStatus)
  {
    s == Pending || s == Running || s == Completed || s == Failed
  }

  /** `StepStatus.String()`: the lower-case name, "unknown" for every other value. */
  function StatusString(s: StepStatus): (r: string)
    ensures r == "unknown" <==> !IsDefined(s)
    ensures s == Pending ==> r == "pending"
    ensures s == Running ==> r == "running"
    ensures s == Completed ==> r == "completed"
    ensures s == Failed ==> r == "failed"
  {
    if s == Pending then "pending"
    else if s == Running then "running"
    else if s == Completed then "completed"
    else if s == Failed then "failed"
    else "unknown"
  }

  /** Distinct named statuses render differently. */
  lemma StatusStringInjective(s: StepStatus, t: StepStatus)
    requires IsDefined(s) && IsDefined(t)
    requires StatusString(s) == StatusString(t)
    ensures s == t
  {
  }

  /** One step of a branch; `status` is the only part that changes while running. */
  datatype Step = Step(agent: string, condition: string, action: string, status: StepStatus)

  /** A named, ordered group of steps. */
  datatype Branch = Branch(name: string, steps: seq<Step>)

  /** The configured part of a step: everything but its status. */
  predicate SameConfig(x: Step, y: Step)
  {
    x.agent == y.agent && x.condition == y.condition && x.action == y.action
  }

  /** `(b, s)` addresses an existing step of `bs`. */
  predicate ValidLoc(bs: seq<Branch>, b: int, s: int)
  {
    0 <= b < |bs| && 0 <= s < |bs[b].steps|
  }

  /**
   * `r` has the branches, branch names, step counts and step configuration of
   * `bs`; only statuses may differ.
   */
  ghost predicate SameShape(bs: seq<Branch>, r: seq<Branch>)
  {
    && |r| == |bs|
    && (forall b :: 0 <= b < |bs| ==> r[b].name == bs[b].name && |r[b].steps| == |bs[b].steps|)
    && (forall b, s :: ValidLoc(bs, b, s) ==> |r[b].steps| == |bs[b].steps| && SameConfig(r[b].steps[s], bs[b].steps[s]))
  }

  /** Every step of every branch is Pending. */
  ghost predicate AllPending(bs: seq<Branch>)
  {
    forall b, s :: ValidLoc(bs, b, s) ==> bs[b].steps[s].status == Pending
  }

  /** The single write `Branches[b].Steps[s].Status = st`, on the value of the branches. */
  function WithStatus(bs: seq<Branch>, b: int, s: int, st: StepStatus): (r: seq<Branch>)
    requires ValidLoc(bs, b, s)
    ensures SameShape(bs, r)
    ensures r[b].steps[s].status == st
    ensures forall b', s' :: ValidLoc(bs, b', s') && (b' != b || s' != s) ==>
              r[b'].steps[s'] == bs[b'].steps[s']
  {
    bs[b := bs[b].(steps := bs[b].steps[s := bs[b].steps[s].(status := st)])]
  }

  /** A second status write to the same step replaces the first. */
  lemma WithStatusOverwrite(bs: seq<Branch>, b: int, s: int, first: StepStatus, second: StepStatus)
    requires ValidLoc(bs, b, s)
    ensures WithStatus(WithStatus(bs, b, s, first), b, s, second) == WithStatus(bs, b, s, second)
  {
    var once := WithStatus(bs, b, s, first);
    assert once[b].steps[s := once[b].steps[s].(status := second)] == bs[b].steps[s := bs[b].steps[s].(status := second)];
  }

  /** The branches with every status forced to Pending. */
  function Normalized(bs: seq<Branch>): (r: seq<Branch>)
    ensures SameShape(bs, r)
    ensures AllPending(r)
  {
    seq(|bs|, b requires 0 <= b < |bs| =>
      bs[b].(steps := seq(|bs[b].steps|, s requires 0 <= s < |bs[b].steps| =>
        bs[b].steps[s].(status := Pending))))
  }

  /**
   * The two properties of Normalized determine it: any branches that keep the
   * shape of `bs` and are all Pending are exactly `Normalized(bs)`.
   */
  lemma NormalizedUnique(bs: seq<Branch>, r: seq<Branch>)
    requires SameShape(bs, r) && AllPending(r)
    ensures r == Normalized(bs)
  {
    var n := Normalized(bs);
    forall b | 0 <= b < |bs|
      ensures r[b] == n[b]
    {
      forall s | 0 <= s < |bs[b].steps|
        ensures r[b].steps[s] == n[b].steps[s]
      {
        assert ValidLoc(bs, b, s);
        assert ValidLoc(r, b, s);
      }
      assert r[b].steps == n[b].steps;
    }
  }

  /** The loaded playbook; the engine and the user interface share one object. */
  class Playbook {
    var name: string
    var branches: seq<Branch>

    constructor (name: string, branches: seq<Branch>)
      ensures this.name == name && this.branches == branches
    {
      this.name := name;
      this.branches := branches;
    }
  }

  /**
   * The loop in `loadPlaybook` that runs after the document has been decoded:
   * it overwrites the status of every step with Pending, whatever the input held.
   */
  method NormalizeStatuses(p: Playbook)
    modifies p
    ensures p.name == old(p.name)
    ensures p.branches == Normalized(old(p.branches))
    ensures AllPending(p.branches) && SameShape(old(p.branches), p.branches)
  {
    ghost var original := p.branches;
    ghost var target := Normalized(original);
    for i := 0 to |p.branches|
      invariant p.name == old(p.name)
      invariant |p.branches| == |original|
      invariant forall b :: 0 <= b < i ==> p.branches[b] == target[b]
      invariant forall b :: i <= b < |original| ==> p.branches[b] == original[b]
    {
      ghost var before := p.branches;
      for j := 0 to |p.branches[i].steps|
        invariant p.name == old(p.name)
        invariant |p.branches| == |original|
        invariant forall b :: 0 <= b < |original| && b != i ==> p.branches[b] == before[b]
        invariant p.branches[i].name == original[i].name
        invariant |p.branches[i].steps| == |original[i].steps|
        invariant forall s :: 0 <= s < j ==> p.branches[i].steps[s] == target[i].steps[s]
        invariant forall s :: j <= s < |original[i].steps| ==> p.branches[i].steps[s] == original[i].steps[s]
      {
        p.branches := WithStatus(p.branches, i, j, Pending);
      }
      assert p.branches[i].steps == target[i].steps;
    }
    assert p.branches == target;
  }
}
