/**
 * The real logic of ui.go: the bounded activity log, the window of recent
 * entries the view shows, the status icons, and the driver that runs one
 * ready step per message. Rendering, styles and the event loop are not modelled.
 */
module Ui {
  import opened Wrappers
  import opened Config
  import opened Scheduling
  import opened Execution

  /** The number of log entries the model keeps. */
  const MaxLogs: nat := 20

  /** The number of most recent entries the view shows. */
  const WindowSize: nat := 5

  function Min(x: int, y: int): int
  {
    if x <= y then x else y
  }

  /**
   * `addLog` on the value of the buffer: the message is appended, and the
   * oldest entry is dropped once the buffer holds more than MaxLogs entries.
   */
  function Appended(logs: seq<string>, message: string): (r: seq<string>)
    ensures |r| > 0 && r[|r| - 1] == message
    ensures |logs| < MaxLogs ==> r == logs + [message]
    ensures |logs| >= MaxLogs ==> r == logs[1..] + [message]
    ensures |logs| <= MaxLogs ==> |r| <= MaxLogs
  {
    var grown := logs + [message];
    if |grown| > MaxLogs then grown[1..] else grown
  }

  /** The buffer after logging `messages`, in order, from an empty one. */
  function Replay(messages: seq<string>): seq<string>
  {
    if messages == [] then []
    else Appended(Replay(messages[..|messages| - 1]), messages[|messages| - 1])
  }

  /** However many messages are logged, the buffer holds exactly the latest MaxLogs of them, in order. */
  lemma {:induction false} ReplayKeepsLatest(messages: seq<string>)
    ensures Replay(messages) == messages[|messages| - Min(|messages|, MaxLogs)..]
  {
    if messages != [] {
      var init := messages[..|messages| - 1];
      var last := messages[|messages| - 1];
      ReplayKeepsLatest(init);
      var k := |init| - Min(|init|, MaxLogs);
      assert messages == init + [last];
      if |init| < MaxLogs {
        assert init[k..] + [last] == messages;
      } else {
        assert init[k..][1..] + [last] == messages[k + 1..];
      }
    }
  }

  /** One line of the "Recent Activity" section. */
  function Bullet(entry: string): string
  {
    "• " + entry + "\n"
  }

  const ActivityHeader: string := "## Recent Activity\n"

  /** `getStatusIcon`: every status other than Completed, Running and Failed, Pending included, shows "○". */
  function StatusIcon(status: StepStatus): (icon: string)
    ensures status == Completed ==> icon == "✓"
    ensures status == Running ==> icon == "⟳"
    ensures status == Failed ==> icon == "✗"
    ensures icon == "○" <==> (status != Completed && status != Running && status != Failed)
  {
    if status == Completed then "✓"
    else if status == Running then "⟳"
    else if status == Failed then "✗"
    else "○"
  }

  /** Distinct named statuses get distinct icons. */
  lemma StatusIconInjective(s: StepStatus, t: StepStatus)
    requires IsDefined(s) && IsDefined(t)
    requires StatusIcon(s) == StatusIcon(t)
    ensures s == t
  {
  }

  /** The messages the event loop delivers to `Update`. */
  datatype Msg = KeyMsg(key: string) | TickMsg | StepCompleteMsg(branchIdx: nat, stepIdx: nat)

  /** The commands `Update` hands back to the event loop. */
  datatype Cmd = NoCmd | Quit | Tick | RunNextSteps

  /**
   * The user interface state. In the source it also keeps the playbook
   * pointer it gave the engine; the model reaches that same object through
   * `engine.playbook`.
   */
  class Model {
    const engine: Engine
    var logs: seq<string>
    var running: bool

    /** `newUI`: a fresh engine over the playbook, no log entries, not running. */
    constructor (playbook: Playbook)
      ensures fresh(engine) && engine.playbook == playbook && engine.conditions == map[]
      ensures logs == [] && !running
    {
      engine := new Engine(playbook);
      logs := [];
      running := false;
    }

    /** `addLog`: append the message, then drop the oldest entry past MaxLogs. */
    method AddLog(message: string)
      modifies this
      ensures logs == Appended(old(logs), message)
      ensures running == old(running)
    {
      logs := logs + [message];
      if |logs| > MaxLogs {
        logs := logs[1..];
      }
    }

    /**
     * The "Recent Activity" part of `View`: nothing for an empty log, else the
     * header followed by the last min(5, |logs|) entries in order.
     */
    method RecentActivity() returns (lines: seq<string>)
      ensures logs == [] ==> lines == []
      ensures logs != [] ==> |lines| == 1 + Min(WindowSize, |logs|) && lines[0] == ActivityHeader
      ensures forall k :: 1 <= k < |lines| ==> lines[k] == Bullet(logs[|logs| - |lines| + k])
    {
      lines := [];
      if |logs| > 0 {
        lines := [ActivityHeader];
        var lo := if |logs| - WindowSize < 0 then 0 else |logs| - WindowSize;
        var i := |logs| - WindowSize;
        while i < |logs|
          invariant |logs| - WindowSize <= i <= |logs|
          invariant |lines| == 1 + (if i < lo then lo else i) - lo
          invariant lines[0] == ActivityHeader
          invariant forall k :: 1 <= k < |lines| ==> lines[k] == Bullet(logs[lo + k - 1])
        {
          if i >= 0 {
            lines := lines + [Bullet(logs[i])];
          }
          i := i + 1;
        }
      }
    }

    /**
     * What the command returned by `executeNextSteps` does when the event loop
     * runs it: stop when nothing is ready, otherwise execute the first ready
     * location of the scan and report it.
     */
    method ExecuteNextSteps() returns (reply: Option<Msg>)
      modifies this, engine, engine.playbook
      ensures engine.playbook.name == old(engine.playbook.name)
      ensures logs == old(logs)
      ensures var ready := ReadyLocations(old(engine.playbook.branches), old(engine.conditions));
              if ready == [] then
                && reply == None
                && !running
                && engine.playbook.branches == old(engine.playbook.branches)
                && engine.conditions == old(engine.conditions)
              else
                var loc := ready[0];
                && ReadyAt(old(engine.playbook.branches), old(engine.conditions), loc)
                && var step := old(engine.playbook.branches)[loc.branchIndex].steps[loc.stepIndex];
                && reply == Some(StepCompleteMsg(loc.branchIndex, loc.stepIndex))
                && running == old(running)
                && engine.playbook.branches == WithStatus(old(engine.playbook.branches), loc.branchIndex, loc.stepIndex, Completed)
                && engine.conditions == old(engine.conditions)[CompletionCondition(step) := true]
    {
      var steps := engine.GetNextExecutableSteps();
      if |steps| == 0 {
        running := false;
        return None;
      }
      var step := steps[0];
      assert step in steps;
      var err := engine.ExecuteStep(step.branchIndex, step.stepIndex);
      if err.Fail? {
        // The location was ready a moment ago and nothing ran in between, so
        // the source's error log ("✗ Error: ...") is unreachable here.
        assert false;
      }
      return Some(StepCompleteMsg(step.branchIndex, step.stepIndex));
    }

    /**
     * `Update`: quit keys quit; Space or Enter start the driver only when it is
     * not running and the playbook is not complete; a tick re-arms the timer;
     * a completed step is logged and either ends the run or schedules the next.
     */
    method Update(msg: Msg) returns (cmd: Cmd)
      requires msg.StepCompleteMsg? ==> ValidLoc(engine.playbook.branches, msg.branchIdx, msg.stepIdx)
      modifies this
      ensures msg.KeyMsg? && (msg.key == "ctrl+c" || msg.key == "q") ==>
                cmd == Quit && running == old(running) && logs == old(logs)
      ensures msg.KeyMsg? && (msg.key == " " || msg.key == "enter") ==>
                var start := !old(running) && !AllCompleted(engine.playbook.branches);
                && cmd == (if start then RunNextSteps else NoCmd)
                && running == (old(running) || start)
                && logs == old(logs)
      ensures msg.KeyMsg? && msg.key !in {"ctrl+c", "q", " ", "enter"} ==>
                cmd == NoCmd && running == old(running) && logs == old(logs)
      ensures msg.TickMsg? ==> cmd == Tick && running == old(running) && logs == old(logs)
      ensures msg.StepCompleteMsg? ==>
                var branch := engine.playbook.branches[msg.branchIdx];
                var entry := "✓ " + branch.name + ": " + branch.steps[msg.stepIdx].agent + " completed";
                if AllCompleted(engine.playbook.branches) then
                  && cmd == NoCmd
                  && !running
                  && logs == Appended(Appended(old(logs), entry), "🎉 Playbook execution completed!")
                else
                  && cmd == RunNextSteps
                  && running == old(running)
                  && logs == Appended(old(logs), entry)
    {
      match msg
      case KeyMsg(key) =>
        if key == "ctrl+c" || key == "q" {
          return Quit;
        } else if key == " " || key == "enter" {
          var complete := engine.IsPlaybookComplete();
          if !running && !complete {
            running := true;
            return RunNextSteps;
          }
        }
        return NoCmd;
      case TickMsg =>
        return Tick;
      case StepCompleteMsg(b, s) =>
        var branch := engine.playbook.branches[b];
        AddLog("✓ " + branch.name + ": " + branch.steps[s].agent + " completed");
        var complete := engine.IsPlaybookComplete();
        if complete {
          running := false;
          AddLog("🎉 Playbook execution completed!");
          return NoCmd;
        }
        return RunNextSteps;
    }
  }
}
