# Playbook execution engine — a Dafny model

This project models the scheduling core of the `agentic` playbook runner. A playbook
is a named list of branches. Each branch is an ordered list of steps. A step names
an agent, a precondition (a condition name) and an action, and has a status.

The engine keeps a map from condition names to booleans. The built-in condition
`"start"` always holds. A step is *ready* when it is Pending and its precondition
holds. Executing a step marks it Running, then Completed, and sets the condition
its agent produces. A fixed table gives the produced condition of five known
agents; any other agent `a` produces `a-completed`. The driver in the terminal
interface runs the first ready step, logs it, and goes on until the playbook is
complete or nothing is ready.

Modules: one per source file, with the engine file split into a pure and a stateful part, plus two support modules:

- `Config` (config.go): the `StepStatus` newtype over `int`, the `Step` and `Branch`
  records, the `Playbook` class, and the loop that forces every status to Pending
  after loading (`NormalizeStatuses`, proved against `Normalized`).
- `Scheduling` (engine.go, pure part): condition lookup, the agent-to-condition
  table, readiness, the scan order (`ReadyLocations`), completion, and the lemmas
  about them (scan correctness, progress, what a completion unblocks).
- `Execution` (engine.go, state part): the `Engine` class. Its fields are the
  shared playbook and the condition map. Its methods are proved against `Scheduling`.
- `Ui` (ui.go): the bounded activity log, the recent-activity window, the status
  icons, and the `Model` class with the driver step and the key/message handler.
- `Scenarios`: client methods that run three small playbooks through the Engine's
  contracts: a two-step chain, a step whose precondition is never produced, and two
  independent branches gated on `"start"`.
- `Wrappers`: `Option` and `Outcome`.

`executeStep` does not check that the step is Pending; it re-checks only the
precondition. So executing a Completed step whose precondition holds completes it
again and sets its condition again. The model keeps this behaviour
(`Execution.Engine.ExecuteStep` states exactly this).

## Model

| member | source | states |
|---|---|---|
| `Config.StatusString` | PRPs/templates/supporting_docs/cli_frontend/config.go:40-53 | the four named statuses render as "pending", "running", "completed", "failed"; the result is "unknown" exactly for the other values |
| `Config.StatusStringInjective` | PRPs/templates/supporting_docs/cli_frontend/config.go:41-50 | two named statuses with the same rendering are equal |
| `Config.WithStatus` | PRPs/templates/supporting_docs/cli_frontend/engine.go:28 | writing one step's status keeps the shape and configuration of the playbook and leaves every other step as it was |
| `Config.WithStatusOverwrite` | PRPs/templates/supporting_docs/cli_frontend/engine.go:28-34 | the Running write is replaced by the Completed write: the net effect is one Completed write |
| `Config.Normalized` | PRPs/templates/supporting_docs/cli_frontend/config.go:66-71 | the normalised branches are all Pending and keep branch count, branch names, step counts, and each step's agent, condition and action |
| `Config.NormalizedUnique` | PRPs/templates/supporting_docs/cli_frontend/config.go:66-71 | any branches with the input's shape that are all Pending equal the normalised branches |
| `Config.Playbook.constructor` | PRPs/templates/supporting_docs/cli_frontend/config.go:14-17 | a playbook holds the given name and branches |
| `Config.NormalizeStatuses` | PRPs/templates/supporting_docs/cli_frontend/config.go:66-71 | the in-place loop leaves the name unchanged and the branches equal to `Normalized` of the old ones, hence all Pending with the same shape |
| `Scheduling.ConditionMet` | PRPs/templates/supporting_docs/cli_frontend/engine.go:40-45 | "start" holds whatever the map holds; any other name holds exactly when stored as true; an absent name does not hold |
| `Scheduling.CompletionCondition` | PRPs/templates/supporting_docs/cli_frontend/engine.go:51-66 | the five fixed agent-to-condition pairs; any other agent `a` produces `a + "-completed"` |
| `Scheduling.CompletionConditionIsNotStart` | PRPs/templates/supporting_docs/cli_frontend/engine.go:51-66 | no step produces the built-in "start" condition |
| `Scheduling.CompletionConditionInjective` | PRPs/templates/supporting_docs/cli_frontend/engine.go:51-66 | steps with different agents produce different conditions |
| `Scheduling.ReadyInBranchSpec` | PRPs/templates/supporting_docs/cli_frontend/engine.go:72-79 | the inner scan over the first `n` steps of a branch collects exactly its ready steps, in increasing step order |
| `Scheduling.ReadyBeforeSpec` | PRPs/templates/supporting_docs/cli_frontend/engine.go:71-80 | the outer scan over the first `m` branches collects exactly their ready steps, strictly increasing in branch-then-step order |
| `Scheduling.ReadyLocationsSpec` | PRPs/templates/supporting_docs/cli_frontend/engine.go:68-83 | the scan holds exactly the ready locations, strictly increasing in branch-then-step order, without duplicates |
| `Scheduling.CompleteHasNothingReady` | PRPs/templates/supporting_docs/cli_frontend/engine.go:73 | when every step is Completed the scan is empty, whatever the conditions |
| `Scheduling.CompleteIffNoneUnfinished` | PRPs/templates/supporting_docs/cli_frontend/engine.go:85-94 | the playbook is complete exactly when no step is left un-Completed (an empty playbook is complete) |
| `Scheduling.CompletingDecreasesUnfinished` | PRPs/templates/supporting_docs/cli_frontend/engine.go:34 | completing a step that was not Completed lowers the count of unfinished steps by exactly one |
| `Scheduling.FirstReadyDecreasesUnfinished` | PRPs/templates/supporting_docs/cli_frontend/ui.go:204-205 | the first location of a non-empty scan is a valid step, and completing it lowers the unfinished count by one, so the driver stops after at most that many steps |
| `Scheduling.ReadyAfterCompletion` | PRPs/templates/supporting_docs/cli_frontend/engine.go:34-35 | after a step completes, the ready steps are the previously ready ones other than it, plus the Pending steps gated on the condition it produced |
| `Scheduling.SetTrueIsStronger` | PRPs/templates/supporting_docs/cli_frontend/engine.go:35 | setting a condition to true unsets nothing, and the condition set then holds: conditions are monotone under execution |
| `Execution.Engine.constructor` | PRPs/templates/supporting_docs/cli_frontend/engine.go:13-18 | the engine shares the given playbook and starts with an empty condition map |
| `Execution.Engine.IsConditionMet` | PRPs/templates/supporting_docs/cli_frontend/engine.go:40-45 | on the engine's current map, "start" always holds and any other name holds exactly when stored as true |
| `Execution.ErrorMessage` | PRPs/templates/supporting_docs/cli_frontend/engine.go:25 | the error text is the fixed prefix "condition not met: " followed by the condition name |
| `Execution.ErrorMessageInjective` | PRPs/templates/supporting_docs/cli_frontend/engine.go:25 | different unmet conditions give different error texts |
| `Execution.Engine.SetCondition` | PRPs/templates/supporting_docs/cli_frontend/engine.go:47-49 | afterwards the condition is stored with the given value and every other key is unchanged |
| `Execution.Engine.ExecuteStep` | PRPs/templates/supporting_docs/cli_frontend/engine.go:20-38 | with the precondition unmet: a ConditionNotMet error, and statuses and conditions unchanged; otherwise success, the target becomes Completed, no other step changes, and its produced condition becomes true with all other conditions unchanged |
| `Execution.Engine.GetNextExecutableSteps` | PRPs/templates/supporting_docs/cli_frontend/engine.go:68-83 | the nested loop returns exactly the ready locations, strictly increasing in branch-then-step order |
| `Execution.Engine.IsPlaybookComplete` | PRPs/templates/supporting_docs/cli_frontend/engine.go:85-94 | the early-return loop answers true exactly when every step of every branch is Completed |
| `Ui.Appended` | PRPs/templates/supporting_docs/cli_frontend/ui.go:218-223 | the message becomes the last entry; below 20 entries nothing is dropped; at 20 or more exactly the oldest is dropped and the order of the rest is kept; a buffer of at most 20 stays at most 20 |
| `Ui.ReplayKeepsLatest` | PRPs/templates/supporting_docs/cli_frontend/ui.go:218-223 | logging any sequence of messages from an empty buffer leaves exactly the latest 20 of them, in order |
| `Ui.StatusIcon` | PRPs/templates/supporting_docs/cli_frontend/ui.go:162-173 | Completed shows "✓", Running "⟳", Failed "✗"; the icon is "○" exactly for every other status, Pending included |
| `Ui.StatusIconInjective` | PRPs/templates/supporting_docs/cli_frontend/ui.go:162-173 | two named statuses with the same icon are equal |
| `Ui.Model.constructor` | PRPs/templates/supporting_docs/cli_frontend/ui.go:47-60 | a fresh engine over the playbook, an empty log, not running |
| `Ui.Model.AddLog` | PRPs/templates/supporting_docs/cli_frontend/ui.go:218-223 | the log becomes `Appended` of the old log; `running` is untouched |
| `Ui.Model.RecentActivity` | PRPs/templates/supporting_docs/cli_frontend/ui.go:132-139 | nothing for an empty log; otherwise the header and then the last min(5, len) entries in order, each as a bullet line |
| `Ui.Model.ExecuteNextSteps` | PRPs/templates/supporting_docs/cli_frontend/ui.go:194-216 | with nothing ready: no reply, `running` false, engine unchanged; otherwise exactly the first scanned location is executed and reported, and the log is unchanged |
| `Ui.Model.Update` | PRPs/templates/supporting_docs/cli_frontend/ui.go:73-105 | "ctrl+c"/"q" quit; Space or Enter start (setting `running`) only when not running and not complete; a tick re-arms the timer; a completed step is logged, and then either the run ends with a final log line and `running` false, or the next driver step is scheduled |

## Left out

- Reading the playbook file and decoding YAML (config.go:56-64, and the two wrapped error returns): file I/O and a foreign parser. The model starts from an already built `Playbook`.
- The simulated work in `executeStep` (`time.Sleep`, engine.go:31): timing only. The model writes Running and then Completed with nothing in between.
- Execution.Engine.ExecuteStep: the Running status is written and at once overwritten. No caller of `executeStep` can observe it between the two writes, so the contract states only the Completed result. In the source, `View` can run during the 500 ms sleep and show "⟳" for that step; this is lost together with the concurrency dropped below.
- `StatusFailed` is never assigned by the source, and the model invents no failure outcome. Only the value, its rendering and its icon exist.
- Terminal rendering: lipgloss styles and `getStatusStyle`, glamour markdown rendering of the title, the control hints, `renderBranch`, and the `View` layout beyond the recent-activity section.
- Event-loop plumbing: `Init`, `tick`, `run`, and the `tea.Cmd` closures. `Update` returns a `Cmd` value; `ExecuteNextSteps` is what the command does when the event loop runs it.
- Concurrency: in the source, the closure returned by `executeNextSteps` runs asynchronously and writes `running` and `logs`. The model runs it as one sequential step.
- Ui.Model.ExecuteNextSteps: the error-logging branch (ui.go:206-209) is proved unreachable instead of modelled. In the sequential model nothing can run between the scan and the execution.
- The user interface keeps its own `playbook` pointer, which is the same object it gives the engine. The model reaches it through `engine.playbook`.
- Key events arrive as the strings `msg.String()` yields. The key encoding belongs to the terminal library.
- Go's 64-bit `int` for indices and statuses is modelled as unbounded integers: no playbook comes close to the limit.
- The command-line entry point (main.go): flag handling and process exit.
- Execution.Engine.ExecuteStep and Ui.Model.Update require valid step coordinates where Go would panic on an index out of range (engine.go:21, ui.go:93-94). The panic is not modelled; every caller in the source passes a location the scan just produced.
