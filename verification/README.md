# NC Task & Leave System — store and transition model

A Dafny model of the in-memory task and leave state machine of the
"NC Task & Leave System" Streamlit application (`main.py`). The
application keeps one session store holding four things: a task list, a
work-log list, a leave-request list, and a per-user, per-type leave
balance. Its pages change that store and filter it for display. Here the
store is an immutable datatype (`WorkStore.Store`). Every form
submission is a pure transition that returns `Ok(store')` or
`Err(reason)`, and every page is a pure query. A trace runner
(`Trace.Run`) applies any sequence of actions. The lemmas state what
holds for every store reachable from the initial one.

Roles follow the code. The three `NCs` assign tasks to management, approve
leave and see every task. The three `Management` users are assigned
tasks, log work, hold leave balances (CL 15, SL 7, COURSE 7) and apply for
leave.

Modules:

- `SeqFilter`: the order-preserving list comprehension that every page uses, with its counting lemmas.
- `Roster`: the two fixed name lists, the role test, the leave types and their allowances.
- `WorkStore`: the records, the store, the error kinds and the initial store.
- `TaskFlow`: task creation, status selection, the work-log form and the task invariants.
- `LeaveFlow`: apply and approve, both apply guards, and balance conservation.
- `Views`: the dashboard, the task list and the timesheet.
- `Trace`: actions, runs, and the invariants of reachable stores.
- `OverCommit`: the negative-balance trace, and the proof that the corrected guard prevents it.

Facts about the code that the model follows:

- NCs approve leave and management users apply for it (main.py:107, 129).
- A management user's own new task is assigned to them (main.py:63).
- Nothing keeps a balance from going negative (see Findings).
- `main.py` has no reporters, month locks, call or meeting logs, one-log-per-day upsert or "Closed" status, so none of these is modelled.

Inputs that the widgets restrict become explicit errors:

- `Unauthorized` covers a name outside the login list, and an action whose control the page would not render for that user.
- `InvalidChoice` covers a value outside a select box's options.

A refused action leaves the store unchanged (`Trace.Step`). That is what
the application does when it shows an error message or shows no control.

## Model

| member | source | states |
|---|---|---|
| `WorkStore.Init` | main.py:13-20 | The initial store has no tasks, logs or leaves. Exactly the management users hold a balance, at the full allowance of each type. |
| `Roster.RolesPartitionRoster` | main.py:8-10 | A logged-in user is either an NC or a management user, never both. |
| `TaskFlow.CreateTask` | main.py:60-73 | Creation succeeds exactly for a roster user, and for an NC only when they pick a management assignee. It appends one task and leaves the earlier tasks in place. The new task has id \|tasks\|+1, the given title and description, status "To Do" and `created_by` = actor. Its assignee is always a management user: the NC's pick, or else the creator. Logs, leaves and balances are unchanged. |
| `TaskFlow.StatusIndex` | main.py:86 | The `.index` lookup returns the position of the status in the three-option list, and is defined exactly for those three strings. |
| `TaskFlow.FindTask` | main.py:79-81 | Returns the first position holding the id, or reports correctly that no task has it. |
| `TaskFlow.FindTaskSequential` | main.py:67 | When ids are sequential, id k is found at position k-1, and an id outside 1..n is not found. |
| `TaskFlow.SetStatus` | main.py:79-88 | A status change succeeds exactly when the actor can see the task (an NC, or the assignee) and picks one of the three options. Only that task's status changes; every other task, log, leave and balance stays as it was. A missing id is NotFound. |
| `TaskFlow.AddWorkLog` | main.py:90-98 | A work log is accepted exactly from the non-NC assignee of an existing task. It appends one log carrying that user, date, text and the task's id, and changes nothing else. |
| `LeaveFlow.ApplyLeave` | main.py:107-127 | As written: succeeds exactly for a management user whose current balance of the type is positive, and then appends one Pending request. Otherwise the error is InsufficientBalance and nothing is appended. In both outcomes the balance is unchanged. |
| `LeaveFlow.ApplyLeaveCounted` | main.py:116-127 | Corrected guard: as `ApplyLeave`, except that the balance minus the user's pending requests of that type must be positive. |
| `LeaveFlow.ApproveLeave` | main.py:129-138 | Approval succeeds exactly for an NC approving an existing Pending request whose user holds a balance entry of its type. A missing entry, the `KeyError` at main.py:137, is NotFound. That request becomes Approved and its user's balance of its type drops by exactly 1. All other requests and all other (user, type) balances are unchanged. An already-approved request is NotPending. |
| `LeaveFlow.AppendPendingCounts` | main.py:118-124 | Filing a Pending request raises the pending count of its own user and type by exactly one. It moves no approved count and no other pending count. |
| `LeaveFlow.ApproveShiftsCounts` | main.py:136 | Approving a Pending request moves exactly one unit from the pending count to the approved count of that request's user and type. Every other count stays the same. |
| `LeaveFlow.SubmitConserves` | main.py:116-127 | Applying (under either guard) keeps every balance equal to the allowance minus the approved count. |
| `LeaveFlow.ApproveConserves` | main.py:131-137 | Approving keeps every balance equal to the allowance minus the approved count. |
| `LeaveFlow.CountedApplyKeepsCommitment` | main.py:117 | Under the corrected guard, applying keeps pending + approved within the allowance for every user and type. |
| `LeaveFlow.ApproveKeepsCommitment` | main.py:137 | Approving keeps pending + approved within the allowance for every user and type. |
| `LeaveFlow.BalanceNonNegativeWhenNotOverCommitted` | main.py:137 | If the balance is conserved and pending + approved stays within the allowance, each management balance is at least the pending count, and so non-negative. |
| `Views.MyTasks` | main.py:45 | The "My Tasks" list holds exactly the tasks assigned to the user, each as often as it occurs in the task list. |
| `Views.DashboardFor` | main.py:36-48 | An NC gets the pending list and anyone else gets the counters. The pending list holds exactly the tasks whose status is not "Done", with their multiplicities. "My Tasks" counts the user's tasks. Running is the number of tasks in the whole list assigned to the user with status "Running". Completed is the same count for "Done". Each is at most "My Tasks", and so is their sum. |
| `Views.MetricsAddUp` | main.py:45-48 | When every task has one of the three statuses, a management user's "My Tasks" equals Running plus Completed plus their "To Do" tasks. |
| `Views.VisibleTasks` | main.py:79-80 | The Tasks page lists exactly the tasks the viewer can see. An NC sees the whole list. Anyone else sees only tasks assigned to them, which is their "My Tasks" list. |
| `Views.TimesheetFor` | main.py:146-158 | "My" logs are exactly the logs whose user is the viewer, with their multiplicities. Only an NC also gets the team view, which is the whole log list and contains every one of their own logs. |
| `Trace.InitValid` | main.py:13-20 | The initial store satisfies every store invariant. |
| `Trace.CreatePreservesValid` | main.py:66-73 | Creating a task keeps the invariants: sequential ids, valid statuses, management assignees, logs matching tasks, conserved balances, and every leave request belonging to a management user. |
| `Trace.SetStatusPreservesValid` | main.py:83-88 | A status change keeps the store invariants. |
| `Trace.AddWorkLogPreservesValid` | main.py:90-98 | Adding a work log keeps the store invariants. In particular the new log names its task's id, and that task's assignee is the log's author. |
| `Trace.StepPreservesValid` | main.py:60-137 | Any single action, accepted or refused, under either apply guard, keeps the store invariants. |
| `Trace.RunPreservesValid` | main.py:60-137 | Any sequence of actions keeps the store invariants. |
| `Trace.ReachableValid` | main.py:13-137 | Every store reachable from the initial one by any sequence of actions, under either apply guard, satisfies the store invariants. |
| `Trace.TaskIdsAreOneToN` | main.py:66-73 | After any sequence of actions the task ids are exactly 1..n in list order, so they are strictly increasing and unique. |
| `Trace.StatusAlwaysSelectable` | main.py:83-86 | In every reachable store each task's status is one of the three options, so the `.index` preselection never fails. |
| `Trace.BalanceConservation` | main.py:19 | In every reachable store, balance[u][t] equals the allowance for t minus the number of Approved requests for (u, t). |
| `Trace.ApprovePendingAccepted` | main.py:131-137 | In every reachable store, an NC's approval of any Pending request is accepted. Every request belongs to a management user, and that user holds a balance of every type, so the `KeyError` at main.py:137 never happens. |
| `Trace.DashboardCountsAddUp` | main.py:45-48 | In every reachable store, a management user's "My Tasks" equals Running plus Completed plus their "To Do" tasks. |
| `Trace.LogsReferToOwnTasks` | main.py:96 | In every reachable store each work log's task id names an existing task that is assigned to the log's author. |
| `Trace.NcHasNoTasks` | main.py:60-63 | Tasks go only to management users, so an NC's "My Tasks" list is always empty. |
| `OverCommit.RunApplies` | main.py:116-127 | Under the as-written guard, a user with any positive balance can file any number of requests, each on a different date. All are accepted and appended as Pending, and the balance is untouched. |
| `OverCommit.RunApprovals` | main.py:131-137 | Approving n pending requests of one user and type lowers that balance by exactly n, whatever its value. |
| `OverCommit.ApproveStep` | main.py:131-137 | As one step of a trace, an NC's approval of a Pending request is accepted. The request's balance drops by one and every other request stays in place. |
| `OverCommit.ApplyPhase` | main.py:116-127 | Under the as-written guard, n applications by a user with a positive balance append n Pending requests before anything that follows runs. |
| `OverCommit.ApprovePhase` | main.py:131-137 | Approving the n requests appended by that phase lowers the user's balance of the type by exactly n. |
| `OverCommit.ApplyThenApprove` | main.py:116-137 | From any store where a management user holds balance b > 0, n applications are all accepted. Their n approvals then leave the balance at exactly b - n, for any n, including n > b. |
| `OverCommit.AsWrittenBalanceGoesNegative` | main.py:117 | From the initial store, any management user u and leave type t with allowance A: u files A+1 requests on A+1 different dates, all accepted. Rishabh approves all of them, and u's balance of t ends at -1. |
| `OverCommit.AllowanceExhaustedRefusesNext` | main.py:116-127 | From the initial store: after A requests of type t and their A approvals the balance is 0, and the next application is refused with InsufficientBalance. |
| `OverCommit.CountedGuardRefusesOverCommit` | main.py:117 | Under the corrected guard, a request is refused with InsufficientBalance once the pending requests of that type use up the balance. |
| `OverCommit.PendingAwareStepKeepsCommitment` | main.py:116-137 | With the corrected guard, every action keeps the store invariants and keeps pending + approved within the allowance. |
| `OverCommit.PendingAwareRunKeepsCommitment` | main.py:116-137 | With the corrected guard, every sequence of actions keeps those invariants. |
| `OverCommit.PendingAwareBalanceNonNegative` | main.py:137 | With the corrected guard, no management balance is ever negative after any sequence of actions from the initial store. |

## Findings

| source | as written | input that shows it | evidently intended | confidence | as-written member | corrected member |
|---|---|---|---|---|---|---|
| main.py:117 | Apply checks only `bal[ltype] > 0` and ignores Pending requests. Approval (main.py:137) decrements without re-checking. | From the initial store, Akshay applies for SL 8 times, on 8 different dates; each is accepted because the balance still reads 7. Rishabh then approves all 8, and the SL balance becomes -1. The same works for any management user and leave type with allowance + 1 requests. | A leave balance never drops below zero: applying should count pending requests as already spent. | not executed; high (the code path is direct) | `OverCommit.AsWrittenBalanceGoesNegative` | `OverCommit.PendingAwareBalanceNonNegative` |

The as-written guard is `LeaveFlow.ApplyLeave`; the corrected guard is
`LeaveFlow.ApplyLeaveCounted`. `Trace.Run` takes the guard as a
parameter (`AsWritten` or `PendingAware`), and every store invariant is
proved for both.

## Left out

- Streamlit rendering and page routing (titles, expanders, metrics, the sidebar login, the menu radio). The acting user is an explicit parameter of each transition.
- pandas `DataFrame` display: the views return the sequences that would be displayed.
- `date.today()` and `st.date_input`: dates are opaque `Date` values passed in; no calendar arithmetic is modelled.
- The lazy `setdefault` initialisation of session state: `WorkStore.Init` is the store as first initialised, and re-running the script is not modelled.
- Widget-key uniqueness, including the possible collision of approve-button keys for two requests with the same user and date (main.py:135). This is framework behaviour; the model addresses each request by its list position.
- The status box rewrites each visible task's status on every rerun (main.py:83). Rewriting an unchanged value is a no-op, so only an actual choice is modelled, as `TaskFlow.SetStatus`.
- A `KeyError` for a missing balance entry (main.py:108, 137) becomes `Err(NotFound)`. In a reachable store it never happens. `Trace.BalanceConservation` gives every management user a balance of every type, covering main.py:108. `Trace.ApprovePendingAccepted` shows every Pending request can be approved, covering main.py:137.
- The "Task Created", "Leave Applied", "Approved" and "No balance left" messages: the `Ok`/`Err` outcome stands for them.
