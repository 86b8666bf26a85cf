/** The records the application keeps in its session store, and the store
    itself as first initialised (main.py:13-20). */
module WorkStore {
  import opened Roster

  datatype Option<T> = None | Some(value: T)

  /** A calendar day, kept opaque: the application does no date arithmetic. */
  datatype Date = Date(ordinal: int)

  /** A task record; `status` is one of the strings the status box offers. */
  datatype Task = Task(
    id: int,
    title: string,
    description: string,
    assignedTo: string,
    createdBy: string,
    status: string)

  datatype WorkLog = WorkLog(date: Date, user: string, taskId: int, work: string)

  datatype LeaveStatus = Pending | Approved

  datatype Leave = Leave(user: string, ltype: LeaveType, date: Date, reason: string, status: LeaveStatus)

  /** The session store: three append-only lists and the per-user, per-type
      leave balance. */
  datatype Store = Store(
    tasks: seq<Task>,
    workLogs: seq<WorkLog>,
    leaves: seq<Leave>,
    balance: map<string, map<LeaveType, int>>)

  /** Why a transition was refused. The application shows a message or does
      not render the control; here the refusal is explicit. */
  datatype Error =
    | Unauthorized         // the acting user may not perform this action
    | InvalidChoice        // a value outside the options the form offers
    | NotFound             // no such task, leave or balance entry
    | NotPending           // the leave was already approved
    | InsufficientBalance  // the apply guard saw no balance left

  datatype Result<T> = Ok(value: T) | Err(error: Error)

  /** The balance entry for `(u, t)`, if the store has one. */
  function BalanceOf(s: Store, u: string, t: LeaveType): Option<int> {
    if u in s.balance && t in s.balance[u] then Some(s.balance[u][t]) else None
  }

  /** The empty store: no tasks, logs or leaves, and every management user
      holding the full allowance of every leave type (NCs hold no balance). */
  function Init(): (s: Store)
    ensures s.tasks == [] && s.workLogs == [] && s.leaves == []
    ensures forall u :: u in s.balance <==> u in Management
    ensures forall u, t :: u in Management ==> BalanceOf(s, u, t) == Some(Allowance(t))
  {
    Store([], [], [], map u | u in Management :: map[CL := 15, SL := 7, COURSE := 7])
  }
}
