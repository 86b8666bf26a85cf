/** Sequences of user actions run against the store, and the invariants
    every reachable store keeps. */
module Trace {
  import opened Roster
  import opened WorkStore
  import opened SeqFilter
  import opened TaskFlow
  import opened LeaveFlow
  import opened Views

  /** One form submission. */
  datatype Op =
    | Create(actor: string, title: string, description: string, chosen: string)
    | ChangeStatus(actor: string, id: int, status: string)
    | LogWork(actor: string, id: int, date: Date, work: string)
    | Apply(actor: string, ltype: LeaveType, date: Date, reason: string)
    | Approve(actor: string, index: int)

  /** Which apply guard the run uses: the one in the application, or the
      one that also counts pending requests. */
  datatype Policy = AsWritten | PendingAware

  function Outcome(policy: Policy, s: Store, op: Op): Result<Store> {
    match op
    case Create(actor, title, description, chosen) => CreateTask(s, actor, title, description, chosen)
    case ChangeStatus(actor, id, status) => SetStatus(s, actor, id, status)
    case LogWork(actor, id, date, work) => AddWorkLog(s, actor, id, date, work)
    case Apply(actor, ltype, date, reason) =>
      if policy == AsWritten then ApplyLeave(s, actor, ltype, date, reason)
      else ApplyLeaveCounted(s, actor, ltype, date, reason)
    case Approve(actor, i) => ApproveLeave(s, actor, i)
  }

  /** A refused action leaves the store as it was. */
  function Step(policy: Policy, s: Store, op: Op): Store {
    match Outcome(policy, s, op)
    case Ok(s') => s'
    case Err(_) => s
  }

  function Run(policy: Policy, s: Store, ops: seq<Op>): Store
    decreases |ops|
  {
    if ops == [] then s else Run(policy, Step(policy, s, ops[0]), ops[1..])
  }

  /** The invariants of the store. */
  ghost predicate Valid(s: Store) {
    && IdsSequential(s.tasks)
    && StatusesValid(s.tasks)
    && AssigneesAreManagement(s.tasks)
    && LogsMatchTasks(s)
    && Conserved(s)
    && RequestersAreManagement(s.leaves)
  }

  lemma InitValid()
    ensures Valid(Init())
  {
    var s := Init();
    forall u, t | u in Management
      ensures ConservedAt(s, u, t)
    {
      assert Filter(s.leaves, Matching(u, t, Approved)) == [];
    }
  }

  lemma CreatePreservesValid(s: Store, actor: string, title: string, description: string, chosen: string)
    requires Valid(s)
    requires CreateTask(s, actor, title, description, chosen).Ok?
    ensures Valid(CreateTask(s, actor, title, description, chosen).value)
  {
    var s' := CreateTask(s, actor, title, description, chosen).value;
    var n := |s.tasks|;
    assert forall i :: 0 <= i < n ==> s'.tasks[i] == s'.tasks[..n][i] == s.tasks[i];
    ConservedFrame(s, s');
  }

  lemma SetStatusPreservesValid(s: Store, actor: string, id: int, status: string)
    requires Valid(s)
    requires SetStatus(s, actor, id, status).Ok?
    ensures Valid(SetStatus(s, actor, id, status).value)
  {
    ConservedFrame(s, SetStatus(s, actor, id, status).value);
  }

  lemma AddWorkLogPreservesValid(s: Store, actor: string, id: int, date: Date, work: string)
    requires Valid(s)
    requires AddWorkLog(s, actor, id, date, work).Ok?
    ensures Valid(AddWorkLog(s, actor, id, date, work).value)
  {
    FindTaskSequential(s.tasks, id);
    ConservedFrame(s, AddWorkLog(s, actor, id, date, work).value);
  }

  lemma StepPreservesValid(policy: Policy, s: Store, op: Op)
    requires Valid(s)
    ensures Valid(Step(policy, s, op))
  {
    if Outcome(policy, s, op).Ok? {
      match op
      case Create(actor, title, description, chosen) =>
        CreatePreservesValid(s, actor, title, description, chosen);
      case ChangeStatus(actor, id, status) =>
        SetStatusPreservesValid(s, actor, id, status);
      case LogWork(actor, id, date, work) =>
        AddWorkLogPreservesValid(s, actor, id, date, work);
      case Apply(actor, ltype, date, reason) =>
        var headroom := if policy == AsWritten then BalanceOf(s, actor, ltype) else Headroom(s, actor, ltype);
        SubmitConserves(s, actor, ltype, date, reason, headroom);
        SubmitKeepsRequesters(s, actor, ltype, date, reason, headroom);
      case Approve(actor, i) =>
        ApproveConserves(s, actor, i);
        ApproveKeepsRequesters(s, actor, i);
    }
  }

  lemma {:induction false} RunPreservesValid(policy: Policy, s: Store, ops: seq<Op>)
    requires Valid(s)
    ensures Valid(Run(policy, s, ops))
    decreases |ops|
  {
    if ops != [] {
      StepPreservesValid(policy, s, ops[0]);
      RunPreservesValid(policy, Step(policy, s, ops[0]), ops[1..]);
    }
  }

  /** Running `a` then `b` is running `a + b`. */
  lemma {:induction false} RunConcat(policy: Policy, s: Store, a: seq<Op>, b: seq<Op>)
    ensures Run(policy, s, a + b) == Run(policy, Run(policy, s, a), b)
    decreases |a|
  {
    if a == [] {
      assert a + b == b;
    } else {
      assert (a + b)[0] == a[0];
      assert (a + b)[1..] == a[1..] + b;
      RunConcat(policy, Step(policy, s, a[0]), a[1..], b);
    }
  }

  /** Task ids: after any sequence of actions the ids are exactly 1..n in
      list order, hence strictly increasing and unique. */
  lemma TaskIdsAreOneToN(policy: Policy, ops: seq<Op>)
    ensures var tasks := Run(policy, Init(), ops).tasks;
      && (forall i :: 0 <= i < |tasks| ==> tasks[i].id == i + 1)
      && (forall i, j :: 0 <= i < j < |tasks| ==> tasks[i].id < tasks[j].id)
  {
    InitValid();
    RunPreservesValid(policy, Init(), ops);
  }

  /** Every task's status is one of the three options, so the status box's
      `.index` lookup never fails on a reachable store. */
  lemma StatusAlwaysSelectable(policy: Policy, ops: seq<Op>)
    ensures forall t :: t in Run(policy, Init(), ops).tasks ==>
      t.status in StatusOptions && StatusOptions[StatusIndex(t.status)] == t.status
  {
    InitValid();
    RunPreservesValid(policy, Init(), ops);
  }

  /** Balance conservation: each management user's balance of each type is
      the allowance minus that user's approved requests of that type. */
  lemma BalanceConservation(policy: Policy, ops: seq<Op>, u: string, t: LeaveType)
    requires u in Management
    ensures var s := Run(policy, Init(), ops);
      BalanceOf(s, u, t) == Some(Allowance(t) - ApprovedCount(s.leaves, u, t))
  {
    var s := Run(policy, Init(), ops);
    ReachableValid(policy, ops);
    ValidConservedAt(s, u, t);
  }

  /** Every store reachable from the initial one is valid. */
  lemma ReachableValid(policy: Policy, ops: seq<Op>)
    ensures Valid(Run(policy, Init(), ops))
  {
    InitValid();
    RunPreservesValid(policy, Init(), ops);
  }

  lemma ValidConservedAt(s: Store, u: string, t: LeaveType)
    requires Valid(s) && u in Management
    ensures ConservedAt(s, u, t)
  {
  }

  /** Approval never meets a missing balance entry: in every reachable
      store an NC's approval of any Pending request is accepted, because
      every request belongs to a management user and every management user
      holds a balance of every type. */
  lemma ApprovePendingAccepted(policy: Policy, ops: seq<Op>, approver: string, i: int)
    requires IsNc(approver)
    requires var s := Run(policy, Init(), ops); 0 <= i < |s.leaves| && s.leaves[i].status == Pending
    ensures ApproveLeave(Run(policy, Init(), ops), approver, i).Ok?
  {
    var s := Run(policy, Init(), ops);
    ReachableValid(policy, ops);
    ValidConservedAt(s, s.leaves[i].user, s.leaves[i].ltype);
  }

  /** On a reachable store the three dashboard counters of a management
      user add up: every task of theirs is To Do, Running or Done. */
  lemma DashboardCountsAddUp(policy: Policy, ops: seq<Op>, viewer: string)
    requires !IsNc(viewer)
    ensures var s := Run(policy, Init(), ops);
      var d := DashboardFor(s, viewer);
      d.myTasks == d.running + d.completed + |Filter(s.tasks, AssignedWithStatus(viewer, ToDo))|
  {
    ReachableValid(policy, ops);
    MetricsAddUp(Run(policy, Init(), ops), viewer);
  }

  /** Every work log refers, by id, to an existing task assigned to the
      user who wrote the log. */
  lemma LogsReferToOwnTasks(policy: Policy, ops: seq<Op>)
    ensures var s := Run(policy, Init(), ops);
      forall k :: 0 <= k < |s.workLogs| ==>
        var i := s.workLogs[k].taskId - 1;
        0 <= i < |s.tasks| && s.tasks[i].id == s.workLogs[k].taskId
        && s.tasks[i].assignedTo == s.workLogs[k].user
  {
    InitValid();
    RunPreservesValid(policy, Init(), ops);
  }

  /** Tasks only ever go to management users, so an NC has no tasks of
      their own and is never offered the work-log form. */
  lemma NcHasNoTasks(policy: Policy, ops: seq<Op>, u: string)
    requires IsNc(u)
    ensures MyTasks(Run(policy, Init(), ops), u) == []
  {
    InitValid();
    var s := Run(policy, Init(), ops);
    RunPreservesValid(policy, Init(), ops);
    forall i | 0 <= i < |s.tasks|
      ensures !AssignedTo(u)(s.tasks[i])
    {
      RolesPartitionRoster(s.tasks[i].assignedTo);
    }
    FilterDropsAll(s.tasks, AssignedTo(u));
  }
}
