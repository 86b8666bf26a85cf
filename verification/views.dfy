/** The read-only screens: the dashboard (main.py:33-48), the task list of
    the Tasks page (main.py:79-80) and the timesheet (main.py:143-158). */
module Views {
  import opened Roster
  import opened WorkStore
  import opened SeqFilter
  import opened TaskFlow

  function NotDone(t: Task): bool {
    t.status != Done
  }

  function AssignedTo(u: string): Task -> bool {
    (t: Task) => t.assignedTo == u
  }

  function HasStatus(status: string): Task -> bool {
    (t: Task) => t.status == status
  }

  /** The tasks of user `u` that are in state `status`. */
  function AssignedWithStatus(u: string, status: string): Task -> bool {
    (t: Task) => t.assignedTo == u && t.status == status
  }

  function VisibleTo(viewer: string): Task -> bool {
    (t: Task) => CanView(viewer, t)
  }

  function WrittenBy(u: string): WorkLog -> bool {
    (l: WorkLog) => l.user == u
  }

  /** The tasks assigned to `u`, in creation order. */
  function MyTasks(s: Store, u: string): (r: seq<Task>)
    ensures forall t :: t in r <==> t in s.tasks && t.assignedTo == u
    ensures forall t :: multiset(r)[t] == if t.assignedTo == u then multiset(s.tasks)[t] else 0
  {
    FilterExact(s.tasks, AssignedTo(u));
    Filter(s.tasks, AssignedTo(u))
  }

  /** What the dashboard shows: an NC sees the unfinished tasks, anyone else
      three counters over their own tasks. */
  datatype Dashboard =
    | PendingList(tasks: seq<Task>)
    | Metrics(myTasks: nat, running: nat, completed: nat)

  function DashboardFor(s: Store, viewer: string): (d: Dashboard)
    ensures d.PendingList? <==> IsNc(viewer)
    ensures d.PendingList? ==> forall t :: t in d.tasks <==> t in s.tasks && t.status != Done
    ensures d.PendingList? ==>
      forall t :: multiset(d.tasks)[t] == if t.status != Done then multiset(s.tasks)[t] else 0
    ensures d.Metrics? ==> d.myTasks == |MyTasks(s, viewer)|
    ensures d.Metrics? ==> d.running <= d.myTasks && d.completed <= d.myTasks
    ensures d.Metrics? ==> d.running + d.completed <= d.myTasks
    ensures d.Metrics? ==> d.running == |Filter(s.tasks, AssignedWithStatus(viewer, Running))|
    ensures d.Metrics? ==> d.completed == |Filter(s.tasks, AssignedWithStatus(viewer, Done))|
  {
    if IsNc(viewer) then
      FilterExact(s.tasks, NotDone);
      PendingList(Filter(s.tasks, NotDone))
    else
      var mine := MyTasks(s, viewer);
      FilterDisjointCount(mine, HasStatus(Running), HasStatus(Done));
      FilterFilter(s.tasks, AssignedTo(viewer), HasStatus(Running), AssignedWithStatus(viewer, Running));
      FilterFilter(s.tasks, AssignedTo(viewer), HasStatus(Done), AssignedWithStatus(viewer, Done));
      Metrics(|mine|, |Filter(mine, HasStatus(Running))|, |Filter(mine, HasStatus(Done))|)
  }

  /** When every task carries one of the three statuses, a management
      user's counters add up: "My Tasks" is Running plus Completed plus the
      user's To Do tasks. */
  lemma MetricsAddUp(s: Store, viewer: string)
    requires StatusesValid(s.tasks)
    requires !IsNc(viewer)
    ensures var d := DashboardFor(s, viewer);
      d.myTasks == d.running + d.completed + |Filter(s.tasks, AssignedWithStatus(viewer, ToDo))|
  {
    var mine := MyTasks(s, viewer);
    forall i | 0 <= i < |mine|
      ensures mine[i].status in StatusOptions
    {
      assert mine[i] in s.tasks;
    }
    FilterThreeWayCount(mine, HasStatus(Running), HasStatus(Done), HasStatus(ToDo));
    FilterFilter(s.tasks, AssignedTo(viewer), HasStatus(ToDo), AssignedWithStatus(viewer, ToDo));
  }

  /** The tasks listed on the Tasks page: all of them for an NC, only their
      own for anyone else. */
  function VisibleTasks(s: Store, viewer: string): (r: seq<Task>)
    ensures forall t :: t in r <==> t in s.tasks && CanView(viewer, t)
    ensures IsNc(viewer) ==> r == s.tasks
    ensures !IsNc(viewer) ==> forall t :: t in r ==> t.assignedTo == viewer
    ensures !IsNc(viewer) ==> r == MyTasks(s, viewer)
  {
    FilterExact(s.tasks, VisibleTo(viewer));
    if IsNc(viewer) then
      FilterKeepsAll(s.tasks, VisibleTo(viewer));
      Filter(s.tasks, VisibleTo(viewer))
    else
      FilterSamePredicate(s.tasks, VisibleTo(viewer), AssignedTo(viewer));
      Filter(s.tasks, VisibleTo(viewer))
  }

  /** The Timesheet page: the viewer's own logs, and for an NC also the
      whole team's logs. */
  datatype Timesheet = Timesheet(mine: seq<WorkLog>, team: Option<seq<WorkLog>>)

  function TimesheetFor(s: Store, viewer: string): (r: Timesheet)
    ensures forall l :: l in r.mine <==> l in s.workLogs && l.user == viewer
    ensures forall l :: multiset(r.mine)[l] == if l.user == viewer then multiset(s.workLogs)[l] else 0
    ensures r.team.Some? <==> IsNc(viewer)
    ensures r.team.Some? ==> r.team.value == s.workLogs
    ensures r.team.Some? ==> forall l :: l in r.mine ==> l in r.team.value
  {
    FilterExact(s.workLogs, WrittenBy(viewer));
    var mine := Filter(s.workLogs, WrittenBy(viewer));
    Timesheet(mine, if IsNc(viewer) then Some(s.workLogs) else None)
  }
}
