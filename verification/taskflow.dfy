/** Task creation, status selection and the work-log form of the Tasks
    page (main.py:56-99), as transitions over the store. */
module TaskFlow {
  import opened Roster
  import opened WorkStore

  const ToDo: string := "To Do"
  const Running: string := "Running"
  const Done: string := "Done"

  /** The options of the status box, in display order. */
  const StatusOptions: seq<string> := [ToDo, Running, Done]

  /** The position of `status` in the status box: the `.index` lookup that
      preselects a task's current status. It is only defined for one of the
      three option strings. */
  function StatusIndex(status: string): (i: nat)
    requires status in StatusOptions
    ensures i < |StatusOptions| && StatusOptions[i] == status
  {
    if status == ToDo then 0 else if status == Running then 1 else 2
  }

  /** Who sees a task on the Tasks page: an NC sees every task, anyone else
      only the tasks assigned to them. */
  predicate CanView(viewer: string, t: Task) {
    IsNc(viewer) || t.assignedTo == viewer
  }

  /** The position of the first task carrying `id`, if any. */
  function FindTask(tasks: seq<Task>, id: int): (r: Option<nat>)
    ensures r.Some? ==> r.value < |tasks| && tasks[r.value].id == id
    ensures r.Some? ==> forall j :: 0 <= j < r.value ==> tasks[j].id != id
    ensures r.None? ==> forall j :: 0 <= j < |tasks| ==> tasks[j].id != id
  {
    if |tasks| == 0 then None
    else if tasks[0].id == id then Some(0)
    else
      match FindTask(tasks[1..], id)
      case None => None
      case Some(k) => Some(k + 1)
  }

  /** Task ids are the positions 1..n of the task list. */
  ghost predicate IdsSequential(tasks: seq<Task>) {
    forall i :: 0 <= i < |tasks| ==> tasks[i].id == i + 1
  }

  /** Every task carries one of the three status strings. */
  ghost predicate StatusesValid(tasks: seq<Task>) {
    forall i :: 0 <= i < |tasks| ==> tasks[i].status in StatusOptions
  }

  /** Every task is assigned to a management user and was created by a
      roster user. */
  ghost predicate AssigneesAreManagement(tasks: seq<Task>) {
    forall i :: 0 <= i < |tasks| ==> tasks[i].assignedTo in Management && tasks[i].createdBy in AllUsers
  }

  /** Every work log names an existing task (by its id, which is its
      position plus one) whose assignee is the user who wrote the log. */
  ghost predicate LogsMatchTasks(s: Store) {
    forall k :: 0 <= k < |s.workLogs| ==>
      1 <= s.workLogs[k].taskId <= |s.tasks|
      && s.tasks[s.workLogs[k].taskId - 1].assignedTo == s.workLogs[k].user
  }

  /** With sequential ids, looking up an id finds exactly position id - 1,
      and ids outside 1..n are not found. */
  lemma FindTaskSequential(tasks: seq<Task>, id: int)
    requires IdsSequential(tasks)
    ensures 1 <= id <= |tasks| ==> FindTask(tasks, id) == Some(id - 1)
    ensures !(1 <= id <= |tasks|) ==> FindTask(tasks, id) == None
  {
    if 1 <= id <= |tasks| {
      assert tasks[id - 1].id == id;
    }
  }

  /** "Create Task": append one task with the next id and status "To Do".
      An NC creator picks the assignee from the management list; anyone
      else is assigned their own task. */
  function CreateTask(s: Store, actor: string, title: string, description: string, chosen: string): (r: Result<Store>)
    ensures r.Ok? <==> actor in AllUsers && (IsNc(actor) ==> chosen in Management)
    ensures r.Err? && actor !in AllUsers ==> r.error == Unauthorized
    ensures r.Err? && actor in AllUsers ==> r.error == InvalidChoice
    ensures r.Ok? ==>
      && |r.value.tasks| == |s.tasks| + 1
      && r.value.tasks[..|s.tasks|] == s.tasks
      && r.value.workLogs == s.workLogs
      && r.value.leaves == s.leaves
      && r.value.balance == s.balance
      && var t := r.value.tasks[|s.tasks|];
         && t.id == |s.tasks| + 1
         && t.title == title
         && t.description == description
         && t.createdBy == actor
         && t.status == ToDo
         && t.assignedTo in Management
         && (IsNc(actor) ==> t.assignedTo == chosen)
         && (!IsNc(actor) ==> t.assignedTo == actor)
  {
    if actor !in AllUsers then Err(Unauthorized)
    else if IsNc(actor) && chosen !in Management then Err(InvalidChoice)
    else
      RolesPartitionRoster(actor);
      var assignee := if IsNc(actor) then chosen else actor;
      var t := Task(|s.tasks| + 1, title, description, assignee, actor, ToDo);
      assert (s.tasks + [t])[..|s.tasks|] == s.tasks;
      Ok(s.(tasks := s.tasks + [t]))
  }

  /** The status box of one task: a viewer of the task picks one of the
      three statuses; no order of transitions is enforced. */
  function SetStatus(s: Store, actor: string, id: int, status: string): (r: Result<Store>)
    ensures r.Ok? <==>
      && actor in AllUsers
      && status in StatusOptions
      && FindTask(s.tasks, id).Some?
      && CanView(actor, s.tasks[FindTask(s.tasks, id).value])
    ensures r.Err? && FindTask(s.tasks, id).None? && actor in AllUsers && status in StatusOptions
            ==> r.error == NotFound
    ensures r.Ok? ==>
      var i := FindTask(s.tasks, id).value;
      && |r.value.tasks| == |s.tasks|
      && r.value.tasks[i].status == status
      && r.value.tasks[i] == s.tasks[i].(status := r.value.tasks[i].status)
      && (forall j :: 0 <= j < |s.tasks| && j != i ==> r.value.tasks[j] == s.tasks[j])
      && r.value.workLogs == s.workLogs
      && r.value.leaves == s.leaves
      && r.value.balance == s.balance
  {
    if actor !in AllUsers then Err(Unauthorized)
    else if status !in StatusOptions then Err(InvalidChoice)
    else match FindTask(s.tasks, id)
      case None => Err(NotFound)
      case Some(i) =>
        if !CanView(actor, s.tasks[i]) then Err(Unauthorized)
        else Ok(s.(tasks := s.tasks[i := s.tasks[i].(status := status)]))
  }

  /** "Add Work Log": only the task's assignee, and never an NC, may log
      work against it; the log records the task's id. */
  function AddWorkLog(s: Store, actor: string, id: int, date: Date, work: string): (r: Result<Store>)
    ensures r.Ok? <==>
      && actor in AllUsers
      && !IsNc(actor)
      && FindTask(s.tasks, id).Some?
      && s.tasks[FindTask(s.tasks, id).value].assignedTo == actor
    ensures r.Err? && actor in AllUsers && FindTask(s.tasks, id).None? ==> r.error == NotFound
    ensures r.Ok? ==>
      && r.value.workLogs == s.workLogs + [WorkLog(date, actor, id, work)]
      && r.value.tasks == s.tasks
      && r.value.leaves == s.leaves
      && r.value.balance == s.balance
  {
    if actor !in AllUsers then Err(Unauthorized)
    else match FindTask(s.tasks, id)
      case None => Err(NotFound)
      case Some(i) =>
        var t := s.tasks[i];
        if IsNc(actor) || t.assignedTo != actor then Err(Unauthorized)
        else Ok(s.(workLogs := s.workLogs + [WorkLog(date, actor, t.id, work)]))
  }
}
