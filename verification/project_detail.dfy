/** frontend/src/pages/ProjectDetail.tsx: the page state of one project and
    the handlers that create, toggle, delete and assign its tasks. The pure
    parts (normalising the server's tasks, the optimistic lists, the derived
    progress and status) are functions; the handlers, which sequence state
    updates and service writes, are methods of the page class. The writes
    the page sends are recorded in `sent`, in order. */
module ProjectDetail {
  import opened Shared
  import opened Rounding
  import opened ClientTypes

  /** A service write issued by the page. */
  datatype Request =
    | CreateTaskRequest(projectId: string, name: string, assignee: Option<string>)
    | UpdateTaskRequest(taskId: string, isComplete: Option<bool>, assignedTo: Field<string>)
    | DeleteTaskRequest(taskId: string)
    | UpdateProjectRequest(projectId: string, progress: nat, status: Status)

  /** `normalizeTasks` on one reference: an object gives its `_id`, any
      other value is kept, with a missing one read as null. */
  function NormalizeRef(r: RawRef): (a: Option<string>)
    ensures r.Object? ==> a == r.oid
    ensures r.Text? ==> a == Some(r.s)
    ensures r.Missing? || r.NullRef? ==> a == None
  {
    match r
    case Missing => None
    case NullRef => None
    case Text(s) => Some(s)
    case Object(oid, _) => oid
  }

  function NormalizeTask(t: ApiTask): ClientTask
  {
    ClientTask(t.id, t.name, t.isComplete, t.projectId, NormalizeRef(t.assignedTo))
  }

  /** `normalizeTasks`: same length, same order, every field kept except
      `assignedTo`, which becomes an id string or null. */
  function NormalizeTasks(raw: seq<ApiTask>): (r: seq<ClientTask>)
    ensures |r| == |raw|
    ensures forall i :: 0 <= i < |r| ==>
      && r[i].id == raw[i].id && r[i].name == raw[i].name
      && r[i].isComplete == raw[i].isComplete && r[i].projectId == raw[i].projectId
      && r[i].assignedTo == NormalizeRef(raw[i].assignedTo)
  {
    seq(|raw|, i requires 0 <= i < |raw| => NormalizeTask(raw[i]))
  }

  /** A client task sent back in the plain shape (id string or null). */
  function AsApi(t: ClientTask): ApiTask
  {
    ApiTask(t.id, t.name, t.isComplete, t.projectId, if t.assignedTo.Some? then Text(t.assignedTo.value) else NullRef)
  }

  /** Normalising tasks that are already in the page's shape changes
      nothing. */
  lemma {:induction false} NormalizeAlreadyNormal(ts: seq<ClientTask>)
    ensures NormalizeTasks(seq(|ts|, i requires 0 <= i < |ts| => AsApi(ts[i]))) == ts
  {
    var raw := seq(|ts|, i requires 0 <= i < |ts| => AsApi(ts[i]));
    var r := NormalizeTasks(raw);
    forall i | 0 <= i < |ts| ensures r[i] == ts[i] {
      assert raw[i] == AsApi(ts[i]);
    }
  }

  /** The first task with the given id (`tasks.find`). */
  function FindTask(tasks: seq<ClientTask>, id: string): (r: Option<ClientTask>)
    ensures r.None? <==> forall k :: 0 <= k < |tasks| ==> tasks[k].id != id
    ensures r.Some? ==> r.value.id == id && exists k :: 0 <= k < |tasks| && tasks[k] == r.value &&
                                               forall j :: 0 <= j < k ==> tasks[j].id != id
  {
    if tasks == [] then None
    else if tasks[0].id == id then
      Some(tasks[0])
    else
      var r := FindTask(tasks[1..], id);
      assert forall k :: 1 <= k < |tasks| ==> tasks[k] == tasks[1..][k - 1];
      if r.Some? then
        var k :| 0 <= k < |tasks[1..]| && tasks[1..][k] == r.value && r.value.id == id
                 && forall j :: 0 <= j < k ==> tasks[1..][j].id != id;
        assert tasks[k + 1] == r.value;
        r
      else r
  }

  /** The optimistic list of the toggle handler for one task. */
  function ToggleOne(t: ClientTask, taskId: string, isComplete: bool): ClientTask
  {
    if t.id == taskId then t.(isComplete := isComplete, assignedTo := if isComplete then None else t.assignedTo)
    else t
  }

  /** The optimistic list of the toggle handler: only the toggled task
      differs; completing it clears its assignee, reopening keeps it. */
  function Toggled(tasks: seq<ClientTask>, taskId: string, isComplete: bool): (r: seq<ClientTask>)
    ensures |r| == |tasks|
    ensures forall k :: 0 <= k < |r| && tasks[k].id != taskId ==> r[k] == tasks[k]
    ensures forall k :: 0 <= k < |r| && tasks[k].id == taskId ==>
      && r[k].id == taskId && r[k].name == tasks[k].name && r[k].projectId == tasks[k].projectId
      && r[k].isComplete == isComplete
      && r[k].assignedTo == (if isComplete then None else tasks[k].assignedTo)
  {
    if tasks == [] then []
    else Toggled(tasks[..|tasks| - 1], taskId, isComplete) + [ToggleOne(tasks[|tasks| - 1], taskId, isComplete)]
  }

  /** The number of tasks with the given id and completion. */
  function CountWithId(tasks: seq<ClientTask>, id: string, done: bool): (c: nat)
    ensures c <= |tasks|
  {
    if tasks == [] then 0
    else CountWithId(tasks[..|tasks| - 1], id, done)
         + (if tasks[|tasks| - 1].id == id && tasks[|tasks| - 1].isComplete == done then 1 else 0)
  }

  /** Toggling to complete adds exactly the open tasks with that id to the
      completed count; reopening removes exactly the complete ones. */
  lemma {:induction false} ToggleCount(tasks: seq<ClientTask>, taskId: string, isComplete: bool)
    ensures isComplete ==>
      CompletedCount(Toggled(tasks, taskId, true)) == CompletedCount(tasks) + CountWithId(tasks, taskId, false)
    ensures !isComplete ==>
      CompletedCount(Toggled(tasks, taskId, false)) + CountWithId(tasks, taskId, true) == CompletedCount(tasks)
  {
    if tasks != [] {
      var init := tasks[..|tasks| - 1];
      ToggleCount(init, taskId, isComplete);
      var r := Toggled(tasks, taskId, isComplete);
      assert r[..|r| - 1] == Toggled(init, taskId, isComplete);
    }
  }

  /** The write the toggle handler sends for the task: the new completion,
      plus `assignedTo: null` only when completing a task that has a
      (truthy) assignee. */
  function TogglePatch(tasks: seq<ClientTask>, taskId: string, isComplete: bool): (r: Request)
    ensures r.UpdateTaskRequest? && r.taskId == taskId && r.isComplete == Some(isComplete)
    ensures r.assignedTo != Absent <==>
      isComplete && FindTask(tasks, taskId).Some? && Truthy(FindTask(tasks, taskId).value.assignedTo)
    ensures r.assignedTo == Absent || r.assignedTo == Null
  {
    var found := FindTask(tasks, taskId);
    if isComplete && found.Some? && Truthy(found.value.assignedTo) then
      UpdateTaskRequest(taskId, Some(isComplete), Null)
    else
      UpdateTaskRequest(taskId, Some(isComplete), Absent)
  }

  /** The progress the page derives from its task list. */
  function DerivedProgress(tasks: seq<ClientTask>): (p: nat)
    ensures p <= 100
    ensures tasks == [] ==> p == 0
    ensures tasks != [] ==>
      2 * |tasks| * p <= 200 * CompletedCount(tasks) + |tasks| < 2 * |tasks| * (p + 1)
  {
    Progress(CompletedCount(tasks), |tasks|)
  }

  /** The status the page derives: Completed exactly at 100%. */
  function DerivedStatus(progress: nat): (s: Status)
    ensures s == Completed <==> progress == 100
  {
    if progress == 100 then Completed else InProgress
  }

  /** With fewer than 200 tasks, the derived status is Completed exactly
      when the list is non-empty and every task in it is complete. */
  lemma DerivedStatusMeaning(tasks: seq<ClientTask>)
    requires |tasks| < 200
    ensures DerivedStatus(DerivedProgress(tasks)) == Completed <==> tasks != [] && CompletedCount(tasks) == |tasks|
  {
    if tasks != [] {
      ProgressFullIffAllDone(CompletedCount(tasks), |tasks|);
    }
  }

  /** The project write of the toggle and delete handlers: sent only when
      a project is loaded and the derived progress or status differs from
      the loaded one. */
  function ProjectWrite(project: Option<ClientProject>, tasks: seq<ClientTask>): (w: Option<Request>)
    ensures w.Some? <==>
              && project.Some?
              && (project.value.progress != DerivedProgress(tasks) || project.value.status != DerivedStatus(DerivedProgress(tasks)))
    ensures w.Some? ==> w.value == UpdateProjectRequest(project.value.id, DerivedProgress(tasks), DerivedStatus(DerivedProgress(tasks)))
  {
    var progress := DerivedProgress(tasks);
    var status := DerivedStatus(progress);
    if project.Some? && (project.value.progress != progress || project.value.status != status) then
      Some(UpdateProjectRequest(project.value.id, progress, status))
    else None
  }

  /** Once a project holds what a write set, the same list asks for no
      further write. */
  lemma ProjectWriteSettles(project: ClientProject, tasks: seq<ClientTask>)
    requires ProjectWrite(Some(project), tasks).Some?
    ensures var w := ProjectWrite(Some(project), tasks).value;
      ProjectWrite(Some(project.(progress := w.progress, status := w.status)), tasks).None?
  {
  }

  /** The toggle handler keeps the project it loaded. Completing the only
      task of a 0% project sends 100% and 'Completed'; reopening it then
      compares 0% and 'In Progress' with that stale project and sends no
      write, so the stored status stays 'Completed'. */
  lemma StaleToggleExample()
    ensures var project := ClientProject("p", "Launch", InProgress, 0);
      var tasks := [ClientTask("t", "Write", false, "p", None)];
      var done := Toggled(tasks, "t", true);
      && ProjectWrite(Some(project), done) == Some(UpdateProjectRequest("p", 100, Completed))
      && ProjectWrite(Some(project), Toggled(done, "t", false)).None?
  {
    var tasks := [ClientTask("t", "Write", false, "p", None)];
    var done := Toggled(tasks, "t", true);
    assert done == [ClientTask("t", "Write", true, "p", None)] by { assert tasks[..0] == []; }
    assert CompletedCount(done) == 1 by { assert done[..0] == []; }
    var reopened := Toggled(done, "t", false);
    assert reopened == tasks by { assert done[..0] == []; }
    assert CompletedCount(tasks) == 0 by { assert tasks[..0] == []; }
  }

  /** Once the page keeps its project in step with the writes it sends,
      reopening the task sends 0% and 'In Progress'. */
  lemma SyncedToggleExample()
    ensures var project := ClientProject("p", "Launch", InProgress, 0);
      var tasks := [ClientTask("t", "Write", false, "p", None)];
      var done := Toggled(tasks, "t", true);
      var synced := project.(progress := 100, status := Completed);
      && ProjectWrite(Some(project), done) == Some(UpdateProjectRequest("p", 100, Completed))
      && ProjectWrite(Some(synced), Toggled(done, "t", false)) == Some(UpdateProjectRequest("p", 0, InProgress))
  {
    StaleToggleExample();
  }

  /** The project write of the create handler: the progress as if one more
      open task were present, sent with 'In Progress', and only when the
      loaded project is Completed. */
  function CreateProjectWrite(project: Option<ClientProject>, tasks: seq<ClientTask>): (w: Option<Request>)
    ensures w.Some? <==> project.Some? && project.value.status == Completed
    ensures w.Some? ==> w.value == UpdateProjectRequest(project.value.id, Progress(CompletedCount(tasks), |tasks| + 1), InProgress)
  {
    if project.Some? && project.value.status == Completed then
      Some(UpdateProjectRequest(project.value.id, Progress(CompletedCount(tasks), |tasks| + 1), InProgress))
    else None
  }

  /** The list after the delete handler: `tasks.filter(t => t._id !== taskId)`. */
  function Remaining(tasks: seq<ClientTask>, taskId: string): (r: seq<ClientTask>)
    ensures |r| <= |tasks|
    ensures forall k :: 0 <= k < |r| ==> r[k].id != taskId
  {
    if tasks == [] then []
    else
      var init := tasks[..|tasks| - 1];
      var last := tasks[|tasks| - 1];
      if last.id == taskId then Remaining(init, taskId) else Remaining(init, taskId) + [last]
  }

  /** The tasks with the deleted id are gone and every other task keeps its
      number of occurrences. */
  lemma {:induction false} RemainingCounts(tasks: seq<ClientTask>, taskId: string)
    ensures forall t :: multiset(Remaining(tasks, taskId))[t] == if t.id == taskId then 0 else multiset(tasks)[t]
  {
    if tasks != [] {
      var init := tasks[..|tasks| - 1];
      RemainingCounts(init, taskId);
      assert tasks == init + [tasks[|tasks| - 1]];
    }
  }

  /** Deleting keeps the relative order of the tasks that stay. */
  lemma RemainingKeepsOrder(tasks: seq<ClientTask>, taskId: string, i: nat, j: nat)
    requires i < j < |tasks| && tasks[i].id != taskId && tasks[j].id != taskId
    ensures exists a, b :: && 0 <= a < b < |Remaining(tasks, taskId)|
                           && Remaining(tasks, taskId)[a] == tasks[i] && Remaining(tasks, taskId)[b] == tasks[j]
  {
    var a, b := RemainingPositions(tasks, taskId, i, j);
  }

  /** Where the `i`-th and `j`-th tasks end up after the delete. */
  lemma {:induction false} RemainingPositions(tasks: seq<ClientTask>, taskId: string, i: nat, j: nat)
    returns (a: nat, b: nat)
    requires i < j < |tasks| && tasks[i].id != taskId && tasks[j].id != taskId
    ensures a < b < |Remaining(tasks, taskId)|
    ensures Remaining(tasks, taskId)[a] == tasks[i] && Remaining(tasks, taskId)[b] == tasks[j]
    decreases |tasks|
  {
    var init := tasks[..|tasks| - 1];
    var r := Remaining(tasks, taskId);
    var ri := Remaining(init, taskId);
    if j < |tasks| - 1 {
      a, b := RemainingPositions(init, taskId, i, j);
      assert r[a] == ri[a] && r[b] == ri[b];
    } else {
      assert r == ri + [tasks[j]];
      RemainingCounts(init, taskId);
      assert init[i] in multiset(init);
      assert init[i] in multiset(ri);
      a :| 0 <= a < |ri| && ri[a] == init[i];
      b := |ri|;
    }
  }

  /** Normalising the listing keeps every completion flag, so the page
      derives its progress from the same complete tasks the dashboard counts. */
  lemma {:induction false} NormalizedDoneCount(raw: seq<ApiTask>)
    ensures CompletedCount(NormalizeTasks(raw)) == DoneCount(raw)
  {
    if raw != [] {
      var init := raw[..|raw| - 1];
      NormalizedDoneCount(init);
      assert NormalizeTasks(raw)[..|raw| - 1] == NormalizeTasks(init);
    }
  }

  /** The optimistic list of the assign handler: only the target task's
      `assignedTo` changes. */
  function Reassigned(tasks: seq<ClientTask>, taskId: string, assignee: Option<string>): (r: seq<ClientTask>)
    ensures |r| == |tasks|
    ensures forall k :: 0 <= k < |r| ==>
      r[k] == if tasks[k].id == taskId then tasks[k].(assignedTo := assignee) else tasks[k]
  {
    seq(|tasks|, k requires 0 <= k < |tasks| => if tasks[k].id == taskId then tasks[k].(assignedTo := assignee) else tasks[k])
  }

  /** Reassigning never changes the derived progress. */
  lemma {:induction false} ReassignKeepsProgress(tasks: seq<ClientTask>, taskId: string, assignee: Option<string>)
    ensures CompletedCount(Reassigned(tasks, taskId, assignee)) == CompletedCount(tasks)
    ensures DerivedProgress(Reassigned(tasks, taskId, assignee)) == DerivedProgress(tasks)
  {
    if tasks != [] {
      var init := tasks[..|tasks| - 1];
      ReassignKeepsProgress(init, taskId, assignee);
      assert Reassigned(tasks, taskId, assignee)[..|tasks| - 1] == Reassigned(init, taskId, assignee);
    }
  }

  /** The page of one project. */
  class ProjectDetailPage {
    /** The project id of the route (`useParams`); empty when missing. */
    const routeId: string
    var project: Option<ClientProject>
    var tasks: seq<ClientTask>
    var error: Option<string>
    var newTaskName: string
    var newTaskAssignee: string
    var showForm: bool
    /** Every service write the page has issued, in order. */
    var sent: seq<Request>

    constructor (routeId: string)
      ensures this.routeId == routeId
      ensures project == None && tasks == [] && error == None
      ensures newTaskName == "" && newTaskAssignee == "" && !showForm && sent == []
    {
      this.routeId := routeId;
      project, tasks, error := None, [], None;
      newTaskName, newTaskAssignee, showForm := "", "", false;
      sent := [];
    }

    /** `fetchProjectData`: with the project and its tasks loaded, the page
        shows them (tasks normalised) and clears the error; on a failed load
        it shows the load error. */
    method FetchProjectData(loaded: Option<(ClientProject, seq<ApiTask>)>)
      modifies this`project, this`tasks, this`error
      ensures routeId == "" ==> project == old(project) && tasks == old(tasks) && error == old(error)
      ensures routeId != "" && loaded.Some? ==>
        project == Some(loaded.value.0) && tasks == NormalizeTasks(loaded.value.1) && error == None
      ensures routeId != "" && loaded.None? ==>
        project == old(project) && tasks == old(tasks) && error == Some("Failed to load project details")
    {
      if routeId == "" {
        return;
      }
      if loaded.None? {
        error := Some("Failed to load project details");
        return;
      }
      project := Some(loaded.value.0);
      tasks := NormalizeTasks(loaded.value.1);
      error := None;
    }

    /** `handleCreateTask`: a blank name (or no route id) does nothing.
        Otherwise the create request is sent with the name as typed; when it
        succeeds the form is reset and, only if the project was Completed,
        the project is set back to 'In Progress'. The reload that follows is
        `FetchProjectData`. */
    method HandleCreateTask(createFails: bool)
      modifies this`sent, this`error, this`newTaskName, this`newTaskAssignee, this`showForm
      ensures Trim(old(newTaskName)) == "" || routeId == "" ==>
        && sent == old(sent) && error == old(error)
        && newTaskName == old(newTaskName) && newTaskAssignee == old(newTaskAssignee) && showForm == old(showForm)
      ensures Trim(old(newTaskName)) != "" && routeId != "" ==>
        var create := CreateTaskRequest(routeId, old(newTaskName),
                                        if old(newTaskAssignee) == "" then None else Some(old(newTaskAssignee)));
        if createFails then
          && sent == old(sent) + [create] && error == Some("Failed to create task")
          && newTaskName == old(newTaskName) && newTaskAssignee == old(newTaskAssignee) && showForm == old(showForm)
        else
          && sent == old(sent) + [create] + (match CreateProjectWrite(project, tasks)
                                             case Some(w) => [w]
                                             case None => [])
          && error == old(error) && newTaskName == "" && newTaskAssignee == "" && !showForm
    {
      if Trim(newTaskName) == "" || routeId == "" {
        return;
      }
      sent := sent + [CreateTaskRequest(routeId, newTaskName, if newTaskAssignee == "" then None else Some(newTaskAssignee))];
      if createFails {
        error := Some("Failed to create task");
        return;
      }
      newTaskName, newTaskAssignee, showForm := "", "", false;
      var w := CreateProjectWrite(project, tasks);
      if w.Some? {
        sent := sent + [w.value];
      }
    }

    /** `handleToggleTask`: the optimistic list is shown at once and the task
        write sent. If it fails the error is shown (and the page reloads via
        `FetchProjectData`); otherwise the project write is sent when the
        derived progress or status changed, and the list is replaced by the
        refreshed one. The page's project is not refreshed. */
    method HandleToggleTask(taskId: string, isComplete: bool, writeFails: bool, refreshed: seq<ApiTask>)
      modifies this`sent, this`error, this`tasks
      ensures project == old(project)
      ensures var optimistic := Toggled(old(tasks), taskId, isComplete);
        var write := TogglePatch(old(tasks), taskId, isComplete);
        if writeFails then
          sent == old(sent) + [write] && tasks == optimistic && error == Some("Failed to update task")
        else
          && sent == old(sent) + [write] + (match ProjectWrite(project, optimistic)
                                            case Some(w) => [w]
                                            case None => [])
          && tasks == NormalizeTasks(refreshed) && error == old(error)
    {
      var write := TogglePatch(tasks, taskId, isComplete);
      var updatedTasks := Toggled(tasks, taskId, isComplete);
      tasks := updatedTasks;
      sent := sent + [write];
      if writeFails {
        error := Some("Failed to update task");
        return;
      }
      var w := ProjectWrite(project, updatedTasks);
      if w.Some? {
        sent := sent + [w.value];
      }
      tasks := NormalizeTasks(refreshed);
    }

    /** `handleToggleTask` as evidently intended: as above, and when the
        project write is sent the page's project takes the written progress
        and status, so the next toggle compares against what the server
        was sent. */
    method HandleToggleTaskSynced(taskId: string, isComplete: bool, writeFails: bool, refreshed: seq<ApiTask>)
      modifies this`sent, this`error, this`tasks, this`project
      ensures var optimistic := Toggled(old(tasks), taskId, isComplete);
        var write := TogglePatch(old(tasks), taskId, isComplete);
        if writeFails then
          sent == old(sent) + [write] && tasks == optimistic && project == old(project)
          && error == Some("Failed to update task")
        else
          && sent == old(sent) + [write] + (match ProjectWrite(old(project), optimistic)
                                            case Some(w) => [w]
                                            case None => [])
          && tasks == NormalizeTasks(refreshed) && error == old(error)
          && project == (if old(project).Some? then
                           Some(old(project).value.(progress := DerivedProgress(optimistic),
                                                    status := DerivedStatus(DerivedProgress(optimistic))))
                         else None)
          && ProjectWrite(project, optimistic).None?
    {
      var write := TogglePatch(tasks, taskId, isComplete);
      var updatedTasks := Toggled(tasks, taskId, isComplete);
      tasks := updatedTasks;
      sent := sent + [write];
      if writeFails {
        error := Some("Failed to update task");
        return;
      }
      var w := ProjectWrite(project, updatedTasks);
      if w.Some? {
        sent := sent + [w.value];
        project := Some(project.value.(progress := w.value.progress, status := w.value.status));
      }
      tasks := NormalizeTasks(refreshed);
    }

    /** `handleDeleteTask`: nothing happens unless confirmed. The delete is
        sent; if it fails the error is shown; otherwise the project write is
        sent when the progress or status derived from the remaining list
        differs. The list itself is left for the reload. */
    method HandleDeleteTask(taskId: string, confirmed: bool, deleteFails: bool)
      modifies this`sent, this`error
      ensures !confirmed ==> sent == old(sent) && error == old(error)
      ensures confirmed && deleteFails ==>
        sent == old(sent) + [DeleteTaskRequest(taskId)] && error == Some("Failed to delete task")
      ensures confirmed && !deleteFails ==>
        && sent == old(sent) + [DeleteTaskRequest(taskId)] + (match ProjectWrite(project, Remaining(tasks, taskId))
                                                             case Some(w) => [w]
                                                             case None => [])
        && error == old(error)
    {
      if !confirmed {
        return;
      }
      sent := sent + [DeleteTaskRequest(taskId)];
      if deleteFails {
        error := Some("Failed to delete task");
        return;
      }
      var remainingTasks := Remaining(tasks, taskId);
      var w := ProjectWrite(project, remainingTasks);
      if w.Some? {
        sent := sent + [w.value];
      }
    }

    /** `handleAssignTask`: the optimistic list changes only the target's
        assignee, the write carries just the assignee, and after it the list
        is replaced by the refreshed one. No project write is sent. */
    method HandleAssignTask(taskId: string, assignee: Option<string>, writeFails: bool, refreshed: seq<ApiTask>)
      modifies this`sent, this`error, this`tasks
      ensures sent == old(sent) + [UpdateTaskRequest(taskId, None, if assignee.Some? then Given(assignee.value) else Null)]
      ensures writeFails ==> tasks == Reassigned(old(tasks), taskId, assignee) && error == Some("Failed to assign task")
      ensures !writeFails ==> tasks == NormalizeTasks(refreshed) && error == old(error)
    {
      tasks := Reassigned(tasks, taskId, assignee);
      sent := sent + [UpdateTaskRequest(taskId, None, if assignee.Some? then Given(assignee.value) else Null)];
      if writeFails {
        error := Some("Failed to assign task");
        return;
      }
      tasks := NormalizeTasks(refreshed);
    }
  }
}
