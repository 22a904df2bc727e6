/** backend/controllers/taskController.js: creating, editing and deleting a
    task, each followed by the recompute of the owning project's progress. */
module TaskController {
  import opened Shared
  import opened Models
  import opened Store

  /** The body of a create-task request. `assignedTo || null` turns a
      missing assignee into null, so it is optional here. */
  datatype CreateTaskBody = CreateTaskBody(name: Option<string>, projectId: Option<Id>, assignedTo: Option<Id>)

  /** The body of a partial task update. `name` is applied only when truthy;
      `isComplete` and `assignedTo` whenever they are present, `null`
      included. A `null` completion flag is stored as `null`, which every
      reader of the flag (the recompute's filter, the pages' filters and
      checkboxes) treats as false, so the model stores false. */
  datatype TaskPatch = TaskPatch(name: Option<string>, isComplete: Field<bool>, assignedTo: Field<Id>)

  /** The task an update request produces, or the validation failure of the
      save: a truthy name that trims to nothing breaks the required name. */
  function ApplyTaskPatch(t: Task, patch: TaskPatch): (r: Result<Task>)
    requires ValidTask(t)
    ensures r.Err? <==> Truthy(patch.name) && Trim(patch.name.value) == ""
    ensures r.Err? ==> r.error == ValidationFailed
    ensures r.Ok? ==> ValidTask(r.value)
    ensures r.Ok? ==> r.value.projectId == t.projectId
    ensures r.Ok? ==> r.value.name == if Truthy(patch.name) then Trim(patch.name.value) else t.name
    ensures r.Ok? ==> r.value.isComplete == match patch.isComplete
                                            case Absent => t.isComplete
                                            case Null => false
                                            case Given(b) => b
    ensures r.Ok? ==> r.value.assignedTo == match patch.assignedTo
                                            case Absent => t.assignedTo
                                            case Null => None
                                            case Given(m) => Some(m)
  {
    var name := if Truthy(patch.name) then Trim(patch.name.value) else t.name;
    var done := match patch.isComplete
                case Absent => t.isComplete
                case Null => false
                case Given(b) => b;
    var assignee := match patch.assignedTo
                    case Absent => t.assignedTo
                    case Null => None
                    case Given(m) => Some(m);
    if name == "" then Err(ValidationFailed)
    else Ok(Task(name, done, t.projectId, assignee))
  }

  /** An update that supplies nothing (or only an empty name) saves the task
      unchanged. */
  lemma EmptyPatchKeepsTask(t: Task, name: Option<string>)
    requires ValidTask(t) && !Truthy(name)
    ensures ApplyTaskPatch(t, TaskPatch(name, Absent, Absent)) == Ok(t)
  {
  }

  /** Sending the same update twice leaves what sending it once left. */
  lemma {:induction false} ApplyTaskPatchIdempotent(t: Task, patch: TaskPatch)
    requires ValidTask(t) && ApplyTaskPatch(t, patch).Ok?
    ensures ApplyTaskPatch(ApplyTaskPatch(t, patch).value, patch) == ApplyTaskPatch(t, patch)
  {
    if Truthy(patch.name) {
      TrimIdempotent(patch.name.value);
    } else {
      ValidNameIsTrimmed(t.name);
    }
  }

  /** `recalculateProjectProgress`: rewrites the project's progress from its
      current task set, and nothing else. */
  method RecalculateProjectProgress(db: Database, p: Id)
    requires db.Valid()
    modifies db`projects
    ensures db.Valid()
    ensures db.projects == Recalculated(old(db.projects), db.tasks, p)
  {
    RecalculatedValid(db.projects, db.tasks, p, db.nextId);
    var projectTasks := TasksOf(db.tasks, p);
    var progress := if |projectTasks| == 0 then 0
                    else Rounding.RoundedPercent(|CompletedOf(db.tasks, p)|, |projectTasks|);
    if p in db.projects {
      // findByIdAndUpdate on a missing project updates nothing
      db.projects := db.projects[p := db.projects[p].(progress := progress)];
    }
  }

  /** `createTask`: saves a new incomplete task and recomputes the progress of
      the project it names. The project is not looked up first: a task may
      name a project that does not exist, and the recompute is then a no-op. */
  method CreateTask(db: Database, body: CreateTaskBody) returns (r: Result<(Id, Task)>)
    requires db.Valid()
    modifies db`tasks, db`projects, db`nextId
    ensures db.Valid()
    ensures r.Err? <==> !(body.name.Some? && Trim(body.name.value) != "" && body.projectId.Some?)
    ensures r.Err? ==> r.error == ValidationFailed && unchanged(db)
    ensures r.Ok? ==> var (id, t) := r.value;
      && id == old(db.nextId) && id !in old(db.tasks)
      && t == Task(Trim(body.name.value), false, body.projectId.value, body.assignedTo)
      && db.tasks == old(db.tasks)[id := t]
      && db.projects == Recalculated(old(db.projects), db.tasks, t.projectId)
      && db.members == old(db.members)
  {
    var assignee := if body.assignedTo.Some? then Given(body.assignedTo.value) else Null;
    var saved := NewTask(body.name, None, body.projectId, assignee);
    if saved.Err? {
      return Err(saved.error);
    }
    var id := db.AllocateId();
    db.tasks := db.tasks[id := saved.value];
    RecalculateProjectProgress(db, saved.value.projectId);
    r := Ok((id, saved.value));
  }

  /** `updateTask`: a missing task is NotFound; a failed save changes
      nothing; otherwise the patched task is stored and its project's
      progress recomputed. */
  method UpdateTask(db: Database, id: Id, patch: TaskPatch) returns (r: Result<Task>)
    requires db.Valid()
    modifies db`tasks, db`projects
    ensures db.Valid()
    ensures id !in old(db.tasks) ==> r == Err(NotFound)
    ensures id in old(db.tasks) ==> r == ApplyTaskPatch(old(db.tasks)[id], patch)
    ensures r.Err? ==> unchanged(db)
    ensures r.Ok? ==>
      && db.tasks == old(db.tasks)[id := r.value]
      && db.projects == Recalculated(old(db.projects), db.tasks, r.value.projectId)
      && db.members == old(db.members)
  {
    if id !in db.tasks {
      return Err(NotFound);
    }
    r := ApplyTaskPatch(db.tasks[id], patch);
    if r.Err? {
      return;
    }
    db.tasks := db.tasks[id := r.value];
    RecalculateProjectProgress(db, r.value.projectId);
  }

  /** `deleteTask`: a missing task is NotFound; otherwise exactly that task
      goes, and the project it belonged to (read before the delete) is
      recomputed. */
  method DeleteTask(db: Database, id: Id) returns (r: Result<()>)
    requires db.Valid()
    modifies db`tasks, db`projects
    ensures db.Valid()
    ensures r.Err? <==> id !in old(db.tasks)
    ensures r.Err? ==> r.error == NotFound && unchanged(db)
    ensures r.Ok? ==>
      && db.tasks == old(db.tasks) - {id}
      && db.projects == Recalculated(old(db.projects), db.tasks, old(db.tasks)[id].projectId)
      && db.members == old(db.members)
  {
    if id !in db.tasks {
      return Err(NotFound);
    }
    var projectId := db.tasks[id].projectId;
    db.tasks := db.tasks - {id};
    RecalculateProjectProgress(db, projectId);
    r := Ok(());
  }

  /** After a successful create, the project's progress is that of its old
      task set with one more, incomplete, task. */
  lemma CreateLowersOrKeepsProgress(tasks: map<Id, Task>, id: Id, t: Task)
    requires id !in tasks && !t.isComplete
    ensures ProgressOf(tasks[id := t], t.projectId) <= ProgressOf(tasks, t.projectId) || TasksOf(tasks, t.projectId) == {}
  {
    InsertIncomplete(tasks, id, t);
    var c, n := |CompletedOf(tasks, t.projectId)|, |TasksOf(tasks, t.projectId)|;
    if n > 0 {
      ProgressShrinks(c, n);
    }
  }

  lemma {:induction false} ProgressShrinks(c: nat, n: nat)
    requires 0 < n && c <= n
    ensures Rounding.Progress(c, n + 1) <= Rounding.Progress(c, n)
  {
    ShrinkBound(c, n, Rounding.Progress(c, n), Rounding.Progress(c, n + 1));
  }

  /** The rounding bounds of a share over n and over n + 1 tasks, with the
      same number complete, force the second to be no larger. */
  lemma ShrinkBound(c: nat, n: nat, p0: nat, p1: nat)
    requires 0 < n
    requires 200 * c + n < 2 * n * (p0 + 1)
    requires 2 * (n + 1) * p1 <= 200 * c + n + 1
    ensures p1 <= p0
  {
    // 2(n+1)p1 <= 200c + n + 1 <= 2n(p0 + 1) < 2n(p0 + 1) + 2(p0 + 1) = 2(n+1)(p0 + 1)
    assert 2 * (n + 1) * p1 < 2 * (n + 1) * (p0 + 1) by {
      assert 2 * (n + 1) * (p0 + 1) == 2 * n * (p0 + 1) + 2 * (p0 + 1);
    }
    Rounding.MulCancel(2 * (n + 1), p1, p0 + 1);
  }
}
