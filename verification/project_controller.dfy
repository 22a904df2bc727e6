/** backend/controllers/projectController.js: listing, reading, creating,
    editing and deleting projects, and listing one project's tasks. */
module ProjectController {
  import opened Shared
  import opened Models
  import opened Store

  /** The body of a create or update request. A JSON `null` progress is not
      modelled: progress is either left out or a number. */
  datatype ProjectBody = ProjectBody(name: Option<string>, status: Option<string>, progress: Option<int>)

  /** The project an update request produces, or the validation failure of
      its save. Name and status are applied only when truthy, progress
      whenever it is present (0 included); the progress is not tied to the
      status in any way. */
  function ApplyProjectPatch(p: Project, patch: ProjectBody): (r: Result<Project>)
    requires ValidProject(p)
    ensures r.Err? ==> r.error == ValidationFailed
    ensures r.Ok? <==>
      && (Truthy(patch.name) ==> Trim(patch.name.value) != "")
      && (Truthy(patch.status) ==> ParseStatus(patch.status.value).Some?)
      && (patch.progress.Some? ==> 0 <= patch.progress.value <= 100)
    ensures r.Ok? ==> ValidProject(r.value)
    ensures r.Ok? ==> r.value.name == if Truthy(patch.name) then Trim(patch.name.value) else p.name
    ensures r.Ok? ==> r.value.status == if Truthy(patch.status) then ParseStatus(patch.status.value).value else p.status
    ensures r.Ok? ==> r.value.progress == if patch.progress.Some? then patch.progress.value else p.progress
  {
    var name := if Truthy(patch.name) then Trim(patch.name.value) else p.name;
    var status := if Truthy(patch.status) then ParseStatus(patch.status.value) else Some(p.status);
    var progress := if patch.progress.Some? then patch.progress.value else p.progress;
    if name == "" then Err(ValidationFailed)
    else if status.None? then Err(ValidationFailed)
    else if !(0 <= progress <= 100) then Err(ValidationFailed)
    else
      assert ValidName(name);
      Ok(Project(name, status.value, progress))
  }

  /** A manual edit may set any status together with any in-range progress:
      'Completed' at 0% is accepted just as 'In Progress' at 100% is. */
  lemma {:induction false} AnyStatusProgressAccepted(p: Project, st: Status, progress: int)
    requires ValidProject(p) && 0 <= progress <= 100
    ensures ApplyProjectPatch(p, ProjectBody(None, Some(StatusName(st)), Some(progress)))
         == Ok(p.(status := st, progress := progress))
  {
    ParseStatusName(st);
  }

  /** An update whose name and status are empty strings changes neither. */
  lemma EmptyStringsChangeNothing(p: Project)
    requires ValidProject(p)
    ensures ApplyProjectPatch(p, ProjectBody(Some(""), Some(""), None)) == Ok(p)
  {
  }

  /** The tasks left after the cascade of deleting project p. */
  function WithoutProject(tasks: map<Id, Task>, p: Id): (r: map<Id, Task>)
    ensures r.Keys == tasks.Keys - TasksOf(tasks, p)
    ensures forall id :: id in r ==> r[id] == tasks[id]
    ensures TasksOf(r, p) == {}
  {
    map id | id in tasks && tasks[id].projectId != p :: tasks[id]
  }

  /** The cascade leaves every other project's tasks, and so its progress,
      exactly as they were. */
  lemma {:induction false} CascadeKeepsOtherProjects(tasks: map<Id, Task>, p: Id, q: Id)
    requires q != p
    ensures TasksOf(WithoutProject(tasks, p), q) == TasksOf(tasks, q)
    ensures CompletedOf(WithoutProject(tasks, p), q) == CompletedOf(tasks, q)
    ensures ProgressOf(WithoutProject(tasks, p), q) == ProgressOf(tasks, q)
  {
    var r := WithoutProject(tasks, p);
    assert TasksOf(r, q) == TasksOf(tasks, q);
    assert CompletedOf(r, q) == CompletedOf(tasks, q);
  }

  /** `getAllProjects`: every project once, newest first. */
  method GetAllProjects(db: Database) returns (r: seq<(Id, Project)>)
    requires db.Valid()
    ensures forall id :: id in db.projects <==> exists k :: 0 <= k < |r| && r[k].0 == id
    ensures forall k :: 0 <= k < |r| ==> r[k].0 in db.projects && r[k].1 == db.projects[r[k].0]
    ensures forall i, j :: 0 <= i < j < |r| ==> r[i].0 > r[j].0
  {
    var ids := NewestFirst(db.projects.Keys, db.nextId);
    r := Entries(db.projects, ids);
  }

  /** The (id, record) pairs of `ids`, in the order given. */
  function Entries<T>(m: map<Id, T>, ids: seq<Id>): (r: seq<(Id, T)>)
    requires forall k :: 0 <= k < |ids| ==> ids[k] in m
    ensures |r| == |ids|
    ensures forall k :: 0 <= k < |r| ==> r[k] == (ids[k], m[ids[k]])
  {
    seq(|ids|, k requires 0 <= k < |ids| => (ids[k], m[ids[k]]))
  }

  /** `getProjectById`: the project, or NotFound. */
  method GetProjectById(db: Database, id: Id) returns (r: Result<Project>)
    requires db.Valid()
    ensures r.Ok? <==> id in db.projects
    ensures r.Ok? ==> r.value == db.projects[id]
    ensures r.Err? ==> r.error == NotFound
  {
    if id !in db.projects {
      return Err(NotFound);
    }
    r := Ok(db.projects[id]);
  }

  /** The record `createProject` saves: a falsy status is sent as
      'In Progress' and a falsy progress as 0 before the schema checks run. */
  function CreatedProject(body: ProjectBody): (r: Result<Project>)
    ensures r.Ok? <==>
      && body.name.Some? && Trim(body.name.value) != ""
      && (!Truthy(body.status) || ParseStatus(body.status.value).Some?)
      && (body.progress.None? || 0 <= body.progress.value <= 100)
    ensures r.Err? ==> r.error == ValidationFailed
    ensures r.Ok? ==> ValidProject(r.value) && r.value.name == Trim(body.name.value)
    ensures r.Ok? ==> r.value.status == if Truthy(body.status) then ParseStatus(body.status.value).value else InProgress
    ensures r.Ok? ==> r.value.progress == if body.progress.Some? then body.progress.value else 0
  {
    var status := if Truthy(body.status) then body.status.value else "In Progress";
    // `progress || 0`: a missing progress and a progress of 0 both give 0
    var progress := if body.progress.Some? then body.progress.value else 0;
    NewProject(body.name, Some(status), Some(progress))
  }

  /** `createProject`: saves `CreatedProject` under a fresh id, or fails
      changing nothing. */
  method CreateProject(db: Database, body: ProjectBody) returns (r: Result<(Id, Project)>)
    requires db.Valid()
    modifies db`projects, db`nextId
    ensures db.Valid()
    ensures CreatedProject(body).Err? ==>
      r == Err(ValidationFailed) && db.projects == old(db.projects) && db.nextId == old(db.nextId)
    ensures CreatedProject(body).Ok? ==>
      && r == Ok((old(db.nextId), CreatedProject(body).value))
      && old(db.nextId) !in old(db.projects)
      && db.projects == old(db.projects)[old(db.nextId) := CreatedProject(body).value]
  {
    var saved := CreatedProject(body);
    if saved.Err? {
      return Err(saved.error);
    }
    var id := db.AllocateId();
    ProjectsValidInsert(db.projects, db.nextId, id, saved.value);
    db.projects := db.projects[id := saved.value];
    r := Ok((id, saved.value));
  }

  /** A created project starts at 'In Progress' and 0% unless the request
      says otherwise. */
  lemma {:induction false} CreateDefaults(name: string)
    requires Trim(name) != ""
    ensures NewProject(Some(name), Some("In Progress"), Some(0)) == Ok(Project(Trim(name), InProgress, 0))
    ensures NewProject(Some(name), None, None) == Ok(Project(Trim(name), InProgress, 0))
  {
  }

  /** `updateProject`: NotFound for a missing project; a failed save
      changes nothing; no recompute follows. */
  method UpdateProject(db: Database, id: Id, patch: ProjectBody) returns (r: Result<Project>)
    requires db.Valid()
    modifies db`projects
    ensures db.Valid()
    ensures id !in old(db.projects) ==> r == Err(NotFound)
    ensures id in old(db.projects) ==> r == ApplyProjectPatch(old(db.projects)[id], patch)
    ensures r.Err? ==> db.projects == old(db.projects)
    ensures r.Ok? ==> db.projects == old(db.projects)[id := r.value]
  {
    if id !in db.projects {
      return Err(NotFound);
    }
    r := ApplyProjectPatch(db.projects[id], patch);
    if r.Ok? {
      db.projects := db.projects[id := r.value];
    }
  }

  /** `deleteProject`: NotFound for a missing project; otherwise every task
      of the project goes first, then the project itself. */
  method DeleteProject(db: Database, id: Id) returns (r: Result<()>)
    requires db.Valid()
    modifies db`projects, db`tasks
    ensures db.Valid()
    ensures r.Err? <==> id !in old(db.projects)
    ensures r.Err? ==> r.error == NotFound && unchanged(db)
    ensures r.Ok? ==>
      && db.projects == old(db.projects) - {id}
      && db.tasks == WithoutProject(old(db.tasks), id)
  {
    if id !in db.projects {
      return Err(NotFound);
    }
    db.tasks := WithoutProject(db.tasks, id);
    db.projects := db.projects - {id};
    r := Ok(());
  }

  /** `getProjectTasks`: exactly the tasks of project p, newest first; an
      unknown p gives an empty list. */
  method GetProjectTasks(db: Database, p: Id) returns (r: seq<(Id, Task)>)
    requires db.Valid()
    ensures forall id :: id in TasksOf(db.tasks, p) <==> exists k :: 0 <= k < |r| && r[k].0 == id
    ensures forall k :: 0 <= k < |r| ==> r[k].0 in db.tasks && r[k].1 == db.tasks[r[k].0] && r[k].1.projectId == p
    ensures forall i, j :: 0 <= i < j < |r| ==> r[i].0 > r[j].0
  {
    var ids := NewestFirst(TasksOf(db.tasks, p), db.nextId);
    assert forall k :: 0 <= k < |ids| ==> ids[k] in TasksOf(db.tasks, p);
    r := Entries(db.tasks, ids);
  }
}
