/** The document store the controllers work on: the three collections as
    maps from id to record, and the counter that hands out fresh ids. The
    queries the controllers issue (`find` by project, `countDocuments` by
    assignee, `sort({ createdAt: -1 })`) are the functions and the ordering
    method below. */
module Store {
  import opened Shared
  import opened Rounding
  import opened Models

  class Database {
    var projects: map<Id, Project>
    var tasks: map<Id, Task>
    var members: map<Id, TeamMember>
    var nextId: Id

    /** Every stored document passed schema validation, and every id in use
        was handed out by the counter. */
    ghost predicate Valid()
      reads this
    {
      ProjectsValid(projects, nextId) && TasksValid(tasks, nextId) && MembersValid(members, nextId)
    }

    constructor ()
      ensures Valid()
      ensures projects == map[] && tasks == map[] && members == map[] && nextId == 0
    {
      projects, tasks, members, nextId := map[], map[], map[], 0;
    }

    /** A fresh id, later than every id handed out before. */
    method AllocateId() returns (id: Id)
      requires Valid()
      modifies this`nextId
      ensures Valid()
      ensures id == old(nextId) && nextId == id + 1
      ensures id !in projects && id !in tasks && id !in members
    {
      id := nextId;
      nextId := nextId + 1;
    }
  }

  ghost predicate ProjectsValid(projects: map<Id, Project>, bound: Id)
  {
    forall id :: id in projects ==> id < bound && ValidProject(projects[id])
  }

  /** Storing a valid project under an id below the bound keeps the
      collection valid. */
  lemma ProjectsValidInsert(projects: map<Id, Project>, bound: Id, id: Id, p: Project)
    requires ProjectsValid(projects, bound) && id < bound && ValidProject(p)
    ensures ProjectsValid(projects[id := p], bound)
  {
  }

  ghost predicate TasksValid(tasks: map<Id, Task>, bound: Id)
  {
    forall id :: id in tasks ==> id < bound && ValidTask(tasks[id])
  }

  ghost predicate MembersValid(members: map<Id, TeamMember>, bound: Id)
  {
    forall id :: id in members ==> id < bound && ValidMember(members[id])
  }

  /** `Task.find({ projectId })`: the ids of a project's tasks. */
  function TasksOf(tasks: map<Id, Task>, p: Id): (r: set<Id>)
    ensures r <= tasks.Keys
    ensures forall id :: id in r ==> tasks[id].projectId == p
  {
    set id | id in tasks && tasks[id].projectId == p
  }

  /** The ids of a project's completed tasks. */
  function CompletedOf(tasks: map<Id, Task>, p: Id): (r: set<Id>)
    ensures r <= TasksOf(tasks, p)
    ensures |r| <= |TasksOf(tasks, p)|
  {
    var r := set id | id in tasks && tasks[id].projectId == p && tasks[id].isComplete;
    SubsetCard(r, TasksOf(tasks, p));
    r
  }

  lemma {:induction false} SubsetCard<T>(a: set<T>, b: set<T>)
    requires a <= b
    ensures |a| <= |b|
    decreases |b|
  {
    if a != {} {
      var x :| x in a;
      SubsetCard(a - {x}, b - {x});
    }
  }

  /** The progress the recompute step writes for project p. */
  function ProgressOf(tasks: map<Id, Task>, p: Id): (r: nat)
    ensures r <= 100
    ensures TasksOf(tasks, p) == {} ==> r == 0
  {
    Progress(|CompletedOf(tasks, p)|, |TasksOf(tasks, p)|)
  }

  /** The project collection after the recompute step for p: only p's
      progress changes, and a missing p is a no-op. */
  function Recalculated(projects: map<Id, Project>, tasks: map<Id, Task>, p: Id): (r: map<Id, Project>)
    ensures r.Keys == projects.Keys
    ensures forall q :: q in projects && q != p ==> r[q] == projects[q]
    ensures p in projects ==> r[p] == projects[p].(progress := ProgressOf(tasks, p))
  {
    if p in projects then projects[p := projects[p].(progress := ProgressOf(tasks, p))] else projects
  }

  /** `Task.countDocuments({ assignedTo: m })`: the ids of the tasks assigned
      to member m, complete or not. */
  function AssignedTo(tasks: map<Id, Task>, m: Id): (r: set<Id>)
    ensures r <= tasks.Keys
    ensures forall id :: id in r ==> tasks[id].assignedTo == Some(m)
  {
    set id | id in tasks && tasks[id].assignedTo == Some(m)
  }

  /** Recomputing keeps a stored project valid: the new progress is in
      [0, 100] and the name is untouched. */
  lemma RecalculatedValid(projects: map<Id, Project>, tasks: map<Id, Task>, p: Id, bound: Id)
    requires ProjectsValid(projects, bound)
    ensures ProjectsValid(Recalculated(projects, tasks, p), bound)
  {
  }

  /** The recompute step never touches name or status, so a project marked
      Completed keeps that status even when its progress drops to 0. */
  lemma RecalculatedKeepsNameAndStatus(projects: map<Id, Project>, tasks: map<Id, Task>, p: Id)
    requires p in projects
    ensures Recalculated(projects, tasks, p)[p].name == projects[p].name
    ensures Recalculated(projects, tasks, p)[p].status == projects[p].status
    ensures TasksOf(tasks, p) == {} ==> Recalculated(projects, tasks, p)[p].progress == 0
  {
  }

  /** Running the recompute step twice with no task change in between
      leaves what running it once left. */
  lemma {:induction false} RecalculatedIdempotent(projects: map<Id, Project>, tasks: map<Id, Task>, p: Id)
    ensures Recalculated(Recalculated(projects, tasks, p), tasks, p) == Recalculated(projects, tasks, p)
  {
    var once := Recalculated(projects, tasks, p);
    var twice := Recalculated(once, tasks, p);
    assert twice.Keys == once.Keys;
    forall q | q in once ensures twice[q] == once[q] {
    }
  }

  /** For a non-empty project, the progress written is the rounded
      percentage of its completed tasks; it is 100 exactly when at most half
      a percent of them is still open. */
  lemma ProgressOfMeaning(tasks: map<Id, Task>, p: Id)
    requires TasksOf(tasks, p) != {}
    ensures var n, c := |TasksOf(tasks, p)|, |CompletedOf(tasks, p)|;
      && 2 * n * ProgressOf(tasks, p) <= 200 * c + n < 2 * n * (ProgressOf(tasks, p) + 1)
      && (ProgressOf(tasks, p) == 100 <==> 200 * (n - c) <= n)
  {
    ProgressFullIff(|CompletedOf(tasks, p)|, |TasksOf(tasks, p)|);
  }

  /** Adding one incomplete task to project p keeps its completed count and
      raises its task count by one. */
  lemma {:induction false} InsertIncomplete(tasks: map<Id, Task>, id: Id, t: Task)
    requires id !in tasks && !t.isComplete
    ensures TasksOf(tasks[id := t], t.projectId) == TasksOf(tasks, t.projectId) + {id}
    ensures CompletedOf(tasks[id := t], t.projectId) == CompletedOf(tasks, t.projectId)
    ensures ProgressOf(tasks[id := t], t.projectId)
         == Progress(|CompletedOf(tasks, t.projectId)|, |TasksOf(tasks, t.projectId)| + 1)
  {
    var p := t.projectId;
    var after := tasks[id := t];
    assert TasksOf(after, p) == TasksOf(tasks, p) + {id};
    assert CompletedOf(after, p) == CompletedOf(tasks, p);
  }

  /** A task change inside one project leaves every other project's task
      set, and so its progress, as it was. */
  lemma {:induction false} OtherProjectUnaffected(tasks: map<Id, Task>, id: Id, t: Task, q: Id)
    requires q != t.projectId
    requires id in tasks ==> tasks[id].projectId != q
    ensures TasksOf(tasks[id := t], q) == TasksOf(tasks, q)
    ensures CompletedOf(tasks[id := t], q) == CompletedOf(tasks, q)
    ensures ProgressOf(tasks[id := t], q) == ProgressOf(tasks, q)
  {
    assert TasksOf(tasks[id := t], q) == TasksOf(tasks, q);
    assert CompletedOf(tasks[id := t], q) == CompletedOf(tasks, q);
  }

  /** The ids of `keys`, newest first (`sort({ createdAt: -1 })`): ids grow
      with creation time, so this is descending id order. */
  method NewestFirst(keys: set<Id>, bound: Id) returns (ids: seq<Id>)
    requires forall k :: k in keys ==> k < bound
    ensures forall k :: k in keys <==> k in ids
    ensures forall i, j :: 0 <= i < j < |ids| ==> ids[i] > ids[j]
  {
    ids := [];
    var i := bound;
    while i > 0
      invariant 0 <= i <= bound
      invariant forall k :: k in ids <==> k in keys && i <= k
      invariant forall a, b :: 0 <= a < b < |ids| ==> ids[a] > ids[b]
      invariant forall a :: 0 <= a < |ids| ==> ids[a] >= i
    {
      i := i - 1;
      if i in keys {
        ids := ids + [i];
      }
    }
  }

  /** The ids of `keys` in creation order (the natural order of a `find()`
      without a sort): ascending id order. */
  method OldestFirst(keys: set<Id>, bound: Id) returns (ids: seq<Id>)
    requires forall k :: k in keys ==> k < bound
    ensures forall k :: k in keys <==> k in ids
    ensures forall i, j :: 0 <= i < j < |ids| ==> ids[i] < ids[j]
  {
    ids := [];
    var i := 0;
    while i < bound
      invariant 0 <= i <= bound
      invariant forall k :: k in ids <==> k in keys && k < i
      invariant forall a, b :: 0 <= a < b < |ids| ==> ids[a] < ids[b]
      invariant forall a :: 0 <= a < |ids| ==> ids[a] < i
    {
      if i in keys {
        ids := ids + [i];
      }
      i := i + 1;
    }
  }
}
