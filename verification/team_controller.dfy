/** backend/controllers/teamController.js: the member listing with each
    member's live task count and workload classification, member creation,
    and member deletion, which first clears every reference to the member. */
module TeamController {
  import opened Shared
  import opened Models
  import opened Store

  /** The three workload bands, lightest first. */
  datatype Level = Green | Orange | Red

  /** Position of a band in the order green < orange < red. */
  function Rank(l: Level): nat
  {
    match l
    case Green => 0
    case Orange => 1
    case Red => 2
  }

  /** The band of a member with `count` assigned tasks: red from 7 tasks,
      orange from 4, green below. */
  function CapacityLevel(count: nat): (l: Level)
    ensures l == Red <==> count >= 7
    ensures l == Orange <==> 4 <= count < 7
    ensures l == Green <==> count < 4
  {
    if count >= 7 then Red
    else if count >= 4 then Orange
    else Green
  }

  /** More tasks never move a member to a lighter band. */
  lemma LevelMonotone(a: nat, b: nat)
    requires a <= b
    ensures Rank(CapacityLevel(a)) <= Rank(CapacityLevel(b))
  {
  }

  /** Load as a percentage of 10 tasks, capped at 100. */
  function CapacityPercentage(count: nat): (pct: nat)
    ensures pct <= 100
    ensures count >= 10 ==> pct == 100
    ensures count < 10 ==> pct == 10 * count
  {
    if 10 * count < 100 then 10 * count else 100
  }

  /** The percentage grows with the count, like the band. */
  lemma PercentageMonotone(a: nat, b: nat)
    requires a <= b
    ensures CapacityPercentage(a) <= CapacityPercentage(b)
  {
  }

  /** The band and the percentage are separate scales: orange starts at
      40%, red at 70%, and only the percentage saturates. */
  lemma CapacityExamples()
    ensures CapacityLevel(3) == Green && CapacityPercentage(3) == 30
    ensures CapacityLevel(4) == Orange && CapacityPercentage(4) == 40
    ensures CapacityLevel(7) == Red && CapacityPercentage(7) == 70
    ensures CapacityLevel(15) == Red && CapacityPercentage(15) == 100
  {
  }

  /** One entry of the member listing. */
  datatype MemberView = MemberView(id: Id, name: string, taskCount: nat, capacityLevel: Level, capacityPercentage: nat)

  /** The entry for member `id` given its task count. */
  function Classify(id: Id, member: TeamMember, taskCount: nat): (v: MemberView)
    ensures v.id == id && v.name == member.name && v.taskCount == taskCount
    ensures v.capacityLevel == CapacityLevel(taskCount) && v.capacityPercentage == CapacityPercentage(taskCount)
    ensures v.capacityPercentage <= 100
    ensures Rank(v.capacityLevel) == (if taskCount >= 7 then 2 else if taskCount >= 4 then 1 else 0)
  {
    MemberView(id, member.name, taskCount, CapacityLevel(taskCount), CapacityPercentage(taskCount))
  }

  /** `getAllTeamMembers`: one entry per member, in creation order, each
      carrying the number of tasks assigned to that member, complete or not. */
  method GetAllTeamMembers(db: Database) returns (r: seq<MemberView>)
    requires db.Valid()
    ensures forall id :: id in db.members <==> exists k :: 0 <= k < |r| && r[k].id == id
    ensures forall i, j :: 0 <= i < j < |r| ==> r[i].id < r[j].id
    ensures forall k :: 0 <= k < |r| ==>
      && r[k].id in db.members
      && r[k] == Classify(r[k].id, db.members[r[k].id], |AssignedTo(db.tasks, r[k].id)|)
  {
    var ids := OldestFirst(db.members.Keys, db.nextId);
    r := [];
    var i := 0;
    while i < |ids|
      invariant 0 <= i <= |ids|
      invariant |r| == i
      invariant forall k :: 0 <= k < i ==> r[k].id == ids[k]
      invariant forall k :: 0 <= k < i ==> r[k] == Classify(ids[k], db.members[ids[k]], |AssignedTo(db.tasks, ids[k])|)
    {
      var taskCount := |AssignedTo(db.tasks, ids[i])|;
      r := r + [Classify(ids[i], db.members[ids[i]], taskCount)];
      i := i + 1;
    }
  }

  /** `createTeamMember`: a member with a non-empty name is stored under a
      fresh id. */
  method CreateTeamMember(db: Database, name: Option<string>) returns (r: Result<(Id, TeamMember)>)
    requires db.Valid()
    modifies db`members, db`nextId
    ensures db.Valid()
    ensures r.Err? <==> !Truthy(name)
    ensures r.Err? ==> r.error == ValidationFailed && db.members == old(db.members) && db.nextId == old(db.nextId)
    ensures r.Ok? ==>
      && r.value.0 == old(db.nextId) && r.value.0 !in old(db.members)
      && r.value.1 == TeamMember(name.value)
      && db.members == old(db.members)[r.value.0 := r.value.1]
  {
    if !Truthy(name) {
      return Err(ValidationFailed);
    }
    var id := db.AllocateId();
    db.members := db.members[id := TeamMember(name.value)];
    r := Ok((id, TeamMember(name.value)));
  }

  /** `Task.updateMany({ assignedTo: m }, { assignedTo: null })`: the same
      tasks, with every reference to m cleared and nothing else touched. */
  function Unassigned(tasks: map<Id, Task>, m: Id): (r: map<Id, Task>)
    ensures r.Keys == tasks.Keys
    ensures forall id :: id in r ==>
      r[id] == if tasks[id].assignedTo == Some(m) then tasks[id].(assignedTo := None) else tasks[id]
    ensures AssignedTo(r, m) == {}
  {
    map id | id in tasks :: if tasks[id].assignedTo == Some(m) then tasks[id].(assignedTo := None) else tasks[id]
  }

  /** Clearing m's references leaves every other member's tasks, and every
      project's task set and progress, as they were. */
  lemma {:induction false} UnassignedKeepsOthers(tasks: map<Id, Task>, m: Id, other: Id, p: Id)
    requires other != m
    ensures AssignedTo(Unassigned(tasks, m), other) == AssignedTo(tasks, other)
    ensures TasksOf(Unassigned(tasks, m), p) == TasksOf(tasks, p)
    ensures CompletedOf(Unassigned(tasks, m), p) == CompletedOf(tasks, p)
    ensures ProgressOf(Unassigned(tasks, m), p) == ProgressOf(tasks, p)
  {
    var r := Unassigned(tasks, m);
    assert AssignedTo(r, other) == AssignedTo(tasks, other);
    assert TasksOf(r, p) == TasksOf(tasks, p);
    assert CompletedOf(r, p) == CompletedOf(tasks, p);
  }

  /** `deleteTeamMember`: NotFound for a missing member; otherwise every
      task assigned to it is unassigned, then the member is removed. No
      task is deleted and no project changes. */
  method DeleteTeamMember(db: Database, id: Id) returns (r: Result<()>)
    requires db.Valid()
    modifies db`members, db`tasks
    ensures db.Valid()
    ensures r.Err? <==> id !in old(db.members)
    ensures r.Err? ==> r.error == NotFound && db.members == old(db.members) && db.tasks == old(db.tasks)
    ensures r.Ok? ==>
      && db.members == old(db.members) - {id}
      && db.tasks == Unassigned(old(db.tasks), id)
  {
    if id !in db.members {
      return Err(NotFound);
    }
    db.tasks := Unassigned(db.tasks, id);
    db.members := db.members - {id};
    r := Ok(());
  }
}
