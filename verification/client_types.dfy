/** The records the client works with (frontend/src/types/index.ts), and
    the raw shape of a task as the server's task listing sends it. */
module ClientTypes {
  import opened Shared

  /** The `assignedTo` value of a task as received: left out, `null`, a
      string id, or an object (the populated member `{ _id, name }`), of
      which only the `_id` and `id` keys matter here. */
  datatype RawRef = Missing | NullRef | Text(s: string) | Object(oid: Option<string>, altId: Option<string>)

  datatype ApiTask = ApiTask(id: string, name: string, isComplete: bool, projectId: string, assignedTo: RawRef)

  /** A task in the page state: `assignedTo` is an id string or null. */
  datatype ClientTask = ClientTask(id: string, name: string, isComplete: bool, projectId: string, assignedTo: Option<string>)

  datatype ClientProject = ClientProject(id: string, name: string, status: Status, progress: int)

  datatype ClientMember = ClientMember(id: string, name: string)

  /** The number of complete tasks in a list. */
  function CompletedCount(tasks: seq<ClientTask>): (c: nat)
    ensures c <= |tasks|
  {
    if tasks == [] then 0
    else CompletedCount(tasks[..|tasks| - 1]) + (if tasks[|tasks| - 1].isComplete then 1 else 0)
  }

  /** The number of complete tasks in a list as the server sends it. */
  function DoneCount(ts: seq<ApiTask>): (c: nat)
    ensures c <= |ts|
  {
    if ts == [] then 0 else DoneCount(ts[..|ts| - 1]) + (if ts[|ts| - 1].isComplete then 1 else 0)
  }
}
