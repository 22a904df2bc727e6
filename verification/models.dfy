/** The stored records and the save-time rules of the two document schemas
    (backend/models/Project.js, backend/models/Task.js): required names kept
    trimmed, the status enum, the progress bounds and the defaults. */
module Models {
  import opened Shared

  /** Store-generated identifier. Ids come from one counter shared by every
      collection, so a larger id means a later creation. */
  type Id = nat

  datatype Project = Project(name: string, status: Status, progress: int)

  datatype Task = Task(name: string, isComplete: bool, projectId: Id, assignedTo: Option<Id>)

  datatype TeamMember = TeamMember(name: string)

  /** Why a request fails: the target document is missing (404), or the
      document does not pass schema validation (400). */
  datatype Error = NotFound | ValidationFailed

  datatype Result<+T> = Ok(value: T) | Err(error: Error)

  /** The stored text of a status value. */
  function StatusName(s: Status): (r: string)
    ensures r != "" && (r == "Completed" <==> s == Completed)
  {
    match s
    case InProgress => "In Progress"
    case Completed => "Completed"
  }

  /** The status enum: exactly the two names are accepted. */
  function ParseStatus(s: string): (r: Option<Status>)
    ensures r.Some? ==> StatusName(r.value) == s
    ensures r.None? <==> forall st: Status :: StatusName(st) != s
  {
    if s == "In Progress" then Some(InProgress)
    else if s == "Completed" then Some(Completed)
    else None
  }

  lemma {:induction false} ParseStatusName(st: Status)
    ensures ParseStatus(StatusName(st)) == Some(st)
  {
    match st
    case InProgress =>
    case Completed =>
  }

  /** A required, trimmed string path as it is stored after a successful
      save: non-empty, with no whitespace at either end. */
  predicate ValidName(name: string)
  {
    name != "" && !IsWhitespace(name[0]) && !IsWhitespace(name[|name| - 1])
  }

  /** A valid stored name is its own trim. */
  lemma ValidNameIsTrimmed(name: string)
    requires ValidName(name)
    ensures Trim(name) == name
  {
    TrimStartKeeps(name);
    TrimEndKeeps(name);
  }

  predicate ValidProject(p: Project)
  {
    ValidName(p.name) && 0 <= p.progress <= 100
  }

  predicate ValidTask(t: Task)
  {
    ValidName(t.name)
  }

  predicate ValidMember(m: TeamMember)
  {
    m.name != ""
  }

  /** `new Project({...}).save()`: an undefined status or progress takes its
      default; the name is trimmed; the save fails unless the trimmed name is
      non-empty, the status is one of the enum values and the progress lies
      in [0, 100]. */
  function NewProject(name: Option<string>, status: Option<string>, progress: Option<int>): (r: Result<Project>)
    ensures r.Ok? <==>
      && name.Some? && Trim(name.value) != ""
      && (status.None? || ParseStatus(status.value).Some?)
      && (progress.None? || 0 <= progress.value <= 100)
    ensures r.Err? ==> r.error == ValidationFailed
    ensures r.Ok? ==> ValidProject(r.value) && r.value.name == Trim(name.value)
    ensures r.Ok? ==> r.value.status == (if status.None? then InProgress else ParseStatus(status.value).value)
    ensures r.Ok? ==> r.value.progress == (if progress.None? then 0 else progress.value)
  {
    var st := if status.None? then Some(InProgress) else ParseStatus(status.value);
    var pr := if progress.None? then 0 else progress.value;
    if name.None? then Err(ValidationFailed)
    else
      var trimmed := Trim(name.value);
      if trimmed == "" || st.None? || !(0 <= pr <= 100) then Err(ValidationFailed)
      else Ok(Project(trimmed, st.value, pr))
  }

  /** `new Task({...}).save()`: isComplete defaults to false and assignedTo to
      null; the name is trimmed; the save fails unless the trimmed name is
      non-empty and a project id is given. */
  function NewTask(name: Option<string>, isComplete: Option<bool>, projectId: Option<Id>, assignedTo: Field<Id>): (r: Result<Task>)
    ensures r.Ok? <==> name.Some? && Trim(name.value) != "" && projectId.Some?
    ensures r.Err? ==> r.error == ValidationFailed
    ensures r.Ok? ==> ValidTask(r.value) && r.value.name == Trim(name.value)
    ensures r.Ok? ==> r.value.projectId == projectId.value
    ensures r.Ok? ==> r.value.isComplete == (isComplete.Some? && isComplete.value)
    ensures r.Ok? ==> (r.value.assignedTo.Some? <==> assignedTo.Given?)
    ensures r.Ok? && assignedTo.Given? ==> r.value.assignedTo.value == assignedTo.value
  {
    if name.None? || Trim(name.value) == "" || projectId.None? then
      Err(ValidationFailed)
    else
      var assignee := if assignedTo.Given? then Some(assignedTo.value) else None;
      var done := if isComplete.Some? then isComplete.value else false;
      Ok(Task(Trim(name.value), done, projectId.value, assignee))
  }

  /** Whatever is stored has a trimmed name: padding a saved name with
      whitespace and saving again yields the same name. */
  lemma {:induction false} StoredNameIsTrimmed(name: string, pad: string)
    requires forall k :: 0 <= k < |pad| ==> IsWhitespace(pad[k])
    requires NewTask(Some(name), None, Some(0), Absent).Ok?
    ensures NewTask(Some(pad + name + pad), None, Some(0), Absent).Ok?
    ensures NewTask(Some(pad + name + pad), None, Some(0), Absent).value.name
         == NewTask(Some(name), None, Some(0), Absent).value.name
  {
    TrimPadded(name, pad);
  }

  lemma {:induction false} TrimPadded(s: string, pad: string)
    requires forall k :: 0 <= k < |pad| ==> IsWhitespace(pad[k])
    ensures Trim(pad + s + pad) == Trim(s)
  {
    TrimStartPadded(s + pad, pad);
    assert pad + s + pad == pad + (s + pad);
    TrimEndPadded(TrimStart(s), pad);
    TrimStartAppend(s, pad);
  }

  lemma {:induction false} TrimStartPadded(s: string, pad: string)
    requires forall k :: 0 <= k < |pad| ==> IsWhitespace(pad[k])
    ensures TrimStart(pad + s) == TrimStart(s)
    decreases |pad|
  {
    if pad != [] {
      assert (pad + s)[1..] == pad[1..] + s;
      TrimStartPadded(s, pad[1..]);
    } else {
      assert pad + s == s;
    }
  }

  lemma {:induction false} TrimEndPadded(s: string, pad: string)
    requires forall k :: 0 <= k < |pad| ==> IsWhitespace(pad[k])
    ensures TrimEnd(s + pad) == TrimEnd(s)
    decreases |pad|
  {
    if pad != [] {
      assert (s + pad)[..|s + pad| - 1] == s + pad[..|pad| - 1];
      TrimEndPadded(s, pad[..|pad| - 1]);
    } else {
      assert s + pad == s;
    }
  }

  /** Trailing characters survive TrimStart unless everything before them
      was whitespace too. */
  lemma {:induction false} TrimStartAppend(s: string, pad: string)
    requires forall k :: 0 <= k < |pad| ==> IsWhitespace(pad[k])
    ensures TrimEnd(TrimStart(s + pad)) == TrimEnd(TrimStart(s))
    decreases |s|
  {
    if |s| > 0 && IsWhitespace(s[0]) {
      assert (s + pad)[1..] == s[1..] + pad;
      TrimStartAppend(s[1..], pad);
    } else if |s| > 0 {
      TrimEndPadded(s, pad);
    } else {
      assert s + pad == pad;
      assert TrimStart(pad) == [] by { TrimStartPadded([], pad); assert pad + [] == pad; }
    }
  }
}
